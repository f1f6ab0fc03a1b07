# forja.ma and Asharq Now scrapers, modelled in Dafny

The repository holds five PHP scripts that build catalogues of video content:

- `sforjascraper.php` walks the series categories of forja.ma. It keeps a JSON catalogue per
  category, skips episodes whose CUID the catalogue already holds, numbers new episodes on from
  the catalogue's episode count, and merges them into the file.
- `scrape_series.php` and `data-scraper.php` scrape the same pages into CSV files. The first
  skips CUIDs already in the file; the second writes every episode it finds on every run.
- `movforjascraper.php` scrapes the film categories of forja.ma into a single JSON file.
- `asharq/nowasharq.php` reads the Asharq Now category API. It shapes shows (with their
  episodes) and movies, and merges them into two JSON files: shows by name and category,
  movies by CUID.

Every one of the forja.ma scripts probes a proxy URL for each item and reads the stream id from
the `Location` header of the answer.

The model keeps the decisions these scripts make and leaves the network and the HTML parser as
inputs. A `Site` value (module `ForjaSite`) stands for what the web answers:
- the anchors of a listing page;
- the parsed item pages;
- the raw response of each redirect probe;
- `html_entity_decode`;
- `filter_var(..., FILTER_VALIDATE_URL)`.

Files are values: the JSON file before a run is an argument, and the file after the run is the
result. Everything else the scripts compute is modelled. This includes:
- the regular expressions, as scanners proved to find the match PCRE reports;
- the PHP string functions the scripts call;
- PHP's ordered arrays;
- the skip, numbering and merge rules.

| file | module | models |
|---|---|---|
| `php.dfy` | `Php` | `strtolower`, `ucwords`, `trim`, `sprintf("E%02d")`, truthiness, integer-like array keys |
| `patterns.dfy` | `Patterns` | the `preg_match` patterns of all scripts, and the `Location` pick of `getRedirectUrl` |
| `ordered_map.dfy` | `OrderedMap` | a PHP array under `$m[$k] = $v`, and `array_values` |
| `forja_site.dfy` | `ForjaSite` | the web as an input, `scrapeUrlsFromCategory`, the proxy URL |
| `forja_series.dfy` | `ForjaSeries` | `sforjascraper.php`, with the run state as class `SeriesCatalogue` |
| `csv.dfy`, `series_csv.dfy` | `ForjaCsv`, `SeriesCsv` | `scrape_series.php` |
| `data_csv.dfy` | `DataCsv` | `data-scraper.php` |
| `forja_movies.dfy` | `ForjaMovies` | `movforjascraper.php` |
| `asharq.dfy` | `Asharq` | `asharq/nowasharq.php` |

Each loop of the scripts is a method whose `ensures` ties its result to a function. The
properties of that function are then proved as lemmas. The main results are:
- `ForjaSeries.SecondRunChangesNothing`: re-running `sforjascraper.php` on an unchanged site
  leaves the catalogue as it is, provided distinct pages carry distinct names.
  `ForjaSeries.SameTitleReplacesEpisodes` shows what goes wrong when two pages share a name.
- `SeriesCsv.SecondRunAddsNothing`: re-running `scrape_series.php` adds nothing to the CSV file.
- `DataCsv.SecondRunRepeatsRows`: re-running `data-scraper.php` appends every row again.
- `Asharq.ShowsRerunChangesNothing`: re-running the Asharq script leaves the shows file as it was.
- `Asharq.MoviesRerunDuplicates`: re-running the Asharq script appends the movies again.
- `ForjaMovies.InfoSpec`: what the info loop of a film page leaves.
- `ForjaMovies.ZeroCuidIsNotProbed`: a film whose CUID is `"0"` is never probed.
- The leftmost-match lemmas of `Patterns`.

Where the code and its comments disagree, the model follows the code:
- `capitalizeSlug("australias-open")` is `"Australias open"`, not the `"Australias Open"` that
  the comment above it announces. `ucwords` does not treat a hyphen as a word separator
  (`Asharq.CapitalizeTwoWordSlug`).
- In `sforjascraper.php`, a second item page with an already collected series name replaces the
  first page's episodes in `$newData`. The first page's episodes are lost for that run.
- The CUID-mode merge of `nowasharq.php` keys the loaded rows by position, so it does not
  deduplicate across runs.

## Model

| member | source | states |
|---|---|---|
| Php.StrToLower | sforjascraper.php:50 | `strtolower` keeps the length (what it does to each letter is stated by `TitleCaseIgnoresCase` and `Asharq.LowerKeeps`) |
| Php.UcWords | sforjascraper.php:50 | `ucwords` keeps the length |
| Php.TitleCase | sforjascraper.php:50 | `ucwords(strtolower(...))` keeps the length |
| Php.TitleCaseIgnoresCase | sforjascraper.php:48-52 | two names that differ only in ASCII letter case are cased to the same name |
| Php.TitleCaseIdempotent | sforjascraper.php:48-52 | casing an already cased name changes nothing |
| Php.TrimSpec | movforjascraper.php:51-52 | `trim` removes only the stripped characters, and only at both ends, and leaves neither end strippable |
| Php.Trim | movforjascraper.php:51-52 | `trim`: the text between the leading and the trailing run of stripped characters; `Php.TrimSpec` states what it removes |
| Php.Decimal | sforjascraper.php:143 | the decimal text of a number is a non-empty run of digits, with no leading zero from 10 on |
| Php.DecimalValueOf | sforjascraper.php:143 | the decimal text reads back as the number it was made from |
| Php.EpisodeLabel | sforjascraper.php:143 | `sprintf("E%02d", n)` starts with `E` and has at least three characters |
| Php.EpisodeLabelSpec | sforjascraper.php:143 | after the `E` come only digits, they read back as `n`, and the first is a padding zero exactly when `n < 10` |
| Php.DecimalInjective | sforjascraper.php:143 | distinct numbers have distinct decimal texts |
| Php.EpisodeLabelInjective | sforjascraper.php:143 | distinct episode numbers get distinct labels |
| Php.CountWhereAtMost | movforjascraper.php:100-102 | no more elements pass a test than there are elements |
| OrderedMap.Find | asharq/nowasharq.php:161 | the slot of the first entry with the key, or the length when the key is absent |
| OrderedMap.Put | asharq/nowasharq.php:161 | `$m[$k] = $v` replaces the value in place when `k` is present and keeps every other slot; otherwise it appends `(k, v)` |
| OrderedMap.PutAllSpec | asharq/nowasharq.php:158-161 | after a series of assignments to a map with distinct keys: old slots keep their keys and come first; every key appears once; a written key carries its last write; an unwritten key keeps its value; new keys follow in the order of their first writes |
| OrderedMap.PutAllKeys | asharq/nowasharq.php:158-161 | the keys after the assignments are the old keys, then the new ones, each once |
| OrderedMap.PutAllValues | asharq/nowasharq.php:158-161 | each written key holds its last write; each unwritten key keeps its old value |
| OrderedMap.PutAllOrder | asharq/nowasharq.php:158-161 | new keys come in the order of their first writes |
| OrderedMap.PutAllConcat | asharq/nowasharq.php:158-161 | assigning a concatenation is two rounds of assignments |
| OrderedMap.PutAllFresh | asharq/nowasharq.php:158-161 | writing keys that are all absent appends their deduplicated entries |
| OrderedMap.DistinctIsDeduped | asharq/nowasharq.php:184-186 | assigning entries with distinct keys to an empty array rebuilds them unchanged |
| OrderedMap.PutAllOverwrite | asharq/nowasharq.php:158-161 | when every written key is present, only values change, each key taking its last write |
| OrderedMap.Values | asharq/nowasharq.php:187 | `array_values` lists the values in slot order |
| OrderedMap.DedupAbsorbs | asharq/nowasharq.php:183-187 | deduplicating, appending entries, and deduplicating again equals deduplicating everything at once |
| OrderedMap.PutAllTwice | asharq/nowasharq.php:158-161 | writing the same entries a second time changes nothing |
| OrderedMap.DedupRepeatedTail | asharq/nowasharq.php:183-187 | appending entries that already ended the input changes nothing after deduplication |
| OrderedMap.KeyEach | asharq/nowasharq.php:158-161 | `$m[key($v)] = $v` for each value in order: one assignment per value, carrying that value, keyed by `key` of it |
| OrderedMap.KeyEachConcat | asharq/nowasharq.php:183-186 | keying a concatenation keys each part |
| OrderedMap.PutAllKeyedBy | asharq/nowasharq.php:184-186 | when every entry is keyed by its value's key, so is the array after the assignments |
| OrderedMap.LastValueSpec | asharq/nowasharq.php:158-161 | the last entry with a key carries that key's last value |
| OrderedMap.LastValueSlot | asharq/nowasharq.php:158-161 | returns the last slot with the key, and that slot holds the key's last value |
| OrderedMap.PutAllLength | asharq/nowasharq.php:158-161 | each assignment adds at most one slot |
| Patterns.FirstAnchor | sforjascraper.php:42-45 | the first offset at which a marker follows a digit; no earlier offset qualifies |
| Patterns.RunStart | sforjascraper.php:42-45 | the start of the maximal run of digits ending at an offset |
| Patterns.DigitsMarkerSpanIsLeftmostLongest | sforjascraper.php:42-45 | the scanner for `(\d+)_tile_image` finds the match PCRE reports: none iff no match exists; otherwise the leftmost start, with the longest digit group |
| Patterns.DigitsBeforeMarker | movforjascraper.php:23-26 | the digits group of `(\d+)(markers)`; `Patterns.DigitsMarkerSpanIsLeftmostLongest` and `Patterns.DigitsBeforeMarkerShape` state which digits it finds |
| Patterns.TileImageId | sforjascraper.php:42-45 | `/(\d+)_tile_image/` as `DigitsBeforeMarker` with the one marker `_tile_image` |
| Patterns.PosterImageId | movforjascraper.php:23-26 | `/(\d+)_(vertical\|poster)_image/` as `DigitsBeforeMarker` with the two markers |
| Patterns.MarkerNotDigit | movforjascraper.php:23-26 | where a marker starts there is no digit |
| Patterns.DigitsBeforeMarkerShape | movforjascraper.php:23-26 | the image id is a non-empty run of digits, not preceded by a digit and followed by a marker; it exists iff some marker follows a digit |
| Patterns.MarkersStartWithUnderscore | movforjascraper.php:24 | `_tile_image`, `_vertical_image` and `_poster_image` do not start with a digit |
| Patterns.RunEnd | sforjascraper.php:36-39 | the end of the maximal run of digits starting at an offset |
| Patterns.RunEndIsUnique | sforjascraper.php:36-39 | a maximal digit run from an offset ends at one place only |
| Patterns.SlashDigitsSpan | sforjascraper.php:36-39 | the returned span matches `\/(\d+)\/`, and no match starts earlier |
| Patterns.RedirectId | sforjascraper.php:36-39 | a redirect id is a non-empty run of digits |
| Patterns.RedirectIdIsFirstSlashSegment | sforjascraper.php:36-39 | the redirect id is the digits of the leftmost `/digits/` segment |
| Patterns.RedirectIdAbsent | sforjascraper.php:36-39 | there is no redirect id iff no `/digits/` segment exists |
| Patterns.SmilFrom | asharq/nowasharq.php:30 | a found `.smil` lies within the string, at or after the search start |
| Patterns.SmilFromSpec | asharq/nowasharq.php:30 | the found `.smil` is the first one after the start, with no line feed in between; without a result, every candidate is cut off by a line feed |
| Patterns.StreamSpan | asharq/nowasharq.php:30 | a match lies after the search start, and its group is non-empty and within the string |
| Patterns.StreamSpanSpec | asharq/nowasharq.php:30 | the span matches `bloomberg\/(.+?)\.smil`; no match starts between the search start and it; none from the same start has a shorter group |
| Patterns.ExtractStreamIdSpec | asharq/nowasharq.php:29-34 | `extractStreamId` is `''` iff the pattern matches nowhere; otherwise it is the non-empty single-line text between the leftmost `bloomberg/` that has a match and the nearest `.smil` after it |
| Patterns.ExtractStreamId | asharq/nowasharq.php:29-34 | `extractStreamId`: the lazy group after `bloomberg/` up to the first `.smil`, or `""`; `Patterns.ExtractStreamIdSpec` states it |
| Patterns.FirstCaseless | sforjascraper.php:29 | the first offset of a caseless occurrence; none earlier |
| Patterns.LineEnd | sforjascraper.php:29 | `.*` stops at the next line feed or at the end |
| Patterns.LineEndIsUnique | sforjascraper.php:29 | a line ends at one place only |
| Patterns.SpaceEnd | scrape_series.php:37 | `\s*` stops at the first non-space character |
| Patterns.SpaceEndIsUnique | scrape_series.php:37 | a run of white space ends at one place only |
| Patterns.PickLocationValue | sforjascraper.php:29-32 | with the first caseless `Location: ` at `i`, `getRedirectUrl` returns the rest of that line, trimmed |
| Patterns.PickLocationFallback | sforjascraper.php:29-32 | without a caseless `Location: `, or without a response, the probed URL comes back |
| Patterns.PickLocation | sforjascraper.php:29-32 | the trimmed rest of the first `Location: ` line (any case), else the probed URL; `Patterns.PickLocationValue` and `Patterns.PickLocationFallback` state both branches |
| Patterns.PickLocationSpacedValue | scrape_series.php:37-40 | `Location:\s*(.*)` skips all white space after the colon, line feeds included, and returns the trimmed rest of the line it reaches |
| Patterns.PickLocationSpacedFallback | scrape_series.php:37-40 | without a caseless `Location:`, the probed URL comes back |
| Patterns.PickLocationSpaced | scrape_series.php:37-40 | as `PickLocation`, with any white space after the colon; `Patterns.PickLocationSpacedValue` and `Patterns.PickLocationSpacedFallback` state both branches |
| ForjaSite.ContentHrefs | sforjascraper.php:13 | an href is kept iff it is on the page and starts with `/content/` |
| ForjaSite.ContentHrefsCount | sforjascraper.php:13 | as many content hrefs as there are content anchors |
| ForjaSite.ContentHrefsAt | sforjascraper.php:13 | the content anchor at position `k` is content href number "content anchors before `k`": document order, duplicates kept |
| ForjaSite.ContentUrlsSpec | sforjascraper.php:13-16 | one item URL per content anchor, in order, each the origin, the href and the suffix |
| ForjaSite.ScrapeUrlsFromCategory | sforjascraper.php:6-18 | the anchor loop returns exactly the item URLs, and none when the listing fails to load |
| ForjaSite.ItemUrls | sforjascraper.php:6-18 | `Origin + href + suffix` for every content href in document order, none when the listing did not load; `ForjaSite.ContentUrlsSpec` states it |
| ForjaSite.ProxyUrl | sforjascraper.php:130-132 | the proxy URL built around a CUID; `ForjaSite.ProxyUrlRedirectId` states that its `/digits/` segment is the CUID |
| ForjaSite.ProxyUrlRedirectId | sforjascraper.php:130-132 | the first `/digits/` segment of the proxy URL of an all-digit CUID is the CUID itself |
| ForjaSite.NoLocationYieldsCuid | sforjascraper.php:130-132 | a probe answered without `Location`, or failed, gives the CUID itself as the stream id |
| ForjaSite.ProbedStreamId | sforjascraper.php:130-137 | `getRedirectUrl` then `extractIdFromRedirectUrl` on the proxy URL; `ForjaSite.NoLocationYieldsCuid` states the no-redirect case |
| ForjaCsv.RowCuidsConcat | scrape_series.php:56-67 | the CUID column of two blocks of rows is the union of theirs |
| ForjaSeries.FormatSeriesNameIgnoresCase | sforjascraper.php:48-52 | titles that decode to the same text up to case name the same series |
| ForjaSeries.FormatSeriesNameCasingIdempotent | sforjascraper.php:48-52 | casing a formatted name again changes nothing |
| ForjaSeries.EpisodeCuidsSpec | sforjascraper.php:73-77 | a CUID is in an episode list's CUID set iff some episode carries it |
| ForjaSeries.EpisodeCuidsConcat | sforjascraper.php:166 | the CUIDs of concatenated episode lists are the union of their CUIDs |
| ForjaSeries.CuidsOfSpec | sforjascraper.php:72-77 | a CUID is in the seen set of a loaded catalogue iff some episode of some series carries it |
| ForjaSeries.PendingCuidsHas | sforjascraper.php:153-159 | every collected series' CUIDs are among the collected CUIDs |
| ForjaSeries.ContainerSkippedWithoutProbe | sforjascraper.php:117-127 | a container is skipped whatever the probe answers when it has an empty image URL, no truthy CUID, or an already seen CUID; otherwise only the probe of its proxy URL decides |
| ForjaSeries.ProbeCuid | sforjascraper.php:117-127 | the CUID a container is probed for, or none when it is skipped first; `ForjaSeries.ContainerSkippedWithoutProbe` states when |
| ForjaSeries.StepShape | sforjascraper.php:116-150 | a container turn either changes nothing, or appends one episode numbered with the counter, whose CUID was unseen and is then marked seen |
| ForjaSeries.Step | sforjascraper.php:116-150 | one turn of the container loop; `ForjaSeries.StepShape` states its two outcomes |
| ForjaSeries.ContainersRunNumbering | sforjascraper.php:140-149 | a page's episodes are labelled E(n), E(n+1), ... without gaps, and the counter advances once per episode |
| ForjaSeries.ContainersRunCuids | sforjascraper.php:123-149 | within a page each CUID is added at most once, none was seen before, and the seen set grows by exactly the added CUIDs |
| ForjaSeries.CuidNotAmong | sforjascraper.php:124 | a CUID outside a list's CUID set is carried by no episode of it |
| ForjaSeries.SilentMonotone | sforjascraper.php:124 | seeing more CUIDs keeps a page silent |
| ForjaSeries.SilentRun | sforjascraper.php:116-150 | a page on which no container passes leaves the loop variables as they were |
| ForjaSeries.ReplaySilent | sforjascraper.php:123-149 | once a page's CUIDs are seen, visiting it again adds nothing |
| ForjaSeries.FirstNamed | sforjascraper.php:109-114 | the slot of the first series with the name, or the length |
| ForjaSeries.NextEpisodeNumber | sforjascraper.php:106-114 | numbering starts one past the episode count of the first existing series with the page's name, or at 1 |
| ForjaSeries.PageNumbering | sforjascraper.php:106-159 | the episodes a page collects are numbered on from the first existing series of that name, and none of their CUIDs was seen before |
| ForjaSeries.SameTitleReplacesEpisodes | sforjascraper.php:153-159 | a second page with a collected name replaces the first page's episodes in `$newData`, while their CUIDs stay seen |
| ForjaSeries.MergeOne | sforjascraper.php:163-177 | episodes go to the end of the first series of that name; without one, or for an integer-like name, the series is appended |
| ForjaSeries.MergeAllSpec | sforjascraper.php:163-177 | the merge keeps every existing series and its episodes as an unchanged prefix, and adds exactly the collected episodes |
| ForjaSeries.MergeAll | sforjascraper.php:163-177 | the merge of the collected series into the catalogue, one after the other; `ForjaSeries.MergeAllSpec` states what it keeps and adds |
| ForjaSeries.CuidsOfExtended | sforjascraper.php:166 | appending episodes to a series adds their CUIDs to the catalogue's |
| ForjaSeries.SilentVisitAll | sforjascraper.php:93-160 | a page loop over silent pages changes nothing |
| ForjaSeries.NothingPassesKeepsCatalogue | sforjascraper.php:55-185 | when no container passes, the file is untouched or rewritten unchanged |
| ForjaSeries.NamedByVisitedGrows | sforjascraper.php:93-160 | visiting one more page keeps every name already found |
| ForjaSeries.VisitPageKeepsInvariant | sforjascraper.php:93-160 | a page visit keeps the run invariant: seen CUIDs are stored or collected, visited pages are silent, and collected names belong to visited pages |
| ForjaSeries.VisitPageRepeatedName | sforjascraper.php:93-160 | a page whose name was already collected (names being distinct) is silent and changes nothing |
| ForjaSeries.VisitPageNewName | sforjascraper.php:93-160 | a page with a new name adds its CUIDs to the seen set, and every visited page stays silent |
| ForjaSeries.VisitPage | sforjascraper.php:93-160 | one turn of the page loop; `ForjaSeries.VisitPageKeepsInvariant`, `ForjaSeries.VisitPageRepeatedName` and `ForjaSeries.VisitPageNewName` state what it keeps and changes |
| ForjaSeries.VisitAllInvariant | sforjascraper.php:93-160 | the page loop, started from the loaded CUIDs, ends in the run invariant |
| ForjaSeries.SecondRunChangesNothing | sforjascraper.php:55-185 | with distinct names per page, a second run on the same site saves the catalogue unchanged |
| ForjaSeries.CategoryRun | sforjascraper.php:55-185 | the file after a run; `ForjaSeries.NothingPassesKeepsCatalogue` and `ForjaSeries.SecondRunChangesNothing` state its fixed points |
| ForjaSeries.SeriesCatalogue.Load | sforjascraper.php:72-77 | the catalogue is the loaded one, and the seen set is exactly its CUIDs |
| ForjaSeries.SeriesCatalogue.NextNumber | sforjascraper.php:109-114 | returns the next episode number for a series name |
| ForjaSeries.SeriesCatalogue.TakeContainer | sforjascraper.php:116-150 | an episode is appended, the counter advanced and the CUID marked seen exactly when the container passes; otherwise nothing changes |
| ForjaSeries.SeriesCatalogue.ProcessPage | sforjascraper.php:94-159 | the new state is one page visit of the specification |
| ForjaSeries.SeriesCatalogue.MergePending | sforjascraper.php:163-177 | the catalogue becomes the merge of the collected series |
| ForjaSeries.ProcessCategory | sforjascraper.php:55-185 | the file after a run is `CategoryRun` of the file before it |
| SeriesCsv.GetExistingCuids | scrape_series.php:56-67 | a CUID is read iff it is the first cell of a line after the header; a missing file gives none |
| SeriesCsv.ExistingCuids | scrape_series.php:56-67 | the first cells after the header line; `SeriesCsv.GetExistingCuids` is proved against it |
| SeriesCsv.EpisodeRow | scrape_series.php:133-142 | the eight cells in header order, ending with the stream URL |
| SeriesCsv.ContainerRowWellFormed | scrape_series.php:113-144 | a written container's row is well formed at any place on the page |
| SeriesCsv.PageRowsWellFormed | scrape_series.php:110-150 | every row of a page is well formed: fresh truthy CUID, page name, S01, label by position from E01, category, validated stream URL |
| SeriesCsv.RowsWellFormedSnoc | scrape_series.php:133-144 | a well-formed row at the next position keeps the page's rows well formed |
| SeriesCsv.YieldedCuidsSnoc | scrape_series.php:113-150 | one more container adds its CUID to the written set exactly when it is written |
| SeriesCsv.PageRowsCuids | scrape_series.php:113-150 | the CUID column of a page is exactly the CUIDs of its written containers |
| SeriesCsv.PageRowsSpec | scrape_series.php:110-150 | a page's rows are well formed, and their CUIDs are exactly those of the written containers |
| SeriesCsv.PageRows | scrape_series.php:110-150 | the rows of one item page, numbered from E01; `SeriesCsv.PageRowsSpec` states their shape and CUIDs |
| SeriesCsv.FrozenSeenWritesTwice | scrape_series.php:83 | the known CUIDs are read once, so a container met twice on a page is written twice, under consecutive labels |
| SeriesCsv.PageRowsSnocTwice | scrape_series.php:113-150 | a written container appended twice adds two consecutively numbered rows |
| SeriesCsv.ContainerRowShape | scrape_series.php:133-142 | a row has eight columns, the CUID first and the label fourth |
| SeriesCsv.PageRowsSnoc | scrape_series.php:113-150 | a container adds its row, numbered after the earlier rows, when it is written |
| SeriesCsv.PageRowsPrefixStep | scrape_series.php:113-150 | one more container is one more step of the page's rows |
| SeriesCsv.SilentPageRows | scrape_series.php:113-150 | a page with no written container adds no rows |
| SeriesCsv.SilentRunRows | scrape_series.php:99-151 | a run over silent pages adds no rows |
| SeriesCsv.RunRowsCover | scrape_series.php:99-151 | every container written during a run has its CUID in the run's rows |
| SeriesCsv.YieldsMonotone | scrape_series.php:118 | knowing more CUIDs can only stop containers from being written |
| SeriesCsv.ExistingCuidsAfter | scrape_series.php:56-67 | the CUIDs read back after a run are the old ones and those of the new rows |
| SeriesCsv.SecondRunAddsNothing | scrape_series.php:70-155 | a second run on the same site leaves the file as the first run left it |
| SeriesCsv.CsvAfterRun | scrape_series.php:70-155 | the CSV lines after a run; `SeriesCsv.ExistingCuidsAfter` and `SeriesCsv.SecondRunAddsNothing` state what a run adds |
| SeriesCsv.ScrapePage | scrape_series.php:110-150 | the container loop returns exactly the page's rows |
| SeriesCsv.ScrapeContainer | scrape_series.php:114-144 | the loop body returns exactly the container's row, or none |
| SeriesCsv.ProcessCategory | scrape_series.php:70-155 | the lines after a run are `CsvAfterRun` of those before it |
| SeriesCsv.ScrapeItemPages | scrape_series.php:99-151 | the page loop returns exactly the rows of the loaded pages, in URL order |
| SeriesCsv.RunRowsPrefixStep | scrape_series.php:99-151 | one more URL adds that page's rows, or none when it fails to load |
| DataCsv.EpisodeRow | data-scraper.php:99-107 | the seven cells in header order, ending with the stream URL |
| DataCsv.PageRowsSnoc | data-scraper.php:86-112 | a written container adds its row, numbered after the earlier rows |
| DataCsv.PageRowsPrefixStep | data-scraper.php:86-112 | one more container is one more step of the page's rows |
| DataCsv.ContainerRowWellFormed | data-scraper.php:86-109 | a written container's row is well formed at any place on the page |
| DataCsv.PageRowsWellFormed | data-scraper.php:84-112 | every row of a page is well formed: truthy CUID, page name, S01, label by position from E01, category, stream URL from an all-digit id |
| DataCsv.RowsWellFormedSnoc | data-scraper.php:99-109 | a well-formed row at the next position keeps the rows well formed |
| DataCsv.YieldedCuidsSnoc | data-scraper.php:86-112 | one more container adds its CUID exactly when it is written |
| DataCsv.PageRowsCuids | data-scraper.php:86-112 | the CUID column of a page is exactly the CUIDs of its written containers |
| DataCsv.PageRowsSpec | data-scraper.php:84-112 | a page's rows are well formed, and their CUIDs are exactly those of the written containers |
| DataCsv.PageRows | data-scraper.php:84-112 | the rows of one item page, numbered from E01; `DataCsv.PageRowsSpec` states their shape and CUIDs |
| DataCsv.SecondRunRepeatsRows | data-scraper.php:53-117 | nothing in the file is consulted: a second run appends the same rows again, with no second header |
| DataCsv.CsvAfterRun | data-scraper.php:53-117 | the CSV lines after a run; `DataCsv.SecondRunRepeatsRows` and `DataCsv.EmptyFileGetsNoHeader` state what a run adds |
| DataCsv.EmptyFileGetsNoHeader | data-scraper.php:61-74 | a file that exists but is empty gets the rows without a header |
| DataCsv.ScrapePage | data-scraper.php:84-112 | the container loop returns exactly the page's rows |
| DataCsv.ScrapeContainer | data-scraper.php:87-109 | the loop body returns exactly the container's row, or none |
| DataCsv.RunRowsPrefixStep | data-scraper.php:76-113 | one more URL adds that page's rows, or none when it fails to load |
| DataCsv.ScrapeItemPages | data-scraper.php:76-113 | the page loop returns exactly the rows of the loaded pages, in URL order |
| DataCsv.ProcessCategory | data-scraper.php:53-117 | the lines after a run are `CsvAfterRun` of those before it |
| ForjaMovies.InfoPairs | movforjascraper.php:49-54 | one trimmed pair per info row |
| ForjaMovies.InfoPairTrimmed | movforjascraper.php:51-52 | the key and the value of a pair are trimmed |
| ForjaMovies.InfoKeys | movforjascraper.php:49-54 | the info object's keys are exactly the trimmed keys of the rows |
| ForjaMovies.InfoKey | movforjascraper.php:49-54 | each key of the info object comes from some row |
| ForjaMovies.InfoTrimmed | movforjascraper.php:49-54 | the keys and values of the info object are trimmed |
| ForjaMovies.InfoSpec | movforjascraper.php:49-54 | each key once, in first-row order; each carries the trimmed value of its last row (`N/A` where absent); the keys are exactly the rows' trimmed keys |
| ForjaMovies.Info | movforjascraper.php:49-54 | `$info` after the loop; `ForjaMovies.InfoSpec` states its keys and values |
| ForjaMovies.CollectInfo | movforjascraper.php:49-54 | the loop returns exactly the info object |
| ForjaMovies.FilmRecordSpec | movforjascraper.php:43-82 | a loaded page's record: title and synopsis defaults, the category, both images, the CUID of the vertical image, and a stream id that is `""` unless the CUID is truthy, else the probe's result |
| ForjaMovies.FilmRecordOf | movforjascraper.php:35-83 | the record of a loaded film page; `ForjaMovies.FilmRecordSpec` states every field |
| ForjaMovies.FilmCuidShape | movforjascraper.php:63 | a CUID is a non-empty digit run right before `_vertical_image` or `_poster_image` in the vertical image URL |
| ForjaMovies.ZeroCuidIsNotProbed | movforjascraper.php:66-71 | an image named `0_vertical_image` gives CUID `"0"`, which is not probed, so the stream id stays `""` |
| ForjaMovies.NoRedirectGivesCuid | movforjascraper.php:66-71 | with no `Location: ` in the answer, the stream id is the CUID itself |
| ForjaMovies.PosterDoesNotIdentify | movforjascraper.php:60-71 | pages that differ only in the poster image get the same CUID and stream id |
| ForjaMovies.ScrapedFilms | movforjascraper.php:97-102 | one scrape result per URL, in order |
| ForjaMovies.PresentSpec | movforjascraper.php:100-102 | `if ($x) $xs[] = $x` keeps one value per present entry, each from some entry, and entry `k` lands right after the values of the present entries before it |
| ForjaMovies.PresentCount | movforjascraper.php:100-102 | one value per present entry |
| ForjaMovies.PresentFrom | movforjascraper.php:100-102 | every value comes from a present entry |
| ForjaMovies.PresentAt | movforjascraper.php:100-102 | present entry `k` is value number "present entries before `k`" |
| ForjaMovies.FilmsOfSpec | movforjascraper.php:86-106 | one record per URL whose page loads and none for the others, each from some URL; the record of URL `k` comes right after those of the loaded pages before it |
| ForjaMovies.FilmsOf | movforjascraper.php:86-106 | the records of the loaded pages of a listing; `ForjaMovies.FilmsOfSpec` states count, origin and order |
| ForjaMovies.FilmsOfCategory | movforjascraper.php:86-106 | every film of a category carries that category |
| ForjaMovies.AllFilmsSpec | movforjascraper.php:115-123 | every film in the output carries one of the scraped categories |
| ForjaMovies.AllFilms | movforjascraper.php:115-123 | the records of all categories, one category after the other; `ForjaMovies.AllFilmsSpec` states their categories |
| ForjaMovies.ScrapeMovieData | movforjascraper.php:35-83 | returns exactly the scraped film, null when the page fails to load |
| ForjaMovies.ScrapeMoviesFromCategory | movforjascraper.php:86-106 | returns exactly the category's films, `[]` when the listing fails to load |
| ForjaMovies.ScrapeAll | movforjascraper.php:115-123 | returns exactly the concatenated films of all categories |
| Asharq.ReplaceHyphens | asharq/nowasharq.php:25 | `str_replace('-', ' ', ...)` keeps the length |
| Asharq.CapitalizeSlugSpec | asharq/nowasharq.php:24-26 | the slug keeps its length and loses its hyphens; every other character is upper-cased after lower-casing when it starts the slug or follows a word separator, and lower-cased otherwise, so the letter after a hyphen stays lower case |
| Asharq.CapitalizeSlugAt | asharq/nowasharq.php:24-26 | the casing rule at one non-hyphen position |
| Asharq.CapitalizeSlug | asharq/nowasharq.php:24-26 | `capitalizeSlug`; `Asharq.CapitalizeSlugSpec` states it |
| Asharq.HyphensBecomeSpaces | asharq/nowasharq.php:25 | every hyphen becomes a space |
| Asharq.HyphenStartsNoWord | asharq/nowasharq.php:25 | a character after a hyphen is lower-cased, not capitalised |
| Asharq.LowerKeeps | asharq/nowasharq.php:25 | `strtolower` leaves a string without upper-case letters unchanged |
| Asharq.UcWordsOneWord | asharq/nowasharq.php:25 | `ucwords` of one word capitalises only its first character |
| Asharq.TitleCaseOneWord | asharq/nowasharq.php:25 | a slug of lower-case letters and hyphens is cased as one word |
| Asharq.ReplaceOneHyphen | asharq/nowasharq.php:25 | `a-b` becomes `a b` |
| Asharq.CapitalizeTwoWordSlug | asharq/nowasharq.php:23-26 | `australias-open` gives `Australias open`: only the first word is capitalised |
| Asharq.TwoWordSlugLetters | asharq/nowasharq.php:25 | two lower-case words joined by a hyphen contain only letters and the hyphen |
| Asharq.CapitalizedJoin | asharq/nowasharq.php:25 | capitalising the joined slug capitalises the first word |
| Asharq.HighLink | asharq/nowasharq.php:60-67 | the link of the first source named `High`, and `""` when there is none |
| Asharq.PickHigh | asharq/nowasharq.php:60-67 | the `foreach ... break` loop returns exactly that link |
| Asharq.ProcessedIdsSpec | asharq/nowasharq.php:42-53 | the processed ids are exactly the ids of the show and episode items seen so far |
| Asharq.FirstOfIdLast | asharq/nowasharq.php:44 | the last item passes iff it is of a kept type and its id was not yet processed |
| Asharq.KeptSpec | asharq/nowasharq.php:42-53 | the kept items are those of the type that pass the id test, at increasing positions: one per id, first occurrence, encounter order |
| Asharq.KeptAt | asharq/nowasharq.php:42-53 | the kept items sit at the kept positions, which increase |
| Asharq.KeptPositionsExact | asharq/nowasharq.php:42-53 | a position is kept iff its item is of the type and passes the id test |
| Asharq.KeptDistinctIds | asharq/nowasharq.php:42-53 | no two kept items share an id |
| Asharq.EpisodeEntryAt | asharq/nowasharq.php:84-104 | entry `k` is category episode `k` as the episode numbered `first + k` |
| Asharq.ShowRecordsAt | asharq/nowasharq.php:57-107 | record `k` is the record of show `k` |
| Asharq.EpisodeEntriesSpec | asharq/nowasharq.php:84-104 | one entry per category episode, in order, each with its CUID and the next label |
| Asharq.ShowRecordMedia | asharq/nowasharq.php:69-100 | the slug is `capitalizeSlug` of the show's; E01 has the show's image and stream id; later entries have their own image, or the show's, and their own stream id |
| Asharq.ShowRecordSpec | asharq/nowasharq.php:57-107 | a record lists the show as E01, then every category episode labelled E02, E03, ... without gaps, all in S01 |
| Asharq.ShowEpisodesSpec | asharq/nowasharq.php:76-104 | the episode list is E01 for the show, then the category episodes |
| Asharq.ShowEpisodesCuids | asharq/nowasharq.php:76-104 | entry 0 has the show's id, and entry `k+1` has episode `k`'s id |
| Asharq.ShowEpisodesLabels | asharq/nowasharq.php:79-99 | entry `k` is in session S01 and labelled E(k+1) |
| Asharq.ShowDataSameLength | asharq/nowasharq.php:37-110 | every show of a category has one more episode than the category has kept episodes |
| Asharq.ShowData | asharq/nowasharq.php:37-110 | one record per kept show; `Asharq.ShowRecordSpec`, `Asharq.ShowRecordsAt` and `Asharq.ShowDataSameLength` state them |
| Asharq.ProcessShowData | asharq/nowasharq.php:37-110 | returns exactly the show records of the response |
| Asharq.ScanItems | asharq/nowasharq.php:42-53 | returns exactly the kept shows and the kept episodes |
| Asharq.ScanStep | asharq/nowasharq.php:44-51 | one more item is recorded, and kept under its type, iff it is of the kinds and its id is new |
| Asharq.BuildShowRecord | asharq/nowasharq.php:57-107 | returns exactly the show's record |
| Asharq.MovieDataSpec | asharq/nowasharq.php:113-145 | movie records carry distinct CUIDs, one per movie id of the response |
| Asharq.MovieData | asharq/nowasharq.php:113-145 | one record per kept movie; `Asharq.MovieDataSpec` states their CUIDs and categories |
| Asharq.MovieDataOrigins | asharq/nowasharq.php:130-138 | each record has the category and the id of a movie of the response |
| Asharq.KeptMovieOrigin | asharq/nowasharq.php:120 | a kept movie is a movie of the response |
| Asharq.KeptMovieCovers | asharq/nowasharq.php:120 | every movie id of the response is kept |
| Asharq.FirstMovie | asharq/nowasharq.php:120 | the first movie with a given id is the one that passes the id test |
| Asharq.ProcessMovieData | asharq/nowasharq.php:113-145 | returns exactly the movie records of the response |
| Asharq.Indexed | asharq/nowasharq.php:151 | a decoded JSON list holds row `i` under the integer key `i` |
| Asharq.MentionsInBatch | asharq/nowasharq.php:158-161 | a key is written iff some batch movie has that CUID |
| Asharq.LastValueIsLastOfCuid | asharq/nowasharq.php:158-161 | the last value written under a CUID is the last batch movie with that CUID |
| Asharq.AppendByCuidSpec | asharq/nowasharq.php:157-192 | a loaded row stays unless a batch movie's CUID equals its position, and then the last such movie replaces it; other batch movies follow, one per CUID, each the last with it |
| Asharq.AppendByCuid | asharq/nowasharq.php:157-161 | the CUID-mode merge of `appendToJson`; `Asharq.AppendByCuidSpec` states it |
| Asharq.AppendByCuidSlots | asharq/nowasharq.php:191 | the saved list is the values of the array, slot for slot |
| Asharq.AppendByCuidOld | asharq/nowasharq.php:157-161 | a loaded row is replaced by the last batch movie with its position as CUID, and otherwise kept |
| Asharq.AppendByCuidNew | asharq/nowasharq.php:157-161 | the appended rows are one per batch CUID that is not a position, each the last with it |
| Asharq.AppendByCuidCovers | asharq/nowasharq.php:157-161 | every batch CUID is in the saved list |
| Asharq.CuidOverwritesPosition | asharq/nowasharq.php:151-161 | a movie whose CUID is a position of the loaded list replaces the row there, whatever that row's CUID |
| Asharq.CuidModeRepeats | asharq/nowasharq.php:148-194 | when no CUID is a position, saving the same batch again appends it again |
| Asharq.AppendMovies | asharq/nowasharq.php:157-192 | returns exactly the CUID-mode merge |
| Asharq.FirstWithKey | asharq/nowasharq.php:164-171 | where the search stops: the first show with the key, or the end |
| Asharq.DedupShows | asharq/nowasharq.php:180-189 | the episode loop keeps the number of shows |
| Asharq.FirstWithKeyAppend | asharq/nowasharq.php:164-175 | appending a show keeps where every earlier key is found |
| Asharq.FirstWithKeySameKeys | asharq/nowasharq.php:164-171 | lists with the same keys position by position find keys at the same place |
| Asharq.BatchEpisodesAbsent | asharq/nowasharq.php:162-177 | a key no batch show carries gains no episodes |
| Asharq.AbsorbAllSpec | asharq/nowasharq.php:162-177 | old shows keep their place and fields, and the first of each key gains that key's batch episodes in batch order; new keys follow once each, in the order of their first batch show |
| Asharq.AbsorbKnownKeys | asharq/nowasharq.php:162-177 | when every batch key is already present, no show is appended and every show keeps its key at its place |
| Asharq.FirstCuidAt | asharq/nowasharq.php:183-186 | the position of the first episode with a CUID, or the length |
| Asharq.DedupEpisodesKeyed | asharq/nowasharq.php:183-187 | keying the deduplicated list again gives `$uniqueEpisodes` |
| Asharq.DedupEpisodesAbsorb | asharq/nowasharq.php:183-187 | deduplicating, appending and deduplicating again is deduplicating once |
| Asharq.DedupEpisodesTwice | asharq/nowasharq.php:183-187 | deduplicating twice is deduplicating once |
| Asharq.DedupEpisodesRepeat | asharq/nowasharq.php:183-187 | repeating episodes that already ended the list changes nothing after deduplication |
| Asharq.DedupEpisodesSpec | asharq/nowasharq.php:183-187 | no two episodes share a CUID; every CUID is kept; each kept episode is the last with its CUID; order of first occurrence |
| Asharq.DedupEpisodes | asharq/nowasharq.php:183-187 | `array_values` of the episodes keyed by CUID; `Asharq.DedupEpisodesSpec` states it |
| Asharq.DedupEpisodesSlots | asharq/nowasharq.php:183-187 | the slots of `$uniqueEpisodes` are the deduplicated episodes under their CUIDs: distinct keys, every CUID present, each the last episode with it, in first-occurrence order |
| Asharq.DedupEpisodesOrder | asharq/nowasharq.php:183-187 | kept episodes come in the order of their CUIDs' first occurrence |
| Asharq.DedupEpisodesCovers | asharq/nowasharq.php:183-187 | every episode's CUID is kept, and the lemma returns its slot |
| Asharq.DedupEpisodesLast | asharq/nowasharq.php:183-187 | each kept episode is the last with its CUID |
| Asharq.AbsorbedEpisodesAt | asharq/nowasharq.php:162-177 | each show holds its old episodes, then, for the first of its key, the key's batch episodes |
| Asharq.DedupShowsFirst | asharq/nowasharq.php:180-189 | deduplication keeps which show is the first of its key |
| Asharq.NameModeTwiceAt | asharq/nowasharq.php:162-189 | each show of a second merge, deduplicated, is the show the first merge saved |
| Asharq.NameModeIdempotent | asharq/nowasharq.php:148-194 | merging the same batch twice saves what merging it once saved |
| Asharq.AppendByName | asharq/nowasharq.php:162-189 | the name-mode merge of `appendToJson`; `Asharq.AbsorbAllSpec`, `Asharq.DedupEpisodesSpec` and `Asharq.NameModeIdempotent` state it |
| Asharq.AbsorbItem | asharq/nowasharq.php:163-176 | the search loop for one batch show returns exactly its absorption |
| Asharq.AbsorbOne | asharq/nowasharq.php:163-176 | one batch show absorbed; `Asharq.AbsorbItem` and `Asharq.AbsorbAllSpec` state it |
| Asharq.UniqueEpisodes | asharq/nowasharq.php:182-187 | the loop and `array_values` return exactly the deduplicated list |
| Asharq.AppendShows | asharq/nowasharq.php:157-192 | returns exactly the name-mode merge |
| Asharq.Run | asharq/nowasharq.php:211-239 | the files after a run are the saves of the accepted responses' shows and movies |
| Asharq.AllShowData | asharq/nowasharq.php:210-226 | the shows of the accepted responses, category by category; `Asharq.Run` is proved against it |
| Asharq.AllMovieData | asharq/nowasharq.php:210-226 | the movies of the accepted responses, category by category; `Asharq.Run` is proved against it |
| Asharq.SaveShows | asharq/nowasharq.php:228-232 | the shows file is rewritten only when there are shows; `Asharq.ShowsRerunChangesNothing` states a rerun |
| Asharq.SaveMovies | asharq/nowasharq.php:234-238 | the movies file is rewritten only when there are movies; `Asharq.MoviesRerunDuplicates` states a rerun |
| Asharq.ShowsRerunChangesNothing | asharq/nowasharq.php:211-239 | re-running on the same responses leaves the shows file as the first run saved it |
| Asharq.MoviesRerunDuplicates | asharq/nowasharq.php:211-239 | re-running appends the movies a second time when no CUID is a position |

## Left out

- `asharq/epgroya.php` is not part of this model.
- `getCategoryFromUrl` and `fetchJsonData`: the category name and the decoded response are inputs.
- The network (curl, `file_get_html`), the DOM and CSS selectors of simple_html_dom, and the
  JSON and CSV encodings are inputs or outputs, not modelled. The files are modelled as the
  decoded lists they hold, and each CSV line as its list of cells.
- `html_entity_decode` and `filter_var(..., FILTER_VALIDATE_URL)` are oracle functions in `Site`.
- `CURLOPT_TIMEOUT`, the echo messages, and the failure of `fopen` or `file_put_contents` are
  not modelled.
- PHP's stat cache and `filesize` are not modelled: an existing empty file is the empty list.
- The fatal error `movforjascraper.php` raises when an info label has no next sibling is not
  modelled. A missing value reads as `N/A`.
- Info keys that PHP turns into integers are kept as strings, and JSON list-versus-object
  encoding is not modelled.
- Malformed JSON shapes are not modelled: an item without `id`, `type` or `title` cannot occur.
- Asharq ids are integers. Loose `in_array` comparison on them is integer equality.
- Php.StrToLower: states only that the length is kept, because its effect on letters is stated
  by `Php.TitleCaseIgnoresCase` and `Asharq.LowerKeeps`.
- Php.UcWords: states only that the length is kept, because its effect is stated by
  `Php.TitleCaseIdempotent` and `Asharq.UcWordsOneWord`.
- Php.TitleCase: states only that the length is kept; its meaning is in `Php.TitleCaseIgnoresCase`.
- Php.StrToLower: casing is ASCII only, because PHP 8's `strtolower` does not touch other bytes.
- The top-level category loops of `scrape_series.php`, `data-scraper.php` and
  `sforjascraper.php` are not modelled. Each category has its own file, so each category is an
  independent call of `processCategory`.
