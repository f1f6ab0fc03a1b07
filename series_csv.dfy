/** `scrape_series.php`: appends one CSV row per new episode of every item page of a category.
    Which CUIDs count as known is read once from the CSV before the run and never updated,
    numbering restarts at E01 on every page, and a row is written only when the redirect gives
    an id and the stream URL built from it is valid. */
module SeriesCsv {
  import opened Php
  import opened Patterns
  import opened ForjaSite
  import opened ForjaCsv

  const Header: Row := ["CUID", "Name", "Session", "Episode", "EpisodeName", "imageUrl", "Category", "streamUrl"]

  /** `getExistingCuids`: the first cell of every line after the first (the header). A missing
      file (`None`) or an empty one gives no CUID. */
  function ExistingCuids(file: Option<seq<Row>>): set<string> {
    var lines := file.GetOr([]);
    set i | 1 <= i < |lines| :: FirstCell(lines[i])
  }

  /** `getExistingCuids`, reading the lines one by one. */
  method GetExistingCuids(file: Option<seq<Row>>) returns (cuids: set<string>)
    ensures cuids == ExistingCuids(file)
    ensures forall c :: c in cuids <==> exists i :: 1 <= i < |file.GetOr([])| && FirstCell(file.GetOr([])[i]) == c
  {
    cuids := {};
    if file.None? || file.value == [] {
      return;
    }
    var lines := file.value;
    var i := 1;
    while i < |lines|
      invariant 1 <= i <= |lines|
      invariant cuids == set j | 1 <= j < i :: FirstCell(lines[j])
    {
      cuids := cuids + {FirstCell(lines[i])};
      i := i + 1;
    }
  }

  // ---------------------------------------------------------------- one container

  /** The id that `extractIdFromRedirectUrl` finds in what `getRedirectUrl` returns for the
      proxy URL of `cuid`; this script's `Location` pick allows any white space after the colon. */
  function RedirectIdFor(site: Site, cuid: string): Option<string> {
    var proxy := ProxyUrl(cuid);
    RedirectId(PickLocationSpaced(site.probe(proxy), proxy))
  }

  /** A container is written: its CUID is truthy and not among the CUIDs read at the start, the
      redirect gives a truthy id, and the stream URL built from it validates. */
  predicate Yields(c: Container, seen: set<string>, site: Site) {
    var cuid := ContainerCuid(c);
    && Truthy(cuid) && cuid.value !in seen
    && Truthy(RedirectIdFor(site, cuid.value))
    && site.validUrl(StreamUrl(RedirectIdFor(site, cuid.value).value))
  }

  /** The row a written container gets as episode `n` of the page. */
  function ContainerRow(c: Container, name: string, category: string, site: Site, n: nat): Row {
    var cuid := ContainerCuid(c).GetOr("");
    EpisodeRow(cuid, name, n, c.episodeName.GetOr(""), c.image.GetOr(""), category, RedirectIdFor(site, cuid).GetOr(""))
  }

  /** The cells of a row in header order, the stream URL built from the redirect id. */
  function EpisodeRow(cuid: string, name: string, n: nat, episodeName: string, image: string, category: string, id: string): (row: Row)
    ensures |row| == |Header| && row[0] == cuid && row[1] == name && row[2] == Session && row[3] == EpisodeLabel(n)
    ensures row[4] == episodeName && row[5] == image && row[6] == category && row[7] == StreamUrl(id)
  {
    [cuid, name, Session, EpisodeLabel(n), episodeName, image, category, StreamUrl(id)]
  }

  /** What a container adds to its page: its row as episode `n` when it is written, else nothing. */
  function ContainerRows(c: Container, seen: set<string>, name: string, category: string, site: Site, n: nat): seq<Row> {
    if Yields(c, seen, site) then [ContainerRow(c, name, category, site, n)] else []
  }

  /** The rows of one item page: the written containers in document order, numbered from E01
      by the count of rows already written for the page. */
  function PageRows(cs: seq<Container>, seen: set<string>, name: string, category: string, site: Site): seq<Row> {
    if cs == [] then []
    else
      var prev := PageRows(cs[..|cs| - 1], seen, name, category, site);
      var c := cs[|cs| - 1];
      prev + ContainerRows(c, seen, name, category, site, |prev| + 1)
  }

  /** The rows of all item pages, in URL order; a page that fails to load adds none. */
  function RunRows(urls: seq<string>, seen: set<string>, category: string, site: Site): seq<Row> {
    if urls == [] then []
    else
      var prev := RunRows(urls[..|urls| - 1], seen, category, site);
      prev + match site.seriesPage(urls[|urls| - 1])
        case None => []
        case Some(page) => PageRows(page.containers, seen, PageName(page), category, site)
  }

  /** The header goes in when the file is missing or empty. */
  predicate NeedsHeader(file: Option<seq<Row>>) {
    file.None? || file.value == []
  }

  /** `processCategory`: the CSV lines after one run. Without item URLs the file is left alone;
      otherwise the header (for a missing or empty file) and the new rows are appended. */
  function CsvAfterRun(file: Option<seq<Row>>, categoryUrl: string, category: string, site: Site): Option<seq<Row>> {
    var urls := ItemUrls(site.listing(categoryUrl), ItemSuffix);
    if urls == [] then file
    else
      Some(file.GetOr([]) + (if NeedsHeader(file) then [Header] else []) + RunRows(urls, ExistingCuids(file), category, site))
  }

  // ---------------------------------------------------------------- properties

  /** A row of a page: eight columns in header order, a truthy CUID that was not known at the
      start, the page's name, S01, the episode label E01, E02, ... by its place among the page's
      rows, the category, and the stream URL built from an all-digit redirect id. */
  ghost predicate WellFormedRow(row: Row, k: nat, seen: set<string>, name: string, category: string) {
    && |row| == |Header|
    && Truthy(Some(row[0])) && row[0] !in seen
    && row[1] == name && row[2] == Session && row[3] == EpisodeLabel(k + 1) && row[6] == category
    && exists id :: id != [] && AllDigits(id) && row[7] == StreamUrl(id)
  }

  /** Every row of a page is well formed. */
  ghost predicate RowsWellFormed(rows: seq<Row>, seen: set<string>, name: string, category: string) {
    forall k :: 0 <= k < |rows| ==> WellFormedRow(rows[k], k, seen, name, category)
  }

  /** The CUIDs of the written containers of a page. */
  ghost function YieldedCuids(cs: seq<Container>, seen: set<string>, site: Site): set<string> {
    set j | 0 <= j < |cs| && Yields(cs[j], seen, site) :: ContainerCuid(cs[j]).value
  }

  /** A written container's row is well formed at any place on the page. */
  lemma ContainerRowWellFormed(c: Container, seen: set<string>, name: string, category: string, site: Site, k: nat)
    requires Yields(c, seen, site)
    ensures WellFormedRow(ContainerRow(c, name, category, site, k + 1), k, seen, name, category)
  {
    var id := RedirectIdFor(site, ContainerCuid(c).value).value;
    assert ContainerRow(c, name, category, site, k + 1)[7] == StreamUrl(id);
  }

  lemma {:induction false} PageRowsWellFormed(cs: seq<Container>, seen: set<string>, name: string, category: string, site: Site)
    ensures RowsWellFormed(PageRows(cs, seen, name, category, site), seen, name, category)
  {
    if cs != [] {
      var init, c := cs[..|cs| - 1], cs[|cs| - 1];
      assert cs == init + [c];
      var prev := PageRows(init, seen, name, category, site);
      PageRowsWellFormed(init, seen, name, category, site);
      PageRowsSnoc(init, c, seen, name, category, site);
      if Yields(c, seen, site) {
        ContainerRowWellFormed(c, seen, name, category, site, |prev|);
        RowsWellFormedSnoc(prev, ContainerRow(c, name, category, site, |prev| + 1), seen, name, category);
      }
    }
  }

  lemma RowsWellFormedSnoc(rows: seq<Row>, row: Row, seen: set<string>, name: string, category: string)
    requires RowsWellFormed(rows, seen, name, category) && WellFormedRow(row, |rows|, seen, name, category)
    ensures RowsWellFormed(rows + [row], seen, name, category)
  {
    var all := rows + [row];
    forall k | 0 <= k < |all| ensures WellFormedRow(all[k], k, seen, name, category) {
      if k < |rows| { assert all[k] == rows[k]; }
    }
  }

  lemma YieldedCuidsSnoc(init: seq<Container>, c: Container, seen: set<string>, site: Site)
    ensures YieldedCuids(init + [c], seen, site) ==
      YieldedCuids(init, seen, site) + (if Yields(c, seen, site) then {ContainerCuid(c).value} else {})
  {
    var cs := init + [c];
    forall x | x in YieldedCuids(cs, seen, site)
      ensures x in YieldedCuids(init, seen, site) || (Yields(c, seen, site) && x == ContainerCuid(c).value)
    {
      var j :| 0 <= j < |cs| && Yields(cs[j], seen, site) && ContainerCuid(cs[j]).value == x;
      if j < |init| {
        assert cs[j] == init[j];
      } else {
        assert cs[j] == c;
      }
    }
    forall x | x in YieldedCuids(init, seen, site) ensures x in YieldedCuids(cs, seen, site) {
      var j :| 0 <= j < |init| && Yields(init[j], seen, site) && ContainerCuid(init[j]).value == x;
      assert cs[j] == init[j];
    }
    if Yields(c, seen, site) {
      assert cs[|init|] == c;
      assert ContainerCuid(c).value in YieldedCuids(cs, seen, site);
    }
  }

  /** The CUID column of a page's rows is exactly the set of CUIDs of its written containers. */
  lemma {:induction false} PageRowsCuids(cs: seq<Container>, seen: set<string>, name: string, category: string, site: Site)
    ensures RowCuids(PageRows(cs, seen, name, category, site)) == YieldedCuids(cs, seen, site)
  {
    if cs != [] {
      var init, c := cs[..|cs| - 1], cs[|cs| - 1];
      assert cs == init + [c];
      var prev := PageRows(init, seen, name, category, site);
      PageRowsCuids(init, seen, name, category, site);
      YieldedCuidsSnoc(init, c, seen, site);
      var tail := if Yields(c, seen, site) then [ContainerRow(c, name, category, site, |prev| + 1)] else [];
      RowCuidsConcat(prev, tail);
      if Yields(c, seen, site) {
        assert RowCuids(tail) == {ContainerCuid(c).value} by {
          assert FirstCell(tail[0]) == ContainerCuid(c).value;
        }
      }
    }
  }

  /** Every row of a page is well formed, and its CUID column is exactly the CUIDs of the
      written containers. */
  lemma PageRowsSpec(cs: seq<Container>, seen: set<string>, name: string, category: string, site: Site)
    ensures var rows := PageRows(cs, seen, name, category, site);
      && RowsWellFormed(rows, seen, name, category)
      && RowCuids(rows) == YieldedCuids(cs, seen, site)
  {
    PageRowsWellFormed(cs, seen, name, category, site);
    PageRowsCuids(cs, seen, name, category, site);
  }

  /** The known CUIDs are frozen for the run: a written container met twice on a page is written
      twice, under consecutive episode labels. */
  lemma FrozenSeenWritesTwice(cs: seq<Container>, c: Container, seen: set<string>, name: string, category: string, site: Site)
    requires Yields(c, seen, site)
    ensures var n := |PageRows(cs, seen, name, category, site)|;
      var rows := PageRows(cs + [c] + [c], seen, name, category, site);
      && |rows| == n + 2 && |rows[n]| == |rows[n + 1]| == |Header|
      && rows[n][0] == rows[n + 1][0] == ContainerCuid(c).value
      && rows[n][3] == EpisodeLabel(n + 1) && rows[n + 1][3] == EpisodeLabel(n + 2)
  {
    var r0 := PageRows(cs, seen, name, category, site);
    var e1 := ContainerRow(c, name, category, site, |r0| + 1);
    var e2 := ContainerRow(c, name, category, site, |r0| + 2);
    PageRowsSnocTwice(cs, c, seen, name, category, site);
    ContainerRowShape(c, name, category, site, |r0| + 1);
    ContainerRowShape(c, name, category, site, |r0| + 2);
    TwoAppended(r0, e1, e2);
  }

  /** A written container appended twice adds two rows, numbered one after the other. */
  lemma PageRowsSnocTwice(cs: seq<Container>, c: Container, seen: set<string>, name: string, category: string, site: Site)
    requires Yields(c, seen, site)
    ensures var r0 := PageRows(cs, seen, name, category, site);
      PageRows(cs + [c] + [c], seen, name, category, site) ==
        r0 + [ContainerRow(c, name, category, site, |r0| + 1)] + [ContainerRow(c, name, category, site, |r0| + 2)]
  {
    var r0 := PageRows(cs, seen, name, category, site);
    var r1 := PageRows(cs + [c], seen, name, category, site);
    PageRowsSnoc(cs, c, seen, name, category, site);
    assert r1 == r0 + [ContainerRow(c, name, category, site, |r0| + 1)];
    PageRowsSnoc(cs + [c], c, seen, name, category, site);
    assert |r1| + 1 == |r0| + 2;
  }

  /** A row has the header's eight columns, the container's CUID first and its episode label fourth. */
  lemma ContainerRowShape(c: Container, name: string, category: string, site: Site, n: nat)
    ensures var row := ContainerRow(c, name, category, site, n);
      |row| == |Header| && row[0] == ContainerCuid(c).GetOr("") && row[3] == EpisodeLabel(n)
  {
  }

  /** A container adds its row, numbered after the page's earlier rows, when it is written. */
  lemma PageRowsSnoc(cs: seq<Container>, c: Container, seen: set<string>, name: string, category: string, site: Site)
    ensures PageRows(cs + [c], seen, name, category, site) == PageRows(cs, seen, name, category, site) +
      ContainerRows(c, seen, name, category, site, |PageRows(cs, seen, name, category, site)| + 1)
  {
    SnocInit(cs, c);
  }
  /** The rows of the first `j + 1` containers: those of the first `j`, then what container `j` adds. */
  lemma PageRowsPrefixStep(cs: seq<Container>, j: nat, seen: set<string>, name: string, category: string, site: Site)
    requires j < |cs|
    ensures PageRows(cs[..j + 1], seen, name, category, site) == PageRows(cs[..j], seen, name, category, site) +
      ContainerRows(cs[j], seen, name, category, site, |PageRows(cs[..j], seen, name, category, site)| + 1)
  {
    assert cs[..j + 1][..j] == cs[..j];
  }


  /** No container of the pages of `urls` is written. */
  ghost predicate Silent(urls: seq<string>, seen: set<string>, site: Site) {
    forall u, c :: u in urls && site.seriesPage(u).Some? && c in site.seriesPage(u).value.containers ==> !Yields(c, seen, site)
  }

  lemma {:induction false} SilentPageRows(cs: seq<Container>, seen: set<string>, name: string, category: string, site: Site)
    requires forall c :: c in cs ==> !Yields(c, seen, site)
    ensures PageRows(cs, seen, name, category, site) == []
  {
    if cs != [] {
      SilentPageRows(cs[..|cs| - 1], seen, name, category, site);
    }
  }

  lemma {:induction false} SilentRunRows(urls: seq<string>, seen: set<string>, category: string, site: Site)
    requires Silent(urls, seen, site)
    ensures RunRows(urls, seen, category, site) == []
  {
    if urls != [] {
      var u := urls[|urls| - 1];
      SilentRunRows(urls[..|urls| - 1], seen, category, site);
      if site.seriesPage(u).Some? {
        SilentPageRows(site.seriesPage(u).value.containers, seen, PageName(site.seriesPage(u).value), category, site);
      }
    }
  }

  /** Every container written during a run has its CUID in the run's rows. */
  lemma {:induction false} RunRowsCover(urls: seq<string>, seen: set<string>, category: string, site: Site)
    ensures forall u, c :: u in urls && site.seriesPage(u).Some? && c in site.seriesPage(u).value.containers && Yields(c, seen, site) ==>
      ContainerCuid(c).value in RowCuids(RunRows(urls, seen, category, site))
  {
    if urls != [] {
      var init, u := urls[..|urls| - 1], urls[|urls| - 1];
      var prev := RunRows(init, seen, category, site);
      var rows := RunRows(urls, seen, category, site);
      RunRowsCover(init, seen, category, site);
      if site.seriesPage(u).Some? {
        var page := site.seriesPage(u).value;
        var pr := PageRows(page.containers, seen, PageName(page), category, site);
        PageRowsCuids(page.containers, seen, PageName(page), category, site);
        assert rows == prev + pr;
        RowCuidsConcat(prev, pr);
        forall c | c in page.containers && Yields(c, seen, site) ensures ContainerCuid(c).value in RowCuids(pr) {
          var j :| 0 <= j < |page.containers| && page.containers[j] == c;
          assert ContainerCuid(page.containers[j]).value in YieldedCuids(page.containers, seen, site);
        }
      } else {
        assert rows == prev;
      }
    }
  }

  /** Adding known CUIDs can only stop containers from being written. */
  lemma YieldsMonotone(c: Container, s: set<string>, t: set<string>, site: Site)
    requires s <= t && Yields(c, t, site)
    ensures Yields(c, s, site)
  {
  }

  /** The CUIDs read back after a run: those known before and those of the new rows. */
  lemma ExistingCuidsAfter(file: Option<seq<Row>>, rows: seq<Row>)
    ensures var prefix := file.GetOr([]) + (if NeedsHeader(file) then [Header] else []);
      ExistingCuids(Some(prefix + rows)) == ExistingCuids(file) + RowCuids(rows)
  {
    var prefix := file.GetOr([]) + (if NeedsHeader(file) then [Header] else []);
    var lines := prefix + rows;
    var old_ := file.GetOr([]);
    forall x | x in ExistingCuids(file) ensures x in ExistingCuids(Some(lines)) {
      var i :| 1 <= i < |old_| && FirstCell(old_[i]) == x;
      assert lines[i] == old_[i];
    }
    forall x | x in RowCuids(rows) ensures x in ExistingCuids(Some(lines)) {
      var k :| 0 <= k < |rows| && FirstCell(rows[k]) == x;
      assert lines[|prefix| + k] == rows[k];
    }
    forall x | x in ExistingCuids(Some(lines)) ensures x in ExistingCuids(file) + RowCuids(rows) {
      var i :| 1 <= i < |lines| && FirstCell(lines[i]) == x;
      if i < |old_| {
        assert lines[i] == old_[i];
      } else {
        assert lines[i] == rows[i - |prefix|];
      }
    }
  }

  /** A second run over the same site writes nothing: every CUID the first run wrote is read
      back from the file, and everything else about a container is as before. */
  lemma SecondRunAddsNothing(file: Option<seq<Row>>, categoryUrl: string, category: string, site: Site)
    ensures var once := CsvAfterRun(file, categoryUrl, category, site);
      CsvAfterRun(once, categoryUrl, category, site) == once
  {
    var urls := ItemUrls(site.listing(categoryUrl), ItemSuffix);
    if urls != [] {
      var seen := ExistingCuids(file);
      var rows := RunRows(urls, seen, category, site);
      var prefix := file.GetOr([]) + (if NeedsHeader(file) then [Header] else []);
      var lines := prefix + rows;
      var once := CsvAfterRun(file, categoryUrl, category, site);
      assert once == Some(lines) && |prefix| >= 1;
      assert !NeedsHeader(once);
      var seen2 := ExistingCuids(once);
      ExistingCuidsAfter(file, rows);
      RunRowsCover(urls, seen, category, site);
      forall u, c | u in urls && site.seriesPage(u).Some? && c in site.seriesPage(u).value.containers
        ensures !Yields(c, seen2, site)
      {
        if Yields(c, seen2, site) {
          YieldsMonotone(c, seen, seen2, site);
        }
      }
      SilentRunRows(urls, seen2, category, site);
      ConcatNothing(lines);
    }
  }

  // ---------------------------------------------------------------- the loops

  /** The container loop of `processCategory` for one item page, with its episode counter. */
  method ScrapePage(page: SeriesPage, seen: set<string>, category: string, site: Site) returns (rows: seq<Row>)
    ensures rows == PageRows(page.containers, seen, PageName(page), category, site)
  {
    var cs := page.containers;
    var name := if page.title.Some? then page.title.value else UnknownSeries;
    var episodeNumber := 1;
    rows := [];
    var j := 0;
    while j < |cs|
      invariant 0 <= j <= |cs|
      invariant rows == PageRows(cs[..j], seen, name, category, site)
      invariant episodeNumber == |rows| + 1
    {
      var added := ScrapeContainer(cs[j], seen, name, category, site, episodeNumber);
      PageRowsPrefixStep(cs, j, seen, name, category, site);
      rows := rows + added;
      episodeNumber := episodeNumber + |added|;
      j := j + 1;
    }
    assert cs[..j] == cs;
  }

  /** The body of the container loop: the row of episode `episodeNumber` when the container is
      written. */
  method ScrapeContainer(c: Container, seen: set<string>, name: string, category: string, site: Site, episodeNumber: nat)
    returns (rows: seq<Row>)
    ensures rows == ContainerRows(c, seen, name, category, site, episodeNumber)
  {
    rows := [];
    var imageUrl := if c.image.Some? then c.image.value else "";
    var cuid := TileImageId(imageUrl);
    if cuid.Some? && cuid.value != "" && cuid.value != "0" && cuid.value !in seen {
      var proxyUrl := ProxyUrl(cuid.value);
      var redirectUrl := PickLocationSpaced(site.probe(proxyUrl), proxyUrl);
      var redirectId := RedirectId(redirectUrl);
      if redirectId.Some? && redirectId.value != "" && redirectId.value != "0" {
        var streamUrl := StreamPrefix + redirectId.value;
        if site.validUrl(streamUrl) {
          var episodeName := if c.episodeName.Some? then c.episodeName.value else "";
          rows := [[cuid.value, name, Session, EpisodeLabel(episodeNumber), episodeName, imageUrl, category, streamUrl]];
        }
      }
    }
  }

  /** `processCategory`, with the CSV as a list of lines. */
  method ProcessCategory(file: Option<seq<Row>>, categoryUrl: string, categoryName: string, site: Site)
    returns (after: Option<seq<Row>>)
    ensures after == CsvAfterRun(file, categoryUrl, categoryName, site)
  {
    var urls := ScrapeUrlsFromCategory(site.listing(categoryUrl), ItemSuffix);
    if urls == [] {
      return file;
    }
    var existingCuids := GetExistingCuids(file);
    var lines := if file.Some? then file.value else [];
    if NeedsHeader(file) {
      lines := lines + [Header];
    }
    assert lines == file.GetOr([]) + (if NeedsHeader(file) then [Header] else []);
    var rows := ScrapeItemPages(urls, existingCuids, categoryName, site);
    after := Some(lines + rows);
  }

  /** The page loop of `processCategory`: every item page that loads, in URL order. */
  method ScrapeItemPages(urls: seq<string>, seen: set<string>, categoryName: string, site: Site) returns (rows: seq<Row>)
    ensures rows == RunRows(urls, seen, categoryName, site)
  {
    rows := [];
    var i := 0;
    while i < |urls|
      invariant 0 <= i <= |urls|
      invariant rows == RunRows(urls[..i], seen, categoryName, site)
    {
      RunRowsPrefixStep(urls, i, seen, categoryName, site);
      var page := site.seriesPage(urls[i]);
      if page.Some? {
        var pageRows := ScrapePage(page.value, seen, categoryName, site);
        rows := rows + pageRows;
      }
      i := i + 1;
    }
    assert urls[..i] == urls;
  }

  /** The rows of the first `i + 1` item pages: those of the first `i`, then page `i`'s rows, or
      none when it fails to load. */
  lemma RunRowsPrefixStep(urls: seq<string>, i: nat, seen: set<string>, category: string, site: Site)
    requires i < |urls|
    ensures RunRows(urls[..i + 1], seen, category, site) == RunRows(urls[..i], seen, category, site) +
      (if site.seriesPage(urls[i]).Some?
       then PageRows(site.seriesPage(urls[i]).value.containers, seen, PageName(site.seriesPage(urls[i]).value), category, site)
       else [])
  {
    assert urls[..i + 1][..i] == urls[..i];
  }

}
