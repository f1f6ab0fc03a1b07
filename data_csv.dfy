/** `data-scraper.php`: appends one CSV row per episode of every item page of a category, with
    no check against what the file already holds. A row is written when the container's tile
    image gives a CUID and the redirect gives an id; numbering restarts at E01 on every page. */
module DataCsv {
  import opened Php
  import opened Patterns
  import opened ForjaSite
  import opened ForjaCsv

  const Header: Row := ["CUID", "Name", "Session", "Episode", "imageUrl", "Category", "streamUrl"]

  /** The id found in what `getRedirectUrl` returns for the proxy URL of `cuid`; this script's
      `Location` pick wants exactly one space after the colon. */
  function RedirectIdFor(site: Site, cuid: string): Option<string> {
    var proxy := ProxyUrl(cuid);
    RedirectId(PickLocation(site.probe(proxy), proxy))
  }

  /** A container is written: its CUID is truthy and so is the redirect id. */
  predicate Yields(c: Container, site: Site) {
    var cuid := ContainerCuid(c);
    Truthy(cuid) && Truthy(RedirectIdFor(site, cuid.value))
  }

  /** The row a written container gets as episode `n` of the page. */
  function ContainerRow(c: Container, name: string, category: string, site: Site, n: nat): Row {
    var cuid := ContainerCuid(c).GetOr("");
    EpisodeRow(cuid, name, n, c.image.GetOr(""), category, RedirectIdFor(site, cuid).GetOr(""))
  }

  /** The cells of a row in header order, the stream URL built from the redirect id. */
  function EpisodeRow(cuid: string, name: string, n: nat, image: string, category: string, id: string): (row: Row)
    ensures |row| == |Header| && row[0] == cuid && row[1] == name && row[2] == Session && row[3] == EpisodeLabel(n)
    ensures row[4] == image && row[5] == category && row[6] == StreamUrl(id)
  {
    [cuid, name, Session, EpisodeLabel(n), image, category, StreamUrl(id)]
  }

  /** What a container adds to its page: its row as episode `n` when it is written, else nothing. */
  function ContainerRows(c: Container, name: string, category: string, site: Site, n: nat): seq<Row> {
    if Yields(c, site) then [ContainerRow(c, name, category, site, n)] else []
  }

  /** The rows of one item page, numbered from E01 by the rows already written for the page. */
  function PageRows(cs: seq<Container>, name: string, category: string, site: Site): seq<Row> {
    if cs == [] then []
    else
      var prev := PageRows(cs[..|cs| - 1], name, category, site);
      var c := cs[|cs| - 1];
      prev + ContainerRows(c, name, category, site, |prev| + 1)
  }

  /** The rows of all item pages in URL order; a page that fails to load adds none. */
  function RunRows(urls: seq<string>, category: string, site: Site): seq<Row> {
    if urls == [] then []
    else
      var prev := RunRows(urls[..|urls| - 1], category, site);
      prev + match site.seriesPage(urls[|urls| - 1])
        case None => []
        case Some(page) => PageRows(page.containers, PageName(page), category, site)
  }

  /** `processCategory`: the CSV lines after one run. Without item URLs the file is left alone;
      otherwise the header goes in only when the file did not exist, and the rows follow. */
  function CsvAfterRun(file: Option<seq<Row>>, categoryUrl: string, category: string, site: Site): Option<seq<Row>> {
    var urls := ItemUrls(site.listing(categoryUrl), ItemSuffix);
    if urls == [] then file
    else Some(file.GetOr([]) + (if file.None? then [Header] else []) + RunRows(urls, category, site))
  }

  // ---------------------------------------------------------------- properties

  /** A row of a page: seven columns in header order, a truthy CUID, the page's name, S01, the
      label E01, E02, ... by its place among the page's rows, the category, and the stream URL
      built from an all-digit redirect id. */
  ghost predicate WellFormedRow(row: Row, k: nat, name: string, category: string) {
    && |row| == |Header|
    && Truthy(Some(row[0]))
    && row[1] == name && row[2] == Session && row[3] == EpisodeLabel(k + 1) && row[5] == category
    && exists id :: id != [] && AllDigits(id) && row[6] == StreamUrl(id)
  }

  ghost predicate RowsWellFormed(rows: seq<Row>, name: string, category: string) {
    forall k :: 0 <= k < |rows| ==> WellFormedRow(rows[k], k, name, category)
  }

  /** The CUIDs of the written containers of a page. */
  ghost function YieldedCuids(cs: seq<Container>, site: Site): set<string> {
    set j | 0 <= j < |cs| && Yields(cs[j], site) :: ContainerCuid(cs[j]).value
  }

  /** A written container adds its row, numbered after the page's earlier rows. */
  lemma PageRowsSnoc(cs: seq<Container>, c: Container, name: string, category: string, site: Site)
    ensures PageRows(cs + [c], name, category, site) == PageRows(cs, name, category, site) +
      ContainerRows(c, name, category, site, |PageRows(cs, name, category, site)| + 1)
  {
    SnocInit(cs, c);
  }
  /** The rows of the first `j + 1` containers: those of the first `j`, then what container `j` adds. */
  lemma PageRowsPrefixStep(cs: seq<Container>, j: nat, name: string, category: string, site: Site)
    requires j < |cs|
    ensures PageRows(cs[..j + 1], name, category, site) == PageRows(cs[..j], name, category, site) +
      ContainerRows(cs[j], name, category, site, |PageRows(cs[..j], name, category, site)| + 1)
  {
    assert cs[..j + 1][..j] == cs[..j];
  }


  /** A written container's row is well formed at any place on the page. */
  lemma ContainerRowWellFormed(c: Container, name: string, category: string, site: Site, k: nat)
    requires Yields(c, site)
    ensures WellFormedRow(ContainerRow(c, name, category, site, k + 1), k, name, category)
  {
    var id := RedirectIdFor(site, ContainerCuid(c).value).value;
    assert ContainerRow(c, name, category, site, k + 1)[6] == StreamUrl(id);
  }

  lemma {:induction false} PageRowsWellFormed(cs: seq<Container>, name: string, category: string, site: Site)
    ensures RowsWellFormed(PageRows(cs, name, category, site), name, category)
  {
    if cs != [] {
      var init, c := cs[..|cs| - 1], cs[|cs| - 1];
      assert cs == init + [c];
      var prev := PageRows(init, name, category, site);
      PageRowsWellFormed(init, name, category, site);
      PageRowsSnoc(init, c, name, category, site);
      if Yields(c, site) {
        ContainerRowWellFormed(c, name, category, site, |prev|);
        RowsWellFormedSnoc(prev, ContainerRow(c, name, category, site, |prev| + 1), name, category);
      }
    }
  }

  lemma RowsWellFormedSnoc(rows: seq<Row>, row: Row, name: string, category: string)
    requires RowsWellFormed(rows, name, category) && WellFormedRow(row, |rows|, name, category)
    ensures RowsWellFormed(rows + [row], name, category)
  {
    var all := rows + [row];
    forall k | 0 <= k < |all| ensures WellFormedRow(all[k], k, name, category) {
      if k < |rows| { assert all[k] == rows[k]; }
    }
  }

  lemma YieldedCuidsSnoc(init: seq<Container>, c: Container, site: Site)
    ensures YieldedCuids(init + [c], site) ==
      YieldedCuids(init, site) + (if Yields(c, site) then {ContainerCuid(c).value} else {})
  {
    var cs := init + [c];
    forall x | x in YieldedCuids(cs, site)
      ensures x in YieldedCuids(init, site) || (Yields(c, site) && x == ContainerCuid(c).value)
    {
      var j :| 0 <= j < |cs| && Yields(cs[j], site) && ContainerCuid(cs[j]).value == x;
      if j < |init| {
        assert cs[j] == init[j];
      } else {
        assert cs[j] == c;
      }
    }
    forall x | x in YieldedCuids(init, site) ensures x in YieldedCuids(cs, site) {
      var j :| 0 <= j < |init| && Yields(init[j], site) && ContainerCuid(init[j]).value == x;
      assert cs[j] == init[j];
    }
    if Yields(c, site) {
      assert cs[|init|] == c;
      assert ContainerCuid(c).value in YieldedCuids(cs, site);
    }
  }

  /** The CUID column of a page's rows is exactly the CUIDs of its written containers. */
  lemma {:induction false} PageRowsCuids(cs: seq<Container>, name: string, category: string, site: Site)
    ensures RowCuids(PageRows(cs, name, category, site)) == YieldedCuids(cs, site)
  {
    if cs != [] {
      var init, c := cs[..|cs| - 1], cs[|cs| - 1];
      assert cs == init + [c];
      var prev := PageRows(init, name, category, site);
      PageRowsCuids(init, name, category, site);
      YieldedCuidsSnoc(init, c, site);
      var tail := if Yields(c, site) then [ContainerRow(c, name, category, site, |prev| + 1)] else [];
      RowCuidsConcat(prev, tail);
      if Yields(c, site) {
        assert RowCuids(tail) == {ContainerCuid(c).value} by {
          assert FirstCell(tail[0]) == ContainerCuid(c).value;
        }
      }
    }
  }

  /** Every row of a page is well formed, and its CUID column is exactly the CUIDs of the
      written containers. */
  lemma PageRowsSpec(cs: seq<Container>, name: string, category: string, site: Site)
    ensures var rows := PageRows(cs, name, category, site);
      && RowsWellFormed(rows, name, category)
      && RowCuids(rows) == YieldedCuids(cs, site)
  {
    PageRowsWellFormed(cs, name, category, site);
    PageRowsCuids(cs, name, category, site);
  }

  /** Nothing in the file is consulted: a second run appends the same rows again, below those
      of the first, and the header is not repeated. */
  lemma SecondRunRepeatsRows(file: Option<seq<Row>>, categoryUrl: string, category: string, site: Site)
    requires ItemUrls(site.listing(categoryUrl), ItemSuffix) != []
    ensures var rows := RunRows(ItemUrls(site.listing(categoryUrl), ItemSuffix), category, site);
      var once := CsvAfterRun(file, categoryUrl, category, site);
      && once.Some?
      && once.value[|once.value| - |rows|..] == rows
      && CsvAfterRun(once, categoryUrl, category, site) == Some(once.value + rows)
  {
    var rows := RunRows(ItemUrls(site.listing(categoryUrl), ItemSuffix), category, site);
    var prefix := file.GetOr([]) + (if file.None? then [Header] else []);
    var once := CsvAfterRun(file, categoryUrl, category, site);
    assert once == Some(prefix + rows);
    ConcatSuffix(prefix, rows);
    ConcatNothing(once.value);
  }

  /** The header goes only into a file that did not exist: a file that exists but is empty gets
      the rows alone. */
  lemma EmptyFileGetsNoHeader(categoryUrl: string, category: string, site: Site)
    requires ItemUrls(site.listing(categoryUrl), ItemSuffix) != []
    ensures CsvAfterRun(Some([]), categoryUrl, category, site) == Some(RunRows(ItemUrls(site.listing(categoryUrl), ItemSuffix), category, site))
    ensures CsvAfterRun(None, categoryUrl, category, site) == Some([Header] + RunRows(ItemUrls(site.listing(categoryUrl), ItemSuffix), category, site))
  {
    var rows := RunRows(ItemUrls(site.listing(categoryUrl), ItemSuffix), category, site);
    assert CsvAfterRun(Some([]), categoryUrl, category, site) == Some([] + [] + rows);
    assert CsvAfterRun(None, categoryUrl, category, site) == Some([] + [Header] + rows);
    ConcatNothing<Row>([]);
    ConcatNothing(rows);
    ConcatNothing([Header]);
  }

  // ---------------------------------------------------------------- the loops

  /** The container loop of `processCategory` for one item page, with its episode counter. */
  method ScrapePage(page: SeriesPage, category: string, site: Site) returns (rows: seq<Row>)
    ensures rows == PageRows(page.containers, PageName(page), category, site)
  {
    var cs := page.containers;
    var name := if page.title.Some? then page.title.value else UnknownSeries;
    var episodeNumber := 1;
    rows := [];
    var j := 0;
    while j < |cs|
      invariant 0 <= j <= |cs|
      invariant rows == PageRows(cs[..j], name, category, site)
      invariant episodeNumber == |rows| + 1
    {
      var added := ScrapeContainer(cs[j], name, category, site, episodeNumber);
      PageRowsPrefixStep(cs, j, name, category, site);
      rows := rows + added;
      episodeNumber := episodeNumber + |added|;
      j := j + 1;
    }
    assert cs[..j] == cs;
  }

  /** The body of the container loop: the row of episode `episodeNumber` when the container is
      written. */
  method ScrapeContainer(c: Container, name: string, category: string, site: Site, episodeNumber: nat)
    returns (rows: seq<Row>)
    ensures rows == ContainerRows(c, name, category, site, episodeNumber)
  {
    rows := [];
    var imageUrl := if c.image.Some? then c.image.value else "";
    var cuid := TileImageId(imageUrl);
    if cuid.Some? && cuid.value != "" && cuid.value != "0" {
      var proxyUrl := ProxyUrl(cuid.value);
      var redirectUrl := PickLocation(site.probe(proxyUrl), proxyUrl);
      var redirectId := RedirectId(redirectUrl);
      if redirectId.Some? && redirectId.value != "" && redirectId.value != "0" {
        var streamUrl := StreamPrefix + redirectId.value;
        rows := [[cuid.value, name, Session, EpisodeLabel(episodeNumber), imageUrl, category, streamUrl]];
      }
    }
  }

  /** The rows of the first `i + 1` item pages: those of the first `i`, then page `i`'s rows, or
      none when it fails to load. */
  lemma RunRowsPrefixStep(urls: seq<string>, i: nat, category: string, site: Site)
    requires i < |urls|
    ensures RunRows(urls[..i + 1], category, site) == RunRows(urls[..i], category, site) +
      (if site.seriesPage(urls[i]).Some?
       then PageRows(site.seriesPage(urls[i]).value.containers, PageName(site.seriesPage(urls[i]).value), category, site)
       else [])
  {
    assert urls[..i + 1][..i] == urls[..i];
  }


  /** The page loop of `processCategory`: every item page that loads, in URL order. */
  method ScrapeItemPages(urls: seq<string>, category: string, site: Site) returns (rows: seq<Row>)
    ensures rows == RunRows(urls, category, site)
  {
    rows := [];
    var i := 0;
    while i < |urls|
      invariant 0 <= i <= |urls|
      invariant rows == RunRows(urls[..i], category, site)
    {
      RunRowsPrefixStep(urls, i, category, site);
      var page := site.seriesPage(urls[i]);
      if page.Some? {
        var pageRows := ScrapePage(page.value, category, site);
        rows := rows + pageRows;
      }
      i := i + 1;
    }
    assert urls[..i] == urls;
  }

  /** `processCategory`, with the CSV as a list of lines (`None` for a file that does not exist). */
  method ProcessCategory(file: Option<seq<Row>>, categoryUrl: string, category: string, site: Site)
    returns (after: Option<seq<Row>>)
    ensures after == CsvAfterRun(file, categoryUrl, category, site)
  {
    var urls := ScrapeUrlsFromCategory(site.listing(categoryUrl), ItemSuffix);
    if urls == [] {
      return file;
    }
    var isNewFile := file.None?;
    var lines := if file.Some? then file.value else [];
    if isNewFile {
      lines := lines + [Header];
    }
    assert lines == file.GetOr([]) + (if file.None? then [Header] else []);
    var rows := ScrapeItemPages(urls, category, site);
    after := Some(lines + rows);
  }
}
