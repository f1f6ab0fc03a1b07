/** `movforjascraper.php`: one record per film page of every category listing, written as a
    whole to a fresh JSON file. The CUID comes from the vertical image only, and the stream id
    is asked for only when there is a truthy CUID. */
module ForjaMovies {
  import opened Php
  import opened Patterns
  import opened ForjaSite
  import OrderedMap

  const UnknownTitle: string := "Unknown Title"
  const NoSynopsis: string := "No synopsis available"
  const NoValue: string := "N/A"
  const MovieSuffix: string := "?play=false&lang=fr"

  /** The array `scrapeMovieData` returns. `cuid` is `None` where the regex finds nothing
      (JSON null); `streamId` is `Some("")` where no probe was made and `None` where the redirect
      gave no id. `info` keeps PHP's key order. */
  datatype FilmRecord = FilmRecord(
    cuid: Option<string>,
    title: string,
    category: string,
    synopsis: string,
    info: seq<(string, string)>,
    verticalImage: string,
    posterImage: string,
    streamId: Option<string>)

  // ---------------------------------------------------------------- info

  /** The (key, value) assignments of the info loop: both trimmed, a missing value read as
      `N/A`. */
  function InfoPair(row: (string, Option<string>)): (string, string) {
    (Trim(row.0), Trim(row.1.GetOr(NoValue)))
  }

  function InfoPairs(rows: seq<(string, Option<string>)>): (r: seq<(string, string)>)
    ensures |r| == |rows| && forall k :: 0 <= k < |rows| ==> r[k] == InfoPair(rows[k])
  {
    if rows == [] then [] else InfoPairs(rows[..|rows| - 1]) + [InfoPair(rows[|rows| - 1])]
  }

  /** `$info` after the loop: a later row with the same key overwrites the earlier value. */
  function Info(rows: seq<(string, Option<string>)>): seq<(string, string)> {
    OrderedMap.PutAll([], InfoPairs(rows))
  }

  /** Neither end of `s` is a character `trim` strips. */
  predicate TrimmedText(s: string) {
    s != [] ==> !IsTrimmed(s[0]) && !IsTrimmed(s[|s| - 1])
  }

  lemma InfoPairTrimmed(row: (string, Option<string>))
    ensures TrimmedText(InfoPair(row).0) && TrimmedText(InfoPair(row).1)
  {
    TrimSpec(row.0);
    TrimSpec(row.1.GetOr(NoValue));
  }

  /** The keys of the info object are exactly the trimmed keys of the rows. */
  lemma InfoKeys(rows: seq<(string, Option<string>)>)
    ensures forall k :: OrderedMap.Mentions(Info(rows), k) <==> exists j :: 0 <= j < |rows| && Trim(rows[j].0) == k
  {
    forall k ensures OrderedMap.Mentions(Info(rows), k) <==> exists j :: 0 <= j < |rows| && Trim(rows[j].0) == k {
      InfoKey(rows, k);
    }
  }

  lemma InfoKey(rows: seq<(string, Option<string>)>, k: string)
    ensures OrderedMap.Mentions(Info(rows), k) <==> exists j :: 0 <= j < |rows| && Trim(rows[j].0) == k
  {
    var kvs := InfoPairs(rows);
    OrderedMap.PutAllSpec([], kvs);
    assert OrderedMap.Mentions(Info(rows), k) <==> OrderedMap.Mentions(kvs, k);
    if OrderedMap.Mentions(kvs, k) {
      var j := OrderedMap.Find(kvs, k);
      assert Trim(rows[j].0) == k;
    }
    if exists j :: 0 <= j < |rows| && Trim(rows[j].0) == k {
      var j :| 0 <= j < |rows| && Trim(rows[j].0) == k;
      assert kvs[j].0 == k;
    }
  }

  /** Keys and values of the info object are trimmed. */
  lemma InfoTrimmed(rows: seq<(string, Option<string>)>)
    ensures var m := Info(rows);
      forall i :: 0 <= i < |m| ==> TrimmedText(m[i].0) && TrimmedText(m[i].1)
  {
    var m, kvs := Info(rows), InfoPairs(rows);
    OrderedMap.PutAllSpec([], kvs);
    forall i | 0 <= i < |m| ensures TrimmedText(m[i].0) && TrimmedText(m[i].1) {
      assert OrderedMap.Mentions(kvs, m[i].0);
      OrderedMap.LastValueSpec(kvs, m[i].0);
      var j :| 0 <= j < |kvs| && kvs[j] == (m[i].0, OrderedMap.LastValue(kvs, m[i].0))
        && forall j' :: j < j' < |kvs| ==> kvs[j'].0 != m[i].0;
      InfoPairTrimmed(rows[j]);
    }
  }

  /** The info object: every key once, in the order of its first row; each key comes from a
      row and carries the trimmed value of its last row (`N/A` where that row has none); the
      keys are exactly the trimmed keys of the rows; and keys and values are trimmed. */
  lemma InfoSpec(rows: seq<(string, Option<string>)>)
    ensures var m, kvs := Info(rows), InfoPairs(rows);
      && OrderedMap.DistinctKeys(m)
      && (forall i :: 0 <= i < |m| ==> OrderedMap.Mentions(kvs, m[i].0))
      && (forall i :: 0 <= i < |m| ==> m[i].1 == OrderedMap.LastValue(kvs, m[i].0))
      && (forall p, q :: 0 <= p < q < |m| ==> OrderedMap.Find(kvs, m[p].0) < OrderedMap.Find(kvs, m[q].0))
      && (forall k :: OrderedMap.Mentions(m, k) <==> exists j :: 0 <= j < |rows| && Trim(rows[j].0) == k)
      && (forall i :: 0 <= i < |m| ==> TrimmedText(m[i].0) && TrimmedText(m[i].1))
  {
    OrderedMap.PutAllSpec([], InfoPairs(rows));
    InfoKeys(rows);
    InfoTrimmed(rows);
  }

  /** The info loop, one `$info[$key] = $value` per row. */
  method CollectInfo(rows: seq<(string, Option<string>)>) returns (info: seq<(string, string)>)
    ensures info == Info(rows)
  {
    info := [];
    var i := 0;
    while i < |rows|
      invariant 0 <= i <= |rows|
      invariant info == OrderedMap.PutAll([], InfoPairs(rows[..i]))
    {
      assert InfoPairs(rows[..i + 1]) == InfoPairs(rows[..i]) + [InfoPair(rows[i])] by {
        assert rows[..i + 1][..i] == rows[..i];
      }
      var key := Trim(rows[i].0);
      var value := Trim(if rows[i].1.Some? then rows[i].1.value else NoValue);
      OrderedMap.PutAllConcat([], InfoPairs(rows[..i]), [(key, value)]);
      info := OrderedMap.Put(info, key, value);
      i := i + 1;
    }
    assert rows[..i] == rows;
  }

  // ---------------------------------------------------------------- one film

  /** The CUID: digits before `_vertical_image` or `_poster_image` in the vertical image's URL
      (a missing image reads as ""). The poster image is never consulted. */
  function FilmCuid(page: MoviePage): Option<string> {
    PosterImageId(page.verticalImage.GetOr(""))
  }

  /** `$streamID`: "" unless the CUID is truthy, otherwise the id of the redirect, possibly null. */
  function FilmStreamId(cuid: Option<string>, probe: string -> Option<string>): Option<string> {
    if Truthy(cuid) then ProbedStreamId(probe, cuid.value) else Some("")
  }

  /** The record of a loaded film page. */
  function FilmRecordOf(page: MoviePage, category: string, site: Site): FilmRecord {
    var cuid := FilmCuid(page);
    FilmRecord(cuid, page.title.GetOr(UnknownTitle), category, page.synopsis.GetOr(NoSynopsis), Info(page.info),
               page.verticalImage.GetOr(""), page.posterImage.GetOr(""), FilmStreamId(cuid, site.probe))
  }

  /** `scrapeMovieData`: `None` (PHP null) when the page fails to load. */
  function ScrapedFilm(url: string, category: string, site: Site): Option<FilmRecord> {
    match site.moviePage(url)
    case None => None
    case Some(page) => Some(FilmRecordOf(page, category, site))
  }

  /** What a loaded page's record holds: the defaults for a missing title and synopsis, the
      category as given, the two images (or ""), the CUID of the vertical image (whose shape
      `FilmCuidShape` gives), and a stream id that is "" unless the CUID is truthy and is
      otherwise what the probe of its proxy URL yields. */
  lemma FilmRecordSpec(page: MoviePage, category: string, site: Site)
    ensures var r := FilmRecordOf(page, category, site);
      && (page.title.None? ==> r.title == UnknownTitle)
      && (page.title.Some? ==> r.title == page.title.value)
      && (page.synopsis.None? ==> r.synopsis == NoSynopsis)
      && (page.synopsis.Some? ==> r.synopsis == page.synopsis.value)
      && r.category == category
      && r.verticalImage == page.verticalImage.GetOr("") && r.posterImage == page.posterImage.GetOr("")
      && r.cuid == FilmCuid(page)
      && (!Truthy(r.cuid) ==> r.streamId == Some(""))
      && (Truthy(r.cuid) ==> r.streamId == ProbedStreamId(site.probe, r.cuid.value))
  {
  }

  /** The CUID is a non-empty run of digits that stands right before `_vertical_image` or
      `_poster_image` in the vertical image URL. */
  lemma FilmCuidShape(page: MoviePage)
    ensures var c, v := FilmCuid(page), page.verticalImage.GetOr("");
      c.Some? ==>
        && c.value != [] && AllDigits(c.value)
        && exists i :: HasAt(v, i, c.value) && MarkerAt(v, i + |c.value|, PosterMarkers)
  {
    MarkersStartWithUnderscore();
    DigitsBeforeMarkerShape(page.verticalImage.GetOr(""), PosterMarkers);
  }

  /** A vertical image named `0_vertical_image` gives the CUID "0", which PHP reads as false:
      the film is not probed and its stream id stays "". */
  lemma ZeroCuidIsNotProbed(page: MoviePage, category: string, site: Site)
    requires FilmCuid(page) == Some("0")
    ensures FilmRecordOf(page, category, site).cuid == Some("0")
    ensures FilmRecordOf(page, category, site).streamId == Some("")
  {
  }

  /** A film whose CUID has no redirect behind it (no `Location: ` header in the answer, or no
      answer) gets its own CUID as stream id: the proxy URL's `/digits/` segment. */
  lemma NoRedirectGivesCuid(page: MoviePage, category: string, site: Site)
    requires FilmCuid(page).Some? && Truthy(FilmCuid(page))
    requires NoLocation(site.probe(ProxyUrl(FilmCuid(page).value)))
    ensures FilmRecordOf(page, category, site).streamId == FilmCuid(page)
  {
    MarkersStartWithUnderscore();
    DigitsBeforeMarkerShape(page.verticalImage.GetOr(""), PosterMarkers);
    NoLocationYieldsCuid(site.probe, FilmCuid(page).value);
  }

  /** The poster image plays no part in a film's identity: pages that differ only there give
      the same CUID and the same stream id. */
  lemma PosterDoesNotIdentify(page: MoviePage, poster: Option<string>, category: string, site: Site)
    ensures var a, b := FilmRecordOf(page, category, site), FilmRecordOf(page.(posterImage := poster), category, site);
      a.cuid == b.cuid && a.streamId == b.streamId && a == b.(posterImage := a.posterImage)
  {
  }

  // ---------------------------------------------------------------- a category

  /** `scrapeMovieData` for each URL, in order. */
  function ScrapedFilms(urls: seq<string>, category: string, site: Site): (r: seq<Option<FilmRecord>>)
    ensures |r| == |urls| && forall k :: 0 <= k < |urls| ==> r[k] == ScrapedFilm(urls[k], category, site)
  {
    if urls == [] then [] else ScrapedFilms(urls[..|urls| - 1], category, site) + [ScrapedFilm(urls[|urls| - 1], category, site)]
  }

  /** `if ($x) $xs[] = $x;` over a list: the values that are there, in order. */
  function Present<T>(xs: seq<Option<T>>): seq<T> {
    if xs == [] then []
    else
      var last := xs[|xs| - 1];
      Present(xs[..|xs| - 1]) + (if last.Some? then [last.value] else [])
  }

  /** What `Present` keeps: one value per entry that holds one, and nothing else; the value
      of entry `k` sits after the values of the entries before it, so their order is kept. */
  lemma PresentSpec<T>(xs: seq<Option<T>>)
    ensures var r := Present(xs);
      && |r| == CountWhere(xs, IsSome)
      && (forall x :: x in r ==> Some(x) in xs)
      && (forall k :: 0 <= k < |xs| && xs[k].Some? ==>
            CountWhere(xs[..k], IsSome) < |r| && r[CountWhere(xs[..k], IsSome)] == xs[k].value)
  {
    PresentCount(xs);
    PresentFrom(xs);
    forall k | 0 <= k < |xs| && xs[k].Some?
      ensures CountWhere(xs[..k], IsSome) < |Present(xs)| && Present(xs)[CountWhere(xs[..k], IsSome)] == xs[k].value
    {
      PresentAt(xs, k);
    }
  }

  lemma {:induction false} PresentCount<T>(xs: seq<Option<T>>)
    ensures |Present(xs)| == CountWhere(xs, IsSome)
  {
    if xs != [] {
      PresentCount(xs[..|xs| - 1]);
    }
  }

  lemma {:induction false} PresentFrom<T>(xs: seq<Option<T>>)
    ensures forall x :: x in Present(xs) ==> Some(x) in xs
  {
    if xs != [] {
      var init := xs[..|xs| - 1];
      PresentFrom(init);
      assert forall k :: 0 <= k < |init| ==> init[k] == xs[k];
      assert xs[|xs| - 1] in xs;
    }
  }

  lemma {:induction false} PresentAt<T>(xs: seq<Option<T>>, k: nat)
    requires k < |xs| && xs[k].Some?
    ensures var r, j := Present(xs), CountWhere(xs[..k], IsSome); j < |r| && r[j] == xs[k].value
  {
    var n := |xs| - 1;
    var init := xs[..n];
    PresentCount(init);
    if k < n {
      PresentAt(init, k);
      assert init[..k] == xs[..k] && init[k] == xs[k];
    } else {
      assert init == xs[..k];
    }
  }

  /** The records of the loaded film pages of a listing, in anchor order. */
  function FilmsOf(urls: seq<string>, category: string, site: Site): seq<FilmRecord> {
    Present(ScrapedFilms(urls, category, site))
  }

  /** `scrapeMoviesFromCategory`: [] when the listing does not load. */
  function CategoryFilms(categoryUrl: string, category: string, site: Site): seq<FilmRecord> {
    FilmsOf(ItemUrls(site.listing(categoryUrl), MovieSuffix), category, site)
  }

  /** One record per URL whose page loads, and none for the others: the record of URL `k`, when
      its page loads, comes right after those of the loaded pages before it. */
  lemma FilmsOfSpec(urls: seq<string>, category: string, site: Site)
    ensures var r, xs := FilmsOf(urls, category, site), ScrapedFilms(urls, category, site);
      && |r| == CountWhere(xs, IsSome) <= |urls|
      && (forall f :: f in r ==> exists k :: 0 <= k < |urls| && ScrapedFilm(urls[k], category, site) == Some(f))
      && (forall k :: 0 <= k < |urls| && site.moviePage(urls[k]).Some? ==>
            var j := CountWhere(ScrapedFilms(urls[..k], category, site), IsSome);
            j < |r| && Some(r[j]) == ScrapedFilm(urls[k], category, site))
  {
    var xs := ScrapedFilms(urls, category, site);
    PresentSpec(xs);
    CountWhereAtMost(xs, IsSome);
    forall f | f in FilmsOf(urls, category, site) ensures exists k :: 0 <= k < |urls| && ScrapedFilm(urls[k], category, site) == Some(f) {
      var k :| 0 <= k < |xs| && xs[k] == Some(f);
    }
    forall k | 0 <= k < |urls| && site.moviePage(urls[k]).Some?
      ensures CountWhere(xs[..k], IsSome) == CountWhere(ScrapedFilms(urls[..k], category, site), IsSome)
    {
      assert xs[..k] == ScrapedFilms(urls[..k], category, site);
    }
  }

  /** Every film of a category carries that category. */
  lemma FilmsOfCategory(urls: seq<string>, category: string, site: Site)
    ensures forall f :: f in FilmsOf(urls, category, site) ==> f.category == category
  {
    var xs := ScrapedFilms(urls, category, site);
    PresentSpec(xs);
    forall f | f in FilmsOf(urls, category, site) ensures f.category == category {
      var k :| 0 <= k < |xs| && xs[k] == Some(f);
    }
  }

  /** The output file: the records of all categories, one category after the other; whatever
      the file held before is replaced. */
  function AllFilms(categories: seq<(string, string)>, site: Site): seq<FilmRecord> {
    if categories == [] then []
    else
      var (name, url) := categories[|categories| - 1];
      AllFilms(categories[..|categories| - 1], site) + CategoryFilms(url, name, site)
  }

  /** Every film in the output carries one of the categories it was scraped for. */
  lemma {:induction false} AllFilmsSpec(categories: seq<(string, string)>, site: Site)
    ensures forall f :: f in AllFilms(categories, site) ==> exists c :: c in categories && f.category == c.0
  {
    if categories != [] {
      var init, last := categories[..|categories| - 1], categories[|categories| - 1];
      AllFilmsSpec(init, site);
      FilmsOfCategory(ItemUrls(site.listing(last.1), MovieSuffix), last.0, site);
      forall f | f in AllFilms(categories, site) ensures exists c :: c in categories && f.category == c.0 {
        if f in AllFilms(init, site) {
          var c :| c in init && f.category == c.0;
          assert c in categories;
        } else {
          assert last in categories;
        }
      }
    }
  }

  // ---------------------------------------------------------------- the loops

  /** `scrapeMovieData`. */
  method ScrapeMovieData(url: string, category: string, site: Site) returns (film: Option<FilmRecord>)
    ensures film == ScrapedFilm(url, category, site)
  {
    var page := site.moviePage(url);
    if page.None? {
      return None;
    }
    var p := page.value;
    var title := if p.title.Some? then p.title.value else UnknownTitle;
    var synopsis := if p.synopsis.Some? then p.synopsis.value else NoSynopsis;
    var info := CollectInfo(p.info);
    var verticalImage := if p.verticalImage.Some? then p.verticalImage.value else "";
    var posterImage := if p.posterImage.Some? then p.posterImage.value else "";
    var cuid := PosterImageId(verticalImage);
    var streamId: Option<string> := Some("");
    if cuid.Some? && cuid.value != "" && cuid.value != "0" {
      var proxyUrl := ProxyUrl(cuid.value);
      var redirectUrl := PickLocation(site.probe(proxyUrl), proxyUrl);
      streamId := RedirectId(redirectUrl);
    }
    film := Some(FilmRecord(cuid, title, category, synopsis, info, verticalImage, posterImage, streamId));
  }

  /** `scrapeMoviesFromCategory`. */
  method ScrapeMoviesFromCategory(categoryUrl: string, category: string, site: Site) returns (movies: seq<FilmRecord>)
    ensures movies == CategoryFilms(categoryUrl, category, site)
  {
    var urls := ScrapeUrlsFromCategory(site.listing(categoryUrl), MovieSuffix);
    movies := [];
    var i := 0;
    while i < |urls|
      invariant 0 <= i <= |urls|
      invariant movies == FilmsOf(urls[..i], category, site)
    {
      assert urls[..i + 1][..i] == urls[..i];
      assert ScrapedFilms(urls[..i + 1], category, site)[..i] == ScrapedFilms(urls[..i], category, site);
      var film := ScrapeMovieData(urls[i], category, site);
      if film.Some? {
        movies := movies + [film.value];
      }
      i := i + 1;
    }
    assert urls[..i] == urls;
  }

  /** The top level: the categories in order, `array_merge`d. */
  method ScrapeAll(categories: seq<(string, string)>, site: Site) returns (allMovies: seq<FilmRecord>)
    ensures allMovies == AllFilms(categories, site)
  {
    allMovies := [];
    var i := 0;
    while i < |categories|
      invariant 0 <= i <= |categories|
      invariant allMovies == AllFilms(categories[..i], site)
    {
      assert categories[..i + 1][..i] == categories[..i];
      var movies := ScrapeMoviesFromCategory(categories[i].1, categories[i].0, site);
      allMovies := allMovies + movies;
      i := i + 1;
    }
    assert categories[..i] == categories;
  }
}
