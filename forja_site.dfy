/** What the forja.ma scrapers read from the outside world, as input values: the anchors of a
    category listing, the item pages, and the answer to a redirect probe. Also the pieces the
    four forja.ma scrapers share: the item URLs of a listing, the proxy URL of a CUID, and the
    stream id a probe yields. */
module ForjaSite {
  import opened Php
  import opened Patterns

  /** A `div.episode-container`: the `src` of its first `img` and the text of its
      `span.episode-name`, each `None` when the element is missing. */
  datatype Container = Container(image: Option<string>, episodeName: Option<string>)

  /** A series item page: the `content` of `meta[data-hid="title"]` (`None` when the element
      is missing) and its episode containers in document order. */
  datatype SeriesPage = SeriesPage(title: Option<string>, containers: seq<Container>)

  /** A film item page. `info` holds one (key, value) pair per `div.info-datas`: its text, and
      the text of the first `a` or `span` in its next sibling, `None` when there is none. */
  datatype MoviePage = MoviePage(
    title: Option<string>,
    synopsis: Option<string>,
    info: seq<(string, Option<string>)>,
    verticalImage: Option<string>,
    posterImage: Option<string>)

  /** The site as the scrapers see it. `listing` gives the `href` of every anchor of a category
      page in document order, `seriesPage` and `moviePage` an item page, `probe` the raw
      response (headers included) to a request for a URL that does not follow redirects; each
      is `None` where the fetch fails. `decodeEntities` is `html_entity_decode` and `validUrl`
      is `filter_var(..., FILTER_VALIDATE_URL)`, both taken as given. */
  datatype Site = Site(
    listing: string -> Option<seq<string>>,
    seriesPage: string -> Option<SeriesPage>,
    moviePage: string -> Option<MoviePage>,
    probe: string -> Option<string>,
    decodeEntities: string -> string,
    validUrl: string -> bool)

  const Origin: string := "https://forja.ma"
  const ContentPrefix: string := "/content/"
  const ProxyPrefix: string := "https://api.forja.ma/pages/proxy/content/"
  const ProxySuffix: string := "/stream_url?lang=fr"

  /** The anchors the selector `a[href^="/content/"]` keeps. */
  predicate IsContentHref(href: string) {
    HasAt(href, 0, ContentPrefix)
  }

  /** The item URLs of a listing: `Origin + href + suffix` for every content anchor, in
      document order; none when the listing did not load. */
  function ItemUrls(anchors: Option<seq<string>>, suffix: string): (urls: seq<string>)
  {
    match anchors
    case None => []
    case Some(hrefs) => ContentUrls(hrefs, suffix)
  }

  function ContentUrls(hrefs: seq<string>, suffix: string): seq<string> {
    if hrefs == [] then []
    else
      var h := hrefs[|hrefs| - 1];
      ContentUrls(hrefs[..|hrefs| - 1], suffix) + (if IsContentHref(h) then [Origin + h + suffix] else [])
  }

  /** The content anchors of a listing, in document order. */
  function ContentHrefs(hrefs: seq<string>): (r: seq<string>)
    ensures forall h :: h in r <==> h in hrefs && IsContentHref(h)
  {
    if hrefs == [] then []
    else
      var h := hrefs[|hrefs| - 1];
      ContentHrefs(hrefs[..|hrefs| - 1]) + (if IsContentHref(h) then [h] else [])
  }

  /** One content href per content anchor: as many as there are. */
  lemma {:induction false} ContentHrefsCount(hrefs: seq<string>)
    ensures |ContentHrefs(hrefs)| == CountWhere(hrefs, IsContentHref)
  {
    if hrefs != [] {
      ContentHrefsCount(hrefs[..|hrefs| - 1]);
    }
  }

  /** A content anchor at position `k` of the listing comes after the content anchors before
      it: it is content href number `CountWhere(hrefs[..k], IsContentHref)`. So the content
      hrefs keep document order, duplicates included. */
  lemma {:induction false} ContentHrefsAt(hrefs: seq<string>, k: nat)
    requires k < |hrefs| && IsContentHref(hrefs[k])
    ensures var r, j := ContentHrefs(hrefs), CountWhere(hrefs[..k], IsContentHref);
      j < |r| && r[j] == hrefs[k]
  {
    var n := |hrefs| - 1;
    var init := hrefs[..n];
    ContentHrefsCount(init);
    if k < n {
      ContentHrefsAt(init, k);
      assert init[..k] == hrefs[..k] && init[k] == hrefs[k];
    } else {
      assert init == hrefs[..k];
    }
  }

  /** Each item URL is the origin, a content anchor and the suffix, one per content anchor and
      in the same order. */
  lemma {:induction false} ContentUrlsSpec(hrefs: seq<string>, suffix: string)
    ensures var urls, cs := ContentUrls(hrefs, suffix), ContentHrefs(hrefs);
      |urls| == |cs| && forall k :: 0 <= k < |urls| ==> urls[k] == Origin + cs[k] + suffix
  {
    if hrefs != [] {
      ContentUrlsSpec(hrefs[..|hrefs| - 1], suffix);
    }
  }

  /** `scrapeUrlsFromCategory`: the loop over the content anchors. */
  method ScrapeUrlsFromCategory(anchors: Option<seq<string>>, suffix: string) returns (urls: seq<string>)
    ensures urls == ItemUrls(anchors, suffix)
  {
    urls := [];
    if anchors.None? {
      return;
    }
    var hrefs := anchors.value;
    var i := 0;
    while i < |hrefs|
      invariant 0 <= i <= |hrefs|
      invariant urls == ContentUrls(hrefs[..i], suffix)
    {
      if IsContentHref(hrefs[i]) {
        urls := urls + [Origin + hrefs[i] + suffix];
      }
      assert hrefs[..i + 1][..i] == hrefs[..i];
      i := i + 1;
    }
    assert hrefs[..i] == hrefs;
  }

  /** The proxy URL whose redirect names the stream of a content item. */
  function ProxyUrl(cuid: string): string {
    ProxyPrefix + cuid + ProxySuffix
  }

  /** The stream id a probe of `ProxyUrl(cuid)` yields, as `getRedirectUrl` followed by
      `extractIdFromRedirectUrl` computes it. */
  function ProbedStreamId(probe: string -> Option<string>, cuid: string): Option<string> {
    var proxy := ProxyUrl(cuid);
    RedirectId(PickLocation(probe(proxy), proxy))
  }

  /** A response that carries no caseless `Location: ` header, a failed probe included. */
  ghost predicate NoLocation(response: Option<string>) {
    forall i :: !HasAtIgnoringCase(response.GetOr(""), i, LocationSpaced)
  }

  /** The first `/digits/` segment of a proxy URL is the CUID itself. */
  lemma ProxyUrlRedirectId(cuid: string)
    requires cuid != [] && AllDigits(cuid)
    ensures RedirectId(ProxyUrl(cuid)) == Some(cuid)
  {
    var u := ProxyUrl(cuid);
    var i, j := |ProxyPrefix| - 1, |ProxyPrefix| + |cuid|;
    assert forall k :: 0 <= k < |ProxyPrefix| ==> !IsDigit(ProxyPrefix[k]);
    assert forall k :: 0 <= k < |ProxyPrefix| ==> u[k] == ProxyPrefix[k];
    assert forall k :: 0 <= k < |cuid| ==> u[|ProxyPrefix| + k] == cuid[k];
    assert u[j] == '/';
    assert SlashDigitsMatch(u, i, j);
    forall i', j' | 0 <= i' < i
      ensures !SlashDigitsMatch(u, i', j')
    {
      assert !IsDigit(u[i' + 1]);
    }
    RedirectIdIsFirstSlashSegment(u, i, j);
    assert u[i + 1..j] == cuid;
  }

  /** When the probe answers without a `Location` header, or fails, the probed proxy URL comes
      back and the stream id is the CUID itself. */
  lemma NoLocationYieldsCuid(probe: string -> Option<string>, cuid: string)
    requires cuid != [] && AllDigits(cuid)
    requires NoLocation(probe(ProxyUrl(cuid)))
    ensures ProbedStreamId(probe, cuid) == Some(cuid)
  {
    PickLocationFallback(probe(ProxyUrl(cuid)), ProxyUrl(cuid));
    ProxyUrlRedirectId(cuid);
  }
}
