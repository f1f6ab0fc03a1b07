/** `sforjascraper.php`: the JSON catalogue of forja.ma series that each category run extends
    in place. A run loads the catalogue, marks every CUID in it as seen, walks the category's
    item pages, numbers the episodes of each page on from the existing same-named series,
    collects them per series name, and appends them into the catalogue before writing it back. */
module ForjaSeries {
  import opened Php
  import opened Patterns
  import opened ForjaSite
  import OrderedMap

  /** One entry of a series' `Episodes` list. */
  datatype Episode = Episode(cuid: string, session: string, episode: string, imageUrl: string, streamId: string)

  /** One entry of the catalogue. */
  datatype Series = Series(name: string, category: string, episodes: seq<Episode>)

  /** The category's JSON file before a run: missing, present but unreadable, present but not
      valid JSON, or a decoded catalogue. */
  datatype StoredFile = Absent | Unreadable | Corrupt | Json(catalogue: seq<Series>)

  const UnknownSeries: string := "UnknownSeries"
  const Session: string := "S01"
  const ItemSuffix: string := "?lang=fr"

  // ---------------------------------------------------------------- names

  /** `formatSeriesName`: decode the HTML entities, then `ucwords(strtolower(...))`. */
  function FormatSeriesName(decode: string -> string, name: string): string {
    TitleCase(decode(name))
  }

  /** Titles that decode to the same text up to letter case name the same series. */
  lemma FormatSeriesNameIgnoresCase(decode: string -> string, a: string, b: string)
    requires SameIgnoringCase(decode(a), decode(b))
    ensures FormatSeriesName(decode, a) == FormatSeriesName(decode, b)
  {
    TitleCaseIgnoresCase(decode(a), decode(b));
  }

  /** Casing a formatted name again leaves it as it is. */
  lemma FormatSeriesNameCasingIdempotent(decode: string -> string, name: string)
    ensures TitleCase(FormatSeriesName(decode, name)) == FormatSeriesName(decode, name)
  {
    TitleCaseIdempotent(decode(name));
  }

  /** The series name of an item page; a page without a title meta is `UnknownSeries`. */
  function PageSeriesName(decode: string -> string, page: SeriesPage): string {
    FormatSeriesName(decode, page.title.GetOr(UnknownSeries))
  }

  // ---------------------------------------------------------------- CUIDs

  function EpisodeCuids(eps: seq<Episode>): set<string> {
    if eps == [] then {} else EpisodeCuids(eps[..|eps| - 1]) + {eps[|eps| - 1].cuid}
  }

  lemma {:induction false} EpisodeCuidsSpec(eps: seq<Episode>)
    ensures forall c :: c in EpisodeCuids(eps) <==> exists k :: 0 <= k < |eps| && eps[k].cuid == c
  {
    if eps != [] {
      var init := eps[..|eps| - 1];
      EpisodeCuidsSpec(init);
      forall c | c in EpisodeCuids(init)
        ensures exists k :: 0 <= k < |eps| && eps[k].cuid == c
      {
        var k :| 0 <= k < |init| && init[k].cuid == c;
        assert eps[k] == init[k];
      }
      forall k | 0 <= k < |eps|
        ensures eps[k].cuid in EpisodeCuids(eps)
      {
        if k < |init| {
          assert eps[k] == init[k];
        }
      }
    }
  }

  lemma {:induction false} EpisodeCuidsConcat(a: seq<Episode>, b: seq<Episode>)
    ensures EpisodeCuids(a + b) == EpisodeCuids(a) + EpisodeCuids(b)
    decreases |b|
  {
    if b == [] {
      assert a + b == a;
    } else {
      assert (a + b)[..|a + b| - 1] == a + b[..|b| - 1];
      EpisodeCuidsConcat(a, b[..|b| - 1]);
    }
  }

  /** No two episodes share a CUID. */
  predicate DistinctCuids(eps: seq<Episode>) {
    forall i, j :: 0 <= i < j < |eps| ==> eps[i].cuid != eps[j].cuid
  }

  /** The CUIDs of every episode of every series, as the load loop collects them. */
  function CuidsOf(cat: seq<Series>): set<string> {
    if cat == [] then {} else CuidsOf(cat[..|cat| - 1]) + EpisodeCuids(cat[|cat| - 1].episodes)
  }

  /** A CUID is in the seen set of a loaded catalogue exactly when some episode of some series
      carries it. */
  lemma {:induction false} CuidsOfSpec(cat: seq<Series>)
    ensures forall c :: c in CuidsOf(cat) <==>
      exists i, k :: 0 <= i < |cat| && 0 <= k < |cat[i].episodes| && cat[i].episodes[k].cuid == c
  {
    if cat != [] {
      var init, last := cat[..|cat| - 1], cat[|cat| - 1];
      CuidsOfSpec(init);
      EpisodeCuidsSpec(last.episodes);
      forall c | c in CuidsOf(cat)
        ensures exists i, k :: 0 <= i < |cat| && 0 <= k < |cat[i].episodes| && cat[i].episodes[k].cuid == c
      {
        if c in CuidsOf(init) {
          var i, k :| 0 <= i < |init| && 0 <= k < |init[i].episodes| && init[i].episodes[k].cuid == c;
          assert cat[i] == init[i];
        } else {
          var k :| 0 <= k < |last.episodes| && last.episodes[k].cuid == c;
          assert cat[|cat| - 1] == last;
        }
      }
      forall i, k | 0 <= i < |cat| && 0 <= k < |cat[i].episodes|
        ensures cat[i].episodes[k].cuid in CuidsOf(cat)
      {
        if i < |init| {
          assert cat[i] == init[i];
        }
      }
    }
  }

  /** The CUIDs of the episodes collected in `$newData`. */
  function PendingCuids(pending: seq<(string, Series)>): set<string> {
    if pending == [] then {}
    else PendingCuids(pending[..|pending| - 1]) + EpisodeCuids(pending[|pending| - 1].1.episodes)
  }

  lemma {:induction false} PendingCuidsHas(pending: seq<(string, Series)>, k: nat)
    requires k < |pending|
    ensures EpisodeCuids(pending[k].1.episodes) <= PendingCuids(pending)
  {
    if k < |pending| - 1 {
      PendingCuidsHas(pending[..|pending| - 1], k);
    }
  }

  // ---------------------------------------------------------------- one container

  /** The CUID the redirect probe is made for (lines 117-127): `None` when the container is
      skipped first, for an empty image URL, no CUID or the falsy `"0"`, or a CUID already seen. */
  function ProbeCuid(c: Container, seen: set<string>): Option<string> {
    var image := c.image.GetOr("");
    if IsEmpty(image) then None
    else
      var cuid := TileImageId(image);
      if !Truthy(cuid) || cuid.value in seen then None else cuid
  }

  /** The container yields an episode: it reaches the probe and the probe gives a truthy
      stream id (lines 130-137). */
  predicate Passes(c: Container, seen: set<string>, probe: string -> Option<string>) {
    ProbeCuid(c, seen).Some? && Truthy(ProbedStreamId(probe, ProbeCuid(c, seen).value))
  }

  /** The episode a passing container yields as number `n` (lines 140-146). */
  function NewEpisode(c: Container, seen: set<string>, probe: string -> Option<string>, n: nat): Episode
    requires Passes(c, seen, probe)
  {
    var cuid := ProbeCuid(c, seen).value;
    Episode(cuid, Session, EpisodeLabel(n), c.image.GetOr(""), ProbedStreamId(probe, cuid).value)
  }

  /** A container with an empty image URL, without a truthy CUID, or with a CUID already seen
      is skipped whatever the probe would have answered; otherwise the probe of its proxy URL
      is the only answer its outcome depends on. */
  lemma ContainerSkippedWithoutProbe(c: Container, seen: set<string>, p: string -> Option<string>, q: string -> Option<string>)
    ensures var image := c.image.GetOr(""); var cuid := TileImageId(image);
      (IsEmpty(image) || !Truthy(cuid) || cuid.value in seen) ==> !Passes(c, seen, p) && !Passes(c, seen, q)
    ensures ProbeCuid(c, seen).Some? && p(ProxyUrl(ProbeCuid(c, seen).value)) == q(ProxyUrl(ProbeCuid(c, seen).value)) ==>
      (Passes(c, seen, p) <==> Passes(c, seen, q))
      && (Passes(c, seen, p) ==> forall n :: NewEpisode(c, seen, p, n) == NewEpisode(c, seen, q, n))
  {
  }

  // ---------------------------------------------------------------- one page

  /** The variables of the container loop: `$existingEpisodesMap`, `$episodeNumber`, `$episodes`. */
  datatype PageState = PageState(seen: set<string>, next: nat, episodes: seq<Episode>)

  /** One turn of the container loop. */
  function Step(st: PageState, c: Container, probe: string -> Option<string>): PageState {
    if Passes(c, st.seen, probe) then
      var e := NewEpisode(c, st.seen, probe, st.next);
      PageState(st.seen + {e.cuid}, st.next + 1, st.episodes + [e])
    else st
  }

  /** A turn either leaves the variables alone or appends one episode, numbered with the
      counter, whose CUID was not seen and is seen afterwards. */
  lemma StepShape(st: PageState, c: Container, probe: string -> Option<string>)
    ensures var r := Step(st, c, probe);
      || (!Passes(c, st.seen, probe) && r == st)
      || (Passes(c, st.seen, probe) && |r.episodes| == |st.episodes| + 1
          && r.episodes[..|st.episodes|] == st.episodes
          && var e := r.episodes[|st.episodes|];
          && r == PageState(st.seen + {e.cuid}, st.next + 1, st.episodes + [e])
          && e.cuid !in st.seen && e.episode == EpisodeLabel(st.next) && e.session == Session)
  {
    if Passes(c, st.seen, probe) {
      SnocInit(st.episodes, NewEpisode(c, st.seen, probe, st.next));
    }
  }

  /** The container loop over `cs`. */
  function ContainersRun(cs: seq<Container>, st: PageState, probe: string -> Option<string>): PageState {
    if cs == [] then st else Step(ContainersRun(cs[..|cs| - 1], st, probe), cs[|cs| - 1], probe)
  }

  /** Running one more container is one more turn. */
  lemma ContainersRunPrefixStep(cs: seq<Container>, i: nat, st: PageState, probe: string -> Option<string>)
    requires i < |cs|
    ensures ContainersRun(cs[..i + 1], st, probe) == Step(ContainersRun(cs[..i], st, probe), cs[i], probe)
  {
    assert cs[..i + 1][..i] == cs[..i];
  }

  /** A page's new episodes are labelled E(n), E(n+1), ... without gaps, and the counter
      advances once per episode appended and at no other time. */
  lemma {:induction false} ContainersRunNumbering(cs: seq<Container>, st: PageState, probe: string -> Option<string>)
    requires st.episodes == []
    ensures var r := ContainersRun(cs, st, probe);
      && r.next == st.next + |r.episodes|
      && |r.episodes| <= |cs|
      && forall k :: 0 <= k < |r.episodes| ==>
           r.episodes[k].episode == EpisodeLabel(st.next + k) && r.episodes[k].session == Session
  {
    if cs != [] {
      var r0 := ContainersRun(cs[..|cs| - 1], st, probe);
      var r := ContainersRun(cs, st, probe);
      assert r == Step(r0, cs[|cs| - 1], probe);
      ContainersRunNumbering(cs[..|cs| - 1], st, probe);
      StepShape(r0, cs[|cs| - 1], probe);
      forall k | 0 <= k < |r.episodes|
        ensures r.episodes[k].episode == EpisodeLabel(st.next + k) && r.episodes[k].session == Session
      {
        if k < |r0.episodes| {
          assert r.episodes[k] == r.episodes[..|r0.episodes|][k];
        }
      }
    }
  }

  /** Within a page each CUID is added at most once, none that was seen before, and the seen
      set grows by exactly the CUIDs added. */
  lemma {:induction false} ContainersRunCuids(cs: seq<Container>, st: PageState, probe: string -> Option<string>)
    requires st.episodes == []
    ensures var r := ContainersRun(cs, st, probe);
      && r.seen == st.seen + EpisodeCuids(r.episodes)
      && DistinctCuids(r.episodes)
      && forall k :: 0 <= k < |r.episodes| ==> r.episodes[k].cuid !in st.seen
  {
    if cs != [] {
      var r0 := ContainersRun(cs[..|cs| - 1], st, probe);
      var c := cs[|cs| - 1];
      assert ContainersRun(cs, st, probe) == Step(r0, c, probe);
      ContainersRunCuids(cs[..|cs| - 1], st, probe);
      if Passes(c, r0.seen, probe) {
        var e := NewEpisode(c, r0.seen, probe, r0.next);
        var eps := r0.episodes + [e];
        assert eps[..|eps| - 1] == r0.episodes;
        CuidNotAmong(r0.episodes, e.cuid);
        forall i, j | 0 <= i < j < |eps|
          ensures eps[i].cuid != eps[j].cuid
        {
          if j < |r0.episodes| {
            assert eps[i] == r0.episodes[i] && eps[j] == r0.episodes[j];
          } else {
            assert eps[i] == r0.episodes[i];
          }
        }
      }
    }
  }

  lemma CuidNotAmong(eps: seq<Episode>, c: string)
    requires c !in EpisodeCuids(eps)
    ensures forall k :: 0 <= k < |eps| ==> eps[k].cuid != c
  {
    EpisodeCuidsSpec(eps);
  }

  /** No container of `cs` passes. */
  predicate Silent(cs: seq<Container>, seen: set<string>, probe: string -> Option<string>) {
    forall c :: c in cs ==> !Passes(c, seen, probe)
  }

  lemma SilentMonotone(cs: seq<Container>, s: set<string>, t: set<string>, probe: string -> Option<string>)
    requires Silent(cs, s, probe) && s <= t
    ensures Silent(cs, t, probe)
  {
  }

  /** A page that no container passes leaves the loop variables as they were. */
  lemma {:induction false} SilentRun(cs: seq<Container>, st: PageState, probe: string -> Option<string>)
    requires Silent(cs, st.seen, probe)
    ensures ContainersRun(cs, st, probe) == st
  {
    if cs != [] {
      SilentRun(cs[..|cs| - 1], st, probe);
    }
  }

  /** Once the CUIDs a page added are seen, visiting the page again adds nothing. */
  lemma {:induction false} ReplaySilent(cs: seq<Container>, st: PageState, probe: string -> Option<string>, t: set<string>)
    requires ContainersRun(cs, st, probe).seen <= t
    ensures Silent(cs, t, probe)
  {
    if cs != [] {
      var r0 := ContainersRun(cs[..|cs| - 1], st, probe);
      ReplaySilent(cs[..|cs| - 1], st, probe, t);
      assert cs == cs[..|cs| - 1] + [cs[|cs| - 1]];
    }
  }

  // ---------------------------------------------------------------- the run

  /** The slot of the first series named `name`, or |cat|. */
  function FirstNamed(cat: seq<Series>, name: string): (i: nat)
    ensures i <= |cat|
    ensures i < |cat| ==> cat[i].name == name
    ensures forall j :: 0 <= j < i ==> cat[j].name != name
  {
    if cat == [] then 0 else if cat[0].name == name then 0 else 1 + FirstNamed(cat[1..], name)
  }

  /** The number of a page's first new episode (lines 106-114): one past the episode count of
      the first existing series with the page's name, or 1. */
  function NextEpisodeNumber(existing: seq<Series>, name: string): (n: nat)
    ensures n >= 1
    ensures (forall i :: 0 <= i < |existing| ==> existing[i].name != name) ==> n == 1
    ensures forall i :: (0 <= i < |existing| && existing[i].name == name
              && forall j :: 0 <= j < i ==> existing[j].name != name) ==> n == |existing[i].episodes| + 1
  {
    var i := FirstNamed(existing, name);
    if i < |existing| then |existing[i].episodes| + 1 else 1
  }

  /** The variables of the page loop: the seen set and `$newData`. */
  datatype RunState = RunState(seen: set<string>, pending: seq<(string, Series)>)

  /** One turn of the page loop (lines 94-159): a page that fails to load is passed over; the
      new episodes of a page, if any, become `$newData[$seriesName]`. */
  function VisitPage(existing: seq<Series>, category: string, site: Site, rs: RunState, url: string): RunState {
    match site.seriesPage(url)
    case None => rs
    case Some(page) =>
      var name := PageSeriesName(site.decodeEntities, page);
      var r := ContainersRun(page.containers, PageState(rs.seen, NextEpisodeNumber(existing, name), []), site.probe);
      RunState(r.seen, if r.episodes == [] then rs.pending else OrderedMap.Put(rs.pending, name, Series(name, category, r.episodes)))
  }

  function VisitAll(existing: seq<Series>, category: string, site: Site, rs: RunState, urls: seq<string>): RunState {
    if urls == [] then rs
    else VisitPage(existing, category, site, VisitAll(existing, category, site, rs, urls[..|urls| - 1]), urls[|urls| - 1])
  }

  /** The episodes a page adds to `$newData` are numbered on from the first existing series of
      the same name, and none of their CUIDs was seen before the page. */
  lemma PageNumbering(existing: seq<Series>, category: string, site: Site, rs: RunState, url: string)
    requires site.seriesPage(url).Some?
    ensures var page := site.seriesPage(url).value;
      var name := PageSeriesName(site.decodeEntities, page);
      var r := VisitPage(existing, category, site, rs, url);
      && rs.seen <= r.seen
      && (OrderedMap.Mentions(r.pending, name) && !OrderedMap.Mentions(rs.pending, name) ==>
           var eps := r.pending[OrderedMap.Find(r.pending, name)].1.episodes;
           && eps != [] && DistinctCuids(eps)
           && forall k :: 0 <= k < |eps| ==>
                eps[k].episode == EpisodeLabel(NextEpisodeNumber(existing, name) + k) && eps[k].cuid !in rs.seen)
  {
    var page := site.seriesPage(url).value;
    var name := PageSeriesName(site.decodeEntities, page);
    var st := PageState(rs.seen, NextEpisodeNumber(existing, name), []);
    ContainersRunNumbering(page.containers, st, site.probe);
    ContainersRunCuids(page.containers, st, site.probe);
    var r := ContainersRun(page.containers, st, site.probe);
    if r.episodes != [] && !OrderedMap.Mentions(rs.pending, name) {
      OrderedMap.FindAppend(rs.pending, (name, Series(name, category, r.episodes)));
    }
  }

  /** The replacement at line 154: when a second page with an already collected name adds
      episodes, they replace the first page's in `$newData`. The first page's episodes are
      then lost from the run although their CUIDs stay seen. */
  lemma SameTitleReplacesEpisodes(existing: seq<Series>, category: string, site: Site, rs: RunState, url: string)
    requires site.seriesPage(url).Some?
    requires PendingCuids(rs.pending) <= rs.seen
    requires OrderedMap.Mentions(rs.pending, PageSeriesName(site.decodeEntities, site.seriesPage(url).value))
    requires var page := site.seriesPage(url).value;
      ContainersRun(page.containers,
        PageState(rs.seen, NextEpisodeNumber(existing, PageSeriesName(site.decodeEntities, page)), []), site.probe).episodes != []
    ensures var k := OrderedMap.Find(rs.pending, PageSeriesName(site.decodeEntities, site.seriesPage(url).value));
      var r := VisitPage(existing, category, site, rs, url);
      && |r.pending| == |rs.pending|
      && forall e :: e in rs.pending[k].1.episodes ==> e.cuid in r.seen && e !in r.pending[k].1.episodes
  {
    var page := site.seriesPage(url).value;
    var name := PageSeriesName(site.decodeEntities, page);
    var st := PageState(rs.seen, NextEpisodeNumber(existing, name), []);
    var k := OrderedMap.Find(rs.pending, name);
    ContainersRunCuids(page.containers, st, site.probe);
    PendingCuidsHas(rs.pending, k);
    EpisodeCuidsSpec(rs.pending[k].1.episodes);
  }

  // ---------------------------------------------------------------- the merge

  /** One turn of the merge loop (lines 163-177): the new episodes go to the end of the first
      series with that name; without one, or when the name is one PHP turned into an integer
      key (which never equals a string under `===`), the series is added at the end. */
  function MergeOne(cat: seq<Series>, key: string, s: Series): (r: seq<Series>)
    ensures |cat| <= |r| <= |cat| + 1
  {
    var i := FirstNamed(cat, key);
    if !IsIntegerKey(key) && i < |cat| then cat[i := cat[i].(episodes := cat[i].episodes + s.episodes)]
    else cat + [s]
  }

  function MergeAll(cat: seq<Series>, pending: seq<(string, Series)>): seq<Series> {
    if pending == [] then cat
    else
      var last := pending[|pending| - 1];
      MergeOne(MergeAll(cat, pending[..|pending| - 1]), last.0, last.1)
  }

  /** `a` is an unchanged prefix of `b`, series by series and episode by episode. */
  predicate Extends(a: seq<Series>, b: seq<Series>) {
    |a| <= |b| && forall i :: 0 <= i < |a| ==>
      b[i].name == a[i].name && b[i].category == a[i].category
      && |a[i].episodes| <= |b[i].episodes| && b[i].episodes[..|a[i].episodes|] == a[i].episodes
  }

  /** The merge keeps every existing series, its name, category and episodes as an unchanged
      prefix, and adds the pending episodes and nothing else. */
  lemma {:induction false} MergeAllSpec(cat: seq<Series>, pending: seq<(string, Series)>)
    ensures Extends(cat, MergeAll(cat, pending))
    ensures CuidsOf(MergeAll(cat, pending)) == CuidsOf(cat) + PendingCuids(pending)
  {
    if pending != [] {
      var init, last := pending[..|pending| - 1], pending[|pending| - 1];
      var m := MergeAll(cat, init);
      MergeAllSpec(cat, init);
      var i := FirstNamed(m, last.0);
      if !IsIntegerKey(last.0) && i < |m| {
        var ext := m[i].episodes + last.1.episodes;
        assert ext[..|m[i].episodes|] == m[i].episodes;
        forall j | 0 <= j < |cat| && j == i
          ensures ext[..|cat[j].episodes|] == cat[j].episodes
        {
          assert ext[..|cat[j].episodes|] == m[i].episodes[..|cat[j].episodes|];
        }
        CuidsOfExtended(m, i, last.1.episodes);
      } else {
        assert (m + [last.1])[..|m|] == m;
      }
    }
  }

  /** Appending episodes to one series adds their CUIDs to the catalogue's. */
  lemma {:induction false} CuidsOfExtended(cat: seq<Series>, i: nat, more: seq<Episode>)
    requires i < |cat|
    ensures CuidsOf(cat[i := cat[i].(episodes := cat[i].episodes + more)]) == CuidsOf(cat) + EpisodeCuids(more)
  {
    var c := cat[i := cat[i].(episodes := cat[i].episodes + more)];
    assert c[..|c| - 1] == if i == |cat| - 1 then cat[..|cat| - 1] else cat[..|cat| - 1][i := c[i]];
    if i == |cat| - 1 {
      EpisodeCuidsConcat(cat[i].episodes, more);
    } else {
      CuidsOfExtended(cat[..|cat| - 1], i, more);
    }
  }

  // ---------------------------------------------------------------- the category run

  /** The catalogue a run starts from: the decoded file, or nothing. */
  function Loaded(file: StoredFile): seq<Series> {
    if file.Json? then file.catalogue else []
  }

  /** Visiting one more item page is one more `VisitPage`. */
  lemma VisitAllPrefixStep(existing: seq<Series>, category: string, site: Site, rs: RunState, urls: seq<string>, i: nat)
    requires i < |urls|
    ensures VisitAll(existing, category, site, rs, urls[..i + 1])
         == VisitPage(existing, category, site, VisitAll(existing, category, site, rs, urls[..i]), urls[i])
  {
    assert urls[..i + 1][..i] == urls[..i];
  }

  /** `processCategory`: the file after a run. An unreadable file stops the run; without item
      URLs the loaded catalogue is written back only if it is non-empty; otherwise the merged
      catalogue is written. */
  function CategoryRun(file: StoredFile, categoryUrl: string, category: string, site: Site): StoredFile {
    if file.Unreadable? then file
    else
      var existing := Loaded(file);
      var urls := ItemUrls(site.listing(categoryUrl), ItemSuffix);
      if urls == [] then (if existing != [] then Json(existing) else file)
      else
        var rs := VisitAll(existing, category, site, RunState(CuidsOf(existing), []), urls);
        Json(MergeAll(existing, rs.pending))
  }

  /** The item pages of the listing, each a page no container of which passes. */
  ghost predicate AllSilent(site: Site, urls: seq<string>, seen: set<string>) {
    forall u :: u in urls && site.seriesPage(u).Some? ==> Silent(site.seriesPage(u).value.containers, seen, site.probe)
  }

  lemma {:induction false} SilentVisitAll(existing: seq<Series>, category: string, site: Site, rs: RunState, urls: seq<string>)
    requires AllSilent(site, urls, rs.seen)
    ensures VisitAll(existing, category, site, rs, urls) == rs
  {
    if urls != [] {
      var init, u := urls[..|urls| - 1], urls[|urls| - 1];
      SilentVisitAll(existing, category, site, rs, init);
      if site.seriesPage(u).Some? {
        var page := site.seriesPage(u).value;
        var name := PageSeriesName(site.decodeEntities, page);
        SilentRun(page.containers, PageState(rs.seen, NextEpisodeNumber(existing, name), []), site.probe);
      }
    }
  }

  /** When no container of any item page passes the filters, the file is left alone or the
      loaded catalogue is written back unchanged. */
  lemma NothingPassesKeepsCatalogue(file: StoredFile, categoryUrl: string, category: string, site: Site)
    requires AllSilent(site, ItemUrls(site.listing(categoryUrl), ItemSuffix), CuidsOf(Loaded(file)))
    ensures var saved := CategoryRun(file, categoryUrl, category, site);
      saved == file || saved == Json(Loaded(file))
  {
    var existing := Loaded(file);
    SilentVisitAll(existing, category, site, RunState(CuidsOf(existing), []), ItemUrls(site.listing(categoryUrl), ItemSuffix));
  }

  /** Distinct item pages carry distinct series names. */
  ghost predicate DistinctTitles(site: Site, urls: seq<string>) {
    forall u, v :: u in urls && v in urls && site.seriesPage(u).Some? && site.seriesPage(v).Some?
      && PageSeriesName(site.decodeEntities, site.seriesPage(u).value) == PageSeriesName(site.decodeEntities, site.seriesPage(v).value)
      ==> site.seriesPage(u) == site.seriesPage(v)
  }

  /** What holds after the pages `visited` of a run: every CUID seen is in the catalogue or
      collected, every visited page would add nothing if visited again, and each collected name
      is the name of a visited page. */
  ghost predicate RunInvariant(existing: seq<Series>, site: Site, visited: seq<string>, rs: RunState) {
    && rs.seen <= CuidsOf(existing) + PendingCuids(rs.pending)
    && AllSilent(site, visited, rs.seen)
    && forall k :: 0 <= k < |rs.pending| ==> NamedByVisited(site, visited, rs.pending[k].0)
  }

  /** Some visited item page carries the series name `name`. */
  ghost predicate NamedByVisited(site: Site, visited: seq<string>, name: string) {
    exists u :: u in visited && site.seriesPage(u).Some? && PageSeriesName(site.decodeEntities, site.seriesPage(u).value) == name
  }

  /** Visiting one more page keeps every name found so far. */
  lemma NamedByVisitedGrows(site: Site, visited: seq<string>, url: string, name: string)
    requires NamedByVisited(site, visited, name)
    ensures NamedByVisited(site, visited + [url], name)
  {
    var u :| u in visited && site.seriesPage(u).Some? && PageSeriesName(site.decodeEntities, site.seriesPage(u).value) == name;
    assert u in visited + [url];
  }

  /** Visiting one more item page, under distinct names, keeps `RunInvariant`. */
  lemma VisitPageKeepsInvariant(existing: seq<Series>, category: string, site: Site, visited: seq<string>, rs: RunState, url: string)
    requires RunInvariant(existing, site, visited, rs)
    requires DistinctTitles(site, visited + [url])
    ensures RunInvariant(existing, site, visited + [url], VisitPage(existing, category, site, rs, url))
  {
    var page := site.seriesPage(url);
    if page.Some? && !OrderedMap.Mentions(rs.pending, PageSeriesName(site.decodeEntities, page.value)) {
      VisitPageNewName(existing, category, site, visited, rs, url);
    } else {
      if page.Some? {
        VisitPageRepeatedName(existing, category, site, visited, rs, url);
      }
      forall k | 0 <= k < |rs.pending| ensures NamedByVisited(site, visited + [url], rs.pending[k].0) {
        NamedByVisitedGrows(site, visited, url, rs.pending[k].0);
      }
    }
  }

  /** A page whose name is already collected came before under that name, so it is the same
      page, none of its containers passes any more, and visiting it again changes nothing. */
  lemma VisitPageRepeatedName(existing: seq<Series>, category: string, site: Site, visited: seq<string>, rs: RunState, url: string)
    requires RunInvariant(existing, site, visited, rs)
    requires DistinctTitles(site, visited + [url])
    requires site.seriesPage(url).Some? && OrderedMap.Mentions(rs.pending, PageSeriesName(site.decodeEntities, site.seriesPage(url).value))
    ensures Silent(site.seriesPage(url).value.containers, rs.seen, site.probe)
    ensures VisitPage(existing, category, site, rs, url) == rs
  {
    var page := site.seriesPage(url).value;
    var name := PageSeriesName(site.decodeEntities, page);
    var st := PageState(rs.seen, NextEpisodeNumber(existing, name), []);
    var k := OrderedMap.Find(rs.pending, name);
    assert NamedByVisited(site, visited, rs.pending[k].0);
    var u :| u in visited && site.seriesPage(u).Some?
      && PageSeriesName(site.decodeEntities, site.seriesPage(u).value) == rs.pending[k].0;
    assert u in visited + [url];
    assert site.seriesPage(u) == site.seriesPage(url);
    SilentRun(page.containers, st, site.probe);
  }

  /** A page with a name not collected yet: its CUIDs join the seen set, every visited page
      stays silent under the larger set, and a collected series is named after this page. */
  lemma VisitPageNewName(existing: seq<Series>, category: string, site: Site, visited: seq<string>, rs: RunState, url: string)
    requires RunInvariant(existing, site, visited, rs)
    requires site.seriesPage(url).Some? && !OrderedMap.Mentions(rs.pending, PageSeriesName(site.decodeEntities, site.seriesPage(url).value))
    ensures RunInvariant(existing, site, visited + [url], VisitPage(existing, category, site, rs, url))
  {
    var vs := visited + [url];
    var r := VisitPage(existing, category, site, rs, url);
    var page := site.seriesPage(url).value;
    var name := PageSeriesName(site.decodeEntities, page);
    var st := PageState(rs.seen, NextEpisodeNumber(existing, name), []);
    var run := ContainersRun(page.containers, st, site.probe);
    ContainersRunCuids(page.containers, st, site.probe);
    ReplaySilent(page.containers, st, site.probe, run.seen);
    forall u | u in visited && site.seriesPage(u).Some?
      ensures Silent(site.seriesPage(u).value.containers, run.seen, site.probe)
    {
      SilentMonotone(site.seriesPage(u).value.containers, rs.seen, run.seen, site.probe);
    }
    forall k | 0 <= k < |rs.pending| ensures NamedByVisited(site, vs, rs.pending[k].0) {
      NamedByVisitedGrows(site, visited, url, rs.pending[k].0);
    }
    assert r.seen == run.seen;
    assert AllSilent(site, vs, r.seen);
    if run.episodes != [] {
      var s := Series(name, category, run.episodes);
      assert r.pending == rs.pending + [(name, s)];
      SnocInit(rs.pending, (name, s));
      assert url in vs;
      assert NamedByVisited(site, vs, name);
    } else {
      assert r.pending == rs.pending;
    }
  }

  /** The page loop, from the loaded catalogue's CUIDs and an empty `$newData`, ends in a state
      that satisfies `RunInvariant` for all the pages it visited. */
  lemma {:induction false} VisitAllInvariant(existing: seq<Series>, category: string, site: Site, urls: seq<string>)
    requires DistinctTitles(site, urls)
    ensures RunInvariant(existing, site, urls, VisitAll(existing, category, site, RunState(CuidsOf(existing), []), urls))
  {
    if urls != [] {
      var init := urls[..|urls| - 1];
      assert urls == init + [urls[|urls| - 1]];
      VisitAllInvariant(existing, category, site, init);
      VisitPageKeepsInvariant(existing, category, site, init,
        VisitAll(existing, category, site, RunState(CuidsOf(existing), []), init), urls[|urls| - 1]);
    }
  }

  /** When distinct item pages have distinct series names, a second run with the same site
      changes nothing: every CUID of the first run's pages is in the saved catalogue and is
      skipped. (With two pages of one name, the first page's episodes are dropped by the first
      run and come back in the second, see `SameTitleReplacesEpisodes`.) */
  lemma SecondRunChangesNothing(file: StoredFile, categoryUrl: string, category: string, site: Site)
    requires DistinctTitles(site, ItemUrls(site.listing(categoryUrl), ItemSuffix))
    ensures var once := CategoryRun(file, categoryUrl, category, site);
      CategoryRun(once, categoryUrl, category, site) == once
  {
    var urls := ItemUrls(site.listing(categoryUrl), ItemSuffix);
    if !file.Unreadable? && urls != [] {
      var existing := Loaded(file);
      var rs := VisitAll(existing, category, site, RunState(CuidsOf(existing), []), urls);
      var saved := MergeAll(existing, rs.pending);
      VisitAllInvariant(existing, category, site, urls);
      MergeAllSpec(existing, rs.pending);
      forall u | u in urls && site.seriesPage(u).Some?
        ensures Silent(site.seriesPage(u).value.containers, CuidsOf(saved), site.probe)
      {
        SilentMonotone(site.seriesPage(u).value.containers, rs.seen, CuidsOf(saved), site.probe);
      }
      SilentVisitAll(saved, category, site, RunState(CuidsOf(saved), []), urls);
    }
  }

  // ---------------------------------------------------------------- the imperative run

  /** The state `processCategory` keeps while it runs. */
  class SeriesCatalogue {
    /** `$existingData` */
    var series: seq<Series>
    /** The keys of `$existingEpisodesMap` */
    var seen: set<string>
    /** `$newData`, keyed by series name in insertion order */
    var pending: seq<(string, Series)>

    /** Lines 72-77: take the loaded catalogue and mark every CUID in it as seen. */
    constructor Load(loaded: seq<Series>)
      ensures series == loaded && seen == CuidsOf(loaded) && pending == []
    {
      var s: set<string> := {};
      var i := 0;
      while i < |loaded|
        invariant 0 <= i <= |loaded|
        invariant s == CuidsOf(loaded[..i])
      {
        var eps := loaded[i].episodes;
        var j := 0;
        while j < |eps|
          invariant 0 <= j <= |eps|
          invariant s == CuidsOf(loaded[..i]) + EpisodeCuids(eps[..j])
        {
          s := s + {eps[j].cuid};
          assert eps[..j + 1][..j] == eps[..j];
          j := j + 1;
        }
        assert eps[..j] == eps;
        assert loaded[..i + 1][..i] == loaded[..i];
        i := i + 1;
      }
      assert loaded[..i] == loaded;
      series := loaded;
      seen := s;
      pending := [];
    }

    /** Lines 109-114: the number the new episodes of a series named `name` start from. */
    method NextNumber(name: string) returns (n: nat)
      ensures n == NextEpisodeNumber(series, name)
    {
      n := 1;
      var i := 0;
      while i < |series|
        invariant 0 <= i <= |series|
        invariant forall j :: 0 <= j < i ==> series[j].name != name
      {
        if series[i].name == name {
          n := |series[i].episodes| + 1;
          return;
        }
        i := i + 1;
      }
    }

    /** Lines 116-150: one container of a page. An episode is appended, the counter advanced
        and the CUID marked seen exactly when the container passes; otherwise nothing changes. */
    method TakeContainer(c: Container, number: nat, episodes: seq<Episode>, probe: string -> Option<string>)
        returns (number': nat, episodes': seq<Episode>)
      modifies this
      ensures series == old(series) && pending == old(pending)
      ensures PageState(seen, number', episodes') == Step(PageState(old(seen), number, episodes), c, probe)
    {
      number', episodes' := number, episodes;
      ghost var st := PageState(seen, number, episodes);
      var image := c.image.GetOr("");
      if !IsEmpty(image) {
        var cuid := TileImageId(image);
        if Truthy(cuid) && cuid.value !in seen {
          assert ProbeCuid(c, st.seen) == cuid;
          var proxy := ProxyUrl(cuid.value);
          var redirect := PickLocation(probe(proxy), proxy);
          var streamId := RedirectId(redirect);
          assert ProbedStreamId(probe, cuid.value) == streamId;
          if Truthy(streamId) {
            var e := Episode(cuid.value, Session, EpisodeLabel(number), image, streamId.value);
            assert NewEpisode(c, st.seen, probe, number) == e;
            episodes' := episodes + [e];
            number' := number + 1;
            seen := seen + {cuid.value};
          } else {
            assert !Passes(c, st.seen, probe);
          }
        } else {
          assert ProbeCuid(c, st.seen).None?;
        }
      } else {
        assert ProbeCuid(c, st.seen).None?;
      }
    }

    /** Lines 94-159: one item page. */
    method ProcessPage(url: string, category: string, site: Site)
      modifies this
      ensures series == old(series)
      ensures RunState(seen, pending) == VisitPage(series, category, site, RunState(old(seen), old(pending)), url)
    {
      var loaded := site.seriesPage(url);
      if loaded.None? {
        return;
      }
      var page := loaded.value;
      var name := PageSeriesName(site.decodeEntities, page);
      var number := NextNumber(name);
      var episodes: seq<Episode> := [];
      ghost var st := PageState(seen, number, []);
      var cs := page.containers;
      var i := 0;
      while i < |cs|
        invariant 0 <= i <= |cs|
        invariant series == old(series) && pending == old(pending)
        invariant PageState(seen, number, episodes) == ContainersRun(cs[..i], st, site.probe)
      {
        ghost var before := PageState(seen, number, episodes);
        number, episodes := TakeContainer(cs[i], number, episodes, site.probe);
        ContainersRunPrefixStep(cs, i, st, site.probe);
        assert PageState(seen, number, episodes) == Step(before, cs[i], site.probe);
        i := i + 1;
      }
      assert cs[..i] == cs;
      if episodes != [] {
        pending := OrderedMap.Put(pending, name, Series(name, category, episodes));
      }
    }

    /** Lines 163-177: append the collected episodes into the catalogue. */
    method MergePending()
      modifies this
      ensures series == MergeAll(old(series), old(pending))
      ensures seen == old(seen) && pending == old(pending)
    {
      var batch := pending;
      var k := 0;
      while k < |batch|
        invariant 0 <= k <= |batch|
        invariant seen == old(seen) && pending == old(pending)
        invariant series == MergeAll(old(series), batch[..k])
      {
        var (key, s) := batch[k];
        ghost var before := series;
        var found := false;
        var i := 0;
        while i < |series| && !found
          invariant 0 <= i <= |series|
          invariant seen == old(seen) && pending == old(pending)
          invariant !found ==> series == before && forall j :: 0 <= j < i ==> !(!IsIntegerKey(key) && before[j].name == key)
          invariant found ==> series == MergeOne(before, key, s)
          decreases |series| - i, if found then 0 else 1
        {
          if !IsIntegerKey(key) && series[i].name == key {
            assert FirstNamed(before, key) == i;
            series := series[i := series[i].(episodes := series[i].episodes + s.episodes)];
            found := true;
          } else {
            i := i + 1;
          }
        }
        if !found {
          series := series + [s];
        }
        assert batch[..k + 1][..k] == batch[..k];
        k := k + 1;
      }
      assert batch[..k] == batch;
    }
  }

  /** `processCategory` (lines 55-185), with the file before the run as input and the file
      after it as result. */
  method ProcessCategory(file: StoredFile, categoryUrl: string, category: string, site: Site) returns (saved: StoredFile)
    ensures saved == CategoryRun(file, categoryUrl, category, site)
  {
    if file.Unreadable? {
      return file;
    }
    var existing := if file.Json? then file.catalogue else [];
    var catalogue := new SeriesCatalogue.Load(existing);
    var urls := ScrapeUrlsFromCategory(site.listing(categoryUrl), ItemSuffix);
    if urls == [] {
      saved := if existing != [] then Json(existing) else file;
      return;
    }
    var i := 0;
    while i < |urls|
      invariant 0 <= i <= |urls|
      invariant catalogue.series == existing
      invariant RunState(catalogue.seen, catalogue.pending)
                == VisitAll(existing, category, site, RunState(CuidsOf(existing), []), urls[..i])
    {
      catalogue.ProcessPage(urls[i], category, site);
      VisitAllPrefixStep(existing, category, site, RunState(CuidsOf(existing), []), urls, i);
      i := i + 1;
    }
    assert urls[..i] == urls;
    catalogue.MergePending();
    saved := Json(catalogue.series);
  }
}
