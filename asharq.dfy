/** `asharq/nowasharq.php`: turns the items of an Asharq category response into show records
    (the show as its own first episode, then every episode of the category) and movie records,
    and merges them into the stored JSON catalogues, shows by (Name, Category) and movies by
    CUID. */
module Asharq {
  import opened Php
  import opened Patterns
  import OrderedMap

  /** One entry of `video.sources.HLS`. */
  datatype Hls = Hls(name: string, link: string)

  /** One element of `data.content`: its id, `type`, `title`, `slug`, HLS sources (empty when
      `video.sources.HLS` is missing) and the `image["2-3"]["x-large"]` and
      `image["16-9"]["x-large"]` URLs. */
  datatype Item = Item(
    id: int,
    itemType: string,
    title: string,
    slug: Option<string>,
    hls: seq<Hls>,
    verticalImage: Option<string>,
    posterImage: Option<string>)

  /** An element of a show's `Episodes`; `imageUrl` is `None` where PHP stores null. */
  datatype Episode = Episode(cuid: int, session: string, episode: string, imageUrl: Option<string>, streamId: string)

  datatype Show = Show(name: string, category: string, slug: string, episodes: seq<Episode>)

  datatype Movie = Movie(
    cuid: int,
    title: string,
    category: string,
    slug: string,
    verticalImage: string,
    posterImage: string,
    streamId: string)

  const High: string := "High"
  const Session: string := "S01"

  // ---------------------------------------------------------------- capitalizeSlug

  function ReplaceHyphens(s: string): (r: string)
    ensures |r| == |s|
  {
    seq(|s|, i requires 0 <= i < |s| => if s[i] == '-' then ' ' else s[i])
  }

  /** `capitalizeSlug`: the casing step, then every hyphen becomes a space. */
  function CapitalizeSlug(slug: string): string {
    ReplaceHyphens(TitleCase(slug))
  }

  /** The slug keeps its length and loses its hyphens, each becoming a space; every other
      character is upper-cased where it starts a word (first, or after a `ucwords` separator)
      and lower-cased elsewhere. A hyphen is not a word separator, so the letter after it
      stays lower case. */
  lemma CapitalizeSlugSpec(slug: string)
    ensures var r := CapitalizeSlug(slug);
      && |r| == |slug|
      && (forall i :: 0 <= i < |r| ==> r[i] != '-')
      && (forall i :: 0 <= i < |slug| && slug[i] == '-' ==> r[i] == ' ')
      && (forall i :: 0 <= i < |slug| && slug[i] != '-' ==>
            r[i] == if i == 0 || IsWordSeparator(slug[i - 1]) then UpperChar(LowerChar(slug[i])) else LowerChar(slug[i]))
      && (forall i :: 0 < i < |slug| && slug[i - 1] == '-' && slug[i] != '-' ==> r[i] == LowerChar(slug[i]))
  {
    HyphensBecomeSpaces(slug);
    HyphenStartsNoWord(slug);
    forall i | 0 <= i < |slug| && slug[i] != '-'
      ensures CapitalizeSlug(slug)[i] ==
        if i == 0 || IsWordSeparator(slug[i - 1]) then UpperChar(LowerChar(slug[i])) else LowerChar(slug[i])
    {
      CapitalizeSlugAt(slug, i);
    }
  }

  /** Position `i` of a capitalised slug, for a character that is not a hyphen. */
  lemma CapitalizeSlugAt(slug: string, i: nat)
    requires i < |slug| && slug[i] != '-'
    ensures CapitalizeSlug(slug)[i] ==
      if i == 0 || IsWordSeparator(slug[i - 1]) then UpperChar(LowerChar(slug[i])) else LowerChar(slug[i])
  {
    var low, t := StrToLower(slug), TitleCase(slug);
    assert low[i] == LowerChar(slug[i]);
    if i == 0 {
      assert t[0] == UpperChar(low[0]);
    } else {
      assert low[i - 1] == LowerChar(slug[i - 1]);
      assert IsWordSeparator(low[i - 1]) <==> IsWordSeparator(slug[i - 1]);
    }
    assert UpperChar(LowerChar(slug[i])) != '-' && LowerChar(slug[i]) != '-';
  }

  lemma HyphensBecomeSpaces(slug: string)
    ensures var r := CapitalizeSlug(slug); forall i :: 0 <= i < |slug| && slug[i] == '-' ==> r[i] == ' '
  {
    var low, r := StrToLower(slug), CapitalizeSlug(slug);
    forall i | 0 <= i < |slug| && slug[i] == '-'
      ensures r[i] == ' '
    {
      assert low[i] == '-';
    }
  }

  lemma HyphenStartsNoWord(slug: string)
    ensures var r := CapitalizeSlug(slug);
      forall i :: 0 < i < |slug| && slug[i - 1] == '-' && slug[i] != '-' ==> r[i] == LowerChar(slug[i])
  {
    var low, t, r := StrToLower(slug), TitleCase(slug), CapitalizeSlug(slug);
    forall i | 0 < i < |slug| && slug[i - 1] == '-' && slug[i] != '-'
      ensures r[i] == LowerChar(slug[i])
    {
      assert low[i - 1] == '-';
      assert t[i] == low[i] == LowerChar(slug[i]);
    }
  }

  /** `strtolower` leaves a string without upper-case ASCII letters as it is. */
  lemma LowerKeeps(s: string)
    requires forall i :: 0 <= i < |s| ==> !('A' <= s[i] <= 'Z')
    ensures StrToLower(s) == s
  {
  }

  /** `ucwords` of a single word only capitalises its first character. */
  lemma UcWordsOneWord(s: string)
    requires s != [] && forall i :: 0 <= i < |s| ==> !IsWordSeparator(s[i])
    ensures UcWords(s) == [UpperChar(s[0])] + s[1..]
  {
  }

  /** A slug of lower-case letters and hyphens is one word for the casing step. */
  lemma TitleCaseOneWord(s: string)
    requires s != [] && forall i :: 0 <= i < |s| ==> 'a' <= s[i] <= 'z' || s[i] == '-'
    ensures TitleCase(s) == [UpperChar(s[0])] + s[1..]
  {
    LowerKeeps(s);
    UcWordsOneWord(s);
  }

  lemma ReplaceOneHyphen(a: string, b: string)
    requires forall i :: 0 <= i < |a| ==> a[i] != '-'
    requires forall i :: 0 <= i < |b| ==> b[i] != '-'
    ensures ReplaceHyphens(a + "-" + b) == a + " " + b
  {
  }

  /** A slug of two lower-case words, such as "australias-open" in the comment above
      `capitalizeSlug`, becomes the first word capitalised, a space, and the second word as it
      was: "Australias open", with a lower-case "o". */
  lemma CapitalizeTwoWordSlug(a: string, b: string)
    requires a != [] && forall i :: 0 <= i < |a| ==> 'a' <= a[i] <= 'z'
    requires forall i :: 0 <= i < |b| ==> 'a' <= b[i] <= 'z'
    ensures CapitalizeSlug(a + "-" + b) == [UpperChar(a[0])] + a[1..] + " " + b
  {
    var s := a + "-" + b;
    TwoWordSlugLetters(a, b);
    TitleCaseOneWord(s);
    var first := [UpperChar(a[0])] + a[1..];
    CapitalizedJoin(a, b);
    ReplaceOneHyphen(first, b);
  }

  lemma TwoWordSlugLetters(a: string, b: string)
    requires forall i :: 0 <= i < |a| ==> 'a' <= a[i] <= 'z'
    requires forall i :: 0 <= i < |b| ==> 'a' <= b[i] <= 'z'
    ensures var s := a + "-" + b; forall i :: 0 <= i < |s| ==> 'a' <= s[i] <= 'z' || s[i] == '-'
  {
    var s := a + "-" + b;
    forall i | 0 <= i < |s| ensures 'a' <= s[i] <= 'z' || s[i] == '-' {
      if i < |a| { assert s[i] == a[i]; } else if i > |a| { assert s[i] == b[i - |a| - 1]; }
    }
  }

  lemma CapitalizedJoin(a: string, b: string)
    requires a != []
    ensures var s := a + "-" + b; [UpperChar(s[0])] + s[1..] == [UpperChar(a[0])] + a[1..] + "-" + b
  {
    var s := a + "-" + b;
    assert s[0] == a[0];
    assert s[1..] == a[1..] + "-" + b;
  }

  // ---------------------------------------------------------------- the High stream

  /** The `Link` of the first HLS source named exactly "High", and "" when there is none. */
  function HighLink(hls: seq<Hls>): (link: string)
    ensures (forall i :: 0 <= i < |hls| ==> hls[i].name != High) ==> link == ""
    ensures forall i :: 0 <= i < |hls| && hls[i].name == High && (forall j :: 0 <= j < i ==> hls[j].name != High) ==>
      link == hls[i].link
  {
    if hls == [] then ""
    else if hls[0].name == High then hls[0].link
    else HighLink(hls[1..])
  }

  /** The `foreach ... break` search for the "High" source. */
  method PickHigh(hls: seq<Hls>) returns (link: string)
    ensures link == HighLink(hls)
  {
    link := "";
    var i := 0;
    while i < |hls|
      invariant 0 <= i <= |hls|
      invariant HighLink(hls[i..]) == HighLink(hls)
    {
      if hls[i].name == High {
        link := hls[i].link;
        break;
      }
      assert hls[i..][1..] == hls[i + 1..];
      i := i + 1;
    }
  }

  /** The stream id of an item: the Bloomberg id of its "High" link. */
  function ItemStreamId(item: Item): string {
    ExtractStreamId(HighLink(item.hls))
  }

  // ---------------------------------------------------------------- first occurrence of an id

  const ShowKinds: set<string> := {"show", "episode"}
  const MovieKinds: set<string> := {"movie"}

  /** Item `k` is of one of `kinds` and no earlier item of those kinds has its id: it passes the
      `in_array($item['id'], $processedIds)` test. */
  predicate FirstOfId(items: seq<Item>, k: int, kinds: set<string>)
    requires 0 <= k < |items|
  {
    items[k].itemType in kinds && forall j :: 0 <= j < k && items[j].itemType in kinds ==> items[j].id != items[k].id
  }

  /** `$processedIds` after the scan of `items`. */
  function ProcessedIds(items: seq<Item>, kinds: set<string>): seq<int> {
    if items == [] then []
    else
      var init := items[..|items| - 1];
      ProcessedIds(init, kinds) + (if FirstOfId(items, |items| - 1, kinds) then [items[|items| - 1].id] else [])
  }

  /** The items of type `ty` that pass the id test, in encounter order. */
  function Kept(items: seq<Item>, kinds: set<string>, ty: string): seq<Item> {
    if items == [] then []
    else
      var init, last := items[..|items| - 1], items[|items| - 1];
      Kept(init, kinds, ty) + (if FirstOfId(items, |items| - 1, kinds) && last.itemType == ty then [last] else [])
  }

  /** The positions of the kept items, in encounter order. */
  function KeptPositions(items: seq<Item>, kinds: set<string>, ty: string): seq<nat> {
    if items == [] then []
    else
      var n := |items| - 1;
      KeptPositions(items[..n], kinds, ty) + (if FirstOfId(items, n, kinds) && items[n].itemType == ty then [n] else [])
  }

  lemma FirstOfIdPrefix(items: seq<Item>, n: nat, kinds: set<string>)
    requires n <= |items|
    ensures forall k :: 0 <= k < n ==> (FirstOfId(items[..n], k, kinds) <==> FirstOfId(items, k, kinds))
  {
  }

  /** The processed ids are exactly the ids of the items of the given kinds seen so far. */
  lemma {:induction false} ProcessedIdsSpec(items: seq<Item>, kinds: set<string>)
    ensures forall x :: x in ProcessedIds(items, kinds) <==>
      exists j :: 0 <= j < |items| && items[j].itemType in kinds && items[j].id == x
  {
    if items != [] {
      var n := |items| - 1;
      var init := items[..n];
      ProcessedIdsSpec(init, kinds);
      FirstOfIdPrefix(items, n, kinds);
      forall x | x in ProcessedIds(items, kinds)
        ensures exists j :: 0 <= j < |items| && items[j].itemType in kinds && items[j].id == x
      {
        if x in ProcessedIds(init, kinds) {
          var j :| 0 <= j < |init| && init[j].itemType in kinds && init[j].id == x;
          assert items[j] == init[j];
        }
      }
      forall x | exists j :: 0 <= j < |items| && items[j].itemType in kinds && items[j].id == x
        ensures x in ProcessedIds(items, kinds)
      {
        var j :| 0 <= j < |items| && items[j].itemType in kinds && items[j].id == x;
        if j < n {
          assert init[j] == items[j];
        } else if !FirstOfId(items, n, kinds) {
          var j' :| 0 <= j' < n && items[j'].itemType in kinds && items[j'].id == items[n].id;
          assert init[j'] == items[j'];
        }
      }
    }
  }

  /** The last item passes the id test exactly when it is of the given kinds and its id has not
      been processed yet: the test the loop makes. */
  lemma FirstOfIdLast(items: seq<Item>, kinds: set<string>)
    requires items != []
    ensures var n := |items| - 1;
      FirstOfId(items, n, kinds) <==> items[n].itemType in kinds && items[n].id !in ProcessedIds(items[..n], kinds)
  {
    var n := |items| - 1;
    ProcessedIdsSpec(items[..n], kinds);
    if items[n].itemType in kinds && !FirstOfId(items, n, kinds) {
      var j :| 0 <= j < n && items[j].itemType in kinds && items[j].id == items[n].id;
      assert items[..n][j] == items[j];
    }
  }

  /** The kept items are the items at the kept positions; the positions increase, and they are
      exactly the positions of the items of type `ty` that pass the id test. So each id is kept
      at most once, the first occurrence wins, and encounter order is preserved. */
  lemma KeptSpec(items: seq<Item>, kinds: set<string>, ty: string)
    ensures var r, ps := Kept(items, kinds, ty), KeptPositions(items, kinds, ty);
      && |r| == |ps|
      && (forall p :: 0 <= p < |ps| ==> ps[p] < |items| && r[p] == items[ps[p]])
      && (forall p, q :: 0 <= p < q < |ps| ==> ps[p] < ps[q])
      && (forall k :: 0 <= k < |items| ==> (k in ps <==> FirstOfId(items, k, kinds) && items[k].itemType == ty))
  {
    KeptAt(items, kinds, ty);
    KeptPositionsExact(items, kinds, ty);
  }

  /** The kept items sit at the kept positions, which increase. */
  lemma {:induction false} KeptAt(items: seq<Item>, kinds: set<string>, ty: string)
    ensures var r, ps := Kept(items, kinds, ty), KeptPositions(items, kinds, ty);
      && |r| == |ps|
      && (forall p :: 0 <= p < |ps| ==> ps[p] < |items| && r[p] == items[ps[p]])
      && (forall p, q :: 0 <= p < q < |ps| ==> ps[p] < ps[q])
  {
    if items != [] {
      var n := |items| - 1;
      var init := items[..n];
      KeptAt(init, kinds, ty);
      var ps0 := KeptPositions(init, kinds, ty);
      assert forall p :: 0 <= p < |ps0| ==> init[ps0[p]] == items[ps0[p]];
    }
  }

  /** A position is kept exactly when its item is of type `ty` and passes the id test. */
  lemma {:induction false} KeptPositionsExact(items: seq<Item>, kinds: set<string>, ty: string)
    ensures var ps := KeptPositions(items, kinds, ty);
      forall k :: 0 <= k < |items| ==> (k in ps <==> FirstOfId(items, k, kinds) && items[k].itemType == ty)
  {
    if items != [] {
      var n := |items| - 1;
      var init := items[..n];
      KeptPositionsExact(init, kinds, ty);
      KeptAt(init, kinds, ty);
      FirstOfIdPrefix(items, n, kinds);
      var ps0 := KeptPositions(init, kinds, ty);
      assert n !in ps0;
    }
  }

  /** No two kept items share an id. */
  lemma KeptDistinctIds(items: seq<Item>, kinds: set<string>, ty: string)
    ensures var r := Kept(items, kinds, ty);
      forall p, q :: 0 <= p < q < |r| ==> r[p].id != r[q].id
  {
    KeptSpec(items, kinds, ty);
    var r, ps := Kept(items, kinds, ty), KeptPositions(items, kinds, ty);
    forall p, q | 0 <= p < q < |r| ensures r[p].id != r[q].id {
      assert ps[p] in ps && ps[q] in ps;
      assert FirstOfId(items, ps[q], kinds);
    }
  }

  // ---------------------------------------------------------------- processShowData

  /** The show itself as episode E01. */
  function ShowEntry(show: Item): Episode {
    Episode(show.id, Session, EpisodeLabel(1), Some(show.verticalImage.GetOr("")), ItemStreamId(show))
  }

  /** A category episode as the `n`-th episode of `show`; it borrows the show's image when it
      has none of its own. */
  function EpisodeEntry(show: Item, ep: Item, n: nat): Episode {
    Episode(ep.id, Session, EpisodeLabel(n), if ep.verticalImage.Some? then ep.verticalImage else show.verticalImage,
            ItemStreamId(ep))
  }

  /** `xs` numbered on from `first`, each through `f`. */
  function Numbered<A, B>(f: (A, nat) -> B, xs: seq<A>, first: nat): (r: seq<B>)
    ensures |r| == |xs|
  {
    if xs == [] then []
    else
      var n := |xs| - 1;
      Numbered(f, xs[..n], first) + [f(xs[n], first + n)]
  }

  /** Entry `k` is element `k` through `f`, numbered `first + k`. */
  lemma {:induction false} NumberedAt<A, B>(f: (A, nat) -> B, xs: seq<A>, first: nat, k: nat)
    requires k < |xs|
    ensures Numbered(f, xs, first)[k] == f(xs[k], first + k)
  {
    var n := |xs| - 1;
    if k < n {
      NumberedAt(f, xs[..n], first, k);
      assert xs[..n][k] == xs[k];
    }
  }

  lemma NumberedPrefixStep<A, B>(f: (A, nat) -> B, xs: seq<A>, first: nat, i: nat)
    requires i < |xs|
    ensures Numbered(f, xs[..i + 1], first) == Numbered(f, xs[..i], first) + [f(xs[i], first + i)]
  {
    assert xs[..i + 1][..i] == xs[..i];
  }

  /** The category episodes as entries of `show`, numbered on from `first`. */
  function EpisodeEntries(show: Item, eps: seq<Item>, first: nat): seq<Episode> {
    Numbered((ep: Item, n: nat) => EpisodeEntry(show, ep, n), eps, first)
  }

  /** Entry `k` is the entry of category episode `k`, numbered `first + k`. */
  lemma EpisodeEntryAt(show: Item, eps: seq<Item>, first: nat, k: nat)
    requires k < |eps|
    ensures var r := EpisodeEntries(show, eps, first); |r| == |eps| && r[k] == EpisodeEntry(show, eps[k], first + k)
  {
    NumberedAt((ep: Item, n: nat) => EpisodeEntry(show, ep, n), eps, first, k);
  }

  function ShowRecord(show: Item, eps: seq<Item>, category: string): Show {
    Show(show.title, category, CapitalizeSlug(show.slug.GetOr("")), [ShowEntry(show)] + EpisodeEntries(show, eps, 2))
  }

  /** `processShowData`: one record per kept show, each listing every kept episode of the
      category. A response without a `data.content` list yields no record. */
  function ShowData(content: Option<seq<Item>>, category: string): seq<Show> {
    var items := content.GetOr([]);
    ShowRecords(Kept(items, ShowKinds, "show"), Kept(items, ShowKinds, "episode"), category)
  }

  /** One record per show, in order. */
  function ShowRecords(shows: seq<Item>, eps: seq<Item>, category: string): seq<Show> {
    if shows == [] then []
    else ShowRecords(shows[..|shows| - 1], eps, category) + [ShowRecord(shows[|shows| - 1], eps, category)]
  }

  lemma ShowRecordsPrefixStep(shows: seq<Item>, s: nat, eps: seq<Item>, category: string)
    requires s < |shows|
    ensures ShowRecords(shows[..s + 1], eps, category) == ShowRecords(shows[..s], eps, category) + [ShowRecord(shows[s], eps, category)]
  {
    assert shows[..s + 1][..s] == shows[..s];
  }

  /** Record `k` is the record of show `k`. */
  lemma {:induction false} ShowRecordsAt(shows: seq<Item>, eps: seq<Item>, category: string)
    ensures var r := ShowRecords(shows, eps, category);
      |r| == |shows| && forall k :: 0 <= k < |r| ==> r[k] == ShowRecord(shows[k], eps, category)
  {
    if shows != [] {
      var n := |shows| - 1;
      ShowRecordsAt(shows[..n], eps, category);
      var r0 := ShowRecords(shows[..n], eps, category);
      SnocInit(r0, ShowRecord(shows[n], eps, category));
      assert forall k :: 0 <= k < n ==> shows[..n][k] == shows[k];
    }
  }

  lemma EpisodeEntriesSpec(show: Item, eps: seq<Item>, first: nat)
    ensures var r := EpisodeEntries(show, eps, first);
      && |r| == |eps|
      && forall k :: 0 <= k < |r| ==>
           r[k].cuid == eps[k].id && r[k].session == Session && r[k].episode == EpisodeLabel(first + k)
  {
    forall k | 0 <= k < |eps|
      ensures var r := EpisodeEntries(show, eps, first);
        r[k].cuid == eps[k].id && r[k].session == Session && r[k].episode == EpisodeLabel(first + k)
    {
      EpisodeEntryAt(show, eps, first, k);
    }
  }

  /** The slug and media of a show record: the show's slug through `capitalizeSlug`; on E01 the
      show's image ("" when it has none) and stream id; on every later entry the episode's
      image, or the show's when the episode has none (null when neither has one), and the
      episode's own stream id. */
  lemma ShowRecordMedia(show: Item, eps: seq<Item>, category: string)
    ensures var r := ShowRecord(show, eps, category);
      && r.slug == CapitalizeSlug(show.slug.GetOr(""))
      && |r.episodes| == |eps| + 1
      && r.episodes[0].imageUrl == Some(show.verticalImage.GetOr("")) && r.episodes[0].streamId == ItemStreamId(show)
      && forall k :: 0 <= k < |eps| ==>
           && r.episodes[k + 1].imageUrl == (if eps[k].verticalImage.Some? then eps[k].verticalImage else show.verticalImage)
           && r.episodes[k + 1].streamId == ItemStreamId(eps[k])
  {
    var e := EpisodeEntries(show, eps, 2);
    var all := [ShowEntry(show)] + e;
    assert ShowRecord(show, eps, category).episodes == all;
    forall k | 0 <= k < |eps| ensures all[k + 1] == EpisodeEntry(show, eps[k], 2 + k) {
      EpisodeEntryAt(show, eps, 2, k);
      assert all[k + 1] == e[k];
    }
  }

  /** A show record lists the show as E01 and then every category episode, labelled E02, E03,
      ... without gaps, all in session S01. */
  lemma ShowRecordSpec(show: Item, eps: seq<Item>, category: string)
    ensures var r := ShowRecord(show, eps, category);
      && r.name == show.title && r.category == category
      && |r.episodes| == |eps| + 1
      && r.episodes[0].cuid == show.id
      && (forall k :: 0 <= k < |eps| ==> r.episodes[k + 1].cuid == eps[k].id)
      && (forall k :: 0 <= k < |r.episodes| ==> r.episodes[k].session == Session && r.episodes[k].episode == EpisodeLabel(k + 1))
  {
    ShowEpisodesSpec(show, eps);
  }

  /** The episode list of a show record: E01 for the show, then the category episodes. */
  lemma ShowEpisodesSpec(show: Item, eps: seq<Item>)
    ensures var all := [ShowEntry(show)] + EpisodeEntries(show, eps, 2);
      && |all| == |eps| + 1
      && all[0].cuid == show.id
      && (forall k :: 0 <= k < |eps| ==> all[k + 1].cuid == eps[k].id)
      && (forall k :: 0 <= k < |all| ==> all[k].session == Session && all[k].episode == EpisodeLabel(k + 1))
  {
    ShowEpisodesCuids(show, eps);
    ShowEpisodesLabels(show, eps);
  }

  lemma ShowEpisodesCuids(show: Item, eps: seq<Item>)
    ensures var all := [ShowEntry(show)] + EpisodeEntries(show, eps, 2);
      && |all| == |eps| + 1
      && all[0].cuid == show.id
      && (forall k :: 0 <= k < |eps| ==> all[k + 1].cuid == eps[k].id)
  {
    EpisodeEntriesSpec(show, eps, 2);
    var es := EpisodeEntries(show, eps, 2);
    var all := [ShowEntry(show)] + es;
    forall k | 0 <= k < |eps| ensures all[k + 1].cuid == eps[k].id {
      assert all[k + 1] == es[k];
    }
  }

  lemma ShowEpisodesLabels(show: Item, eps: seq<Item>)
    ensures var all := [ShowEntry(show)] + EpisodeEntries(show, eps, 2);
      forall k :: 0 <= k < |all| ==> all[k].session == Session && all[k].episode == EpisodeLabel(k + 1)
  {
    EpisodeEntriesSpec(show, eps, 2);
    var es := EpisodeEntries(show, eps, 2);
    var all := [ShowEntry(show)] + es;
    assert all[0] == ShowEntry(show);
    forall k | 1 <= k < |all|
      ensures all[k].session == Session && all[k].episode == EpisodeLabel(k + 1)
    {
      assert all[k] == es[k - 1];
      assert es[k - 1].episode == EpisodeLabel(2 + (k - 1));
    }
  }

  /** All shows of a category have the same number of episodes: one more than the category's
      kept episodes. */
  lemma ShowDataSameLength(content: Option<seq<Item>>, category: string)
    ensures var r := ShowData(content, category);
      forall i :: 0 <= i < |r| ==> |r[i].episodes| == 1 + |Kept(content.GetOr([]), ShowKinds, "episode")|
  {
    var items := content.GetOr([]);
    var shows, eps := Kept(items, ShowKinds, "show"), Kept(items, ShowKinds, "episode");
    ShowRecordsAt(shows, eps, category);
    forall i | 0 <= i < |shows| ensures |ShowRecord(shows[i], eps, category).episodes| == 1 + |eps| {
      ShowRecordSpec(shows[i], eps, category);
    }
  }

  /** `processShowData`. */
  method ProcessShowData(content: Option<seq<Item>>, category: string) returns (result: seq<Show>)
    ensures result == ShowData(content, category)
  {
    var items := if content.Some? then content.value else [];
    var shows, episodes := ScanItems(items);
    result := [];
    var s := 0;
    while s < |shows|
      invariant 0 <= s <= |shows|
      invariant result == ShowRecords(shows[..s], episodes, category)
    {
      var record := BuildShowRecord(shows[s], episodes, category);
      ShowRecordsPrefixStep(shows, s, episodes, category);
      result := result + [record];
      s := s + 1;
    }
    assert shows[..s] == shows;
  }

  /** The first loop of `processShowData`: shows and episodes whose id is new, in encounter order. */
  method ScanItems(items: seq<Item>) returns (shows: seq<Item>, episodes: seq<Item>)
    ensures shows == Kept(items, ShowKinds, "show") && episodes == Kept(items, ShowKinds, "episode")
  {
    shows, episodes := [], [];
    var processed: seq<int> := [];
    var i := 0;
    while i < |items|
      invariant 0 <= i <= |items|
      invariant processed == ProcessedIds(items[..i], ShowKinds)
      invariant shows == Kept(items[..i], ShowKinds, "show")
      invariant episodes == Kept(items[..i], ShowKinds, "episode")
    {
      var item := items[i];
      ScanStep(items, i, ShowKinds);
      if item.id !in processed {
        if item.itemType == "show" {
          shows := shows + [item];
          processed := processed + [item.id];
        } else if item.itemType == "episode" {
          episodes := episodes + [item];
          processed := processed + [item.id];
        }
      }
      i := i + 1;
    }
    assert items[..i] == items;
  }

  /** One more item: it is recorded, and kept under its own type, exactly when it is of the
      given kinds and its id has not been processed yet. */
  lemma ScanStep(items: seq<Item>, i: nat, kinds: set<string>)
    requires i < |items|
    ensures var pre, first := items[..i + 1], items[i].itemType in kinds && items[i].id !in ProcessedIds(items[..i], kinds);
      && ProcessedIds(pre, kinds) == ProcessedIds(items[..i], kinds) + (if first then [items[i].id] else [])
      && (forall ty :: Kept(pre, kinds, ty) == Kept(items[..i], kinds, ty) + (if first && items[i].itemType == ty then [items[i]] else []))
  {
    var pre := items[..i + 1];
    assert pre[..i] == items[..i];
    FirstOfIdLast(pre, kinds);
  }

  /** The body of the `foreach ($shows ...)` loop of `processShowData`: E01 for the show, then
      the category's episodes under a running counter. */
  method BuildShowRecord(show: Item, episodes: seq<Item>, category: string) returns (record: Show)
    ensures record == ShowRecord(show, episodes, category)
  {
    var counter := 1;
    var streamUrl := PickHigh(show.hls);
    var entries := [Episode(show.id, Session, EpisodeLabel(counter), Some(show.verticalImage.GetOr("")),
                            ExtractStreamId(streamUrl))];
    counter := counter + 1;
    var e := 0;
    while e < |episodes|
      invariant 0 <= e <= |episodes|
      invariant counter == e + 2
      invariant entries == [ShowEntry(show)] + EpisodeEntries(show, episodes[..e], 2)
    {
      var ep := episodes[e];
      var link := PickHigh(ep.hls);
      var image := if ep.verticalImage.Some? then ep.verticalImage else show.verticalImage;
      entries := entries + [Episode(ep.id, Session, EpisodeLabel(counter), image, ExtractStreamId(link))];
      NumberedPrefixStep((ep: Item, n: nat) => EpisodeEntry(show, ep, n), episodes, 2, e);
      counter := counter + 1;
      e := e + 1;
    }
    assert episodes[..e] == episodes;
    record := Show(show.title, category, CapitalizeSlug(show.slug.GetOr("")), entries);
  }

  // ---------------------------------------------------------------- processMovieData

  function MovieRecord(item: Item, category: string): Movie {
    Movie(item.id, item.title, category, CapitalizeSlug(item.slug.GetOr("")),
          item.verticalImage.GetOr(""), item.posterImage.GetOr(""), ItemStreamId(item))
  }

  /** `processMovieData`: one record per kept movie, in encounter order. */
  function MovieData(content: Option<seq<Item>>, category: string): seq<Movie> {
    var movies := Kept(content.GetOr([]), MovieKinds, "movie");
    seq(|movies|, i requires 0 <= i < |movies| => MovieRecord(movies[i], category))
  }

  /** Some movie of `items` has id `id`. */
  predicate IsMovieId(items: seq<Item>, id: int) {
    exists k :: 0 <= k < |items| && items[k].itemType == "movie" && items[k].id == id
  }

  /** Movie records carry distinct CUIDs, one per movie id of the response. */
  lemma MovieDataSpec(content: Option<seq<Item>>, category: string)
    ensures var r, items := MovieData(content, category), content.GetOr([]);
      && (forall p, q :: 0 <= p < q < |r| ==> r[p].cuid != r[q].cuid)
      && (forall p :: 0 <= p < |r| ==> r[p].category == category && IsMovieId(items, r[p].cuid))
      && (forall k :: 0 <= k < |items| && items[k].itemType == "movie" ==> exists p :: 0 <= p < |r| && r[p].cuid == items[k].id)
  {
    var items := content.GetOr([]);
    var r := MovieData(content, category);
    var kept := Kept(items, MovieKinds, "movie");
    assert |r| == |kept|;
    KeptDistinctIds(items, MovieKinds, "movie");
    assert forall p, q :: 0 <= p < q < |Kept(items, MovieKinds, "movie")| ==> Kept(items, MovieKinds, "movie")[p].id != Kept(items, MovieKinds, "movie")[q].id;
    forall p, q | 0 <= p < q < |r| ensures r[p].cuid != r[q].cuid {
      assert r[p].cuid == kept[p].id && r[q].cuid == kept[q].id;
    }
    MovieDataOrigins(content, category);
    forall k | 0 <= k < |items| && items[k].itemType == "movie"
      ensures exists p :: 0 <= p < |r| && r[p].cuid == items[k].id
    {
      var p := KeptMovieCovers(items, k);
      assert r[p] == MovieRecord(kept[p], category);
      assert 0 <= p < |r| && r[p].cuid == items[k].id;
    }
  }

  /** Each record has the category and the id of a movie of the response. */
  lemma MovieDataOrigins(content: Option<seq<Item>>, category: string)
    ensures var r, items := MovieData(content, category), content.GetOr([]);
      forall p :: 0 <= p < |r| ==> r[p].category == category && IsMovieId(items, r[p].cuid)
  {
    var items := content.GetOr([]);
    var r := MovieData(content, category);
    var kept := Kept(items, MovieKinds, "movie");
    assert |r| == |kept|;
    forall p | 0 <= p < |r|
      ensures r[p].category == category && IsMovieId(items, r[p].cuid)
    {
      var k := KeptMovieOrigin(items, p);
      assert r[p] == MovieRecord(kept[p], category);
    }
  }

  /** A kept movie is a movie of the response. */
  lemma KeptMovieOrigin(items: seq<Item>, p: nat) returns (k: nat)
    requires p < |Kept(items, MovieKinds, "movie")|
    ensures k < |items| && items[k].itemType == "movie" && items[k] == Kept(items, MovieKinds, "movie")[p]
  {
    KeptSpec(items, MovieKinds, "movie");
    var ps := KeptPositions(items, MovieKinds, "movie");
    k := ps[p];
    assert k in ps;
  }

  /** Every movie of the response has its id kept. */
  lemma KeptMovieCovers(items: seq<Item>, k: nat) returns (p: nat)
    requires k < |items| && items[k].itemType == "movie"
    ensures p < |Kept(items, MovieKinds, "movie")| && Kept(items, MovieKinds, "movie")[p].id == items[k].id
  {
    KeptSpec(items, MovieKinds, "movie");
    var ps := KeptPositions(items, MovieKinds, "movie");
    var k0 := FirstMovie(items, k);
    assert k0 in ps;
    p :| 0 <= p < |ps| && ps[p] == k0;
  }

  /** The first movie with the id of movie `k`: the one that passes the id test. */
  function FirstMovie(items: seq<Item>, k: nat): (k0: nat)
    requires k < |items| && items[k].itemType == "movie"
    ensures k0 <= k && items[k0].id == items[k].id && FirstOfId(items, k0, MovieKinds) && items[k0].itemType == "movie"
  {
    if FirstOfId(items, k, MovieKinds) then k
    else
      var j :| 0 <= j < k && items[j].itemType in MovieKinds && items[j].id == items[k].id;
      FirstMovie(items, j)
  }

  /** `processMovieData`. */
  method ProcessMovieData(content: Option<seq<Item>>, category: string) returns (movies: seq<Movie>)
    ensures movies == MovieData(content, category)
  {
    var items := if content.Some? then content.value else [];
    movies := [];
    var processed: seq<int> := [];
    ghost var kept: seq<Item> := [];
    var i := 0;
    while i < |items|
      invariant 0 <= i <= |items|
      invariant processed == ProcessedIds(items[..i], MovieKinds)
      invariant kept == Kept(items[..i], MovieKinds, "movie")
      invariant movies == seq(|kept|, k requires 0 <= k < |kept| => MovieRecord(kept[k], category))
    {
      var item := items[i];
      assert items[..i + 1][..i] == items[..i];
      FirstOfIdLast(items[..i + 1], MovieKinds);
      if item.itemType == "movie" && item.id !in processed {
        var streamUrl := PickHigh(item.hls);
        movies := movies + [Movie(item.id, item.title, category, CapitalizeSlug(item.slug.GetOr("")),
                                  item.verticalImage.GetOr(""), item.posterImage.GetOr(""), ExtractStreamId(streamUrl))];
        processed := processed + [item.id];
        kept := kept + [item];
      }
      i := i + 1;
    }
    assert items[..i] == items;
  }

  // ---------------------------------------------------------------- appendToJson, CUID mode

  /** A decoded JSON list as PHP holds it: row `i` under the integer key `i`. */
  function Indexed<V>(rows: seq<V>): (m: seq<(int, V)>)
    ensures |m| == |rows| && forall i :: 0 <= i < |m| ==> m[i].0 == i
    ensures forall i :: 0 <= i < |rows| ==> OrderedMap.Mentions(m, i)
  {
    var m := seq(|rows|, i requires 0 <= i < |rows| => (i, rows[i]));
    assert forall i :: 0 <= i < |rows| ==> OrderedMap.Mentions(m, i) by {
      forall i | 0 <= i < |rows| ensures OrderedMap.Mentions(m, i) {
        assert m[i].0 == i;
      }
    }
    m
  }

  function MovieCuid(m: Movie): int { m.cuid }

  /** `appendToJson($movies, ..., 'CUID')`: the loaded rows keep their position keys 0..n-1, each
      batch movie is assigned at the key equal to its CUID, and `array_values` saves the values in
      slot order. */
  function AppendByCuid(existing: seq<Movie>, batch: seq<Movie>): seq<Movie> {
    OrderedMap.Values(OrderedMap.PutAll(Indexed(existing), OrderedMap.KeyEach(batch, MovieCuid)))
  }

  /** Some batch movie has CUID `c`. */
  predicate InBatch(batch: seq<Movie>, c: int) {
    exists j :: 0 <= j < |batch| && batch[j].cuid == c
  }

  /** `v` is the last batch movie with its CUID. */
  ghost predicate LastOfCuid(batch: seq<Movie>, v: Movie) {
    exists j :: 0 <= j < |batch| && batch[j] == v && forall j' :: j < j' < |batch| ==> batch[j'].cuid != v.cuid
  }

  lemma MentionsInBatch(batch: seq<Movie>, c: int)
    ensures OrderedMap.Mentions(OrderedMap.KeyEach(batch, MovieCuid), c) <==> InBatch(batch, c)
  {
    var kvs := OrderedMap.KeyEach(batch, MovieCuid);
    if InBatch(batch, c) {
      var j :| 0 <= j < |batch| && batch[j].cuid == c;
      assert kvs[j].0 == c;
    }
  }

  lemma LastValueIsLastOfCuid(batch: seq<Movie>, c: int)
    requires InBatch(batch, c)
    ensures OrderedMap.Mentions(OrderedMap.KeyEach(batch, MovieCuid), c)
    ensures var v := OrderedMap.LastValue(OrderedMap.KeyEach(batch, MovieCuid), c); v.cuid == c && LastOfCuid(batch, v)
  {
    var kvs := OrderedMap.KeyEach(batch, MovieCuid);
    MentionsInBatch(batch, c);
    OrderedMap.LastValueSpec(kvs, c);
    var v := OrderedMap.LastValue(kvs, c);
    var j :| 0 <= j < |kvs| && kvs[j] == (c, v) && forall j' :: j < j' < |kvs| ==> kvs[j'].0 != c;
    assert batch[j] == v;
    forall j' | j < j' < |batch| ensures batch[j'].cuid != c {
      assert kvs[j'].0 == batch[j'].cuid;
    }
  }

  /** What the CUID-mode merge saves. A loaded row stays at its position unless some batch movie
      has that position as its CUID, in which case the last such movie takes its place. The
      other batch movies follow, one per CUID, each the last batch movie with that CUID. No
      loaded row is ever matched by its own CUID. */
  lemma AppendByCuidSpec(existing: seq<Movie>, batch: seq<Movie>)
    ensures var r := AppendByCuid(existing, batch);
      && |existing| <= |r| <= |existing| + |batch|
      && (forall i :: 0 <= i < |existing| && !InBatch(batch, i) ==> r[i] == existing[i])
      && (forall i :: 0 <= i < |existing| && InBatch(batch, i) ==> r[i].cuid == i && LastOfCuid(batch, r[i]))
      && (forall i :: |existing| <= i < |r| ==> !(0 <= r[i].cuid < |existing|) && LastOfCuid(batch, r[i]))
      && (forall p, q :: |existing| <= p < q < |r| ==> r[p].cuid != r[q].cuid)
      && (forall j :: 0 <= j < |batch| ==> exists i :: 0 <= i < |r| && r[i].cuid == batch[j].cuid)
  {
    var r := AppendByCuid(existing, batch);
    AppendByCuidSlots(existing, batch);
    AppendByCuidOld(existing, batch);
    AppendByCuidNew(existing, batch);
    forall j | 0 <= j < |batch| ensures exists i :: 0 <= i < |r| && r[i].cuid == batch[j].cuid {
      var i := AppendByCuidCovers(existing, batch, j);
    }
  }

  /** The merged list is the values of the assignments' result, slot for slot. */
  lemma AppendByCuidSlots(existing: seq<Movie>, batch: seq<Movie>)
    ensures var m, kvs, r := Indexed(existing), OrderedMap.KeyEach(batch, MovieCuid), AppendByCuid(existing, batch);
      var d := OrderedMap.PutAll(m, kvs);
      && OrderedMap.DistinctKeys(m) && |r| == |d| && |existing| <= |r| <= |existing| + |batch|
      && (forall i :: 0 <= i < |r| ==> r[i] == d[i].1)
      && (forall p, q :: |existing| <= p < q < |r| ==> d[p].0 != d[q].0)
  {
    var m, kvs := Indexed(existing), OrderedMap.KeyEach(batch, MovieCuid);
    assert OrderedMap.DistinctKeys(m);
    OrderedMap.PutAllSpec(m, kvs);
    OrderedMap.PutAllLength(m, kvs);
  }

  /** The loaded rows: replaced by the last batch movie with their position as CUID, else kept. */
  lemma AppendByCuidOld(existing: seq<Movie>, batch: seq<Movie>)
    ensures var r := AppendByCuid(existing, batch);
      && |existing| <= |r|
      && (forall i :: 0 <= i < |existing| && !InBatch(batch, i) ==> r[i] == existing[i])
      && (forall i :: 0 <= i < |existing| && InBatch(batch, i) ==> r[i].cuid == i && LastOfCuid(batch, r[i]))
  {
    var m, kvs := Indexed(existing), OrderedMap.KeyEach(batch, MovieCuid);
    var r := AppendByCuid(existing, batch);
    assert OrderedMap.DistinctKeys(m);
    OrderedMap.PutAllSpec(m, kvs);
    AppendByCuidSlots(existing, batch);
    forall i | 0 <= i < |existing| && !InBatch(batch, i) ensures r[i] == existing[i] {
      MentionsInBatch(batch, i);
    }
    forall i | 0 <= i < |existing| && InBatch(batch, i) ensures r[i].cuid == i && LastOfCuid(batch, r[i]) {
      MentionsInBatch(batch, i);
      LastValueIsLastOfCuid(batch, i);
    }
  }

  /** The appended rows: one per batch CUID that is not a position, each the last batch movie with it. */
  lemma AppendByCuidNew(existing: seq<Movie>, batch: seq<Movie>)
    ensures var r := AppendByCuid(existing, batch);
      && (forall i :: |existing| <= i < |r| ==> !(0 <= r[i].cuid < |existing|) && LastOfCuid(batch, r[i]))
      && (forall p, q :: |existing| <= p < q < |r| ==> r[p].cuid != r[q].cuid)
  {
    var m, kvs := Indexed(existing), OrderedMap.KeyEach(batch, MovieCuid);
    var d := OrderedMap.PutAll(m, kvs);
    var r := AppendByCuid(existing, batch);
    assert OrderedMap.DistinctKeys(m);
    OrderedMap.PutAllSpec(m, kvs);
    AppendByCuidSlots(existing, batch);
    forall i | |existing| <= i < |r| ensures !(0 <= r[i].cuid < |existing|) && LastOfCuid(batch, r[i]) && r[i].cuid == d[i].0 {
      var c := d[i].0;
      assert OrderedMap.Mentions(kvs, c) && !OrderedMap.Mentions(m, c);
      MentionsInBatch(batch, c);
      LastValueIsLastOfCuid(batch, c);
    }
  }

  /** Every batch CUID is in the merged list. */
  lemma AppendByCuidCovers(existing: seq<Movie>, batch: seq<Movie>, j: nat) returns (i: nat)
    requires j < |batch|
    ensures var r := AppendByCuid(existing, batch); i < |r| && r[i].cuid == batch[j].cuid
  {
    var m, kvs := Indexed(existing), OrderedMap.KeyEach(batch, MovieCuid);
    var d := OrderedMap.PutAll(m, kvs);
    var r := AppendByCuid(existing, batch);
    assert OrderedMap.DistinctKeys(m);
    OrderedMap.PutAllSpec(m, kvs);
    AppendByCuidSlots(existing, batch);
    var c := batch[j].cuid;
    MentionsInBatch(batch, c);
    LastValueIsLastOfCuid(batch, c);
    i := OrderedMap.Find(d, c);
    if i < |existing| {
      assert m[i].0 == c;
    }
    assert r[i].cuid == c;
  }

  /** A movie whose CUID is a position of the loaded list replaces the row at that position,
      whatever that row's own CUID. */
  lemma CuidOverwritesPosition(existing: seq<Movie>, movie: Movie)
    requires 0 <= movie.cuid < |existing|
    ensures AppendByCuid(existing, [movie]) == existing[movie.cuid := movie]
  {
    var m := Indexed(existing);
    assert OrderedMap.PutAll(m, OrderedMap.KeyEach([movie], MovieCuid)) == OrderedMap.Put(OrderedMap.PutAll(m, []), movie.cuid, movie);
    assert OrderedMap.Find(m, movie.cuid) == movie.cuid by {
      assert m[movie.cuid].0 == movie.cuid;
    }
  }

  /** The merge does not deduplicate across runs: when no CUID is small enough to be a position,
      saving the same batch a second time appends all its records again. */
  lemma CuidModeRepeats(batch: seq<Movie>)
    requires forall j :: 0 <= j < |batch| ==> batch[j].cuid >= |batch|
    ensures var once := AppendByCuid([], batch);
      AppendByCuid(once, batch) == once + once
  {
    var kvs := OrderedMap.KeyEach(batch, MovieCuid);
    var d := OrderedMap.PutAll([], kvs);
    var once := AppendByCuid([], batch);
    assert Indexed<Movie>([]) == [];
    OrderedMap.PutAllLength([], kvs);
    var m := Indexed(once);
    forall j | 0 <= j < |kvs| ensures !OrderedMap.Mentions(m, kvs[j].0) {
      var f := OrderedMap.Find(m, kvs[j].0);
    }
    OrderedMap.PutAllFresh(m, kvs);
    assert OrderedMap.Values(m + d) == once + once;
  }

  /** `appendToJson($movies, ..., 'CUID')` on the rows read from the file. */
  method AppendMovies(existing: seq<Movie>, newData: seq<Movie>) returns (saved: seq<Movie>)
    ensures saved == AppendByCuid(existing, newData)
  {
    var merged := Indexed(existing);
    var i := 0;
    while i < |newData|
      invariant 0 <= i <= |newData|
      invariant merged == OrderedMap.PutAll(Indexed(existing), OrderedMap.KeyEach(newData[..i], MovieCuid))
    {
      var item := newData[i];
      assert OrderedMap.KeyEach(newData[..i + 1], MovieCuid)[..i] == OrderedMap.KeyEach(newData[..i], MovieCuid);
      merged := OrderedMap.Put(merged, item.cuid, item);
      i := i + 1;
    }
    assert newData[..i] == newData;
    saved := OrderedMap.Values(merged);
  }

  // ---------------------------------------------------------------- appendToJson, Name mode

  /** The merge key of a show: its Name and its Category. */
  function Key(show: Show): (string, string) {
    (show.name, show.category)
  }

  /** The position of the first show with key `k`, or |m|: where the `foreach ... break` search
      stops. */
  function FirstWithKey(m: seq<Show>, k: (string, string)): (i: nat)
    ensures i <= |m|
    ensures i < |m| ==> Key(m[i]) == k
    ensures forall j :: 0 <= j < i ==> Key(m[j]) != k
  {
    if m == [] then 0 else if Key(m[0]) == k then 0 else 1 + FirstWithKey(m[1..], k)
  }

  predicate HasKey(m: seq<Show>, k: (string, string)) {
    FirstWithKey(m, k) < |m|
  }

  /** Show `i` is the first with its key. */
  predicate IsFirst(m: seq<Show>, i: int)
    requires 0 <= i < |m|
  {
    FirstWithKey(m, Key(m[i])) == i
  }

  /** One batch show: its episodes go to the end of the first show with its key, or the show is
      appended when there is none. */
  function AbsorbOne(m: seq<Show>, item: Show): seq<Show> {
    var i := FirstWithKey(m, Key(item));
    if i < |m| then m[i := m[i].(episodes := m[i].episodes + item.episodes)] else m + [item]
  }

  function AbsorbAll(m: seq<Show>, batch: seq<Show>): seq<Show> {
    if batch == [] then m else AbsorbOne(AbsorbAll(m, batch[..|batch| - 1]), batch[|batch| - 1])
  }

  /** The episodes of all batch shows with key `k`, in batch order. */
  function BatchEpisodes(batch: seq<Show>, k: (string, string)): seq<Episode> {
    if batch == [] then []
    else
      var last := batch[|batch| - 1];
      BatchEpisodes(batch[..|batch| - 1], k) + (if Key(last) == k then last.episodes else [])
  }

  function EpisodeCuid(e: Episode): int { e.cuid }

  /** `array_values($uniqueEpisodes)`. */
  function DedupEpisodes(eps: seq<Episode>): seq<Episode> {
    OrderedMap.Values(OrderedMap.Dedup(OrderedMap.KeyEach(eps, EpisodeCuid)))
  }

  function DedupShow(show: Show): Show {
    show.(episodes := DedupEpisodes(show.episodes))
  }

  function DedupShows(m: seq<Show>): (r: seq<Show>)
    ensures |r| == |m|
  {
    seq(|m|, i requires 0 <= i < |m| => DedupShow(m[i]))
  }

  /** `appendToJson($shows, ..., 'Name')`: absorb the batch show by show, then deduplicate the
      episodes of every show by CUID. */
  function AppendByName(existing: seq<Show>, batch: seq<Show>): seq<Show> {
    DedupShows(AbsorbAll(existing, batch))
  }

  // ---- facts about the search

  lemma {:induction false} FirstWithKeyAppend(m: seq<Show>, item: Show, k: (string, string))
    ensures HasKey(m, k) ==> FirstWithKey(m + [item], k) == FirstWithKey(m, k)
    ensures !HasKey(m, k) && Key(item) == k ==> FirstWithKey(m + [item], k) == |m|
    ensures !HasKey(m, k) && Key(item) != k ==> !HasKey(m + [item], k)
  {
    if m != [] && Key(m[0]) != k {
      assert (m + [item])[1..] == m[1..] + [item];
      FirstWithKeyAppend(m[1..], item, k);
    }
  }

  /** Two lists with the same keys position by position up to |m| find a key of `m` at the same
      place, and a key `m` lacks at |m| or later. */
  lemma FirstWithKeySameKeys(m: seq<Show>, r: seq<Show>, k: (string, string))
    requires |m| <= |r| && forall i :: 0 <= i < |m| ==> Key(r[i]) == Key(m[i])
    ensures HasKey(m, k) ==> FirstWithKey(r, k) == FirstWithKey(m, k)
    ensures !HasKey(m, k) ==> FirstWithKey(r, k) >= |m|
  {
    var f, g := FirstWithKey(m, k), FirstWithKey(r, k);
    if f < |m| {
      assert Key(r[f]) == k;
    }
  }

  lemma {:induction false} BatchEpisodesAbsent(batch: seq<Show>, k: (string, string))
    requires !HasKey(batch, k)
    ensures BatchEpisodes(batch, k) == []
  {
    if batch != [] {
      var init := batch[..|batch| - 1];
      assert batch == init + [batch[|batch| - 1]];
      FirstWithKeyAppend(init, batch[|batch| - 1], k);
      BatchEpisodesAbsent(init, k);
    }
  }

  // ---- the absorb loop

  /** Show `i` of `m` keeps its place and fields in `r`; if it is the first show with its key
      it gains the episodes of all batch shows with that key, in batch order. */
  ghost predicate OldShowAbsorbed(m: seq<Show>, batch: seq<Show>, r: seq<Show>, i: int)
    requires 0 <= i < |m| <= |r|
  {
    r[i] == m[i].(episodes := m[i].episodes + (if IsFirst(m, i) then BatchEpisodes(batch, Key(m[i])) else []))
  }

  /** Show `i` of `r` carries a batch key that `m` lacks, is the first show with it, and is the
      first batch show with that key holding the episodes of all batch shows with the key. */
  ghost predicate NewShowAbsorbed(m: seq<Show>, batch: seq<Show>, r: seq<Show>, i: int)
    requires 0 <= i < |r|
  {
    && !HasKey(m, Key(r[i])) && HasKey(batch, Key(r[i])) && IsFirst(r, i)
    && r[i] == batch[FirstWithKey(batch, Key(r[i]))].(episodes := BatchEpisodes(batch, Key(r[i])))
  }

  /** The shows after |m| come in the order of their keys' first batch shows. */
  ghost predicate NewShowsOrdered(m: seq<Show>, batch: seq<Show>, r: seq<Show>) {
    forall p, q :: |m| <= p < q < |r| ==> FirstWithKey(batch, Key(r[p])) < FirstWithKey(batch, Key(r[q]))
  }

  predicate BatchKeysPresent(batch: seq<Show>, r: seq<Show>) {
    forall j :: 0 <= j < |batch| ==> HasKey(r, Key(batch[j]))
  }

  /** What absorbing `batch` into `m` leaves in `r`: the shows of `m`, each absorbed as
      `OldShowAbsorbed` says, then the keys of the batch that `m` lacks, once each, as
      `NewShowAbsorbed` says and in the order of their first batch show; every key of the batch
      is present. */
  ghost predicate Absorbed(m: seq<Show>, batch: seq<Show>, r: seq<Show>) {
    && |m| <= |r|
    && (forall i :: 0 <= i < |m| ==> OldShowAbsorbed(m, batch, r, i))
    && (forall i :: |m| <= i < |r| ==> NewShowAbsorbed(m, batch, r, i))
    && NewShowsOrdered(m, batch, r)
    && BatchKeysPresent(batch, r)
  }

  lemma AbsorbedKeys(m: seq<Show>, batch: seq<Show>, r: seq<Show>)
    requires Absorbed(m, batch, r)
    ensures forall i :: 0 <= i < |m| ==> Key(r[i]) == Key(m[i])
  {
    forall i | 0 <= i < |m| ensures Key(r[i]) == Key(m[i]) {
      assert OldShowAbsorbed(m, batch, r, i);
    }
  }

  lemma BatchEpisodesAppend(b0: seq<Show>, b: Show, k: (string, string))
    ensures BatchEpisodes(b0 + [b], k) == BatchEpisodes(b0, k) + (if Key(b) == k then b.episodes else [])
  {
    assert (b0 + [b])[..|b0|] == b0;
  }

  lemma AbsorbFoundOld(m: seq<Show>, b0: seq<Show>, b: Show, r0: seq<Show>, i: nat)
    requires Absorbed(m, b0, r0) && HasKey(r0, Key(b)) && i < |m|
    ensures |AbsorbOne(r0, b)| == |r0| && OldShowAbsorbed(m, b0 + [b], AbsorbOne(r0, b), i)
  {
    var k, i0 := Key(b), FirstWithKey(r0, Key(b));
    assert OldShowAbsorbed(m, b0, r0, i);
    AbsorbedKeys(m, b0, r0);
    FirstWithKeySameKeys(m, r0, Key(m[i]));
    BatchEpisodesAppend(b0, b, Key(m[i]));
    if i == i0 {
      assert IsFirst(m, i);
    }
  }

  lemma AbsorbFoundNew(m: seq<Show>, b0: seq<Show>, b: Show, r0: seq<Show>, i: nat)
    requires Absorbed(m, b0, r0) && HasKey(r0, Key(b)) && |m| <= i < |r0|
    ensures |AbsorbOne(r0, b)| == |r0| && NewShowAbsorbed(m, b0 + [b], AbsorbOne(r0, b), i)
  {
    var r, batch := AbsorbOne(r0, b), b0 + [b];
    assert NewShowAbsorbed(m, b0, r0, i);
    var k := Key(r0[i]);
    assert Key(r[i]) == k;
    FirstWithKeyAppend(b0, b, k);
    BatchEpisodesAppend(b0, b, k);
    FirstWithKeySameKeys(r0, r, k);
  }

  lemma AbsorbStepFound(m: seq<Show>, b0: seq<Show>, b: Show, r0: seq<Show>)
    requires Absorbed(m, b0, r0) && HasKey(r0, Key(b))
    ensures Absorbed(m, b0 + [b], AbsorbOne(r0, b))
  {
    var batch, r := b0 + [b], AbsorbOne(r0, b);
    assert |r| == |r0|;
    forall i | 0 <= i < |m| ensures OldShowAbsorbed(m, batch, r, i) {
      AbsorbFoundOld(m, b0, b, r0, i);
    }
    forall i | |m| <= i < |r| ensures NewShowAbsorbed(m, batch, r, i) {
      AbsorbFoundNew(m, b0, b, r0, i);
    }
    AbsorbFoundOrdered(m, b0, b, r0);
    AbsorbFoundKeys(m, b0, b, r0);
  }

  lemma AbsorbFoundOrdered(m: seq<Show>, b0: seq<Show>, b: Show, r0: seq<Show>)
    requires Absorbed(m, b0, r0) && HasKey(r0, Key(b))
    ensures NewShowsOrdered(m, b0 + [b], AbsorbOne(r0, b))
  {
    var batch, r := b0 + [b], AbsorbOne(r0, b);
    forall p, q | |m| <= p < q < |r| ensures FirstWithKey(batch, Key(r[p])) < FirstWithKey(batch, Key(r[q])) {
      assert Key(r[p]) == Key(r0[p]) && Key(r[q]) == Key(r0[q]);
      assert NewShowAbsorbed(m, b0, r0, p) && NewShowAbsorbed(m, b0, r0, q);
      FirstWithKeyAppend(b0, b, Key(r0[p]));
      FirstWithKeyAppend(b0, b, Key(r0[q]));
    }
  }

  lemma AbsorbFoundKeys(m: seq<Show>, b0: seq<Show>, b: Show, r0: seq<Show>)
    requires Absorbed(m, b0, r0) && HasKey(r0, Key(b))
    ensures BatchKeysPresent(b0 + [b], AbsorbOne(r0, b))
  {
    var batch, r := b0 + [b], AbsorbOne(r0, b);
    forall j | 0 <= j < |batch| ensures HasKey(r, Key(batch[j])) {
      FirstWithKeySameKeys(r0, r, Key(batch[j]));
      if j < |b0| {
        assert batch[j] == b0[j];
      }
    }
  }

  lemma AbsorbAppendedOld(m: seq<Show>, b0: seq<Show>, b: Show, r0: seq<Show>, i: nat)
    requires Absorbed(m, b0, r0) && !HasKey(r0, Key(b)) && i < |m|
    ensures AbsorbOne(r0, b) == r0 + [b] && OldShowAbsorbed(m, b0 + [b], r0 + [b], i)
  {
    assert OldShowAbsorbed(m, b0, r0, i);
    AbsorbedKeys(m, b0, r0);
    assert Key(m[i]) != Key(b) by {
      FirstWithKeySameKeys(m, r0, Key(m[i]));
    }
    BatchEpisodesAppend(b0, b, Key(m[i]));
  }

  lemma AbsorbAppendedNew(m: seq<Show>, b0: seq<Show>, b: Show, r0: seq<Show>, i: nat)
    requires Absorbed(m, b0, r0) && !HasKey(r0, Key(b)) && |m| <= i < |r0|
    ensures NewShowAbsorbed(m, b0 + [b], r0 + [b], i)
  {
    var r := r0 + [b];
    assert NewShowAbsorbed(m, b0, r0, i);
    var k := Key(r0[i]);
    assert r[i] == r0[i];
    FirstWithKeyAppend(b0, b, k);
    BatchEpisodesAppend(b0, b, k);
    FirstWithKeyAppend(r0, b, k);
  }

  lemma AbsorbAppendedLast(m: seq<Show>, b0: seq<Show>, b: Show, r0: seq<Show>)
    requires Absorbed(m, b0, r0) && !HasKey(r0, Key(b))
    ensures NewShowAbsorbed(m, b0 + [b], r0 + [b], |r0|)
    ensures forall p :: |m| <= p < |r0| ==> FirstWithKey(b0 + [b], Key(r0[p])) < FirstWithKey(b0 + [b], Key(b))
  {
    var k := Key(b);
    AbsorbedKeys(m, b0, r0);
    FirstWithKeySameKeys(m, r0, k);
    forall j | 0 <= j < |b0| ensures Key(b0[j]) != k {
      assert HasKey(r0, Key(b0[j]));
    }
    BatchEpisodesAbsent(b0, k);
    FirstWithKeyAppend(b0, b, k);
    FirstWithKeyAppend(r0, b, k);
    BatchEpisodesAppend(b0, b, k);
    forall p | |m| <= p < |r0| ensures FirstWithKey(b0 + [b], Key(r0[p])) < FirstWithKey(b0 + [b], k) {
      assert NewShowAbsorbed(m, b0, r0, p);
      FirstWithKeyAppend(b0, b, Key(r0[p]));
    }
  }

  lemma AbsorbStepAppended(m: seq<Show>, b0: seq<Show>, b: Show, r0: seq<Show>)
    requires Absorbed(m, b0, r0) && !HasKey(r0, Key(b))
    ensures Absorbed(m, b0 + [b], AbsorbOne(r0, b))
  {
    var batch, r := b0 + [b], r0 + [b];
    assert AbsorbOne(r0, b) == r;
    forall i | 0 <= i < |m| ensures OldShowAbsorbed(m, batch, r, i) {
      AbsorbAppendedOld(m, b0, b, r0, i);
    }
    AbsorbAppendedLast(m, b0, b, r0);
    forall i | |m| <= i < |r| ensures NewShowAbsorbed(m, batch, r, i) {
      if i < |r0| {
        AbsorbAppendedNew(m, b0, b, r0, i);
      }
    }
    AbsorbAppendedOrdered(m, b0, b, r0);
    AbsorbAppendedKeys(m, b0, b, r0);
  }

  lemma AbsorbAppendedOrdered(m: seq<Show>, b0: seq<Show>, b: Show, r0: seq<Show>)
    requires Absorbed(m, b0, r0) && !HasKey(r0, Key(b))
    ensures NewShowsOrdered(m, b0 + [b], r0 + [b])
  {
    var batch, r := b0 + [b], r0 + [b];
    AbsorbAppendedLast(m, b0, b, r0);
    forall p, q | |m| <= p < q < |r| ensures FirstWithKey(batch, Key(r[p])) < FirstWithKey(batch, Key(r[q])) {
      if q < |r0| {
        assert NewShowAbsorbed(m, b0, r0, p) && NewShowAbsorbed(m, b0, r0, q);
        FirstWithKeyAppend(b0, b, Key(r0[p]));
        FirstWithKeyAppend(b0, b, Key(r0[q]));
      }
    }
  }

  lemma AbsorbAppendedKeys(m: seq<Show>, b0: seq<Show>, b: Show, r0: seq<Show>)
    requires Absorbed(m, b0, r0) && !HasKey(r0, Key(b))
    ensures BatchKeysPresent(b0 + [b], r0 + [b])
  {
    var batch, r := b0 + [b], r0 + [b];
    forall j | 0 <= j < |batch| ensures HasKey(r, Key(batch[j])) {
      FirstWithKeyAppend(r0, b, Key(batch[j]));
      if j < |b0| {
        assert batch[j] == b0[j];
      }
    }
  }

  /** The absorb loop leaves the shows as `Absorbed` describes. */
  lemma {:induction false} AbsorbAllSpec(m: seq<Show>, batch: seq<Show>)
    ensures Absorbed(m, batch, AbsorbAll(m, batch))
  {
    if batch == [] {
      forall i | 0 <= i < |m| ensures OldShowAbsorbed(m, batch, m, i) {
        assert m[i].episodes + [] == m[i].episodes;
      }
    } else {
      var b0, b := batch[..|batch| - 1], batch[|batch| - 1];
      assert batch == b0 + [b];
      AbsorbAllSpec(m, b0);
      var r0 := AbsorbAll(m, b0);
      if HasKey(r0, Key(b)) {
        AbsorbStepFound(m, b0, b, r0);
      } else {
        AbsorbStepAppended(m, b0, b, r0);
      }
    }
  }

  /** When every batch key is already present, absorbing only lengthens episode lists: the
      shows and their keys stay where they are. */
  lemma {:induction false} AbsorbKnownKeys(m: seq<Show>, batch: seq<Show>)
    requires BatchKeysPresent(batch, m)
    ensures var r := AbsorbAll(m, batch);
      |r| == |m| && forall i :: 0 <= i < |m| ==> Key(r[i]) == Key(m[i])
  {
    if batch != [] {
      var b0, b := batch[..|batch| - 1], batch[|batch| - 1];
      forall j | 0 <= j < |b0| ensures HasKey(m, Key(b0[j])) {
        assert b0[j] == batch[j];
      }
      AbsorbKnownKeys(m, b0);
      var r0 := AbsorbAll(m, b0);
      assert HasKey(m, Key(batch[|batch| - 1]));
      FirstWithKeySameKeys(m, r0, Key(b));
    }
  }

  // ---- the episode deduplication

  /** Position of the first episode with CUID `c`, or |eps|. */
  function FirstCuidAt(eps: seq<Episode>, c: int): (i: nat)
    ensures i <= |eps| && (i < |eps| ==> eps[i].cuid == c) && forall j :: 0 <= j < i ==> eps[j].cuid != c
  {
    var kvs := OrderedMap.KeyEach(eps, EpisodeCuid);
    var i := OrderedMap.Find(kvs, c);
    assert forall j :: 0 <= j < |eps| ==> kvs[j].0 == eps[j].cuid;
    i
  }

  /** `v` is the last episode of `eps` with its CUID. */
  ghost predicate LastOfEpisodeCuid(eps: seq<Episode>, v: Episode) {
    exists j :: 0 <= j < |eps| && eps[j] == v && forall j' :: j < j' < |eps| ==> eps[j'].cuid != v.cuid
  }

  /** The deduplicated list, keyed again by CUID, is the array `$uniqueEpisodes` itself. */
  lemma DedupEpisodesKeyed(eps: seq<Episode>)
    ensures OrderedMap.KeyEach(DedupEpisodes(eps), EpisodeCuid) == OrderedMap.Dedup(OrderedMap.KeyEach(eps, EpisodeCuid))
  {
    var d := OrderedMap.Dedup(OrderedMap.KeyEach(eps, EpisodeCuid));
    assert OrderedMap.KeyedBy<int, Episode>([], EpisodeCuid);
    OrderedMap.PutAllKeyedBy([], OrderedMap.KeyEach(eps, EpisodeCuid), EpisodeCuid);
    assert forall i :: 0 <= i < |d| ==> d[i].0 == EpisodeCuid(d[i].1);
  }

  /** Deduplicating, adding episodes and deduplicating again is deduplicating once. */
  lemma DedupEpisodesAbsorb(a: seq<Episode>, x: seq<Episode>)
    ensures DedupEpisodes(DedupEpisodes(a) + x) == DedupEpisodes(a + x)
  {
    DedupEpisodesKeyed(a);
    OrderedMap.KeyEachConcat(DedupEpisodes(a), x, EpisodeCuid);
    OrderedMap.KeyEachConcat(a, x, EpisodeCuid);
    OrderedMap.DedupAbsorbs(OrderedMap.KeyEach(a, EpisodeCuid), OrderedMap.KeyEach(x, EpisodeCuid));
  }

  /** Deduplicating a deduplicated list changes nothing. */
  lemma DedupEpisodesTwice(a: seq<Episode>)
    ensures DedupEpisodes(DedupEpisodes(a)) == DedupEpisodes(a)
  {
    DedupEpisodesAbsorb(a, []);
    assert DedupEpisodes(a) + [] == DedupEpisodes(a);
    assert a + [] == a;
  }

  /** Appending again episodes that already ended the list changes nothing after deduplication. */
  lemma DedupEpisodesRepeat(a: seq<Episode>, x: seq<Episode>)
    ensures DedupEpisodes(DedupEpisodes(a + x) + x) == DedupEpisodes(a + x)
  {
    DedupEpisodesAbsorb(a + x, x);
    OrderedMap.KeyEachConcat(a + x, x, EpisodeCuid);
    OrderedMap.KeyEachConcat(a, x, EpisodeCuid);
    OrderedMap.DedupRepeatedTail(OrderedMap.KeyEach(a, EpisodeCuid), OrderedMap.KeyEach(x, EpisodeCuid));
  }

  /** After deduplication no two episodes share a CUID, every CUID of the list is kept, each kept
      episode is the last one with its CUID, and the kept episodes come in the order in which
      their CUIDs first occur. */
  lemma DedupEpisodesSpec(eps: seq<Episode>)
    ensures var r := DedupEpisodes(eps);
      && (forall p, q :: 0 <= p < q < |r| ==> r[p].cuid != r[q].cuid)
      && (forall k :: 0 <= k < |eps| ==> exists p :: 0 <= p < |r| && r[p].cuid == eps[k].cuid)
      && (forall p :: 0 <= p < |r| ==> LastOfEpisodeCuid(eps, r[p]))
      && (forall p, q :: 0 <= p < q < |r| ==> FirstCuidAt(eps, r[p].cuid) < FirstCuidAt(eps, r[q].cuid))
  {
    var r := DedupEpisodes(eps);
    DedupEpisodesOrder(eps);
    forall k | 0 <= k < |eps| ensures exists p :: 0 <= p < |r| && r[p].cuid == eps[k].cuid {
      var p := DedupEpisodesCovers(eps, k);
    }
    DedupEpisodesLast(eps);
  }

  /** The slots of `$uniqueEpisodes` as `PutAllSpec` describes them, read back as episodes. */
  lemma DedupEpisodesSlots(eps: seq<Episode>)
    ensures var kvs, r := OrderedMap.KeyEach(eps, EpisodeCuid), DedupEpisodes(eps);
      var d := OrderedMap.Dedup(kvs);
      && OrderedMap.DistinctKeys(d) && |d| == |r|
      && (forall p :: 0 <= p < |r| ==> d[p] == (r[p].cuid, r[p]))
      && (forall c :: OrderedMap.Mentions(kvs, c) ==> OrderedMap.Mentions(d, c))
      && (forall p :: 0 <= p < |d| ==> OrderedMap.Mentions(kvs, d[p].0) && d[p].1 == OrderedMap.LastValue(kvs, d[p].0))
      && (forall p, q :: 0 <= p < q < |d| ==> OrderedMap.Find(kvs, d[p].0) < OrderedMap.Find(kvs, d[q].0))
  {
    var kvs := OrderedMap.KeyEach(eps, EpisodeCuid);
    OrderedMap.PutAllSpec([], kvs);
    DedupEpisodesKeyed(eps);
  }

  lemma DedupEpisodesOrder(eps: seq<Episode>)
    ensures var r := DedupEpisodes(eps);
      && (forall p, q :: 0 <= p < q < |r| ==> r[p].cuid != r[q].cuid)
      && (forall p, q :: 0 <= p < q < |r| ==> FirstCuidAt(eps, r[p].cuid) < FirstCuidAt(eps, r[q].cuid))
  {
    DedupEpisodesSlots(eps);
  }

  lemma DedupEpisodesCovers(eps: seq<Episode>, k: nat) returns (p: nat)
    requires k < |eps|
    ensures var r := DedupEpisodes(eps);
      p < |r| && r[p].cuid == eps[k].cuid
  {
    var kvs, r := OrderedMap.KeyEach(eps, EpisodeCuid), DedupEpisodes(eps);
    var d := OrderedMap.Dedup(kvs);
    DedupEpisodesSlots(eps);
    assert kvs[k].0 == eps[k].cuid;
    assert OrderedMap.Mentions(kvs, eps[k].cuid);
    p := OrderedMap.Find(d, eps[k].cuid);
    assert d[p].0 == r[p].cuid;
  }

  lemma DedupEpisodesLast(eps: seq<Episode>)
    ensures var r := DedupEpisodes(eps);
      forall p :: 0 <= p < |r| ==> LastOfEpisodeCuid(eps, r[p])
  {
    var kvs, r := OrderedMap.KeyEach(eps, EpisodeCuid), DedupEpisodes(eps);
    DedupEpisodesSlots(eps);
    forall p | 0 <= p < |r| ensures LastOfEpisodeCuid(eps, r[p]) {
      var c := r[p].cuid;
      OrderedMap.LastValueSpec(kvs, c);
      var j :| 0 <= j < |kvs| && kvs[j] == (c, OrderedMap.LastValue(kvs, c)) && forall j' :: j < j' < |kvs| ==> kvs[j'].0 != c;
      assert eps[j] == r[p];
      forall j' | j < j' < |eps| ensures eps[j'].cuid != c {
        assert kvs[j'].0 == eps[j'].cuid;
      }
    }
  }

  // ---- idempotence

  /** The episodes a show had before the merge: none for a show the merge appended. */
  function BaseEpisodes(existing: seq<Show>, i: nat): seq<Episode> {
    if i < |existing| then existing[i].episodes else []
  }

  /** After the absorb loop, each show holds its old episodes followed, for the first show of a
      key, by the batch's episodes of that key. */
  lemma AbsorbedEpisodesAt(existing: seq<Show>, batch: seq<Show>, i: nat)
    requires i < |AbsorbAll(existing, batch)|
    ensures var e1 := AbsorbAll(existing, batch);
      e1[i].episodes == BaseEpisodes(existing, i) + (if IsFirst(e1, i) then BatchEpisodes(batch, Key(e1[i])) else [])
  {
    var e1 := AbsorbAll(existing, batch);
    AbsorbAllSpec(existing, batch);
    if i < |existing| {
      assert OldShowAbsorbed(existing, batch, e1, i);
      AbsorbedKeys(existing, batch, e1);
      FirstWithKeySameKeys(existing, e1, Key(existing[i]));
      assert IsFirst(e1, i) == IsFirst(existing, i);
    } else {
      assert NewShowAbsorbed(existing, batch, e1, i);
      assert [] + BatchEpisodes(batch, Key(e1[i])) == BatchEpisodes(batch, Key(e1[i]));
    }
  }

  /** Deduplication keeps keys, so it keeps which show is the first of its key. */
  lemma DedupShowsFirst(m: seq<Show>, i: nat)
    requires i < |m|
    ensures Key(DedupShows(m)[i]) == Key(m[i]) && (IsFirst(DedupShows(m), i) <==> IsFirst(m, i))
  {
    var r := DedupShows(m);
    assert forall t :: 0 <= t < |m| ==> Key(r[t]) == Key(m[t]);
    FirstWithKeySameKeys(m, r, Key(m[i]));
  }

  /** One show of the second merge, deduplicated, is the show the first merge saved. */
  lemma NameModeTwiceAt(existing: seq<Show>, batch: seq<Show>, i: nat)
    requires i < |AppendByName(existing, batch)|
    requires |AbsorbAll(AppendByName(existing, batch), batch)| == |AppendByName(existing, batch)|
    ensures DedupShow(AbsorbAll(AppendByName(existing, batch), batch)[i]) == AppendByName(existing, batch)[i]
  {
    var e1 := AbsorbAll(existing, batch);
    var r := DedupShows(e1);
    var r2 := AbsorbAll(r, batch);
    AbsorbAllSpec(r, batch);
    assert OldShowAbsorbed(r, batch, r2, i);
    DedupShowsFirst(e1, i);
    AbsorbedEpisodesAt(existing, batch, i);
    var base, x := BaseEpisodes(existing, i), BatchEpisodes(batch, Key(e1[i]));
    if IsFirst(e1, i) {
      assert r2[i].episodes == DedupEpisodes(base + x) + x;
      DedupEpisodesRepeat(base, x);
    } else {
      assert base + [] == base;
      assert r2[i].episodes == DedupEpisodes(base) + [];
      assert DedupEpisodes(base) + [] == DedupEpisodes(base);
      DedupEpisodesTwice(base);
    }
  }

  /** Merging the same batch twice saves what merging it once saved. */
  lemma NameModeIdempotent(existing: seq<Show>, batch: seq<Show>)
    ensures AppendByName(AppendByName(existing, batch), batch) == AppendByName(existing, batch)
  {
    var e1 := AbsorbAll(existing, batch);
    var r := DedupShows(e1);
    AbsorbAllSpec(existing, batch);
    forall j | 0 <= j < |batch| ensures HasKey(r, Key(batch[j])) {
      FirstWithKeySameKeys(e1, r, Key(batch[j]));
    }
    AbsorbKnownKeys(r, batch);
    var r2 := AbsorbAll(r, batch);
    forall i | 0 <= i < |r| ensures DedupShows(r2)[i] == r[i] {
      NameModeTwiceAt(existing, batch, i);
    }
  }

  // ---- the method

  /** The search over `$mergedData` for one batch show and what follows it. */
  method AbsorbItem(merged: seq<Show>, item: Show) returns (r: seq<Show>)
    ensures r == AbsorbOne(merged, item)
  {
    var found := false;
    var j := 0;
    while j < |merged|
      invariant 0 <= j <= |merged|
      invariant forall t :: 0 <= t < j ==> Key(merged[t]) != Key(item)
    {
      if merged[j].name == item.name && merged[j].category == item.category {
        found := true;
        break;
      }
      j := j + 1;
    }
    if found {
      assert j == FirstWithKey(merged, Key(item));
      var eps := merged[j].episodes;
      var e := 0;
      while e < |item.episodes|
        invariant 0 <= e <= |item.episodes|
        invariant eps == merged[j].episodes + item.episodes[..e]
      {
        eps := eps + [item.episodes[e]];
        assert item.episodes[..e + 1] == item.episodes[..e] + [item.episodes[e]];
        e := e + 1;
      }
      assert item.episodes[..e] == item.episodes;
      r := merged[j := merged[j].(episodes := eps)];
    } else {
      assert FirstWithKey(merged, Key(item)) == |merged|;
      r := merged + [item];
    }
  }

  /** The `$uniqueEpisodes` loop and `array_values`. */
  method UniqueEpisodes(eps: seq<Episode>) returns (r: seq<Episode>)
    ensures r == DedupEpisodes(eps)
  {
    var unique: seq<(int, Episode)> := [];
    var k := 0;
    while k < |eps|
      invariant 0 <= k <= |eps|
      invariant unique == OrderedMap.PutAll([], OrderedMap.KeyEach(eps[..k], EpisodeCuid))
    {
      assert OrderedMap.KeyEach(eps[..k + 1], EpisodeCuid)[..k] == OrderedMap.KeyEach(eps[..k], EpisodeCuid);
      unique := OrderedMap.Put(unique, eps[k].cuid, eps[k]);
      k := k + 1;
    }
    assert eps[..k] == eps;
    r := OrderedMap.Values(unique);
  }

  /** `appendToJson($shows, ..., 'Name')` on the rows read from the file. */
  method AppendShows(existing: seq<Show>, newData: seq<Show>) returns (saved: seq<Show>)
    ensures saved == AppendByName(existing, newData)
  {
    var merged := existing;
    var i := 0;
    while i < |newData|
      invariant 0 <= i <= |newData|
      invariant merged == AbsorbAll(existing, newData[..i])
    {
      assert newData[..i + 1][..i] == newData[..i];
      merged := AbsorbItem(merged, newData[i]);
      i := i + 1;
    }
    assert newData[..i] == newData;
    ghost var absorbed := merged;
    var s := 0;
    while s < |merged|
      invariant 0 <= s <= |merged| == |absorbed|
      invariant forall t :: 0 <= t < s ==> merged[t] == DedupShow(absorbed[t])
      invariant forall t :: s <= t < |merged| ==> merged[t] == absorbed[t]
    {
      var unique := UniqueEpisodes(merged[s].episodes);
      merged := merged[s := merged[s].(episodes := unique)];
      s := s + 1;
    }
    saved := merged;
  }

  // ---------------------------------------------------------------- the run over the categories

  /** A decoded category response: its `status` and `data.content` (`None` when missing or not a
      list). A failed fetch or an undecodable body is `None` at the call site. */
  datatype Response = Response(status: bool, content: Option<seq<Item>>)

  /** A stored JSON file: missing, not holding a JSON array, or holding rows. */
  datatype JsonFile<T> = Missing | NotAList | Rows(rows: seq<T>)

  /** What `appendToJson` starts from: the rows of the file, or none. */
  function LoadedRows<T>(file: JsonFile<T>): seq<T> {
    if file.Rows? then file.rows else []
  }

  /** `$data && $data['status'] === true` */
  predicate Accepted(response: Option<Response>) {
    response.Some? && response.value.status
  }

  /** `$allShowData` after the loop over the (category, response) pairs. */
  function AllShowData(fetched: seq<(string, Option<Response>)>): seq<Show> {
    if fetched == [] then []
    else
      var last := fetched[|fetched| - 1];
      AllShowData(fetched[..|fetched| - 1])
        + (if Accepted(last.1) then ShowData(last.1.value.content, last.0) else [])
  }

  /** `$allMovieData` after the loop over the (category, response) pairs. */
  function AllMovieData(fetched: seq<(string, Option<Response>)>): seq<Movie> {
    if fetched == [] then []
    else
      var last := fetched[|fetched| - 1];
      AllMovieData(fetched[..|fetched| - 1])
        + (if Accepted(last.1) then MovieData(last.1.value.content, last.0) else [])
  }

  /** The shows file after a run: untouched when there is nothing to append. */
  function SaveShows(file: JsonFile<Show>, batch: seq<Show>): JsonFile<Show> {
    if batch == [] then file else Rows(AppendByName(LoadedRows(file), batch))
  }

  /** The movies file after a run: untouched when there is nothing to append. */
  function SaveMovies(file: JsonFile<Movie>, batch: seq<Movie>): JsonFile<Movie> {
    if batch == [] then file else Rows(AppendByCuid(LoadedRows(file), batch))
  }

  /** The top level of the script: shape every accepted response, then append the shows by name
      and the movies by CUID. */
  method Run(fetched: seq<(string, Option<Response>)>, showsFile: JsonFile<Show>, moviesFile: JsonFile<Movie>)
    returns (showsOut: JsonFile<Show>, moviesOut: JsonFile<Movie>)
    ensures showsOut == SaveShows(showsFile, AllShowData(fetched))
    ensures moviesOut == SaveMovies(moviesFile, AllMovieData(fetched))
  {
    var allShows: seq<Show> := [];
    var allMovies: seq<Movie> := [];
    var i := 0;
    while i < |fetched|
      invariant 0 <= i <= |fetched|
      invariant allShows == AllShowData(fetched[..i])
      invariant allMovies == AllMovieData(fetched[..i])
    {
      var (category, data) := fetched[i];
      assert fetched[..i + 1][..i] == fetched[..i];
      if data.Some? && data.value.status {
        var shows := ProcessShowData(data.value.content, category);
        var movies := ProcessMovieData(data.value.content, category);
        allShows := allShows + shows;
        allMovies := allMovies + movies;
      }
      i := i + 1;
    }
    assert fetched[..i] == fetched;
    showsOut := showsFile;
    if allShows != [] {
      var saved := AppendShows(LoadedRows(showsFile), allShows);
      showsOut := Rows(saved);
    }
    moviesOut := moviesFile;
    if allMovies != [] {
      var saved := AppendMovies(LoadedRows(moviesFile), allMovies);
      moviesOut := Rows(saved);
    }
  }

  /** Re-running on the same responses leaves the shows file as the first run saved it. */
  lemma ShowsRerunChangesNothing(file: JsonFile<Show>, fetched: seq<(string, Option<Response>)>)
    ensures var batch := AllShowData(fetched);
      SaveShows(SaveShows(file, batch), batch) == SaveShows(file, batch)
  {
    var batch := AllShowData(fetched);
    if batch != [] {
      NameModeIdempotent(LoadedRows(file), batch);
    }
  }

  /** Re-running on the same responses appends the movies a second time when no CUID is small
      enough to be a position of the stored list. */
  lemma MoviesRerunDuplicates(fetched: seq<(string, Option<Response>)>)
    requires var batch := AllMovieData(fetched);
      batch != [] && forall j :: 0 <= j < |batch| ==> batch[j].cuid >= |batch|
    ensures var batch := AllMovieData(fetched);
      var once := AppendByCuid([], batch);
      SaveMovies(SaveMovies(Missing, batch), batch) == Rows(once + once)
  {
    CuidModeRepeats(AllMovieData(fetched));
  }
}
