/** The regular expressions the scrapers pass to `preg_match`, each written as a scanner,
    with lemmas that tie the scanner to what PCRE returns for the pattern: the match that
    starts leftmost, extended as far as a greedy quantifier goes or as little as a lazy one
    needs. Letters are compared as ASCII; `.` stops at a line feed, as PCRE's does without
    the `s` flag. */
module Patterns {
  import opened Php

  predicate DigitsIn(s: string, i: int, j: int)
    requires 0 <= i <= j <= |s|
  {
    forall k :: i <= k < j ==> IsDigit(s[k])
  }

  predicate NoNewline(s: string, i: int, j: int)
    requires 0 <= i <= j <= |s|
  {
    forall k :: i <= k < j ==> s[k] != '\n'
  }

  // ------------------------------------------------ `(\d+)` followed by a fixed marker

  /** One of `markers` starts at offset `e` of `s`. */
  predicate MarkerAt(s: string, e: int, markers: seq<string>) {
    exists m :: 0 <= m < |markers| && HasAt(s, e, markers[m])
  }

  /** The pattern `(\d+)(m1|m2|...)` matches with its digit group at `s[i..j]`. */
  predicate DigitsMarkerMatch(s: string, markers: seq<string>, i: int, j: int) {
    0 <= i < j <= |s| && DigitsIn(s, i, j) && MarkerAt(s, j, markers)
  }

  /** Every marker starts with something other than a digit, as `_tile_image`,
      `_vertical_image` and `_poster_image` do. */
  predicate NonDigitMarkers(markers: seq<string>) {
    forall m :: 0 <= m < |markers| ==> |markers[m]| > 0 && !IsDigit(markers[m][0])
  }

  /** The first offset, from `from` on, at which a marker starts right after a digit. */
  function FirstAnchor(s: string, markers: seq<string>, from: nat): (r: Option<nat>)
    requires 1 <= from
    ensures r.Some? ==> from <= r.value <= |s| && IsDigit(s[r.value - 1]) && MarkerAt(s, r.value, markers)
    ensures forall e :: from <= e <= |s| && (r.None? || e < r.value) ==>
              !(IsDigit(s[e - 1]) && MarkerAt(s, e, markers))
    decreases |s| + 1 - from
  {
    if from > |s| then None
    else if IsDigit(s[from - 1]) && MarkerAt(s, from, markers) then Some(from)
    else FirstAnchor(s, markers, from + 1)
  }

  /** The start of the run of digits that ends at offset `e`. */
  function RunStart(s: string, e: nat): (a: nat)
    requires e <= |s|
    ensures a <= e && DigitsIn(s, a, e) && (a == 0 || !IsDigit(s[a - 1]))
  {
    if e > 0 && IsDigit(s[e - 1]) then RunStart(s, e - 1) else e
  }

  /** Where the digit group of `(\d+)(m1|m2|...)` lies in `s`, if the pattern matches. */
  function DigitsMarkerSpan(s: string, markers: seq<string>): Option<(nat, nat)> {
    match FirstAnchor(s, markers, 1)
    case None => None
    case Some(e) => Some((RunStart(s, e), e))
  }

  /** `preg_match('/(\d+)(m1|m2|...)/', $s, $m); return $m[1] ?? null;` */
  function DigitsBeforeMarker(s: string, markers: seq<string>): Option<string> {
    match DigitsMarkerSpan(s, markers)
    case None => None
    case Some((i, j)) => if i <= j <= |s| then Some(s[i..j]) else None
  }

  /** The scanner finds the match PCRE reports: none when the pattern matches nowhere;
      otherwise the match with the leftmost start, whose digit group is as long as it can be. */
  lemma DigitsMarkerSpanIsLeftmostLongest(s: string, markers: seq<string>)
    requires NonDigitMarkers(markers)
    ensures DigitsMarkerSpan(s, markers).None? <==> forall i, j :: !DigitsMarkerMatch(s, markers, i, j)
    ensures DigitsMarkerSpan(s, markers).Some? ==>
      var (i, j) := DigitsMarkerSpan(s, markers).value;
      && DigitsMarkerMatch(s, markers, i, j)
      && (forall i', j' :: 0 <= i' < i ==> !DigitsMarkerMatch(s, markers, i', j'))
      && (forall j' :: j < j' ==> !DigitsMarkerMatch(s, markers, i, j'))
      && DigitsBeforeMarker(s, markers) == Some(s[i..j])
  {
    var first := FirstAnchor(s, markers, 1);
    forall i, j | DigitsMarkerMatch(s, markers, i, j)
      ensures first.Some? && first.value <= j
    {
      assert DigitsIn(s, i, j);
    }
    if first.Some? {
      var e := first.value;
      assert DigitsMarkerMatch(s, markers, RunStart(s, e), e);
      MarkerNotDigit(s, markers, e);
    }
  }

  /** Where a marker starts there is no digit, so a digit run stops there. */
  lemma MarkerNotDigit(s: string, markers: seq<string>, e: int)
    requires NonDigitMarkers(markers) && MarkerAt(s, e, markers)
    ensures 0 <= e < |s| && !IsDigit(s[e])
  {
    var m :| 0 <= m < |markers| && HasAt(s, e, markers[m]);
    assert s[e] == s[e..e + |markers[m]|][0];
  }

  /** What the digit group is: a non-empty run of digits, not preceded by a digit, that a
      marker follows; and there is one exactly when some marker follows a digit. */
  lemma DigitsBeforeMarkerShape(s: string, markers: seq<string>)
    requires NonDigitMarkers(markers)
    ensures DigitsBeforeMarker(s, markers).None? <==>
      forall e :: 1 <= e <= |s| ==> !(IsDigit(s[e - 1]) && MarkerAt(s, e, markers))
    ensures DigitsBeforeMarker(s, markers).Some? ==>
      var d := DigitsBeforeMarker(s, markers).value;
      && d != [] && AllDigits(d)
      && exists i :: HasAt(s, i, d) && MarkerAt(s, i + |d|, markers) && (i == 0 || !IsDigit(s[i - 1]))
  {
    var first := FirstAnchor(s, markers, 1);
    if first.Some? {
      var e := first.value;
      var a := RunStart(s, e);
      assert DigitsBeforeMarker(s, markers) == Some(s[a..e]);
      assert HasAt(s, a, s[a..e]);
    }
  }

  /** `_tile_image`, the marker of the series thumbnails. */
  const TileMarkers: seq<string> := ["_tile_image"]

  /** `(\d+)_(vertical|poster)_image`, the markers of the film posters. */
  const PosterMarkers: seq<string> := ["_vertical_image", "_poster_image"]

  /** `extractIdFromImageUrl` of the series scrapers: `/(\d+)_tile_image/`. */
  function TileImageId(url: string): Option<string> {
    DigitsBeforeMarker(url, TileMarkers)
  }

  /** `extractIdFromImageUrl` of the film scraper: `/(\d+)_(vertical|poster)_image/`. */
  function PosterImageId(url: string): Option<string> {
    DigitsBeforeMarker(url, PosterMarkers)
  }

  lemma MarkersStartWithUnderscore()
    ensures NonDigitMarkers(TileMarkers) && NonDigitMarkers(PosterMarkers)
  {
  }

  // ------------------------------------------------ `\/(\d+)\/`

  /** The pattern `\/(\d+)\/` matches with its slashes at offsets `i` and `j`. */
  predicate SlashDigitsMatch(s: string, i: int, j: int) {
    0 <= i && i + 1 < j < |s| && s[i] == '/' && DigitsIn(s, i + 1, j) && s[j] == '/'
  }

  /** The end of the run of digits that starts at offset `i`. */
  function RunEnd(s: string, i: nat): (e: nat)
    requires i <= |s|
    ensures i <= e <= |s| && DigitsIn(s, i, e) && (e == |s| || !IsDigit(s[e]))
    decreases |s| - i
  {
    if i < |s| && IsDigit(s[i]) then RunEnd(s, i + 1) else i
  }

  /** The run of digits from `i` ends at `e` and nowhere else. */
  lemma RunEndIsUnique(s: string, i: nat, e: nat)
    requires i <= e <= |s| && DigitsIn(s, i, e) && (e == |s| || !IsDigit(s[e]))
    ensures RunEnd(s, i) == e
    decreases e - i
  {
    if i < e {
      RunEndIsUnique(s, i + 1, e);
    }
  }

  /** The leftmost match of `\/(\d+)\/` that starts at `from` or later. */
  function SlashDigitsSpan(s: string, from: nat): (r: Option<(nat, nat)>)
    ensures r.Some? ==> from <= r.value.0 && SlashDigitsMatch(s, r.value.0, r.value.1)
    ensures forall i, j :: from <= i && (r.None? || i < r.value.0) ==> !SlashDigitsMatch(s, i, j)
    decreases |s| - from
  {
    if from >= |s| then None
    else
      var e := RunEnd(s, from + 1);
      if s[from] == '/' && from + 1 < e < |s| && s[e] == '/' then Some((from, e))
      else
        var r := SlashDigitsSpan(s, from + 1);
        assert forall j :: !SlashDigitsMatch(s, from, j) by {
          forall j | SlashDigitsMatch(s, from, j) ensures false {
            RunEndIsUnique(s, from + 1, j);
          }
        }
        r
  }

  /** `extractIdFromRedirectUrl`: `preg_match('/\/(\d+)\//', $u, $m); return $m[1] ?? null;` */
  function RedirectId(url: string): (r: Option<string>)
    ensures r.Some? ==> r.value != [] && AllDigits(r.value)
  {
    match SlashDigitsSpan(url, 0)
    case None => None
    case Some((i, j)) => Some(url[i + 1..j])
  }

  /** The id is the digits between the first pair of slashes that enclose nothing but
      digits, and there is none exactly when no such pair exists. */
  lemma RedirectIdIsFirstSlashSegment(url: string, i: nat, j: nat)
    requires SlashDigitsMatch(url, i, j)
    requires forall i', j' :: 0 <= i' < i ==> !SlashDigitsMatch(url, i', j')
    ensures RedirectId(url) == Some(url[i + 1..j])
  {
    RunEndIsUnique(url, i + 1, j);
  }

  lemma RedirectIdAbsent(url: string)
    ensures RedirectId(url).None? <==> forall i, j :: !SlashDigitsMatch(url, i, j)
  {
  }

  // ------------------------------------------------ `bloomberg\/(.+?)\.smil`

  const Bloomberg: string := "bloomberg/"
  const Smil: string := ".smil"

  /** The pattern `bloomberg\/(.+?)\.smil` matches from offset `i` with its group ending at `j`. */
  predicate StreamMatch(s: string, i: int, j: int) {
    0 <= i && i + |Bloomberg| < j && j + |Smil| <= |s| && HasAt(s, i, Bloomberg)
    && NoNewline(s, i + |Bloomberg|, j) && HasAt(s, j, Smil)
  }

  /** The first offset, from `j` on, where `.smil` starts, unless a line feed comes first. */
  function SmilFrom(s: string, start: nat, j: nat): (r: Option<nat>)
    requires start < j <= |s| + 1
    ensures r.Some? ==> j <= r.value && r.value + |Smil| <= |s|
    decreases |s| - j
  {
    if j + |Smil| > |s| then None
    else if s[j - 1] == '\n' then None
    else if HasAt(s, j, Smil) then Some(j)
    else SmilFrom(s, start, j + 1)
  }

  /** `SmilFrom` finds the first `.smil` with no line feed between `start` and it. */
  lemma {:induction false} SmilFromSpec(s: string, start: nat, j: nat)
    requires start < j <= |s| + 1 && NoNewline(s, start, j - 1)
    ensures var r := SmilFrom(s, start, j);
      && (r.Some? ==> NoNewline(s, start, r.value) && HasAt(s, r.value, Smil))
      && forall k :: j <= k && k + |Smil| <= |s| && (r.None? || k < r.value) ==>
           !(NoNewline(s, start, k) && HasAt(s, k, Smil))
    decreases |s| - j
  {
    if j + |Smil| > |s| {
    } else if s[j - 1] == '\n' {
      forall k | j <= k <= |s| ensures !NoNewline(s, start, k) {
        assert s[j - 1] == '\n';
      }
    } else if HasAt(s, j, Smil) {
    } else {
      SmilFromSpec(s, start, j + 1);
    }
  }

  /** The leftmost match of `bloomberg\/(.+?)\.smil` from `from` on, with the shortest group. */
  function StreamSpan(s: string, from: nat): (r: Option<(nat, nat)>)
    ensures r.Some? ==> from <= r.value.0 && r.value.0 + |Bloomberg| < r.value.1 <= |s|
    decreases |s| - from
  {
    if from + |Bloomberg| >= |s| then None
    else
      var found := if HasAt(s, from, Bloomberg) then SmilFrom(s, from + |Bloomberg|, from + |Bloomberg| + 1) else None;
      if found.Some? then Some((from, found.value))
      else StreamSpan(s, from + 1)
  }

  /** `StreamSpan` is a match; no match starts between `from` and it, and none from the same
      start has a shorter group. */
  lemma {:induction false} StreamSpanSpec(s: string, from: nat)
    ensures var r := StreamSpan(s, from);
      && (r.Some? ==> StreamMatch(s, r.value.0, r.value.1))
      && (r.Some? ==> forall j :: j < r.value.1 ==> !StreamMatch(s, r.value.0, j))
      && forall i, j :: from <= i && (r.None? || i < r.value.0) ==> !StreamMatch(s, i, j)
    decreases |s| - from
  {
    if from + |Bloomberg| < |s| {
      var a := from + |Bloomberg|;
      if HasAt(s, from, Bloomberg) {
        SmilFromSpec(s, a, a + 1);
      }
      var found := if HasAt(s, from, Bloomberg) then SmilFrom(s, a, a + 1) else None;
      if found.None? {
        StreamSpanSpec(s, from + 1);
      }
    }
  }

  /** `extractStreamId`: the group of `bloomberg\/(.+?)\.smil`, or `''` without a match. */
  function ExtractStreamId(url: string): string {
    match StreamSpan(url, 0)
    case None => ""
    case Some((i, j)) => url[i + |Bloomberg|..j]
  }

  /** `''` exactly when the pattern matches nowhere; otherwise the non-empty text, on one line,
      between the leftmost `bloomberg/` that has a match and the nearest `.smil` after it. */
  lemma ExtractStreamIdSpec(url: string)
    ensures ExtractStreamId(url) == "" <==> forall i, j :: !StreamMatch(url, i, j)
    ensures ExtractStreamId(url) != "" ==>
      exists i, j :: StreamMatch(url, i, j) && ExtractStreamId(url) == url[i + |Bloomberg|..j]
        && (forall i', j' :: 0 <= i' < i ==> !StreamMatch(url, i', j'))
        && (forall j' :: j' < j ==> !StreamMatch(url, i, j'))
  {
    var r := StreamSpan(url, 0);
    StreamSpanSpec(url, 0);
    if r.Some? {
      var (i, j) := r.value;
      assert |url[i + |Bloomberg|..j]| > 0;
    }
  }

  // ------------------------------------------------ `Location: (.*)` and `Location:\s*(.*)`, caseless

  /** `s` holds `p` at offset `at`, ASCII letters compared without regard to case (`p` is in
      lower case). */
  predicate HasAtIgnoringCase(s: string, at: int, p: string) {
    0 <= at && at + |p| <= |s| && forall k :: 0 <= k < |p| ==> LowerChar(s[at + k]) == p[k]
  }

  /** The first offset, from `from` on, of a caseless occurrence of `p`. */
  function FirstCaseless(s: string, p: string, from: nat): (r: Option<nat>)
    ensures r.Some? ==> from <= r.value && HasAtIgnoringCase(s, r.value, p)
    ensures forall i :: from <= i && (r.None? || i < r.value) ==> !HasAtIgnoringCase(s, i, p)
    decreases |s| - from
  {
    if from + |p| > |s| then None
    else if HasAtIgnoringCase(s, from, p) then Some(from)
    else FirstCaseless(s, p, from + 1)
  }

  /** Where `.*` stops when it starts at `i`: the next line feed, or the end. */
  function LineEnd(s: string, i: nat): (e: nat)
    requires i <= |s|
    ensures i <= e <= |s| && NoNewline(s, i, e) && (e == |s| || s[e] == '\n')
    decreases |s| - i
  {
    if i < |s| && s[i] != '\n' then LineEnd(s, i + 1) else i
  }

  /** The line from `i` ends at `e` and nowhere else. */
  lemma LineEndIsUnique(s: string, i: nat, e: nat)
    requires i <= e <= |s| && NoNewline(s, i, e) && (e == |s| || s[e] == '\n')
    ensures LineEnd(s, i) == e
    decreases e - i
  {
    if i < e {
      LineEndIsUnique(s, i + 1, e);
    }
  }

  /** PCRE's `\s`: space, tab, line feed, vertical tab, form feed, carriage return. */
  predicate IsPcreSpace(c: char) {
    c == ' ' || c == '\t' || c == '\n' || c == '\U{B}' || c == '\U{C}' || c == '\r'
  }

  /** Where `\s*` stops when it starts at `i`. */
  function SpaceEnd(s: string, i: nat): (e: nat)
    requires i <= |s|
    ensures i <= e <= |s| && (forall k :: i <= k < e ==> IsPcreSpace(s[k]))
    ensures e == |s| || !IsPcreSpace(s[e])
    decreases |s| - i
  {
    if i < |s| && IsPcreSpace(s[i]) then SpaceEnd(s, i + 1) else i
  }

  /** The white space from `i` ends at `e` and nowhere else. */
  lemma SpaceEndIsUnique(s: string, i: nat, e: nat)
    requires i <= e <= |s| && (forall k :: i <= k < e ==> IsPcreSpace(s[k]))
    requires e == |s| || !IsPcreSpace(s[e])
    ensures SpaceEnd(s, i) == e
    decreases e - i
  {
    if i < e {
      SpaceEndIsUnique(s, i + 1, e);
    }
  }

  const LocationSpaced: string := "location: "
  const LocationBare: string := "location:"

  /** The redirect target `getRedirectUrl` reads from a probe response (`false` when the
      transfer failed, which `preg_match` sees as the empty string):
      `preg_match('/Location: (.*)/i', ...) ? trim($m[1]) : $url`. */
  function PickLocation(response: Option<string>, url: string): string {
    var s := response.GetOr("");
    match FirstCaseless(s, LocationSpaced, 0)
    case None => url
    case Some(i) => Trim(s[i + |LocationSpaced|..LineEnd(s, i + |LocationSpaced|)])
  }

  /** The variant of `scrape_series.php`: `/Location:\s*(.*)/i`, which lets any run of white
      space, line feeds included, stand between the colon and the value. */
  function PickLocationSpaced(response: Option<string>, url: string): string {
    var s := response.GetOr("");
    match FirstCaseless(s, LocationBare, 0)
    case None => url
    case Some(i) =>
      var b := SpaceEnd(s, i + |LocationBare|);
      Trim(s[b..LineEnd(s, b)])
  }

  /** With the first caseless `Location: ` at `i`, the pick is the rest of that line, trimmed. */
  lemma PickLocationValue(s: string, url: string, i: nat, e: nat)
    requires HasAtIgnoringCase(s, i, LocationSpaced)
    requires forall i' :: 0 <= i' < i ==> !HasAtIgnoringCase(s, i', LocationSpaced)
    requires i + |LocationSpaced| <= e <= |s| && NoNewline(s, i + |LocationSpaced|, e)
    requires e == |s| || s[e] == '\n'
    ensures PickLocation(Some(s), url) == Trim(s[i + |LocationSpaced|..e])
  {
    var f := FirstCaseless(s, LocationSpaced, 0);
    assert f == Some(i);
    LineEndIsUnique(s, i + |LocationSpaced|, e);
  }

  /** Without a caseless `Location: ` anywhere (or without a response), the probed URL comes back. */
  lemma PickLocationFallback(response: Option<string>, url: string)
    requires forall i :: !HasAtIgnoringCase(response.GetOr(""), i, LocationSpaced)
    ensures PickLocation(response, url) == url
  {
    assert FirstCaseless(response.GetOr(""), LocationSpaced, 0).None?;
  }

  /** With the first caseless `Location:` at `i`, the pick skips every white-space character
      after the colon, line feeds included, and trims the rest of the line it lands on. */
  lemma PickLocationSpacedValue(s: string, url: string, i: nat, b: nat, e: nat)
    requires HasAtIgnoringCase(s, i, LocationBare)
    requires forall i' :: 0 <= i' < i ==> !HasAtIgnoringCase(s, i', LocationBare)
    requires i + |LocationBare| <= b <= e <= |s|
    requires forall k :: i + |LocationBare| <= k < b ==> IsPcreSpace(s[k])
    requires b == |s| || !IsPcreSpace(s[b])
    requires NoNewline(s, b, e) && (e == |s| || s[e] == '\n')
    ensures PickLocationSpaced(Some(s), url) == Trim(s[b..e])
  {
    var f := FirstCaseless(s, LocationBare, 0);
    assert f == Some(i);
    SpaceEndIsUnique(s, i + |LocationBare|, b);
    LineEndIsUnique(s, b, e);
  }

  lemma PickLocationSpacedFallback(response: Option<string>, url: string)
    requires forall i :: !HasAtIgnoringCase(response.GetOr(""), i, LocationBare)
    ensures PickLocationSpaced(response, url) == url
  {
    assert FirstCaseless(response.GetOr(""), LocationBare, 0).None?;
  }
}
