/** The handful of PHP value rules and string routines the scrapers lean on:
    null, truthiness, `empty`, `strtolower`/`ucwords` (ASCII letters only),
    `trim`, `sprintf("E%02d", n)`, and which string keys PHP turns into
    integers. */
module Php {

  /** A PHP value that may be `null`. */
  datatype Option<T> = None | Some(value: T) {
    /** `$v ?? $default` */
    function GetOr(default: T): T {
      match this
      case Some(v) => v
      case None => default
    }
  }

  predicate IsDigit(c: char) { '0' <= c <= '9' }

  predicate AllDigits(s: string) {
    forall i :: 0 <= i < |s| ==> IsDigit(s[i])
  }

  /** `if ($v)` for a value that is a string or null: null, "" and "0" are false. */
  predicate Truthy(v: Option<string>) {
    v.Some? && v.value != "" && v.value != "0"
  }

  /** `empty($s)` for a string. */
  predicate IsEmpty(s: string) {
    s == "" || s == "0"
  }

  /** `s` holds `p` at offset `at`. */
  predicate HasAt(s: string, at: int, p: string) {
    0 <= at && at + |p| <= |s| && s[at..at + |p|] == p
  }

  // ---------------------------------------------------------------- casing

  function LowerChar(c: char): char {
    if 'A' <= c <= 'Z' then (c as int + 32) as char else c
  }

  function UpperChar(c: char): char {
    if 'a' <= c <= 'z' then (c as int - 32) as char else c
  }

  /** `strtolower` on ASCII letters. */
  function StrToLower(s: string): (r: string)
    ensures |r| == |s|
  {
    seq(|s|, i requires 0 <= i < |s| => LowerChar(s[i]))
  }

  /** The default word separators of `ucwords`: space, tab, CR, LF, form feed, vertical tab. */
  predicate IsWordSeparator(c: char) {
    c == ' ' || c == '\t' || c == '\r' || c == '\n' || c == '\U{C}' || c == '\U{B}'
  }

  /** `ucwords`: upper-cases the first character and every character that follows a separator. */
  function UcWords(s: string): (r: string)
    ensures |r| == |s|
  {
    seq(|s|, i requires 0 <= i < |s| =>
      if i == 0 || IsWordSeparator(s[i - 1]) then UpperChar(s[i]) else s[i])
  }

  /** `ucwords(strtolower($s))`, the casing step shared by the series name and the slug. */
  function TitleCase(s: string): (r: string)
    ensures |r| == |s|
  {
    UcWords(StrToLower(s))
  }

  /** Two strings that agree up to the case of ASCII letters. */
  predicate SameIgnoringCase(a: string, b: string) {
    |a| == |b| && forall i :: 0 <= i < |a| ==> LowerChar(a[i]) == LowerChar(b[i])
  }

  /** Casing forgets the case of the input: inputs that differ only in ASCII letter case
      give the same name. */
  lemma TitleCaseIgnoresCase(a: string, b: string)
    requires SameIgnoringCase(a, b)
    ensures TitleCase(a) == TitleCase(b)
  {
    assert StrToLower(a) == StrToLower(b);
  }

  /** Applying the casing step a second time changes nothing. */
  lemma TitleCaseIdempotent(s: string)
    ensures TitleCase(TitleCase(s)) == TitleCase(s)
  {
    var t := TitleCase(s);
    forall i | 0 <= i < |s|
      ensures LowerChar(t[i]) == LowerChar(s[i])
    {
    }
    assert StrToLower(t) == StrToLower(s);
  }

  // ---------------------------------------------------------------- trim

  /** The characters `trim` strips by default: space, tab, LF, CR, NUL, vertical tab. */
  predicate IsTrimmed(c: char) {
    c == ' ' || c == '\t' || c == '\n' || c == '\r' || c == '\0' || c == '\U{B}'
  }

  /** The first index at or after `i` whose character `trim` keeps, or |s|. */
  function TrimStart(s: string, i: nat): (a: nat)
    requires i <= |s|
    ensures i <= a <= |s|
    ensures forall k :: i <= k < a ==> IsTrimmed(s[k])
    ensures a < |s| ==> !IsTrimmed(s[a])
    decreases |s| - i
  {
    if i < |s| && IsTrimmed(s[i]) then TrimStart(s, i + 1) else i
  }

  /** The last index at or before `j`, and not below `lo`, just after a character `trim` keeps. */
  function TrimEnd(s: string, lo: nat, j: nat): (b: nat)
    requires lo <= j <= |s|
    ensures lo <= b <= j
    ensures forall k :: b <= k < j ==> IsTrimmed(s[k])
    ensures b > lo ==> !IsTrimmed(s[b - 1])
    decreases j
  {
    if j > lo && IsTrimmed(s[j - 1]) then TrimEnd(s, lo, j - 1) else j
  }

  /** `trim($s)`: the text between the leading and the trailing run of stripped characters. */
  function Trim(s: string): (r: string)
  {
    var a := TrimStart(s, 0);
    s[a..TrimEnd(s, a, |s|)]
  }

  /** What `trim` returns: `s` with only stripped characters removed at both ends, and neither
      end of the result strippable. */
  lemma TrimSpec(s: string)
    ensures var a, b := TrimStart(s, 0), TrimEnd(s, TrimStart(s, 0), |s|);
      && Trim(s) == s[a..b]
      && (forall k :: 0 <= k < a ==> IsTrimmed(s[k]))
      && (forall k :: b <= k < |s| ==> IsTrimmed(s[k]))
      && (Trim(s) != [] ==> !IsTrimmed(Trim(s)[0]) && !IsTrimmed(Trim(s)[|Trim(s)| - 1]))
  {
  }

  // ---------------------------------------------------------------- numbers

  /** The value of a string of decimal digits. */
  function DecimalValue(s: string): nat
    requires AllDigits(s)
  {
    if s == [] then 0 else 10 * DecimalValue(s[..|s| - 1]) + (s[|s| - 1] as int - '0' as int)
  }

  const PhpIntMax: nat := 9223372036854775807

  /** A string that PHP turns into an integer when it is used as an array key:
      "0", or an optional minus sign and digits without a leading zero, within the
      range of a 64-bit integer ("-0" stays a string). */
  predicate IsIntegerKey(s: string) {
    || s == "0"
    || (|s| > 0 && '1' <= s[0] <= '9' && AllDigits(s) && DecimalValue(s) <= PhpIntMax)
    || (|s| > 1 && s[0] == '-' && '1' <= s[1] <= '9' && AllDigits(s[1..])
        && DecimalValue(s[1..]) <= PhpIntMax + 1)
  }

  function DigitChar(d: nat): char
    requires d < 10
  {
    ('0' as int + d) as char
  }

  /** The decimal representation of `n`, without leading zeros. */
  function Decimal(n: nat): (r: string)
    ensures |r| > 0 && AllDigits(r)
    ensures n >= 10 ==> r[0] != '0'
  {
    if n < 10 then [DigitChar(n)] else Decimal(n / 10) + [DigitChar(n % 10)]
  }

  /** The representation reads back as the number. */
  lemma {:induction false} DecimalValueOf(n: nat)
    ensures DecimalValue(Decimal(n)) == n
  {
    var r := Decimal(n);
    if n < 10 {
      assert r[..0] == [];
    } else {
      DecimalValueOf(n / 10);
      assert r[..|r| - 1] == Decimal(n / 10);
    }
  }

  /** `sprintf("E%02d", $n)`: "E" and the number, zero-padded to two digits. */
  function EpisodeLabel(n: nat): (r: string)
    ensures |r| >= 3 && r[0] == 'E'
  {
    "E" + (if n < 10 then "0" + Decimal(n) else Decimal(n))
  }

  /** After "E" come digits that read back as the number, with a leading zero exactly when it
      is below ten. */
  lemma EpisodeLabelSpec(n: nat)
    ensures var r := EpisodeLabel(n);
      && (r[1] == '0' <==> n < 10)
      && AllDigits(r[1..]) && DecimalValue(r[1..]) == n
  {
    var d := EpisodeLabel(n)[1..];
    DecimalValueOf(n);
    if n < 10 {
      assert d == "0" + Decimal(n) && d[..1] == "0" && d[..1][..0] == [];
    } else {
      assert d == Decimal(n);
    }
  }

  /** Different numbers get different labels. */
  lemma EpisodeLabelInjective(m: nat, n: nat)
    requires EpisodeLabel(m) == EpisodeLabel(n)
    ensures m == n
  {
    EpisodeLabelSpec(m);
    EpisodeLabelSpec(n);
  }

  /** The number of elements of `xs` that `p` holds of. */
  function CountWhere<T>(xs: seq<T>, p: T -> bool): nat {
    if xs == [] then 0 else CountWhere(xs[..|xs| - 1], p) + (if p(xs[|xs| - 1]) then 1 else 0)
  }

  lemma {:induction false} CountWhereAtMost<T>(xs: seq<T>, p: T -> bool)
    ensures CountWhere(xs, p) <= |xs|
  {
    if xs != [] {
      CountWhereAtMost(xs[..|xs| - 1], p);
    }
  }

  /** A value that is there (not `null`). */
  predicate IsSome<T>(v: Option<T>) {
    v.Some?
  }

  // Sequence facts the scraper proofs use, stated once for any element type so that they are proved
  // away from the scrapers' definitions.

  lemma SnocInit<T>(s: seq<T>, x: T)
    ensures (s + [x])[..|s|] == s
  {
  }

  lemma ConcatNothing<T>(s: seq<T>)
    ensures [] + s == s && s + [] == s
  {
  }

  lemma ConcatSuffix<T>(a: seq<T>, b: seq<T>)
    ensures (a + b)[|a|..] == b
  {
  }

  lemma TwoAppended<T>(a: seq<T>, x: T, y: T)
    ensures var s := a + [x] + [y];
      |s| == |a| + 2 && s[|a|] == x && s[|a| + 1] == y
  {
  }
}
