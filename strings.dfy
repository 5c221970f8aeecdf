/**
 * The Python string operations the race-header parser relies on:
 * `str.split(sep)`, `str.strip()`, `sep in s`, the regular-expression searches
 * `\d+` and `\d\.\d`, and the decimal rendering of an integer (`f"{n}"`).
 */
module Strings {
  import opened Wrappers

  /** `\d`: an ASCII decimal digit. */
  predicate IsDigit(c: char) { '0' <= c <= '9' }

  /** Python's `str.isspace` for one character: the characters `str.strip()` removes. */
  predicate IsSpace(c: char) {
    || ('\t' <= c <= '\r')                       // tab, line feed, vertical tab, form feed, carriage return
    || ('\U{001C}' <= c <= '\U{001F}')           // file, group, record and unit separators
    || c == ' ' || c == '\U{0085}' || c == '\U{00A0}' || c == '\U{1680}'
    || ('\U{2000}' <= c <= '\U{200A}')
    || c == '\U{2028}' || c == '\U{2029}' || c == '\U{202F}' || c == '\U{205F}' || c == '\U{3000}'
  }

  predicate AllSpace(s: string) { forall k :: 0 <= k < |s| ==> IsSpace(s[k]) }

  predicate AllDigits(s: string) { forall k :: 0 <= k < |s| ==> IsDigit(s[k]) }

  // ---------------------------------------------------------------------------
  // Substring search

  /** `pat` occurs in `s` starting at position `i`. */
  predicate OccursAt(s: string, pat: string, i: int) {
    0 <= i && i + |pat| <= |s| && s[i..i + |pat|] == pat
  }

  /** Python's `pat in s`. */
  predicate Contains(s: string, pat: string) {
    exists i :: 0 <= i <= |s| - |pat| && OccursAt(s, pat, i)
  }

  lemma OccursAtShift(s: string, pat: string, i: int)
    requires |s| > 0 && 0 <= i
    ensures OccursAt(s, pat, i + 1) <==> OccursAt(s[1..], pat, i)
  {
    if 0 <= i && i + 1 + |pat| <= |s| {
      assert s[1..][i..i + |pat|] == s[i + 1..i + 1 + |pat|];
    }
  }

  lemma OccursAtPrefix(s: string, pat: string, n: nat, i: int)
    requires n <= |s|
    requires OccursAt(s[..n], pat, i)
    ensures OccursAt(s, pat, i)
  {
    assert s[..n][i..i + |pat|] == s[i..i + |pat|];
  }

  lemma OccursAtSuffix(s: string, pat: string, n: nat, i: int)
    requires n <= |s|
    requires OccursAt(s[n..], pat, i)
    ensures OccursAt(s, pat, n + i)
  {
    assert s[n..][i..i + |pat|] == s[n + i..n + i + |pat|];
  }

  /** The position of the first occurrence of `pat` in `s` (Python's `s.find(pat)`, with `None` for -1). */
  function Find(s: string, pat: string): (r: Option<nat>)
    requires pat != []
    ensures r.None? <==> !Contains(s, pat)
    ensures r.Some? ==> OccursAt(s, pat, r.value)
    ensures r.Some? ==> forall i :: 0 <= i < r.value ==> !OccursAt(s, pat, i)
    decreases |s|
  {
    if |s| < |pat| then None
    else if s[..|pat|] == pat then assert OccursAt(s, pat, 0); Some(0)
    else
      var rest := Find(s[1..], pat);
      assert forall i :: 0 <= i ==> (OccursAt(s, pat, i + 1) <==> OccursAt(s[1..], pat, i)) by {
        forall i | 0 <= i ensures OccursAt(s, pat, i + 1) <==> OccursAt(s[1..], pat, i) { OccursAtShift(s, pat, i); }
      }
      assert !OccursAt(s, pat, 0);
      match rest
      case None =>
        assert !Contains(s, pat) by {
          forall i | 0 <= i <= |s| - |pat| ensures !OccursAt(s, pat, i) {
            if i > 0 { assert !OccursAt(s[1..], pat, i - 1); }
          }
        }
        None
      case Some(k) =>
        assert OccursAt(s, pat, k + 1);
        assert forall i :: 0 <= i < k + 1 ==> !OccursAt(s, pat, i) by {
          forall i | 0 <= i < k + 1 ensures !OccursAt(s, pat, i) {
            if i > 0 { assert !OccursAt(s[1..], pat, i - 1); }
          }
        }
        Some(k + 1)
  }

  // ---------------------------------------------------------------------------
  // split and join

  /** Python's `sep.join(parts)`. */
  function Join(parts: seq<string>, sep: string): string
    decreases |parts|
  {
    if |parts| == 0 then ""
    else if |parts| == 1 then parts[0]
    else parts[0] + sep + Join(parts[1..], sep)
  }

  /**
   * Python's `s.split(sep)` for a non-empty separator: the pieces between
   * non-overlapping occurrences of `sep`, scanned left to right.
   */
  function Split(s: string, sep: string): (parts: seq<string>)
    requires sep != []
    ensures |parts| >= 1
    ensures Join(parts, sep) == s
    ensures forall k :: 0 <= k < |parts| ==> Find(parts[k], sep).None?
    ensures Find(s, sep).Some? ==> parts[0] == s[..Find(s, sep).value]
    decreases |s|
  {
    match Find(s, sep)
    case None => [s]
    case Some(i) =>
      var rest := Split(s[i + |sep|..], sep);
      FirstPieceClean(s, sep, i);
      assert Find(s[..i], sep).None?;
      var parts := [s[..i]] + rest;
      assert parts[1..] == rest;
      assert forall k :: 0 < k < |parts| ==> parts[k] == rest[k - 1];
      assert Join(parts, sep) == s[..i] + sep + Join(rest, sep);
      assert s == s[..i] + sep + s[i + |sep|..];
      parts
  }

  lemma FirstPieceClean(s: string, sep: string, i: nat)
    requires sep != [] && i <= |s|
    requires forall j :: 0 <= j < i ==> !OccursAt(s, sep, j)
    ensures !Contains(s[..i], sep)
  {
    forall j | 0 <= j <= i - |sep| ensures !OccursAt(s[..i], sep, j) {
      if OccursAt(s[..i], sep, j) { OccursAtPrefix(s, sep, i, j); }
    }
  }

  /**
   * The text before the first occurrence of `sep`, or all of `s` when there is
   * none: the first piece of `s.split(sep)`.
   */
  function UpTo(s: string, sep: string): (r: string)
    requires sep != []
    ensures |r| <= |s| && r == s[..|r|]
    ensures Find(r, sep).None?
    ensures |r| == |s| || OccursAt(s, sep, |r|)
    ensures |r| == |s| <==> Find(s, sep).None?
    ensures Find(s, sep).Some? ==> |r| == Find(s, sep).value
  {
    match Find(s, sep)
    case None => s
    case Some(i) => FirstPieceClean(s, sep, i); assert Find(s[..i], sep).None?; s[..i]
  }

  /** The text after the first occurrence of `sep`. */
  function After(s: string, sep: string): (r: string)
    requires sep != [] && Contains(s, sep)
    ensures |r| + |sep| <= |s| && r == s[|s| - |r|..]
    ensures OccursAt(s, sep, |s| - |r| - |sep|)
    ensures forall j :: 0 <= j < |s| - |r| - |sep| ==> !OccursAt(s, sep, j)
  {
    s[Find(s, sep).value + |sep|..]
  }

  /** The first piece of `s.split(sep)` is the text before the first occurrence. */
  lemma SplitFirst(s: string, sep: string)
    requires sep != []
    ensures Split(s, sep)[0] == UpTo(s, sep)
  {
  }

  /** `s.split(sep)` has a second piece exactly when `sep` occurs in `s`. */
  lemma SplitCount(s: string, sep: string)
    requires sep != []
    ensures |Split(s, sep)| >= 2 <==> Contains(s, sep)
  {
  }

  /** The text between the first and the second occurrence of `sep` (or the end). */
  function SecondPiece(s: string, sep: string): string
    requires sep != [] && Contains(s, sep)
  {
    UpTo(After(s, sep), sep)
  }

  /** The second piece of `s.split(sep)` is the text between the first and the second occurrence. */
  lemma SplitSecond(s: string, sep: string)
    requires sep != [] && Contains(s, sep)
    ensures |Split(s, sep)| >= 2 && Split(s, sep)[1] == SecondPiece(s, sep)
  {
    SplitCount(s, sep);
  }

  lemma SplitUnfold(s: string, sep: string, i: nat)
    requires sep != []
    requires Find(s, sep) == Some(i)
    ensures Split(s, sep) == [s[..i]] + Split(s[i + |sep|..], sep)
  {
  }

  // ---------------------------------------------------------------------------
  // strip

  /** The number of whitespace characters at the front of `s`. */
  function LeadingSpace(s: string): (n: nat)
    ensures n <= |s| && AllSpace(s[..n])
    ensures n == |s| || !IsSpace(s[n])
    decreases |s|
  {
    if |s| > 0 && IsSpace(s[0]) then
      var n := LeadingSpace(s[1..]) + 1;
      assert s[..n] == [s[0]] + s[1..][..n - 1];
      n
    else 0
  }

  /**
   * Python's `s.lstrip()`: the suffix of `s` left after a run of whitespace,
   * which does not itself start with whitespace.
   */
  function LStrip(s: string): (r: string)
    ensures |r| <= |s| && r == s[|s| - |r|..] && AllSpace(s[..|s| - |r|])
    ensures r == [] || !IsSpace(r[0])
  {
    s[LeadingSpace(s)..]
  }

  /** Python's `s.rstrip()`. */
  function RStrip(s: string): (r: string)
    ensures |r| <= |s| && r == s[..|r|]
    ensures AllSpace(s[|r|..])
    ensures r == [] || !IsSpace(r[|r| - 1])
    decreases |s|
  {
    if |s| > 0 && IsSpace(s[|s| - 1]) then
      var r := RStrip(s[..|s| - 1]);
      assert s[..|s| - 1][..|r|] == s[..|r|];
      assert s[|r|..] == s[..|s| - 1][|r|..] + [s[|s| - 1]];
      r
    else s
  }

  /**
   * Python's `s.strip()`: `s` with its leading and trailing whitespace
   * removed. The result is the infix of `s` that starts after the leading
   * whitespace; everything after it is whitespace too, and it neither starts
   * nor ends with whitespace.
   */
  function Strip(s: string): (r: string)
    ensures var i := LeadingSpace(s);
      && i + |r| <= |s| && r == s[i..i + |r|] && AllSpace(s[i + |r|..])
    ensures r == [] || (!IsSpace(r[0]) && !IsSpace(r[|r| - 1]))
  {
    var i := LeadingSpace(s);
    var t := s[i..];
    var r := RStrip(t);
    assert t[..|r|] == s[i..i + |r|];
    assert t[|r|..] == s[i + |r|..];
    assert |r| > 0 ==> r[0] == t[0] == s[i];
    r
  }

  /** Stripping is idempotent. */
  lemma StripIdempotent(s: string)
    ensures Strip(Strip(s)) == Strip(s)
  {
    var t := Strip(s);
    assert LStrip(t) == t;
    assert RStrip(t) == t;
  }

  // ---------------------------------------------------------------------------
  // Regular-expression searches

  /** What `re.search` returns on success: where the match starts and its `.group()`. */
  datatype Match = Match(start: nat, group: string)

  /** The longest run of digits at the front of `s`. */
  function DigitRun(s: string): (r: string)
    ensures |r| <= |s| && r == s[..|r|] && AllDigits(r)
    ensures |r| == |s| || !IsDigit(s[|r|])
    decreases |s|
  {
    if |s| > 0 && IsDigit(s[0]) then
      var r := DigitRun(s[1..]);
      assert s[1..][..|r|] == s[1..1 + |r|];
      [s[0]] + r
    else []
  }

  /** The position of the first digit of `s`, or `|s|` when there is none. */
  function FirstDigit(s: string): (i: nat)
    ensures i <= |s| && (i == |s| || IsDigit(s[i]))
    ensures forall k :: 0 <= k < i ==> !IsDigit(s[k])
    decreases |s|
  {
    if |s| == 0 || IsDigit(s[0]) then 0
    else
      var i := FirstDigit(s[1..]) + 1;
      assert forall k :: 1 <= k < i ==> s[k] == s[1..][k - 1];
      i
  }

  /**
   * `re.search(r"\d+", s)`: the leftmost digit, and from it the longest run of
   * digits (the regex is greedy).
   */
  function SearchDigits(s: string): (m: Option<Match>)
    ensures m.None? <==> forall k :: 0 <= k < |s| ==> !IsDigit(s[k])
    ensures m.Some? ==>
      && m.value.start + |m.value.group| <= |s|
      && (forall k :: 0 <= k < m.value.start ==> !IsDigit(s[k]))
      && |m.value.group| >= 1 && AllDigits(m.value.group)
      && m.value.group == s[m.value.start..m.value.start + |m.value.group|]
      && (m.value.start + |m.value.group| == |s| || !IsDigit(s[m.value.start + |m.value.group|]))
  {
    var i := FirstDigit(s);
    if i == |s| then None
    else
      var run := DigitRun(s[i..]);
      assert s[i..][0] == s[i];
      assert run == s[i..i + |run|];
      assert i + |run| < |s| ==> s[i..][|run|] == s[i + |run|];
      Some(Match(i, run))
  }

  /** A digit, a full stop and a digit start at position `i` of `s`. */
  predicate DecimalAt(s: string, i: int) {
    0 <= i && i + 3 <= |s| && IsDigit(s[i]) && s[i + 1] == '.' && IsDigit(s[i + 2])
  }

  /** `re.search(r"\d\.\d", s)`: the leftmost digit-point-digit triple. */
  function SearchDecimal(s: string): (m: Option<Match>)
    ensures m.None? <==> forall k :: !DecimalAt(s, k)
    ensures m.Some? ==>
      && DecimalAt(s, m.value.start)
      && m.value.group == s[m.value.start..m.value.start + 3]
      && (forall k :: 0 <= k < m.value.start ==> !DecimalAt(s, k))
    decreases |s|
  {
    if |s| < 3 then None
    else if DecimalAt(s, 0) then Some(Match(0, s[..3]))
    else
      assert forall k :: DecimalAt(s, k + 1) <==> DecimalAt(s[1..], k);
      match SearchDecimal(s[1..])
      case None =>
        assert forall k :: !DecimalAt(s, k) by {
          forall k ensures !DecimalAt(s, k) {
            if k > 0 { assert !DecimalAt(s[1..], k - 1); }
          }
        }
        None
      case Some(m) =>
        assert s[1..][m.start..m.start + 3] == s[m.start + 1..m.start + 4];
        assert forall k :: 0 <= k < m.start + 1 ==> !DecimalAt(s, k) by {
          forall k | 0 <= k < m.start + 1 ensures !DecimalAt(s, k) {
            if k > 0 { assert !DecimalAt(s[1..], k - 1); }
          }
        }
        Some(Match(m.start + 1, m.group))
  }

  // ---------------------------------------------------------------------------
  // Decimal rendering of integers

  function DigitChar(d: nat): (c: char)
    requires d < 10
    ensures IsDigit(c)
  {
    ('0' as int + d) as char
  }

  function DigitValue(c: char): nat
    requires IsDigit(c)
  {
    (c as int - '0' as int) as nat
  }

  /** The number a string of decimal digits denotes (Python's `int(s)` on digits). */
  function DigitsValue(s: string): nat
    requires AllDigits(s)
    decreases |s|
  {
    if |s| == 0 then 0 else DigitsValue(s[..|s| - 1]) * 10 + DigitValue(s[|s| - 1])
  }

  /** The number a decimal numeral with an optional leading minus denotes (Python's `int(s)`). */
  function NumeralValue(s: string): int
    requires |s| > 0 && AllDigits(if s[0] == '-' then s[1..] else s)
  {
    if s[0] == '-' then -(DigitsValue(s[1..]) as int) else DigitsValue(s)
  }

  /** A numeral as `str` writes it: at least one digit, and no leading zero unless it is "0". */
  predicate Canonical(d: string) {
    |d| >= 1 && AllDigits(d) && (|d| > 1 ==> d[0] != '0')
  }

  /**
   * `str(n)` for a natural number: digits only, no leading zero, and reading
   * it back gives `n`.
   */
  function NatToString(n: nat): (r: string)
    ensures Canonical(r)
    ensures DigitsValue(r) == n
    decreases n
  {
    if n < 10 then [DigitChar(n)]
    else
      var r := NatToString(n / 10) + [DigitChar(n % 10)];
      assert r[..|r| - 1] == NatToString(n / 10);
      r
  }

  /** A digit string without a leading zero is the rendering of its value. */
  lemma {:induction false} NatToStringOfValue(d: string)
    requires Canonical(d)
    ensures NatToString(DigitsValue(d)) == d
    decreases |d|
  {
    var n := |d|;
    if n == 1 {
      assert d[..0] == [];
    } else {
      var p := d[..n - 1];
      assert p[0] == d[0];
      NatToStringOfValue(p);
      LeadingDigitPositive(p);
      var v := DigitsValue(d);
      assert v == DigitsValue(p) * 10 + DigitValue(d[n - 1]);
      assert v / 10 == DigitsValue(p) && v % 10 == DigitValue(d[n - 1]);
      assert d == p + [d[n - 1]];
    }
  }

  /** Digits that do not start with "0" denote a positive number. */
  lemma {:induction false} LeadingDigitPositive(d: string)
    requires |d| >= 1 && AllDigits(d) && d[0] != '0'
    ensures DigitsValue(d) >= 1
    decreases |d|
  {
    if |d| > 1 {
      assert d[..|d| - 1][0] == d[0];
      LeadingDigitPositive(d[..|d| - 1]);
    } else {
      assert d[..0] == [];
    }
  }

  /**
   * `f"{n}"` for an integer: a minus sign exactly for a negative number, then
   * the digits of its magnitude without a leading zero.
   */
  function IntToString(n: int): (r: string)
    ensures |r| >= 1 && (r[0] == '-' <==> n < 0)
    ensures Canonical(if n < 0 then r[1..] else r)
    ensures NumeralValue(r) == n
  {
    if n < 0 then
      var r := "-" + NatToString(-n);
      assert r[1..] == NatToString(-n);
      r
    else NatToString(n)
  }

  /** Distinct integers render as distinct strings. */
  lemma IntToStringInjective(a: int, b: int)
    requires IntToString(a) == IntToString(b)
    ensures a == b
  {
    assert NumeralValue(IntToString(a)) == NumeralValue(IntToString(b));
  }
}
