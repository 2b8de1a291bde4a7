/**
 * The JavaScript string operations the grid tool relies on: `String.prototype.trim`,
 * template-string rendering of integers, `Number(...)` on decimal integers,
 * `split` on a one-character separator and `toUpperCase` on ASCII text.
 */
module Text {
  import opened Wrappers

  // ---------------------------------------------------------------------------
  // trim()
  // ---------------------------------------------------------------------------

  /**
   * The characters `String.prototype.trim` removes, by code point: the
   * ECMAScript WhiteSpace code points (TAB, VT, FF, SP, NBSP, ZWNBSP and the
   * other space separators of category Zs) and the LineTerminator code points
   * (LF, CR, LS, PS).
   */
  predicate IsJsWhitespace(c: char) {
    var n := c as int;
    (0x09 <= n <= 0x0D) || n == 0x20 || n == 0xA0 || n == 0x1680 || (0x2000 <= n <= 0x200A) ||
    n == 0x2028 || n == 0x2029 || n == 0x202F || n == 0x205F || n == 0x3000 || n == 0xFEFF
  }

  predicate AllWhitespace(s: string) {
    forall i :: 0 <= i < |s| ==> IsJsWhitespace(s[i])
  }

  /** A string that `trim` leaves as it is: no whitespace at either end. */
  predicate IsTrimmed(s: string) {
    s == [] || (!IsJsWhitespace(s[0]) && !IsJsWhitespace(s[|s| - 1]))
  }

  /** The end of the run of whitespace that starts at position `i`. */
  function SpaceRunEnd(s: string, i: nat): (k: nat)
    requires i <= |s|
    ensures i <= k <= |s|
    ensures forall m :: i <= m < k ==> IsJsWhitespace(s[m])
    ensures k == |s| || !IsJsWhitespace(s[k])
    decreases |s| - i
  {
    if i < |s| && IsJsWhitespace(s[i]) then SpaceRunEnd(s, i + 1) else i
  }

  /** The start of the run of whitespace that ends at position `j`, looking back no further than `lo`. */
  function SpaceRunStart(s: string, lo: nat, j: nat): (k: nat)
    requires lo <= j <= |s|
    ensures lo <= k <= j
    ensures forall m :: k <= m < j ==> IsJsWhitespace(s[m])
    ensures k == lo || !IsJsWhitespace(s[k - 1])
    decreases j - lo
  {
    if lo < j && IsJsWhitespace(s[j - 1]) then SpaceRunStart(s, lo, j - 1) else j
  }

  /** Where the text `trim` keeps begins: after the leading whitespace. */
  function TrimFrom(s: string): (i: nat)
    ensures i <= |s|
  {
    SpaceRunEnd(s, 0)
  }

  /** Where the text `trim` keeps ends: before the trailing whitespace. */
  function TrimTo(s: string): (j: nat)
    ensures TrimFrom(s) <= j <= |s|
  {
    SpaceRunStart(s, TrimFrom(s), |s|)
  }

  /**
   * `s.trim()`: `s` without its leading and trailing whitespace. What is left
   * neither starts nor ends with whitespace, and is empty exactly when `s` is
   * all whitespace.
   */
  function Trim(s: string): (r: string)
    ensures IsTrimmed(r)
    ensures r == [] <==> AllWhitespace(s)
  {
    TrimKeepsNoSpaceAtEnds(s);
    TrimEmptyIff(s);
    s[TrimFrom(s)..TrimTo(s)]
  }

  lemma TrimKeepsNoSpaceAtEnds(s: string)
    ensures IsTrimmed(s[TrimFrom(s)..TrimTo(s)])
  {
    var i, j := TrimFrom(s), TrimTo(s);
    if i < j {
      assert s[i..j][0] == s[i];
      assert s[i..j][j - i - 1] == s[j - 1];
    }
  }

  lemma TrimEmptyIff(s: string)
    ensures TrimFrom(s) == TrimTo(s) <==> AllWhitespace(s)
  {
    var i, j := TrimFrom(s), TrimTo(s);
    if i < j {
      assert !IsJsWhitespace(s[i]);
    }
  }

  /** Everything `trim` drops is whitespace: the characters before and after what it keeps. */
  lemma TrimDropsOnlyWhitespace(s: string)
    ensures Trim(s) == s[TrimFrom(s)..TrimTo(s)]
    ensures forall m :: 0 <= m < TrimFrom(s) ==> IsJsWhitespace(s[m])
    ensures forall m :: TrimTo(s) <= m < |s| ==> IsJsWhitespace(s[m])
  {
  }

  lemma TrimOfTrimmed(s: string)
    requires IsTrimmed(s)
    ensures Trim(s) == s
  {
    if s != [] {
      assert TrimFrom(s) == 0;
      assert TrimTo(s) == |s|;
    }
  }

  /** Trimming twice is the same as trimming once. */
  lemma TrimIdempotent(s: string)
    ensures Trim(Trim(s)) == Trim(s)
  {
    TrimOfTrimmed(Trim(s));
  }

  // ---------------------------------------------------------------------------
  // Integers as template strings, and Number(...) on them
  // ---------------------------------------------------------------------------

  predicate IsDigit(c: char) {
    '0' <= c <= '9'
  }

  predicate AllDigits(s: string) {
    forall i :: 0 <= i < |s| ==> IsDigit(s[i])
  }

  function DigitChar(d: nat): (c: char)
    requires d < 10
    ensures IsDigit(c) && c as int - '0' as int == d
  {
    (('0' as int) + d) as char
  }

  /** The decimal digits of `n`, most significant first, with no leading zero. */
  function NatToString(n: nat): (s: string)
    ensures |s| >= 1 && AllDigits(s)
    ensures |s| > 1 ==> s[0] != '0'
  {
    if n < 10 then [DigitChar(n)] else NatToString(n / 10) + [DigitChar(n % 10)]
  }

  /** `${n}` for an integer `n`: its decimal digits, after a `-` when negative. */
  function IntToString(n: int): (s: string)
    ensures |s| >= 1
    ensures n < 0 <==> s[0] == '-'
    ensures n >= 0 ==> AllDigits(s)
    ensures n < 0 ==> AllDigits(s[1..])
  {
    if n < 0 then "-" + NatToString(-n) else NatToString(n)
  }

  /** The value of a string of decimal digits. */
  function DigitsValue(s: string): nat
    requires AllDigits(s)
  {
    if s == [] then 0 else DigitsValue(s[..|s| - 1]) * 10 + (s[|s| - 1] as int - '0' as int)
  }

  /** `Number(s)` on a non-empty string of digits; `None` (JavaScript's NaN) otherwise. */
  function ParseNat(s: string): (r: Option<nat>)
    ensures r.Some? <==> s != [] && AllDigits(s)
  {
    if s != [] && AllDigits(s) then Some(DigitsValue(s)) else None
  }

  /** `Number(s)` on an optionally negated decimal integer; `None` on anything else. */
  function ParseInt(s: string): (r: Option<int>)
    ensures r.Some? <==> (s != [] && s[0] != '-' && AllDigits(s)) || (|s| > 1 && s[0] == '-' && AllDigits(s[1..]))
  {
    if |s| > 0 && s[0] == '-' then
      match ParseNat(s[1..])
      case Some(n) => Some(-(n as int))
      case None => None
    else
      ParseNat(s)
  }

  lemma {:induction false} NatRoundTrip(n: nat)
    ensures DigitsValue(NatToString(n)) == n
  {
    if n >= 10 {
      var s := NatToString(n);
      assert s[..|s| - 1] == NatToString(n / 10);
      NatRoundTrip(n / 10);
    }
  }

  /** `Number(`${n}`)` gives back `n` for every integer, negatives included. */
  lemma IntRoundTrip(n: int)
    ensures ParseInt(IntToString(n)) == Some(n)
  {
    if n < 0 {
      NegativeRoundTrip(n);
    } else {
      assert IntToString(n) == NatToString(n);
      NatRoundTrip(n);
      assert ParseNat(NatToString(n)) == Some(n);
    }
  }

  lemma NegativeRoundTrip(n: int)
    requires n < 0
    ensures ParseInt(IntToString(n)) == Some(n)
  {
    var s := IntToString(n);
    assert s == "-" + NatToString(-n);
    assert s[1..] == NatToString(-n);
    NatRoundTrip(-n);
    assert ParseNat(s[1..]) == Some(-n);
  }

  /** A rendered integer contains no character other than digits and `-`. */
  lemma IntToStringChars(n: int, c: char)
    requires c in IntToString(n)
    ensures IsDigit(c) || c == '-'
  {
    var s := IntToString(n);
    var i :| 0 <= i < |s| && s[i] == c;
    if i > 0 && n < 0 {
      assert s[1..][i - 1] == c;
    }
  }

  // ---------------------------------------------------------------------------
  // split(sep)
  // ---------------------------------------------------------------------------

  /** `s.split(sep)`: the pieces between occurrences of `sep`, always at least one. */
  function Split(s: string, sep: char): (parts: seq<string>)
    ensures |parts| >= 1
    ensures sep !in s ==> parts == [s]
  {
    if s == [] then [""]
    else
      var rest := Split(s[1..], sep);
      assert s == [s[0]] + s[1..];
      if s[0] == sep then [""] + rest else [[s[0]] + rest[0]] + rest[1..]
  }

  /** Splitting at the first separator: the part before it is the first piece. */
  lemma {:induction false} SplitAtFirst(a: string, sep: char, b: string)
    requires sep !in a
    ensures Split(a + [sep] + b, sep) == [a] + Split(b, sep)
  {
    if a != [] {
      var s := a + [sep] + b;
      assert s[0] == a[0] && s[0] != sep;
      assert s[1..] == a[1..] + [sep] + b;
      SplitAtFirst(a[1..], sep, b);
      assert [a[0]] + a[1..] == a;
    } else {
      assert a + [sep] + b == [sep] + b;
    }
  }

  /**
   * The split of `s` at its first occurrence of `sep`: the text before it and
   * the text after it, or `None` when `sep` does not occur.
   */
  function SplitFirst(s: string, sep: char): (r: Option<(string, string)>)
    ensures r.None? <==> sep !in s
    ensures r.Some? ==> sep !in r.value.0 && s == r.value.0 + [sep] + r.value.1
  {
    if s == [] then None
    else if s[0] == sep then Some(([], s[1..]))
    else
      match SplitFirst(s[1..], sep)
      case None => None
      case Some(p) => Some(([s[0]] + p.0, p.1))
  }

  /** Splitting `a + [sep] + b` at the first `sep` gives back `a` and `b` when `a` has no `sep`. */
  lemma {:induction false} SplitFirstAt(a: string, sep: char, b: string)
    requires sep !in a
    ensures SplitFirst(a + [sep] + b, sep) == Some((a, b))
  {
    var s := a + [sep] + b;
    if a == [] {
      assert s == [sep] + b;
    } else {
      assert s[0] == a[0] && s[0] != sep;
      assert s[1..] == a[1..] + [sep] + b;
      SplitFirstAt(a[1..], sep, b);
      assert [a[0]] + a[1..] == a;
    }
  }

  // ---------------------------------------------------------------------------
  // toUpperCase()
  // ---------------------------------------------------------------------------

  function ToUpperChar(c: char): (u: char)
    ensures 'a' <= c <= 'z' ==> u as int == c as int - 32
    ensures !('a' <= c <= 'z') ==> u == c
  {
    if 'a' <= c <= 'z' then (c as int - 32) as char else c
  }

  /** `s.toUpperCase()` for ASCII text: lower-case letters become upper-case, nothing else changes. */
  function ToUpper(s: string): (r: string)
    ensures |r| == |s|
    ensures forall i :: 0 <= i < |s| ==> r[i] == ToUpperChar(s[i])
  {
    seq(|s|, i requires 0 <= i < |s| => ToUpperChar(s[i]))
  }
}
