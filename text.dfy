/**
 * The pieces of java.lang.String and java.lang.Integer that the parser and
 * the driver rely on: first-occurrence search, 32-bit integers, decimal
 * parsing and printing.
 */
module Text {
  import opened Wrappers

  // ---------------------------------------------------------------------
  // Searching

  /** `pat` occurs in `s` starting at position `k`. */
  predicate OccursAt(s: string, pat: string, k: nat) {
    k + |pat| <= |s| && s[k..k + |pat|] == pat
  }

  /** Java's `s.contains(pat)`, stated independently of any search. */
  ghost predicate Contains(s: string, pat: string) {
    exists k: nat :: OccursAt(s, pat, k)
  }

  /** Java's `s.indexOf(c)`: the first position holding `c`, if any. */
  function IndexOfChar(s: string, c: char): (r: Option<nat>)
    ensures r.None? <==> c !in s
    ensures r.Some? ==> r.value < |s| && s[r.value] == c && c !in s[..r.value]
  {
    if s == [] then None
    else if s[0] == c then Some(0)
    else match IndexOfChar(s[1..], c)
      case None => None
      case Some(k) =>
        assert s[..k + 1] == [s[0]] + s[1..][..k];
        Some(k + 1)
  }

  /** The first `c` in a text is found right after a prefix without `c`. */
  lemma {:induction false} IndexOfCharAfter(a: string, c: char, b: string)
    requires c !in a
    ensures IndexOfChar(a + [c] + b, c) == Some(|a|)
  {
    if a != [] {
      assert (a + [c] + b)[1..] == a[1..] + [c] + b;
      IndexOfCharAfter(a[1..], c, b);
    }
  }

  /** Java's `s.indexOf(pat)`: the first position where `pat` occurs, if any. */
  function IndexOf(s: string, pat: string): (r: Option<nat>)
    ensures r.None? <==> !Contains(s, pat)
    ensures r.Some? ==> OccursAt(s, pat, r.value)
    ensures r.Some? ==> forall k: nat :: k < r.value ==> !OccursAt(s, pat, k)
    decreases |s|
  {
    if |s| < |pat| then
      assert forall k: nat :: !OccursAt(s, pat, k);
      None
    else if s[..|pat|] == pat then
      assert OccursAt(s, pat, 0);
      Some(0)
    else
      assert !OccursAt(s, pat, 0);
      ShiftedOccurrence(s, pat);
      match IndexOf(s[1..], pat)
      case None => None
      case Some(k) =>
        forall j: nat | 0 < j < k + 1 ensures !OccursAt(s, pat, j) {
          assert !OccursAt(s[1..], pat, j - 1);
        }
        Some(k + 1)
  }

  /** An occurrence in `s[1..]` is an occurrence in `s` one position later. */
  lemma ShiftedOccurrence(s: string, pat: string)
    requires |s| > 0
    ensures forall k: nat :: OccursAt(s[1..], pat, k) <==> OccursAt(s, pat, k + 1)
    ensures !OccursAt(s, pat, 0) ==> (Contains(s, pat) <==> Contains(s[1..], pat))
  {
    forall k: nat ensures OccursAt(s[1..], pat, k) <==> OccursAt(s, pat, k + 1) {
      if k + |pat| <= |s| - 1 {
        assert s[1..][k..k + |pat|] == s[k + 1..k + 1 + |pat|];
      }
    }
    if !OccursAt(s, pat, 0) && Contains(s, pat) {
      var k: nat :| OccursAt(s, pat, k);
      assert k > 0;
      assert OccursAt(s[1..], pat, k - 1);
    }
  }

  /**
   * A three-character marker that starts with '/' and whose other characters
   * are not '/' is found right after a text that does not contain it: no
   * occurrence can straddle the join, because the marker has no proper
   * border.
   */
  lemma MarkerAfterText(desc: string, marker: string, tail: string)
    requires |marker| == 3 && marker[0] == '/' && marker[1] != '/' && marker[2] != '/'
    requires !Contains(desc, marker)
    ensures IndexOf(desc + marker + tail, marker) == Some(|desc|)
  {
    var s := desc + marker + tail;
    assert s[|desc|..|desc| + 3] == marker;
    assert OccursAt(s, marker, |desc|);
    forall k: nat | k < |desc| ensures !OccursAt(s, marker, k) {
      if k + 3 <= |desc| {
        assert s[k..k + 3] == desc[k..k + 3];
        assert !OccursAt(desc, marker, k);
      } else if k + 2 == |desc| {
        assert s[k + 2] == '/';
      } else {
        assert s[k + 1] == '/';
      }
    }
  }

  /** Text before the first occurrence of a pattern does not contain it. */
  lemma PrefixWithoutPattern(s: string, pat: string, p: nat)
    requires p <= |s| && |pat| > 0
    requires forall k: nat :: k < p ==> !OccursAt(s, pat, k)
    ensures !Contains(s[..p], pat)
  {
    forall k: nat ensures !OccursAt(s[..p], pat, k) {
      if k + |pat| <= p {
        assert s[..p][k..k + |pat|] == s[k..k + |pat|];
        assert !OccursAt(s, pat, k);
      }
    }
  }

  // ---------------------------------------------------------------------
  // 32-bit integers

  const IntMin: int := -0x8000_0000
  const IntMax: int := 0x7FFF_FFFF

  predicate IsInt32(x: int) { IntMin <= x <= IntMax }

  /** A Java `int`. */
  type Int32 = x: int | IsInt32(x)

  /** Java's two's-complement `int` arithmetic: the result modulo 2^32. */
  function Wrap32(x: int): (r: Int32)
    ensures (r - x) % 0x1_0000_0000 == 0
    ensures IsInt32(x) ==> r == x
    ensures x == IntMin - 1 ==> r == IntMax
  {
    (x - IntMin) % 0x1_0000_0000 + IntMin
  }

  // ---------------------------------------------------------------------
  // Decimal digits

  predicate IsDigit(c: char) { '0' <= c <= '9' }

  predicate AllDigits(s: string) { forall i :: 0 <= i < |s| ==> IsDigit(s[i]) }

  function DigitValue(c: char): (d: nat)
    requires IsDigit(c)
    ensures d < 10
  {
    (c as int) - ('0' as int)
  }

  function DigitChar(d: nat): (c: char)
    requires d < 10
    ensures IsDigit(c) && DigitValue(c) == d
  {
    ('0' as int + d) as char
  }

  /** The value of a string of decimal digits, most significant first. */
  function DigitsValue(s: string): nat
    requires AllDigits(s)
  {
    if s == [] then 0 else 10 * DigitsValue(s[..|s| - 1]) + DigitValue(s[|s| - 1])
  }

  /**
   * Java's `Integer.parseInt(s)`: an optional '-' or '+', then at least one
   * decimal digit, with a value that fits in an `int`; None stands for the
   * NumberFormatException. Leading zeros are allowed.
   */
  function ParseInt(s: string): (r: Option<Int32>)
    ensures r.Some? <==>
      || (s != [] && AllDigits(s) && DigitsValue(s) <= IntMax)
      || (|s| > 1 && s[0] == '+' && AllDigits(s[1..]) && DigitsValue(s[1..]) <= IntMax)
      || (|s| > 1 && s[0] == '-' && AllDigits(s[1..]) && DigitsValue(s[1..]) <= -IntMin)
    ensures r.Some? && AllDigits(s) ==> r.value == DigitsValue(s)
    ensures r.Some? && s[0] == '+' ==> r.value == DigitsValue(s[1..])
    ensures r.Some? && s[0] == '-' ==> r.value + DigitsValue(s[1..]) == 0
  {
    var signed := |s| > 0 && (s[0] == '-' || s[0] == '+');
    var digits := if signed then s[1..] else s;
    if digits == [] || !AllDigits(digits) then None
    else
      var magnitude: int := DigitsValue(digits);
      var v: int := if |s| > 0 && s[0] == '-' then -magnitude else magnitude;
      if IsInt32(v) then Some(v) else None
  }

  /** Decimal digits of a natural number, no leading zeros. */
  function NatToString(n: nat): (s: string)
    ensures |s| > 0 && IsDigit(s[0])
  {
    if n < 10 then [DigitChar(n)] else NatToString(n / 10) + [DigitChar(n % 10)]
  }

  /** Java's `Integer.toString(n)` (also what `n + ""` produces). */
  function IntToString(n: int): (s: string)
    ensures |s| > 0
  {
    if n < 0 then "-" + NatToString(-n) else NatToString(n)
  }

  lemma {:induction false} NatToStringValue(n: nat)
    ensures AllDigits(NatToString(n)) && DigitsValue(NatToString(n)) == n
  {
    var s := NatToString(n);
    if n >= 10 {
      NatToStringValue(n / 10);
      assert s[..|s| - 1] == NatToString(n / 10);
    }
  }

  /** Parsing what Java prints for an `int` gives that `int` back. */
  lemma ParseIntToString(n: Int32)
    ensures ParseInt(IntToString(n)) == Some(n)
  {
    var s := IntToString(n);
    if n < 0 {
      var m: nat := -(n as int);
      NatToStringValue(m);
      assert s[1..] == NatToString(m);
    } else {
      NatToStringValue(n);
    }
  }

  /** A leading zero does not change a digit string's value. */
  lemma {:induction false} DigitsValueLeadingZero(s: string)
    requires AllDigits(s)
    ensures AllDigits("0" + s) && DigitsValue("0" + s) == DigitsValue(s)
    decreases |s|
  {
    if s != [] {
      var t := "0" + s;
      assert t[..|t| - 1] == "0" + s[..|s| - 1];
      DigitsValueLeadingZero(s[..|s| - 1]);
    }
  }

  /** `parseInt` also takes an explicit '+' and leading zeros, which `toString` never prints. */
  lemma ParseIntOtherForms(n: Int32)
    ensures n >= 0 ==> ParseInt("+" + IntToString(n)) == Some(n)
    ensures ParseInt("0" + IntToString(n)) == if n >= 0 then Some(n) else None
    ensures ParseInt("-0") == Some(0)
  {
    var s := IntToString(n);
    ParseIntToString(n);
    if n >= 0 {
      assert ("+" + s)[1..] == s;
      DigitsValueLeadingZero(s);
    } else {
      assert ("0" + s)[1] == '-';
    }
    assert "-0"[1..] == "0" && "0"[..0] == [];
    assert DigitsValue("0") == 0;
  }
}
