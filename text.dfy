/** String operations the research tools and the guardrail rely on, written
    out over `seq<char>`: Python's substring test `p in s`, ASCII upper-casing
    (`str.upper()` restricted to ASCII) and the decimal text of an integer
    (what an f-string field `{n}` prints for an `int`). */
module Text {

  import opened Wrappers

  // ---------------------------------------------------------------------
  // Substrings
  // ---------------------------------------------------------------------

  /** `p` occurs in `s` starting at index `i`. */
  predicate OccursAt(s: string, p: string, i: int) {
    0 <= i && i + |p| <= |s| && s[i..i + |p|] == p
  }

  lemma OccursShift(s: string, p: string, i: int)
    requires |s| > 0 && 0 <= i
    ensures OccursAt(s[1..], p, i) <==> OccursAt(s, p, i + 1)
  {
    if 0 <= i && i + 1 + |p| <= |s| {
      assert s[1..][i..i + |p|] == s[i + 1..i + 1 + |p|];
    }
  }

  /** Python's `p in s` on strings, searched left to right. */
  function Contains(s: string, p: string): (b: bool)
    ensures b <==> exists i :: OccursAt(s, p, i)
    decreases |s|
  {
    if |p| > |s| then
      assert forall i :: !OccursAt(s, p, i);
      false
    else if s[..|p|] == p then
      assert OccursAt(s, p, 0);
      true
    else
      assert !OccursAt(s, p, 0);
      assert forall i | 0 <= i :: OccursAt(s[1..], p, i) <==> OccursAt(s, p, i + 1) by {
        forall i | 0 <= i ensures OccursAt(s[1..], p, i) <==> OccursAt(s, p, i + 1) {
          OccursShift(s, p, i);
        }
      }
      assert (exists i :: OccursAt(s, p, i)) ==> exists i :: OccursAt(s[1..], p, i) by {
        if exists i :: OccursAt(s, p, i) {
          var i :| OccursAt(s, p, i);
          assert OccursAt(s[1..], p, i - 1);
        }
      }
      Contains(s[1..], p)
  }

  /** The middle part of a concatenation occurs in it right after the first part. */
  lemma ContainsInfix(a: string, t: string, b: string)
    ensures OccursAt(a + t + b, t, |a|)
    ensures Contains(a + t + b, t)
  {
    assert (a + t + b)[|a|..|a| + |t|] == t;
    assert OccursAt(a + t + b, t, |a|);
  }

  // ---------------------------------------------------------------------
  // ASCII upper-casing
  // ---------------------------------------------------------------------

  predicate IsAsciiLower(c: char) {
    'a' <= c <= 'z'
  }

  /** `str.upper()` on one character, for ASCII: `a`..`z` become `A`..`Z`,
      every other character is left as it is. */
  function UpperChar(c: char): char {
    if IsAsciiLower(c) then (c as int - 32) as char else c
  }

  /** `str.upper()` restricted to ASCII, character by character: no
      lower-case letter is left, each one becomes its capital, and every other
      character stays where and what it was. */
  function ToUpper(s: string): (u: string)
    ensures |u| == |s|
    ensures forall i :: 0 <= i < |u| ==> !IsAsciiLower(u[i])
    ensures forall i :: 0 <= i < |s| && IsAsciiLower(s[i]) ==> u[i] as int == s[i] as int - 32
    ensures forall i :: 0 <= i < |s| && !IsAsciiLower(s[i]) ==> u[i] == s[i]
  {
    seq(|s|, i requires 0 <= i < |s| => UpperChar(s[i]))
  }

  /** Upper-casing works character by character, so it commutes with slicing. */
  lemma ToUpperSlice(s: string, i: int, j: int)
    requires 0 <= i <= j <= |s|
    ensures ToUpper(s)[i..j] == ToUpper(s[i..j])
  {
  }

  /** Two strings that differ only in the case of ASCII letters. */
  predicate EqualIgnoringCase(s: string, t: string) {
    ToUpper(s) == ToUpper(t)
  }

  // ---------------------------------------------------------------------
  // Decimal text of integers
  // ---------------------------------------------------------------------

  predicate IsDigit(c: char) {
    '0' <= c <= '9'
  }

  function DigitChar(d: int): (c: char)
    requires 0 <= d < 10
    ensures IsDigit(c)
  {
    ('0' as int + d) as char
  }

  function DigitValue(c: char): (d: int)
    requires IsDigit(c)
  {
    c as int - '0' as int
  }

  predicate AllDigits(s: string) {
    forall k :: 0 <= k < |s| ==> IsDigit(s[k])
  }

  /** The decimal digits of a natural number, most significant first, as `str(n)` prints them. */
  function NatDigits(n: nat): string
    decreases n
  {
    if n < 10 then [DigitChar(n)] else NatDigits(n / 10) + [DigitChar(n % 10)]
  }

  /** Where the digits of `Decimal(n)` start: after the minus sign, if any. */
  function SignLength(n: int): nat {
    if n < 0 then 1 else 0
  }

  /** The text Python prints for an `int`: a minus sign exactly for negative
      numbers, then one or more digits, with no leading zero unless `n` is 0,
      which prints as `0`. */
  function Decimal(n: int): (d: string)
    ensures |d| > SignLength(n)
    ensures d[0] == '-' <==> n < 0
    ensures AllDigits(d[SignLength(n)..])
    ensures d[SignLength(n)] == '0' <==> n == 0
    ensures n == 0 ==> d == "0"
  {
    if n < 0 then
      NatDigitsRoundTrip(-n);
      assert ("-" + NatDigits(-n))[1..] == NatDigits(-n);
      "-" + NatDigits(-n)
    else
      NatDigitsRoundTrip(n);
      NatDigits(n)
  }

  /** The value of a string of decimal digits, read most significant first. */
  function DigitsValue(s: string): nat
    requires AllDigits(s)
    decreases |s|
  {
    if |s| == 0 then 0 else DigitsValue(s[..|s| - 1]) * 10 + DigitValue(s[|s| - 1])
  }

  /** Python's `int(s)` on the texts `Decimal` produces: an optional minus sign
      followed by one or more digits; anything else is rejected. */
  function ParseInt(s: string): Option<int> {
    if |s| > 1 && s[0] == '-' && AllDigits(s[1..]) then Some(0 - DigitsValue(s[1..]) as int)
    else if |s| > 0 && AllDigits(s) then Some(DigitsValue(s))
    else None
  }

  /** `NatDigits` yields a non-empty digit string without a leading zero
      (except for zero itself) that reads back as `n`. */
  lemma {:induction false} NatDigitsRoundTrip(n: nat)
    ensures |NatDigits(n)| > 0 && AllDigits(NatDigits(n))
    ensures NatDigits(n)[0] == '0' <==> n == 0
    ensures n == 0 ==> NatDigits(n) == "0"
    ensures DigitsValue(NatDigits(n)) == n
  {
    if n >= 10 {
      NatDigitsRoundTrip(n / 10);
      var s := NatDigits(n);
      assert s[..|s| - 1] == NatDigits(n / 10);
      assert s[0] == NatDigits(n / 10)[0];
    }
  }

  /** Reading back the decimal text of any integer gives that integer. */
  lemma DecimalRoundTrip(n: int)
    ensures ParseInt(Decimal(n)) == Some(n)
  {
    if n < 0 {
      NatDigitsRoundTrip(-n);
      assert Decimal(n)[1..] == NatDigits(-n);
    } else {
      NatDigitsRoundTrip(n);
    }
  }

  /** Different integers print differently. */
  lemma DecimalInjective(m: int, n: int)
    requires Decimal(m) == Decimal(n)
    ensures m == n
  {
    DecimalRoundTrip(m);
    DecimalRoundTrip(n);
  }
}
