/**
 * Decimal rendering of integers, as Go's `fmt.Sprintf("%d", n)` produces it.
 *
 * The update and delete handlers look a record up by comparing this rendering
 * of its ID with the raw `:id` path parameter, so the lookup is a string
 * comparison.  The lemmas here show that the rendering is a bijection between
 * the integers and the canonical decimal strings (optional '-' sign, no
 * leading zero, no "-0"), so a parameter such as "07" or "+7" matches no ID.
 */
module Decimal {

  predicate IsDigit(c: char) {
    '0' <= c <= '9'
  }

  function DigitValue(c: char): (d: nat)
    requires IsDigit(c)
    ensures d < 10
  {
    (c as int) - ('0' as int)
  }

  function DigitChar(d: nat): (c: char)
    requires d < 10
    ensures IsDigit(c) && DigitValue(c) == d
  {
    (('0' as int) + d) as char
  }

  predicate AllDigits(s: string) {
    forall i :: 0 <= i < |s| ==> IsDigit(s[i])
  }

  /** A non-empty digit string with no leading zero, except "0" itself. */
  predicate IsCanonicalNat(s: string) {
    |s| > 0 && AllDigits(s) && (s[0] == '0' ==> |s| == 1)
  }

  /** What `%d` can print: a canonical natural, or '-' before a canonical positive one. */
  predicate IsCanonicalInt(s: string) {
    IsCanonicalNat(s) || (|s| > 1 && s[0] == '-' && IsCanonicalNat(s[1..]) && s[1] != '0')
  }

  /** Most significant digit first. */
  function NatDigits(n: nat): (s: string)
    ensures IsCanonicalNat(s)
    ensures s[0] == '0' <==> n == 0
    decreases n
  {
    if n < 10 then [DigitChar(n)] else NatDigits(n / 10) + [DigitChar(n % 10)]
  }

  /** The value a digit string denotes. */
  function ValueOf(s: string): nat
    requires AllDigits(s)
    decreases |s|
  {
    if s == [] then 0 else ValueOf(s[..|s| - 1]) * 10 + DigitValue(s[|s| - 1])
  }

  /** Go's `fmt.Sprintf("%d", n)` for a signed integer. */
  function FormatInt(n: int): (s: string)
    ensures |s| > 0 && (s[0] == '-' <==> n < 0)
  {
    if n < 0 then "-" + NatDigits(-n) else NatDigits(n)
  }

  /** Every rendering is canonical: no leading zero, no "-0", digits only after the sign. */
  lemma FormatIntIsCanonical(n: int)
    ensures IsCanonicalInt(FormatInt(n))
  {
    if n < 0 {
      assert FormatInt(n)[1..] == NatDigits(-n);
    }
  }

  /** Reads back a canonical decimal string. */
  function ParseInt(s: string): int
    requires IsCanonicalInt(s)
  {
    if s[0] == '-' then -(ValueOf(s[1..]) as int) else ValueOf(s)
  }

  lemma {:induction false} ValueOfNatDigits(n: nat)
    ensures ValueOf(NatDigits(n)) == n
    decreases n
  {
    if n >= 10 {
      ValueOfNatDigits(n / 10);
      var s := NatDigits(n);
      assert s[..|s| - 1] == NatDigits(n / 10);
    }
  }

  lemma {:induction false} NatDigitsOfValue(s: string)
    requires IsCanonicalNat(s)
    ensures NatDigits(ValueOf(s)) == s
    decreases |s|
  {
    var last := s[|s| - 1];
    if |s| == 1 {
      assert s == [last];
      assert ValueOf(s) == ValueOf([]) * 10 + DigitValue(last);
      assert DigitChar(DigitValue(last)) == last;
    } else {
      var p := s[..|s| - 1];
      assert p[0] == s[0];
      NatDigitsOfValue(p);
      var v, a, d := ValueOf(s), ValueOf(p), DigitValue(last);
      assert a != 0;
      assert v == a * 10 + d;
      assert v / 10 == a && v % 10 == d;
      assert DigitChar(d) == last;
      assert s == p + [last];
    }
  }

  /** Printing then parsing gives the integer back. */
  lemma ParseFormat(n: int)
    ensures IsCanonicalInt(FormatInt(n)) && ParseInt(FormatInt(n)) == n
  {
    FormatIntIsCanonical(n);
    if n < 0 {
      ValueOfNatDigits(-n);
      assert FormatInt(n)[1..] == NatDigits(-n);
    } else {
      ValueOfNatDigits(n);
    }
  }

  /** Parsing a canonical string then printing gives the string back. */
  lemma FormatParse(s: string)
    requires IsCanonicalInt(s)
    ensures FormatInt(ParseInt(s)) == s
  {
    if s[0] == '-' {
      NatDigitsOfValue(s[1..]);
      assert NatDigits(ValueOf(s[1..]))[0] == s[1];
      assert s == "-" + s[1..];
    } else {
      NatDigitsOfValue(s);
    }
  }

  /** Two IDs render the same exactly when they are equal. */
  lemma FormatIntInjective(a: int, b: int)
    ensures FormatInt(a) == FormatInt(b) <==> a == b
  {
    ParseFormat(a);
    ParseFormat(b);
  }

  /** A path parameter matches ID `n` exactly when it is canonical and denotes `n`. */
  lemma FormatIntMatches(n: int, param: string)
    ensures FormatInt(n) == param <==> IsCanonicalInt(param) && ParseInt(param) == n
  {
    ParseFormat(n);
    if IsCanonicalInt(param) {
      FormatParse(param);
    }
  }
}
