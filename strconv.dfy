/** Decimal rendering of integers, as `strconv.Itoa` does it for the rank of a card,
    together with the parser that reads such a rendering back. */
module Strconv {

  predicate IsDigit(ch: char) {
    '0' <= ch <= '9'
  }

  function DigitChar(d: nat): (ch: char)
    requires d < 10
    ensures IsDigit(ch)
  {
    "0123456789"[d]
  }

  function DigitValue(ch: char): (d: nat)
    requires IsDigit(ch)
    ensures d < 10
  {
    (ch - '0') as nat
  }

  /** The decimal digits of `n`, most significant first, with no leading zero. */
  function NatDigits(n: nat): (s: string)
    ensures |s| >= 1
    ensures forall k :: 0 <= k < |s| ==> IsDigit(s[k])
    ensures s[0] == '0' ==> n == 0
  {
    if n < 10 then [DigitChar(n)] else NatDigits(n / 10) + [DigitChar(n % 10)]
  }

  /** `strconv.Itoa`: a minus sign for negative values, then the digits of the magnitude. */
  function Itoa(n: int): (s: string)
    ensures |s| >= 1
    ensures s[0] == '-' <==> n < 0
    ensures forall k :: 0 <= k < |s| ==> IsDigit(s[k]) || (k == 0 && s[k] == '-')
    ensures var digits := if n < 0 then s[1..] else s; |digits| >= 1 && (digits[0] == '0' ==> n == 0)
  {
    if n < 0 then "-" + NatDigits(-n) else NatDigits(n)
  }

  /** The value of a string of digits, read most significant first. */
  function DigitsValue(s: string): nat
    requires forall k :: 0 <= k < |s| ==> IsDigit(s[k])
  {
    if s == [] then 0 else DigitsValue(s[..|s| - 1]) * 10 + DigitValue(s[|s| - 1])
  }

  /** The inverse of `Itoa`: reads an optional minus sign, then digits. Unlike Go's
      `strconv.Atoi` it accepts no '+' sign and has no error result. */
  function ParseDecimal(s: string): int
    requires |s| >= 1
    requires forall k :: 0 <= k < |s| ==> IsDigit(s[k]) || (k == 0 && s[k] == '-')
  {
    if s[0] == '-' then -(DigitsValue(s[1..]) as int) else DigitsValue(s)
  }

  lemma {:induction false} NatDigitsRoundTrip(n: nat)
    ensures DigitsValue(NatDigits(n)) == n
  {
    if n >= 10 {
      var s := NatDigits(n);
      var prefix := NatDigits(n / 10);
      assert s == prefix + [DigitChar(n % 10)];
      assert s[..|s| - 1] == prefix;
      NatDigitsRoundTrip(n / 10);
    }
  }

  /** Itoa loses nothing: its output parses back to the number it rendered. */
  lemma ItoaRoundTrip(n: int)
    ensures ParseDecimal(Itoa(n)) == n
  {
    if n < 0 {
      var digits := NatDigits(-n);
      assert Itoa(n) == "-" + digits;
      assert ("-" + digits)[1..] == digits;
      NatDigitsRoundTrip(-n);
      assert ParseDecimal("-" + digits) == -(DigitsValue(digits) as int);
    } else {
      var digits := NatDigits(n);
      assert Itoa(n) == digits && digits[0] != '-';
      NatDigitsRoundTrip(n);
      assert ParseDecimal(digits) == DigitsValue(digits);
    }
  }

  /** Distinct numbers render as distinct strings. */
  lemma ItoaInjective(m: int, n: int)
    ensures Itoa(m) == Itoa(n) <==> m == n
  {
    ItoaRoundTrip(m);
    ItoaRoundTrip(n);
  }
}
