/**
 * Decimal text of integers, as produced by Go's `fmt` verbs `%d` and `%0Nd`
 * and by PostgreSQL's `CAST(int AS TEXT)`, and Go's truncating integer
 * quotient.  The listing filter matches region codes by the text of these
 * numbers, so the model needs their exact shape.
 */
module Decimal {

  import opened Text

  function DigitChar(d: nat): (c: char)
    requires d < 10
    ensures '0' <= c <= '9'
  {
    "0123456789"[d]
  }

  predicate IsDigits(s: string)
  {
    forall i :: 0 <= i < |s| ==> '0' <= s[i] <= '9'
  }

  /** Decimal digits of `n`, most significant first, without leading zeros. */
  function Digits(n: nat): (s: string)
    ensures 1 <= |s| && IsDigits(s) && IsAscii(s)
    ensures (|s| == 1) == (n < 10)
  {
    if n < 10 then [DigitChar(n)] else Digits(n / 10) + [DigitChar(n % 10)]
  }

  /** The number a string of decimal digits denotes: the inverse of Digits. */
  function Value(s: string): nat
    requires IsDigits(s)
  {
    if s == [] then 0 else Value(s[..|s| - 1]) * 10 + (s[|s| - 1] as int - '0' as int)
  }

  lemma {:induction false} ValueOfDigits(n: nat)
    ensures Value(Digits(n)) == n
  {
    var s := Digits(n);
    if n >= 10 {
      ValueOfDigits(n / 10);
      assert s[..|s| - 1] == Digits(n / 10);
    }
  }

  lemma DigitsInjective(a: nat, b: nat)
    ensures Digits(a) == Digits(b) <==> a == b
  {
    if Digits(a) == Digits(b) {
      ValueOfDigits(a);
      ValueOfDigits(b);
    }
  }

  /** Go's `%d` and PostgreSQL's integer-to-text cast: a minus sign, then digits. */
  function FormatInt(n: int): (s: string)
    ensures 1 <= |s|
    ensures n >= 0 ==> s == Digits(n)
    ensures n < 0 ==> s[0] == '-' && s[1..] == Digits(-n)
  {
    if n < 0 then "-" + Digits(-n) else Digits(n)
  }

  function Zeros(k: int): (s: string)
    ensures |s| == if k <= 0 then 0 else k
    ensures forall i :: 0 <= i < |s| ==> s[i] == '0'
    decreases k
  {
    if k <= 0 then "" else "0" + Zeros(k - 1)
  }

  /** Go's `%0<width>d`: zeros are inserted after the sign until the text is
      `width` characters long; longer numbers are not truncated. */
  function PadZero(n: int, width: nat): (s: string)
    ensures n >= 0 && |Digits(n)| >= width ==> s == Digits(n)
    ensures n >= 0 ==>
              |Digits(n)| <= |s| && s[|s| - |Digits(n)|..] == Digits(n)
              && forall i :: 0 <= i < |s| - |Digits(n)| ==> s[i] == '0'
    ensures n < 0 ==>
              1 + |Digits(-n)| <= |s| && s[0] == '-' && s[|s| - |Digits(-n)|..] == Digits(-n)
              && forall i :: 1 <= i < |s| - |Digits(-n)| ==> s[i] == '0'
    ensures |s| == if |FormatInt(n)| >= width then |FormatInt(n)| else width
  {
    if n < 0 then "-" + Zeros(width - 1 - |Digits(-n)|) + Digits(-n)
    else Zeros(width - |Digits(n)|) + Digits(n)
  }

  /** Go's integer division `a / b` for b > 0, which truncates toward zero
      (Dafny's `/` is Euclidean). */
  function Quo(a: int, b: int): (q: int)
    requires b > 0
    ensures var r := a - q * b; (a >= 0 ==> 0 <= r < b) && (a < 0 ==> -b < r <= 0)
  {
    if a >= 0 then a / b else -((-a) / b)
  }

  /** For a negative dividend Go's quotient and Dafny's differ: -1 / 2 is 0
      in Go and -1 in Dafny. */
  lemma QuoTruncatesTowardZero()
    ensures Quo(-1, 2) == 0 && -1 / 2 == -1
  {
  }

  /** For a dividend that is not negative the two quotients agree. */
  lemma QuoOfNatural(a: nat, b: int)
    requires b > 0
    ensures Quo(a, b) == a / b
  {
  }

  /** The digits of a six-digit number begin with the digits of its quotients
      by 10000 and by 100. */
  lemma SixDigitPrefixes(d: nat)
    requires 100000 <= d <= 999999
    ensures |Digits(d)| == 6
    ensures |Digits(d / 10000)| == 2 && Digits(d)[..2] == Digits(d / 10000)
    ensures |Digits(d / 100)| == 4 && Digits(d)[..4] == Digits(d / 100)
  {
    var d1, d2, d3, d4 := d / 10, d / 100, d / 1000, d / 10000;
    assert d1 / 10 == d2 && d2 / 10 == d3 && d3 / 10 == d4 && d4 / 10 == d / 100000;
    assert Digits(d) == Digits(d1) + [DigitChar(d % 10)];
    assert Digits(d1) == Digits(d2) + [DigitChar(d1 % 10)];
    assert Digits(d2) == Digits(d3) + [DigitChar(d2 % 10)];
    assert Digits(d3) == Digits(d4) + [DigitChar(d3 % 10)];
    assert |Digits(d4)| == 2 by {
      assert Digits(d4) == Digits(d / 100000) + [DigitChar(d4 % 10)];
    }
  }

  /** A six-digit number's text does not start with '0'. */
  lemma SixDigitLeadsNonZero(d: nat)
    requires 100000 <= d <= 999999
    ensures Digits(d)[0] != '0'
  {
    SixDigitPrefixes(d);
    assert Digits(d)[..2] == Digits(d / 10000);
    assert Digits(d / 10000) == Digits(d / 100000) + [DigitChar(d / 10000 % 10)];
    assert Digits(d / 100000) == [DigitChar(d / 100000)];
  }

  /** `%02d` prints a two-digit number unchanged. */
  lemma PadTwoDigits(n: nat)
    requires 10 <= n <= 99
    ensures |Digits(n)| == 2 && PadZero(n, 2) == Digits(n)
  {
    assert Digits(n) == Digits(n / 10) + [DigitChar(n % 10)];
    assert |Digits(n / 10)| == 1;
  }

  /** `%04d` prints a four-digit number unchanged. */
  lemma PadFourDigits(n: nat)
    requires 1000 <= n <= 9999
    ensures |Digits(n)| == 4 && PadZero(n, 4) == Digits(n)
  {
    var n1, n2, n3 := n / 10, n / 100, n / 1000;
    assert n1 / 10 == n2 && n2 / 10 == n3;
    assert |Digits(n3)| == 1;
    assert Digits(n2) == Digits(n3) + [DigitChar(n2 % 10)];
    assert Digits(n1) == Digits(n2) + [DigitChar(n1 % 10)];
    assert Digits(n) == Digits(n1) + [DigitChar(n % 10)];
  }
}
