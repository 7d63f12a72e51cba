/** Unsigned decimal numbers as text. */
module Decimal {

  predicate IsDigit(c: char) {
    '0' <= c <= '9'
  }

  predicate AllDigits(s: string) {
    forall i | 0 <= i < |s| :: IsDigit(s[i])
  }

  function DigitValue(c: char): (d: nat)
    requires IsDigit(c)
    ensures d < 10
  {
    c as int - '0' as int
  }

  function Digit(d: nat): (c: char)
    requires d < 10
    ensures IsDigit(c) && DigitValue(c) == d
  {
    ('0' as int + d) as char
  }

  function Value(s: string): nat
    requires AllDigits(s)
  {
    if s == "" then 0 else Value(s[..|s| - 1]) * 10 + DigitValue(s[|s| - 1])
  }

  /** How `u64` prints. */
  function Show(n: nat): string {
    if n < 10 then [Digit(n)] else Show(n / 10) + [Digit(n % 10)]
  }

  /** The numerals that printing produces: digits without a leading zero. */
  predicate Canonical(s: string) {
    s != "" && AllDigits(s) && (|s| > 1 ==> s[0] != '0')
  }

  lemma {:induction false} ValueOfShow(n: nat)
    ensures Canonical(Show(n)) && Value(Show(n)) == n
    ensures n > 0 ==> Show(n)[0] != '0'
  {
    if n >= 10 {
      ValueOfShow(n / 10);
      assert (Show(n / 10) + [Digit(n % 10)])[..|Show(n / 10)|] == Show(n / 10);
    } else {
      assert Show(n)[..0] == "";
      assert Value("") == 0;
    }
  }

  lemma {:induction false} PositiveValue(s: string)
    requires AllDigits(s) && s != "" && s[0] != '0'
    ensures Value(s) > 0
  {
    if |s| > 1 {
      PositiveValue(s[..|s| - 1]);
    }
  }

  lemma {:induction false} ShowOfValue(s: string)
    requires Canonical(s)
    ensures Show(Value(s)) == s
  {
    if |s| > 1 {
      var front := s[..|s| - 1];
      PositiveValue(front);
      ShowOfValue(front);
      assert Value(s) / 10 == Value(front) && Value(s) % 10 == DigitValue(s[|s| - 1]);
      assert s == front + [s[|s| - 1]];
    } else {
      assert s[..0] == "";
      assert Value("") == 0;
    }
  }

  function Pow10(n: nat): (p: nat)
    ensures p > 0
  {
    if n == 0 then 1 else 10 * Pow10(n - 1)
  }

  function Zeros(n: nat): (z: string)
    ensures |z| == n && AllDigits(z)
    ensures forall i | 0 <= i < n :: z[i] == '0'
  {
    seq(n, _ => '0')
  }

  /** A numeral cut in two: the left part counts in units of a power of ten. */
  lemma {:induction false} ValueOfConcat(a: string, b: string)
    requires AllDigits(a) && AllDigits(b)
    ensures AllDigits(a + b) && Value(a + b) == Value(a) * Pow10(|b|) + Value(b)
  {
    if b == "" {
      assert a + b == a;
    } else {
      var front := b[..|b| - 1];
      ValueOfConcat(a, front);
      assert (a + b)[..|a + b| - 1] == a + front;
      ShiftOne(Value(a), Pow10(|front|), Value(front), DigitValue(b[|b| - 1]));
    }
  }

  lemma {:induction false} ShiftOne(a: int, p: int, f: int, d: int)
    ensures (a * p + f) * 10 + d == a * (10 * p) + (f * 10 + d)
  {
  }

  lemma {:induction false} ValueOfZeros(n: nat)
    ensures Value(Zeros(n)) == 0
  {
    if n > 0 {
      ValueOfZeros(n - 1);
      assert Zeros(n)[..n - 1] == Zeros(n - 1);
    }
  }

  lemma {:induction false} ValueIsBounded(s: string)
    requires AllDigits(s)
    ensures Value(s) < Pow10(|s|)
  {
    if s != "" {
      ValueIsBounded(s[..|s| - 1]);
    }
  }

  lemma {:induction false} ShowIsShort(n: nat, digits: nat)
    requires digits > 0 && n < Pow10(digits)
    ensures |Show(n)| <= digits
  {
    if n >= 10 {
      assert digits > 1 by {
        assert Pow10(1) == 10 * Pow10(0);
      }
      ShowIsShort(n / 10, digits - 1);
    }
  }

  /** Padding with zeros on the left to a width. */
  function PadLeft(s: string, width: nat): string {
    if |s| >= width then s else Zeros(width - |s|) + s
  }

  lemma {:induction false} PaddedValue(n: nat, width: nat)
    requires width > 0 && n < Pow10(width)
    ensures var s := PadLeft(Show(n), width); |s| == width && AllDigits(s) && Value(s) == n
  {
    ValueOfShow(n);
    ShowIsShort(n, width);
    if |Show(n)| < width {
      var zeros := Zeros(width - |Show(n)|);
      ValueOfZeros(width - |Show(n)|);
      ValueOfConcat(zeros, Show(n));
    }
  }
}
