/** Dollar amounts typed on the command line, exact to the micro-dollar in both directions. */
module Usd {
  import opened Decimal
  import opened Text
  import opened Wrappers

  const MICROS_PER_USD: nat := 1_000_000
  const U64_MAX: nat := 0xFFFF_FFFF_FFFF_FFFF

  datatype UsdError = NotAnAmount | NotPlain | TooFine | TooLarge

  /** The parts around the first dot. */
  function Whole(text: string): string {
    text[..Find(text, '.')]
  }

  function Fraction(text: string): string {
    var i := Find(text, '.');
    if i == |text| then "" else text[i + 1..]
  }

  function ParseParts(whole: string, fraction: string): Result<nat, UsdError> {
    if whole == "" && fraction == "" then Failure(NotAnAmount)
    else if !AllDigits(whole) || !AllDigits(fraction) then Failure(NotPlain)
    else if |fraction| > 6 then Failure(TooFine)
    else if Value(whole) > U64_MAX then Failure(TooLarge)
    else
      var dollars := Value(whole) * MICROS_PER_USD;
      if dollars > U64_MAX then Failure(TooLarge)
      else
        var micros := dollars + Value(fraction + Zeros(6 - |fraction|));
        if micros > U64_MAX then Failure(TooLarge) else Success(micros)
  }

  function ParseUsdMicros(input: string): Result<nat, UsdError> {
    ParseParts(Whole(Trim(input)), Fraction(Trim(input)))
  }

  function MicrosToUsd(micros: nat): string {
    var (dollars, fraction) := (micros / MICROS_PER_USD, micros % MICROS_PER_USD);
    Show(dollars) + ['.'] + FractionText(fraction)
  }

  /** Two places where that is the whole of it, six where it is not. */
  function FractionText(fraction: nat): string {
    if fraction % 10_000 == 0 then PadLeft(Show(fraction / 10_000), 2) else PadLeft(Show(fraction), 6)
  }

  // ---- What an amount means -------------------------------------------------------------

  /** A plain decimal: digits, optionally a dot and digits, at least one digit in all. */
  predicate Spells(text: string, whole: string, fraction: string) {
    && AllDigits(whole) && AllDigits(fraction) && whole + fraction != ""
    && (text == whole + ['.'] + fraction || (fraction == "" && text == whole))
  }

  /** The numeral without its dot, in units of its last place. */
  function Exact(whole: string, fraction: string): nat
    requires AllDigits(whole) && AllDigits(fraction) && |fraction| <= 6
  {
    Value(whole + fraction) * Pow10(6 - |fraction|)
  }

  lemma {:induction false} SpellingIsUnique(text: string, whole: string, fraction: string)
    requires Spells(text, whole, fraction)
    ensures whole == Whole(text) && fraction == Fraction(text)
  {
    if text == whole + ['.'] + fraction {
      FindAfter(whole, '.', fraction);
    } else {
      NotFound(whole, '.');
    }
  }

  lemma {:induction false} PartsSpell(text: string)
    requires AllDigits(Whole(text)) && AllDigits(Fraction(text)) && Whole(text) + Fraction(text) != ""
    ensures Spells(text, Whole(text), Fraction(text))
  {
    var i := Find(text, '.');
    if i < |text| {
      assert text == text[..i] + ['.'] + text[i + 1..];
    }
  }

  lemma {:induction false} PowersAgree()
    ensures Pow10(6) == MICROS_PER_USD
  {
    assert Pow10(0) == 1;
    assert Pow10(1) == 10;
    assert Pow10(2) == 100;
    assert Pow10(3) == 1000;
    assert Pow10(4) == 10_000;
    assert Pow10(5) == 100_000;
  }

  lemma {:induction false} PowersMultiply(a: nat, b: nat)
    ensures Pow10(a) * Pow10(b) == Pow10(a + b)
  {
    if a > 0 {
      PowersMultiply(a - 1, b);
      assert Pow10(a) * Pow10(b) == 10 * (Pow10(a - 1) * Pow10(b));
    }
  }

  lemma {:induction false} Distribute(w: int, p: int, f: int, q: int)
    ensures (w * p + f) * q == w * (p * q) + f * q
  {
  }

  lemma {:induction false} PaddedFraction(fraction: string, rest: nat)
    requires AllDigits(fraction)
    ensures Value(fraction + Zeros(rest)) == Value(fraction) * Pow10(rest)
  {
    ValueOfConcat(fraction, Zeros(rest));
    ValueOfZeros(rest);
  }

  /** Dollars and padded fraction add up to the exact value of the numeral. */
  lemma {:induction false} SumIsExact(whole: string, fraction: string, rest: nat)
    requires AllDigits(whole) && AllDigits(fraction) && |fraction| + rest == 6
    ensures AllDigits(whole + fraction)
    ensures Value(whole) * MICROS_PER_USD + Value(fraction + Zeros(rest)) == Value(whole + fraction) * Pow10(rest)
  {
    ValueOfConcat(whole, fraction);
    PaddedFraction(fraction, rest);
    SumsAgree(Value(whole), Value(fraction), |fraction|, rest, Value(whole + fraction), Value(fraction + Zeros(rest)));
  }

  lemma {:induction false} SumsAgree(w: nat, f: nat, places: nat, rest: nat, numeral: nat, padded: nat)
    requires places + rest == 6 && numeral == w * Pow10(places) + f && padded == f * Pow10(rest)
    ensures w * MICROS_PER_USD + padded == numeral * Pow10(rest)
  {
    UnitsAgree(w, f, places, rest);
  }

  lemma {:induction false} UnitsAgree(w: nat, f: nat, places: nat, rest: nat)
    requires places + rest == 6
    ensures (w * Pow10(places) + f) * Pow10(rest) == w * MICROS_PER_USD + f * Pow10(rest)
  {
    PowersMultiply(places, rest);
    PowersAgree();
    Distribute(w, Pow10(places), f, Pow10(rest));
  }

  predicate PartsAmount(whole: string, fraction: string, micros: nat) {
    && AllDigits(whole) && AllDigits(fraction) && whole + fraction != "" && |fraction| <= 6
    && Exact(whole, fraction) == micros && micros <= U64_MAX
  }

  lemma {:induction false} PartsParseExactly(whole: string, fraction: string, micros: nat)
    ensures ParseParts(whole, fraction) == Success(micros) <==> PartsAmount(whole, fraction, micros)
  {
    if AllDigits(whole) && AllDigits(fraction) && |fraction| <= 6 {
      SumIsExact(whole, fraction, 6 - |fraction|);
    }
    assert whole + fraction == "" <==> whole == "" && fraction == "" by {
      assert |whole + fraction| == |whole| + |fraction|;
    }
  }

  ghost predicate IsAmount(input: string, micros: nat) {
    exists whole, fraction :: Spells(Trim(input), whole, fraction) && PartsAmount(whole, fraction, micros)
  }

  /** Accepted are exactly the trimmed plain decimals with at least one digit, at most six
      fractional digits and a value in micro-dollars that fits, and that value is the result,
      without rounding. */
  lemma {:induction false} ParsesExactly(input: string, micros: nat)
    ensures ParseUsdMicros(input) == Success(micros) <==> IsAmount(input, micros)
  {
    var text := Trim(input);
    PartsParseExactly(Whole(text), Fraction(text), micros);
    if IsAmount(input, micros) {
      var whole, fraction :| Spells(text, whole, fraction) && PartsAmount(whole, fraction, micros);
      SpellingIsUnique(text, whole, fraction);
    }
    if PartsAmount(Whole(text), Fraction(text), micros) {
      PartsSpell(text);
    }
  }

  predicate AmountChars(s: string) {
    forall i | 0 <= i < |s| :: IsDigit(s[i]) || s[i] == '.'
  }

  lemma {:induction false} AmountsAreTrimmed(s: string)
    requires AmountChars(s)
    ensures Trim(s) == s
  {
    assert forall c: char | IsDigit(c) || c == '.' :: !IsWhitespace(c);
    CoreIsItself(IsWhitespace, s);
  }

  lemma {:induction false} FractionIsExact(fraction: nat)
    requires fraction < MICROS_PER_USD
    ensures var s := FractionText(fraction);
            AllDigits(s) && 0 < |s| <= 6 && Value(s) * Pow10(6 - |s|) == fraction
  {
    PowersAgree();
    if fraction % 10_000 == 0 {
      PaddedValue(fraction / 10_000, 2);
    } else {
      PaddedValue(fraction, 6);
    }
  }

  lemma {:induction false} RenderedParts(dollars: nat, fraction: nat)
    requires fraction < MICROS_PER_USD && dollars * MICROS_PER_USD + fraction <= U64_MAX
    ensures AllDigits(Show(dollars)) && AllDigits(FractionText(fraction))
    ensures PartsAmount(Show(dollars), FractionText(fraction), dollars * MICROS_PER_USD + fraction)
  {
    ValueOfShow(dollars);
    FractionIsExact(fraction);
    var rest := 6 - |FractionText(fraction)|;
    SumIsExact(Show(dollars), FractionText(fraction), rest);
    PaddedFraction(FractionText(fraction), rest);
  }

  /** Every u64 amount is read back from its rendering. */
  lemma {:induction false} ParseOfRender(micros: nat)
    requires micros <= U64_MAX
    ensures ParseUsdMicros(MicrosToUsd(micros)) == Success(micros)
  {
    var (dollars, rest) := (micros / MICROS_PER_USD, micros % MICROS_PER_USD);
    RenderedParts(dollars, rest);
    AmountsAreTrimmed(MicrosToUsd(micros));
    assert Spells(MicrosToUsd(micros), Show(dollars), FractionText(rest));
    ParsesExactly(MicrosToUsd(micros), micros);
  }

  ghost predicate IsPlain(text: string) {
    exists whole, fraction :: Spells(text, whole, fraction)
  }

  lemma {:induction false} PlainExactly(text: string)
    ensures IsPlain(text) <==>
            AllDigits(Whole(text)) && AllDigits(Fraction(text)) && Whole(text) + Fraction(text) != ""
    ensures forall whole, fraction | Spells(text, whole, fraction) :: whole == Whole(text) && fraction == Fraction(text)
    ensures Whole(text) + Fraction(text) == "" <==> text == "" || text == "."
  {
    forall whole, fraction | Spells(text, whole, fraction)
      ensures whole == Whole(text) && fraction == Fraction(text)
    {
      SpellingIsUnique(text, whole, fraction);
    }
    if AllDigits(Whole(text)) && AllDigits(Fraction(text)) && Whole(text) + Fraction(text) != "" {
      PartsSpell(text);
    }
    EmptyParts(text);
  }

  lemma {:induction false} EmptyParts(text: string)
    ensures Whole(text) + Fraction(text) == "" <==> text == "" || text == "."
  {
    var i := Find(text, '.');
    assert |Whole(text) + Fraction(text)| == i + |Fraction(text)|;
    if text == "." {
      FindAfter("", '.', "");
      assert "" + ['.'] + "" == ".";
    }
    if i == 0 && i < |text| {
      assert text == [text[0]] + text[1..];
    }
  }

  lemma {:induction false} PartsFailExactly(whole: string, fraction: string, e: UsdError)
    requires e.TooLarge? && AllDigits(whole) && AllDigits(fraction) && whole + fraction != "" && |fraction| <= 6
    ensures ParseParts(whole, fraction) == Failure(e) <==> Exact(whole, fraction) > U64_MAX
  {
    SumIsExact(whole, fraction, 6 - |fraction|);
    PartsParseExactly(whole, fraction, Exact(whole, fraction));
    assert |whole + fraction| == |whole| + |fraction|;
  }

  /** Why a trimmed text is no amount: it has no digits at all, is no plain decimal, has more than six
      fractional digits, or is worth more than 64 bits of micro-dollars hold. */
  ghost predicate IsRefused(text: string, e: UsdError) {
    match e
    case NotAnAmount => text == "" || text == "."
    case NotPlain => text != "" && text != "." && !IsPlain(text)
    case TooFine => exists whole, fraction :: Spells(text, whole, fraction) && |fraction| > 6
    case TooLarge =>
      exists whole, fraction :: Spells(text, whole, fraction) && |fraction| <= 6
                                && Exact(whole, fraction) > 0xFFFF_FFFF_FFFF_FFFF
  }

  lemma {:induction false} RefusedBecause(text: string, e: UsdError)
    ensures ParseParts(Whole(text), Fraction(text)) == Failure(e) <==> IsRefused(text, e)
  {
    PlainExactly(text);
    var whole, fraction := Whole(text), Fraction(text);
    assert |whole + fraction| == |whole| + |fraction|;
    if IsPlain(text) {
      assert Spells(text, whole, fraction);
      if |fraction| <= 6 {
        PartsFailExactly(whole, fraction, TooLarge);
        PartsParseExactly(whole, fraction, Exact(whole, fraction));
      }
    }
  }

  /** Every input that is refused is refused for the one reason that applies to it once trimmed. */
  lemma {:induction false} FailsExactly(input: string, e: UsdError)
    ensures ParseUsdMicros(input) == Failure(e) <==> IsRefused(Trim(input), e)
  {
    RefusedBecause(Trim(input), e);
  }

  /** How an amount is rendered: whole dollars without leading zeros, and cents, or all six places where cents do not
      say it all; nothing is rounded. */
  lemma {:induction false} RenderedAs(micros: nat) returns (whole: string, fraction: string)
    ensures MicrosToUsd(micros) == whole + "." + fraction
    ensures AllDigits(whole) && whole != "" && (whole[0] == '0' ==> whole == "0") && AllDigits(fraction)
    ensures |fraction| == if micros % 10_000 == 0 then 2 else 6
    ensures Exact(whole, fraction) == micros
  {
    var (dollars, rest) := (micros / MICROS_PER_USD, micros % MICROS_PER_USD);
    whole, fraction := Show(dollars), FractionText(rest);
    ValueOfShow(dollars);
    FractionLength(rest);
    FractionIsExact(rest);
    var places := 6 - |fraction|;
    SumIsExact(whole, fraction, places);
    PaddedFraction(fraction, places);
    CentsOf(micros);
  }

  lemma {:induction false} CentsOf(micros: nat)
    ensures micros % MICROS_PER_USD % 10_000 == micros % 10_000
  {
    assert micros == micros / MICROS_PER_USD * 100 * 10_000 + micros % MICROS_PER_USD;
  }

  lemma {:induction false} FractionLength(fraction: nat)
    requires fraction < MICROS_PER_USD
    ensures |FractionText(fraction)| == if fraction % 10_000 == 0 then 2 else 6
  {
    PowersAgree();
    if fraction % 10_000 == 0 {
      PaddedValue(fraction / 10_000, 2);
    } else {
      PaddedValue(fraction, 6);
    }
  }
}
