/** The check value of the checksum: what it gives for the nine characters "123456789". The register is
    eight nibbles of four bits here, which compute, and is related to the list of its bits. */
module CrcCheck {
  import opened Crc32

  /** Least significant first, as everywhere. */
  datatype Nibble = Nibble(b0: bool, b1: bool, b2: bool, b3: bool) {
    function Xor(m: Nibble): Nibble {
      Nibble(b0 != m.b0, b1 != m.b1, b2 != m.b2, b3 != m.b3)
    }

    function Shifted(above: bool): Nibble {
      Nibble(b1, b2, b3, above)
    }

    function Bit(i: nat): bool {
      if i == 0 then b0 else if i == 1 then b1 else if i == 2 then b2 else b3
    }
  }

  const N0 := Nibble(false, false, false, false)
  const N1 := Nibble(true, false, false, false)
  const N2 := Nibble(false, true, false, false)
  const N3 := Nibble(true, true, false, false)
  const N4 := Nibble(false, false, true, false)
  const N5 := Nibble(true, false, true, false)
  const N6 := Nibble(false, true, true, false)
  const N7 := Nibble(true, true, true, false)
  const N8 := Nibble(false, false, false, true)
  const N9 := Nibble(true, false, false, true)
  const NA := Nibble(false, true, false, true)
  const NB := Nibble(true, true, false, true)
  const NC := Nibble(false, false, true, true)
  const ND := Nibble(true, false, true, true)
  const NE := Nibble(false, true, true, true)
  const NF := Nibble(true, true, true, true)

  datatype Nibbles = Nibbles(n0: Nibble, n1: Nibble, n2: Nibble, n3: Nibble,
                             n4: Nibble, n5: Nibble, n6: Nibble, n7: Nibble) {
    function Shifted(): Nibbles {
      Nibbles(n0.Shifted(n1.b0), n1.Shifted(n2.b0), n2.Shifted(n3.b0), n3.Shifted(n4.b0),
              n4.Shifted(n5.b0), n5.Shifted(n6.b0), n6.Shifted(n7.b0), n7.Shifted(false))
    }

    function Xor(m: Nibbles): Nibbles {
      Nibbles(n0.Xor(m.n0), n1.Xor(m.n1), n2.Xor(m.n2), n3.Xor(m.n3),
              n4.Xor(m.n4), n5.Xor(m.n5), n6.Xor(m.n6), n7.Xor(m.n7))
    }

    function Step(): Nibbles {
      if n0.b0 then Shifted().Xor(DIVISOR) else Shifted()
    }

    function Eight(): Nibbles {
      Step().Step().Step().Step().Step().Step().Step().Step()
    }

    function Fed(low: Nibble, high: Nibble): Nibbles {
      Xor(Nibbles(low, high, N0, N0, N0, N0, N0, N0)).Eight()
    }

    function Digit(i: nat): Nibble {
      if i == 0 then n0 else if i == 1 then n1 else if i == 2 then n2 else if i == 3 then n3
      else if i == 4 then n4 else if i == 5 then n5 else if i == 6 then n6 else n7
    }

    function Bit(i: nat): bool {
      Digit(i / 4).Bit(i % 4)
    }

    function Bits(): (bits: Word)
      ensures forall i | 0 <= i < 32 :: bits[i] == Bit(i)
    {
      seq(32, i requires 0 <= i => Bit(i))
    }
  }

  /** 0xedb8_8320 */
  const DIVISOR := Nibbles(N0, N2, N3, N8, N8, NB, ND, NE)

  lemma {:induction false} DivisorBits()
    ensures DIVISOR.Bits() == POLYNOMIAL
  {
  }

  lemma {:induction false} ShiftedBit(w: Nibbles, i: nat)
    requires i < 32
    ensures w.Shifted().Bit(i) == (i < 31 && w.Bit(i + 1))
  {
  }

  lemma {:induction false} ShiftedBits(w: Nibbles)
    ensures w.Shifted().Bits() == ShiftRight(w.Bits())
  {
    forall i | 0 <= i < 32
      ensures w.Shifted().Bits()[i] == ShiftRight(w.Bits())[i]
    {
      ShiftedBit(w, i);
    }
  }

  lemma {:induction false} XorBit(w: Nibbles, m: Nibbles, i: nat)
    requires i < 32
    ensures w.Xor(m).Bit(i) == (w.Bit(i) != m.Bit(i))
  {
  }

  lemma {:induction false} AllXored(x: Word, a: Word, b: Word)
    requires forall i | 0 <= i < 32 :: x[i] == (a[i] != b[i])
    ensures x == Crc32.Xor(a, b)
  {
  }

  lemma {:induction false} XorBits(w: Nibbles, m: Nibbles)
    ensures w.Xor(m).Bits() == Crc32.Xor(w.Bits(), m.Bits())
  {
    var x, a, b := w.Xor(m).Bits(), w.Bits(), m.Bits();
    forall i | 0 <= i < 32
      ensures x[i] == (a[i] != b[i])
    {
      XorBit(w, m, i);
    }
    AllXored(x, a, b);
  }

  lemma {:induction false} StepBits(w: Nibbles)
    ensures w.Step().Bits() == BitStep(w.Bits())
  {
    DivisorBits();
    ShiftedBits(w);
    XorBits(w.Shifted(), DIVISOR);
  }

  lemma {:induction false} OneMoreStep(w: Nibbles, crc: Word, count: nat)
    requires w.Bits() == crc && count > 0
    ensures w.Step().Bits() == BitStep(crc) && Steps(crc, count) == Steps(w.Step().Bits(), count - 1)
  {
    StepBits(w);
  }

  lemma {:induction false} EightBits(w: Nibbles, count: nat)
    requires count == 8
    ensures Steps(w.Bits(), count) == w.Eight().Bits()
  {
    OneMoreStep(w, w.Bits(), count);
    var w1 := w.Step();
    OneMoreStep(w1, w1.Bits(), count - 1);
    var w2 := w1.Step();
    OneMoreStep(w2, w2.Bits(), count - 2);
    var w3 := w2.Step();
    OneMoreStep(w3, w3.Bits(), count - 3);
    var w4 := w3.Step();
    OneMoreStep(w4, w4.Bits(), count - 4);
    var w5 := w4.Step();
    OneMoreStep(w5, w5.Bits(), count - 5);
    var w6 := w5.Step();
    OneMoreStep(w6, w6.Bits(), count - 6);
    var w7 := w6.Step();
    OneMoreStep(w7, w7.Bits(), count - 7);
  }

  function DigitValue(n: Nibble): nat {
    (if n.b0 then 1 else 0) + (if n.b1 then 2 else 0) + (if n.b2 then 4 else 0) + (if n.b3 then 8 else 0)
  }

  predicate IsByte(b: byte, low: Nibble, high: Nibble) {
    b == DigitValue(low) + 16 * DigitValue(high)
  }

  lemma {:induction false} ByteBits(b: byte, low: Nibble, high: Nibble)
    requires IsByte(b, low, high)
    ensures ToBits(b, 8) == [low.b0, low.b1, low.b2, low.b3, high.b0, high.b1, high.b2, high.b3]
  {
    var bits := [low.b0, low.b1, low.b2, low.b3, high.b0, high.b1, high.b2, high.b3];
    EightBitsValue(bits);
    BitsOf(bits, b, 8);
  }

  lemma {:induction false} InputBit(low: Nibble, high: Nibble, i: nat)
    requires i < 32
    ensures Nibbles(low, high, N0, N0, N0, N0, N0, N0).Bit(i) ==
            (i < 8 && [low.b0, low.b1, low.b2, low.b3, high.b0, high.b1, high.b2, high.b3][i])
  {
  }

  lemma {:induction false} SameBits(w: Word, bits: seq<bool>)
    requires |bits| == 8 && forall i | 0 <= i < 32 :: w[i] == (i < 8 && bits[i])
    ensures w == Widen(bits)
  {
  }

  lemma {:induction false} InputBits(bits: seq<bool>, low: Nibble, high: Nibble)
    requires bits == [low.b0, low.b1, low.b2, low.b3, high.b0, high.b1, high.b2, high.b3]
    ensures Nibbles(low, high, N0, N0, N0, N0, N0, N0).Bits() == Widen(bits)
  {
    var w := Nibbles(low, high, N0, N0, N0, N0, N0, N0).Bits();
    forall i | 0 <= i < 32
      ensures w[i] == (i < 8 && bits[i])
    {
      InputBit(low, high, i);
    }
    SameBits(w, bits);
  }

  lemma {:induction false} FedBits(w: Nibbles, b: byte, low: Nibble, high: Nibble)
    requires IsByte(b, low, high)
    ensures ByteStep(w.Bits(), b) == w.Fed(low, high).Bits()
  {
    var input := Nibbles(low, high, N0, N0, N0, N0, N0, N0);
    ByteBits(b, low, high);
    InputBits(ToBits(b, 8), low, high);
    XorBits(w, input);
    EightBits(w.Xor(input), 8);
  }

  /** The digits of `lows`, whose characters are 0x30 and up, one after another. */
  function Run(w: Nibbles, lows: seq<Nibble>): Nibbles
    decreases |lows|
  {
    if lows == [] then w else Run(w.Fed(lows[0], N3), lows[1..])
  }

  lemma {:induction false} RunBits(w: Nibbles, crc: Word, bytes: seq<byte>, lows: seq<Nibble>)
    requires |bytes| == |lows| && forall i | 0 <= i < |bytes| :: IsByte(bytes[i], lows[i], N3)
    requires crc == w.Bits()
    ensures Register(crc, bytes) == Run(w, lows).Bits()
    decreases |bytes|
  {
    if bytes != [] {
      FedBits(w, bytes[0], lows[0], N3);
      var next := w.Fed(lows[0], N3);
      RunBits(next, next.Bits(), bytes[1..], lows[1..]);
    }
  }

  lemma {:induction false} Turn(w: Nibbles, lows: seq<Nibble>, i: nat)
    requires i < |lows|
    ensures Run(w, lows[i..]) == Run(w.Fed(lows[i], N3), lows[i + 1..])
  {
    assert lows[i..][1..] == lows[i + 1..];
  }

  const W0 := Nibbles(NF, NF, NF, NF, NF, NF, NF, NF)
  const W1 := Nibbles(N8, N4, N0, N1, N3, N2, NC, N7)
  const W2 := Nibbles(N2, N3, NB, NB, NC, NA, N0, NB)
  const W3 := Nibbles(ND, N2, NC, N9, N7, NB, N7, N7)
  const W4 := Nibbles(NC, N5, NF, N1, NC, N1, N4, N6)
  const W5 := Nibbles(N3, NE, N5, NC, NA, N0, N4, N3)
  const W6 := Nibbles(NE, N9, NC, N2, ND, N8, N6, NF)
  const W7 := Nibbles(N0, N6, N6, N9, NC, NF, NF, NA)
  const W8 := Nibbles(N0, N5, N5, N2, NF, N1, N5, N6)
  const W9 := Nibbles(N9, ND, N6, NC, NB, N0, N4, N3)

  lemma {:induction false} FirstThree()
    ensures W0.Fed(N1, N3) == W1 && W1.Fed(N2, N3) == W2 && W2.Fed(N3, N3) == W3
  {
  }

  lemma {:induction false} MiddleThree()
    ensures W3.Fed(N4, N3) == W4 && W4.Fed(N5, N3) == W5 && W5.Fed(N6, N3) == W6
  {
  }

  lemma {:induction false} LastThree()
    ensures W6.Fed(N7, N3) == W7 && W7.Fed(N8, N3) == W8 && W8.Fed(N9, N3) == W9
  {
  }

  lemma {:induction false} CheckRun(w: Nibbles, lows: seq<Nibble>)
    requires w == W0 && lows == [N1, N2, N3, N4, N5, N6, N7, N8, N9]
    ensures Run(w, lows) == W9
  {
    FirstThree();
    MiddleThree();
    LastThree();
    assert lows[0..] == lows;
    Turn(W0, lows, 0);
    Turn(W1, lows, 1);
    Turn(W2, lows, 2);
    Turn(W3, lows, 3);
    Turn(W4, lows, 4);
    Turn(W5, lows, 5);
    Turn(W6, lows, 6);
    Turn(W7, lows, 7);
    Turn(W8, lows, 8);
  }

  lemma {:induction false} BitOfDigit(w: Nibbles, i: nat, j: nat)
    requires j < 4
    ensures w.Bit(4 * i + j) == w.Digit(i).Bit(j)
  {
    assert (4 * i + j) / 4 == i && (4 * i + j) % 4 == j;
  }

  lemma {:induction false} OneDigit(bits: Word, w: Nibbles, i: nat)
    requires i < 8 && forall k | 0 <= k < 32 :: bits[k] == w.Bit(k)
    ensures ValueOf(bits[4 * i..]) == DigitValue(w.Digit(i)) + 16 * ValueOf(bits[4 * i + 4..])
  {
    Crc32.Nibble(bits, 4 * i);
    BitOfDigit(w, i, 0);
    BitOfDigit(w, i, 1);
    BitOfDigit(w, i, 2);
    BitOfDigit(w, i, 3);
  }

  /** 0xcbf4_3926 */
  const CHECK_DIGITS := Nibbles(N6, N2, N9, N3, N4, NF, NB, NC)

  lemma {:induction false} HighHalf(bits: Word, w: Nibbles)
    requires w == CHECK_DIGITS && forall k | 0 <= k < 32 :: bits[k] == w.Bit(k)
    ensures ValueOf(bits[16..]) == 0xcbf4
  {
    OneDigit(bits, w, 7);
    assert bits[32..] == [];
    OneDigit(bits, w, 6);
    OneDigit(bits, w, 5);
    OneDigit(bits, w, 4);
  }

  lemma {:induction false} LowHalf(bits: Word, w: Nibbles)
    requires w == CHECK_DIGITS && forall k | 0 <= k < 32 :: bits[k] == w.Bit(k)
    ensures ValueOf(bits) == 0xcbf4_3926
  {
    HighHalf(bits, w);
    OneDigit(bits, w, 3);
    OneDigit(bits, w, 2);
    OneDigit(bits, w, 1);
    OneDigit(bits, w, 0);
    assert bits[0..] == bits;
  }

  lemma {:induction false} AllOnes()
    ensures W0.Bits() == ALL_ONES
  {
  }

  lemma {:induction false} FlippedBits(bits: Word, i: nat)
    requires i < 32 && bits == W9.Bits()
    ensures Crc32.Xor(bits, ALL_ONES)[i] == CHECK_DIGITS.Bit(i)
  {
  }

  /** "123456789" */
  const CHECK_MESSAGE: seq<byte> := [0x31, 0x32, 0x33, 0x34, 0x35, 0x36, 0x37, 0x38, 0x39]

  lemma {:induction false} CheckRegister(bytes: seq<byte>)
    requires bytes == CHECK_MESSAGE
    ensures Register(ALL_ONES, bytes) == W9.Bits()
  {
    var lows := [N1, N2, N3, N4, N5, N6, N7, N8, N9];
    AllOnes();
    CheckRun(W0, lows);
    RunBits(W0, ALL_ONES, bytes, lows);
  }

  /** The check value every implementation of this checksum is known by. */
  lemma {:induction false} CheckValue(bytes: seq<byte>)
    requires bytes == CHECK_MESSAGE
    ensures ValueOf(Checksum(bytes)) == 0xcbf4_3926
  {
    CheckRegister(bytes);
    var bits := W9.Bits();
    var checksum := Crc32.Xor(bits, ALL_ONES);
    forall i | 0 <= i < 32
      ensures checksum[i] == CHECK_DIGITS.Bit(i)
    {
      FlippedBits(bits, i);
    }
    LowHalf(checksum, CHECK_DIGITS);
  }
}
