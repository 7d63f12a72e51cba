/** The CRC-32 register of the package archive writer: a bit-serial loop over a 32-bit register
    (section 8 of RFC 1952), and the errors its checksum is guaranteed to expose.

    A `u32` is modelled as its 32 bits, least significant first, so that `^`, `>> 1` and `& 1`
    keep their machine meaning and `to_le_bytes` reads the bits off in order. */
module Crc32 {
  import opened Polynomials

  type byte = b: int | 0 <= b < 256

  type Word = w: seq<bool> | |w| == 32 witness ZEROS

  const ZEROS: seq<bool> :=
    [false, false, false, false, false, false, false, false]
    + [false, false, false, false, false, false, false, false]
    + [false, false, false, false, false, false, false, false]
    + [false, false, false, false, false, false, false, false]

  const ALL_ONES: Word :=
    [true, true, true, true, true, true, true, true] + [true, true, true, true, true, true, true, true] +
    [true, true, true, true, true, true, true, true] + [true, true, true, true, true, true, true, true]

  /** 0xedb8_8320: x^26 + x^23 + x^22 + x^16 + x^12 + x^11 + x^10 + x^8 + x^7 + x^5 + x^4 + x^2
      + x + 1 reflected, so that bit i is the coefficient of x^(31 - i). */
  const POLYNOMIAL: Word :=
    [false, false, false, false] + [false, true, false, false] +
    [true, true, false, false] + [false, false, false, true] +
    [false, false, false, true] + [true, true, false, true] +
    [true, false, true, true] + [false, true, true, true]

  function Xor(a: Word, b: Word): Word {
    seq(32, i requires 0 <= i < 32 => a[i] != b[i])
  }

  function ShiftRight(w: Word): Word {
    w[1..] + [false]
  }

  /** `u32::from` of a value of at most 32 bits. */
  function Widen(bits: seq<bool>): Word {
    seq(32, i requires 0 <= i => i < |bits| && bits[i])
  }

  /** The low `count` bits of a number, least significant first. */
  function ToBits(n: nat, count: nat): (bits: seq<bool>)
    ensures |bits| == count
    decreases count, n
  {
    if count == 0 then [] else [n % 2 == 1] + ToBits(n / 2, count - 1)
  }

  function ValueOf(bits: seq<bool>): nat {
    if bits == [] then 0 else (if bits[0] then 1 else 0) + 2 * ValueOf(bits[1..])
  }

  /** One turn of the inner loop. */
  function BitStep(crc: Word): Word {
    if crc[0] then Xor(ShiftRight(crc), POLYNOMIAL) else ShiftRight(crc)
  }

  function Iterate<T>(f: T -> T, x: T, count: nat): T {
    if count == 0 then x else Iterate(f, f(x), count - 1)
  }

  function Steps(crc: Word, count: nat): Word {
    Iterate(BitStep, crc, count)
  }

  /** One turn of the outer loop. */
  function ByteStep(crc: Word, b: byte): Word {
    Steps(Xor(crc, Widen(ToBits(b, 8))), 8)
  }

  function Register(crc: Word, bytes: seq<byte>): Word
    decreases |bytes|
  {
    if bytes == [] then crc else Register(ByteStep(crc, bytes[0]), bytes[1..])
  }

  function Checksum(bytes: seq<byte>): Word {
    Xor(Register(ALL_ONES, bytes), ALL_ONES)
  }

  method Compute(bytes: seq<byte>) returns (checksum: Word)
    ensures checksum == Checksum(bytes)
    ensures IsRemainder(Dividend(bytes), Generator(), Complement(checksum))
  {
    ChecksumIsTheRemainder(bytes);
    var crc := ALL_ONES;
    for i := 0 to |bytes|
      invariant Register(crc, bytes[i..]) == Register(ALL_ONES, bytes)
    {
      assert bytes[i..][1..] == bytes[i + 1..];
      crc := NextByte(crc, bytes[i]);
    }
    checksum := Xor(crc, ALL_ONES);
  }

  /** The body of the outer loop, with the inner one. */
  method NextByte(before: Word, b: byte) returns (crc: Word)
    ensures crc == ByteStep(before, b)
  {
    crc := Xor(before, Widen(ToBits(b, 8)));
    for j := 0 to 8
      invariant Steps(crc, 8 - j) == ByteStep(before, b)
    {
      crc := if crc[0] then Xor(ShiftRight(crc), POLYNOMIAL) else ShiftRight(crc);
    }
  }

  /** The reflected polynomial is the constant the loop xors in. */
  lemma {:induction false} PolynomialValue()
    ensures ValueOf(POLYNOMIAL) == 0xedb8_8320
  {
    PolynomialHighHalf();
    assert ValueOf(POLYNOMIAL[12..]) == 0xe_db88 by { Nibble(POLYNOMIAL, 12); }
    assert ValueOf(POLYNOMIAL[8..]) == 0xed_b883 by { Nibble(POLYNOMIAL, 8); }
    assert ValueOf(POLYNOMIAL[4..]) == 0xedb_8832 by { Nibble(POLYNOMIAL, 4); }
    Nibble(POLYNOMIAL, 0);
    assert POLYNOMIAL[0..] == POLYNOMIAL;
  }

  lemma {:induction false} PolynomialHighHalf()
    ensures ValueOf(POLYNOMIAL[16..]) == 0xedb8
  {
    assert ValueOf(POLYNOMIAL[28..]) == 0xe by { Nibble(POLYNOMIAL, 28); assert POLYNOMIAL[32..] == []; }
    assert ValueOf(POLYNOMIAL[24..]) == 0xed by { Nibble(POLYNOMIAL, 24); }
    assert ValueOf(POLYNOMIAL[20..]) == 0xedb by { Nibble(POLYNOMIAL, 20); }
    Nibble(POLYNOMIAL, 16);
  }

  lemma {:induction false} OneBit(p: seq<bool>, i: nat)
    requires i < |p|
    ensures ValueOf(p[i..]) == (if p[i] then 1 else 0) + 2 * ValueOf(p[i + 1..])
  {
    assert p[i..][1..] == p[i + 1..];
  }

  lemma {:induction false} Nibble(p: seq<bool>, i: nat)
    requires i + 4 <= |p|
    ensures ValueOf(p[i..]) == (if p[i] then 1 else 0) + (if p[i + 1] then 2 else 0)
                               + (if p[i + 2] then 4 else 0) + (if p[i + 3] then 8 else 0) + 16 * ValueOf(p[i + 4..])
  {
    OneBit(p, i);
    OneBit(p, i + 1);
    OneBit(p, i + 2);
    OneBit(p, i + 3);
  }

  lemma {:induction false} ValueBound(bits: seq<bool>)
    ensures ValueOf(bits) < Pow2(|bits|)
  {
    if bits != [] {
      ValueBound(bits[1..]);
    }
  }

  lemma {:induction false} WordFits(w: Word)
    ensures ValueOf(w) < 0x1_0000_0000
  {
    ValueBound(w);
    assert Pow2(4) == 16;
    Pow2Adds(4, 4);
    Pow2Adds(8, 8);
    Pow2Adds(16, 16);
  }

  lemma {:induction false} Pow2Adds(a: nat, b: nat)
    ensures Pow2(a + b) == Pow2(a) * Pow2(b)
    decreases b
  {
    if b > 0 {
      Pow2Adds(a, b - 1);
      assert 2 * (Pow2(a) * Pow2(b - 1)) == Pow2(a) * (2 * Pow2(b - 1));
    }
  }

  // ---- The step is invertible -----------------------------------------------------------

  function BitUnstep(crc: Word): Word {
    if crc[31] then [true] + Xor(crc, POLYNOMIAL)[..31] else [false] + crc[..31]
  }

  function Unsteps(crc: Word, count: nat): Word {
    Iterate(BitUnstep, crc, count)
  }

  function ByteUnstep(crc: Word, b: byte): Word {
    Xor(Unsteps(crc, 8), Widen(ToBits(b, 8)))
  }

  lemma {:induction false} BitStepInverse(crc: Word)
    ensures BitUnstep(BitStep(crc)) == crc
    ensures BitStep(BitUnstep(crc)) == crc
  {
  }

  lemma {:induction false} XorTwice(a: Word, b: Word)
    ensures Xor(Xor(a, b), b) == a && Xor(a, Xor(a, b)) == b
  {
  }

  lemma {:induction false} IterateSnoc<T>(f: T -> T, x: T, count: nat)
    ensures Iterate(f, x, count + 1) == f(Iterate(f, x, count))
  {
    if count > 0 {
      IterateSnoc(f, f(x), count - 1);
    }
  }

  lemma {:induction false} IterateBack<T(!new)>(f: T -> T, g: T -> T, x: T, count: nat)
    requires forall y :: g(f(y)) == y
    ensures Iterate(g, Iterate(f, x, count), count) == x
  {
    if count > 0 {
      var next := f(x);
      IterateSnoc(g, Iterate(f, next, count - 1), count - 1);
      IterateBack(f, g, next, count - 1);
    }
  }

  lemma {:induction false} StepsAndUnsteps(crc: Word, count: nat)
    ensures Steps(Unsteps(crc, count), count) == crc
    ensures Unsteps(Steps(crc, count), count) == crc
  {
    forall w: Word
      ensures BitStep(BitUnstep(w)) == w && BitUnstep(BitStep(w)) == w
    {
      BitStepInverse(w);
    }
    IterateBack(BitUnstep, BitStep, crc, count);
    IterateBack(BitStep, BitUnstep, crc, count);
  }

  /** For every input byte the byte step is a bijection on the register: it has a two-sided inverse. */
  lemma {:induction false} ByteStepIsBijection(crc: Word, b: byte)
    ensures ByteStep(ByteUnstep(crc, b), b) == crc
    ensures ByteUnstep(ByteStep(crc, b), b) == crc
  {
    var input := Widen(ToBits(b, 8));
    StepsAndUnsteps(crc, 8);
    XorTwice(Unsteps(crc, 8), input);
    StepsAndUnsteps(Xor(crc, input), 8);
    XorTwice(crc, input);
  }

  // ---- The same register fed one bit at a time ------------------------------------------

  function Feed(crc: Word, bit: bool): Word {
    BitStep(crc[0 := crc[0] != bit])
  }

  function RegisterBits(crc: Word, bits: seq<bool>): Word
    decreases |bits|
  {
    if bits == [] then crc else RegisterBits(Feed(crc, bits[0]), bits[1..])
  }

  /** A message as the register sees it: each byte least significant bit first. */
  function Stream(bytes: seq<byte>): (bits: seq<bool>)
    ensures |bits| == 8 * |bytes|
  {
    if bytes == [] then [] else ToBits(bytes[0], 8) + Stream(bytes[1..])
  }

  lemma {:induction false} FeedFirst(crc: Word, bits: seq<bool>)
    requires 0 < |bits| <= 32
    ensures BitStep(Xor(crc, Widen(bits))) == Xor(Feed(crc, bits[0]), Widen(bits[1..]))
  {
  }

  /** Xoring up to 32 bits in at once and then stepping equals feeding them one at a time. */
  lemma {:induction false} WordIsItsBits(crc: Word, bits: seq<bool>)
    requires |bits| <= 32
    ensures Steps(Xor(crc, Widen(bits)), |bits|) == RegisterBits(crc, bits)
    decreases |bits|
  {
    if bits == [] {
      assert Xor(crc, Widen(bits)) == crc;
    } else {
      FeedFirst(crc, bits);
      WordIsItsBits(Feed(crc, bits[0]), bits[1..]);
    }
  }

  lemma {:induction false} RegisterBitsAppend(crc: Word, a: seq<bool>, b: seq<bool>)
    ensures RegisterBits(crc, a + b) == RegisterBits(RegisterBits(crc, a), b)
    decreases |a|
  {
    if a == [] {
      assert a + b == b;
    } else {
      assert (a + b)[1..] == a[1..] + b;
      RegisterBitsAppend(Feed(crc, a[0]), a[1..], b);
    }
  }

  /** The byte-serial loop is the bit-serial register run over the message's bit stream. */
  lemma {:induction false} RegisterIsBitSerial(crc: Word, bytes: seq<byte>)
    ensures Register(crc, bytes) == RegisterBits(crc, Stream(bytes))
    decreases |bytes|
  {
    if bytes != [] {
      WordIsItsBits(crc, ToBits(bytes[0], 8));
      RegisterBitsAppend(crc, ToBits(bytes[0], 8), Stream(bytes[1..]));
      RegisterIsBitSerial(ByteStep(crc, bytes[0]), bytes[1..]);
    }
  }

  // ---- What the checksum is -------------------------------------------------------------

  /** Section 8 of RFC 1952, by the powers of x with coefficient 1, the highest first. */
  function Generator(): (g: seq<bool>)
    ensures |g| == 33 && g[0]
  {
    seq(33, i => 32 - i in {32, 26, 23, 22, 16, 12, 11, 10, 8, 7, 5, 4, 2, 1, 0})
  }

  function Complement(bits: seq<bool>): (flipped: seq<bool>)
    ensures |flipped| == |bits| && forall i | 0 <= i < |bits| :: flipped[i] == !bits[i]
  {
    seq(|bits|, i requires 0 <= i < |bits| => !bits[i])
  }

  /** The message times x^32, with its first 32 coefficients inverted. */
  function Dividend(bytes: seq<byte>): seq<bool> {
    var shifted := Stream(bytes) + Zeros(32);
    Complement(shifted[..32]) + shifted[32..]
  }

  /** What is left to divide when the register holds `crc` and `bits` are still to come. */
  function Pending(crc: Word, bits: seq<bool>): (d: seq<bool>)
    ensures |d| == |bits| + 32
  {
    Sum(bits + Zeros(32), crc + Zeros(|bits|))
  }

  lemma {:induction false} GeneratorIsThePolynomial(i: nat)
    requires i < 32
    ensures Generator()[i + 1] == POLYNOMIAL[i]
  {
  }

  lemma {:induction false} FeedIsARow(crc: Word, bits: seq<bool>, i: nat)
    requires bits != [] && i < |bits| + 31
    ensures Pending(Feed(crc, bits[0]), bits[1..])[i] ==
            (Pending(crc, bits)[i + 1] != (Pending(crc, bits)[0] && i < 32 && Generator()[i + 1]))
  {
    if i < 32 {
      GeneratorIsThePolynomial(i);
    }
  }

  /** Feeding the register is long division: what it holds at the end is the remainder. */
  lemma {:induction false} RegisterDivides(crc: Word, bits: seq<bool>) returns (q: seq<bool>)
    ensures IsQuotient(Pending(crc, bits), Generator(), q, RegisterBits(crc, bits))
    decreases |bits|
  {
    if bits == [] {
      q := [];
    } else {
      var next := Feed(crc, bits[0]);
      var rest := RegisterDivides(next, bits[1..]);
      forall i | 0 <= i < |bits| + 31
        ensures Pending(next, bits[1..])[i] ==
                (Pending(crc, bits)[i + 1] != (Pending(crc, bits)[0] && i + 1 < 33 && Generator()[i + 1]))
      {
        FeedIsARow(crc, bits, i);
      }
      DivisionRow(Pending(crc, bits), Pending(next, bits[1..]), Generator(), rest, RegisterBits(crc, bits));
      q := [Pending(crc, bits)[0]] + rest;
    }
  }

  lemma {:induction false} AllPending(bytes: seq<byte>)
    ensures Pending(ALL_ONES, Stream(bytes)) == Dividend(bytes)
  {
  }

  lemma {:induction false} ComplementUndone(w: Word)
    ensures Complement(Xor(w, ALL_ONES)) == w
  {
  }

  /** The definition of section 8 of RFC 1952: the complement of the checksum, and nothing else, is the
      remainder of the dividend modulo the generator, for messages of less than four bytes too. */
  lemma {:induction false} ChecksumIsTheRemainder(bytes: seq<byte>)
    ensures forall r: seq<bool> ::
              IsRemainder(Dividend(bytes), Generator(), r) <==> r == Complement(Checksum(bytes))
  {
    RegisterIsBitSerial(ALL_ONES, bytes);
    var q := RegisterDivides(ALL_ONES, Stream(bytes));
    AllPending(bytes);
    ComplementUndone(Register(ALL_ONES, bytes));
    forall r: seq<bool> | IsRemainder(Dividend(bytes), Generator(), r)
      ensures r == Complement(Checksum(bytes))
    {
      RemainderIsUnique(Dividend(bytes), Generator(), r, Complement(Checksum(bytes)));
    }
  }

  // ---- Error detection ------------------------------------------------------------------

  lemma {:induction false} RegisterBitsInjective(x: Word, y: Word, bits: seq<bool>)
    requires RegisterBits(x, bits) == RegisterBits(y, bits)
    ensures x == y
    decreases |bits|
  {
    if bits != [] {
      RegisterBitsInjective(Feed(x, bits[0]), Feed(y, bits[0]), bits[1..]);
      var x', y' := x[0 := x[0] != bits[0]], y[0 := y[0] != bits[0]];
      BitStepInverse(x');
      BitStepInverse(y');
      assert x == x'[0 := x'[0] != bits[0]] && y == y'[0 := y'[0] != bits[0]];
    }
  }

  /** Up to 32 bits fed into the register can be read back out of it. */
  lemma {:induction false} WindowIsSeen(crc: Word, left: seq<bool>, right: seq<bool>)
    requires |left| == |right| <= 32
    requires RegisterBits(crc, left) == RegisterBits(crc, right)
    ensures left == right
  {
    var l, r := Widen(left), Widen(right);
    WordIsItsBits(crc, left);
    WordIsItsBits(crc, right);
    StepsAndUnsteps(Xor(crc, l), |left|);
    StepsAndUnsteps(Xor(crc, r), |left|);
    XorTwice(crc, l);
    XorTwice(crc, r);
    assert left == l[..|left|] && right == r[..|left|];
  }

  lemma {:induction false} ToBitsValue(n: nat, count: nat)
    ensures n < Pow2(count) ==> ValueOf(ToBits(n, count)) == n
    decreases count
  {
    if count > 0 {
      ToBitsValue(n / 2, count - 1);
      assert ToBits(n, count)[1..] == ToBits(n / 2, count - 1);
    }
  }

  function Pow2(count: nat): nat {
    if count == 0 then 1 else 2 * Pow2(count - 1)
  }

  lemma {:induction false} ByteBitsInjective(a: byte, b: byte)
    requires ToBits(a, 8) == ToBits(b, 8)
    ensures a == b
  {
    assert Pow2(8) == 256 by { assert Pow2(4) == 16; Pow2Adds(4, 4); }
    ToBitsValue(a, 8);
    ToBitsValue(b, 8);
  }

  lemma {:induction false} StreamInjective(left: seq<byte>, right: seq<byte>)
    requires Stream(left) == Stream(right)
    ensures left == right
    decreases |left|
  {
    if left != [] {
      assert ToBits(left[0], 8) == Stream(left)[..8] == Stream(right)[..8] == ToBits(right[0], 8);
      assert Stream(left[1..]) == Stream(left)[8..] == Stream(right)[8..] == Stream(right[1..]);
      ByteBitsInjective(left[0], right[0]);
      StreamInjective(left[1..], right[1..]);
      assert left == [left[0]] + left[1..] && right == [right[0]] + right[1..];
    }
  }

  lemma {:induction false} ThreeParts(crc: Word, a: seq<bool>, b: seq<bool>, c: seq<bool>)
    ensures RegisterBits(crc, a + b + c) == RegisterBits(RegisterBits(RegisterBits(crc, a), b), c)
  {
    RegisterBitsAppend(crc, a + b, c);
    RegisterBitsAppend(crc, a, b);
  }

  lemma {:induction false} WindowDecides(l: seq<bool>, r: seq<bool>, from: nat, to: nat)
    requires |l| == |r| && from <= to <= |l| && to - from <= 32
    requires l[..from] == r[..from] && l[to..] == r[to..]
    requires RegisterBits(ALL_ONES, l) == RegisterBits(ALL_ONES, r)
    ensures l == r
  {
    assert l == l[..from] + l[from..to] + l[to..];
    assert r == r[..from] + r[from..to] + r[to..];
    var crc := RegisterBits(ALL_ONES, l[..from]);
    ThreeParts(ALL_ONES, l[..from], l[from..to], l[to..]);
    ThreeParts(ALL_ONES, r[..from], r[from..to], r[to..]);
    RegisterBitsInjective(RegisterBits(crc, l[from..to]), RegisterBits(crc, r[from..to]), l[to..]);
    WindowIsSeen(crc, l[from..to], r[from..to]);
  }

  /** Every burst is detected: two different messages of one length whose bit streams agree
      outside some 32 consecutive bits never share a checksum. */
  lemma {:induction false} BurstsAreDetected(left: seq<byte>, right: seq<byte>, start: nat)
    requires |left| == |right| && left != right
    requires forall i | 0 <= i < 8 * |left| && !(start <= i < start + 32) :: Stream(left)[i] == Stream(right)[i]
    ensures Checksum(left) != Checksum(right)
  {
    var l, r := Stream(left), Stream(right);
    var from := if start < |l| then start else |l|;
    var to := if from + 32 < |l| then from + 32 else |l|;
    assert l[..from] == r[..from] && l[to..] == r[to..];
    if Checksum(left) == Checksum(right) {
      XorTwice(Register(ALL_ONES, left), ALL_ONES);
      XorTwice(Register(ALL_ONES, right), ALL_ONES);
      RegisterIsBitSerial(ALL_ONES, left);
      RegisterIsBitSerial(ALL_ONES, right);
      WindowDecides(l, r, from, to);
      StreamInjective(left, right);
    }
  }

  lemma {:induction false} StreamAppend(a: seq<byte>, b: seq<byte>)
    ensures Stream(a + b) == Stream(a) + Stream(b)
  {
    if a == [] {
      assert a + b == b;
    } else {
      assert (a + b)[1..] == a[1..] + b;
      StreamAppend(a[1..], b);
    }
  }

  lemma {:induction false} MiddlesDiffer<T>(prefix: seq<T>, left: seq<T>, right: seq<T>, suffix: seq<T>)
    requires |left| == |right| && left != right
    ensures prefix + left + suffix != prefix + right + suffix
  {
    var k :| 0 <= k < |left| && left[k] != right[k];
    assert (prefix + left + suffix)[|prefix| + k] == left[k];
    assert (prefix + right + suffix)[|prefix| + k] == right[k];
  }

  /** In bytes: a change confined to four consecutive bytes always changes the checksum. */
  lemma {:induction false} FourByteChangesAreDetected(prefix: seq<byte>, left: seq<byte>, right: seq<byte>,
      suffix: seq<byte>)
    requires |left| == |right| <= 4 && left != right
    ensures Checksum(prefix + left + suffix) != Checksum(prefix + right + suffix)
  {
    var a, l, r, b := Stream(prefix), Stream(left), Stream(right), Stream(suffix);
    StreamAppend(prefix + left, suffix);
    StreamAppend(prefix, left);
    StreamAppend(prefix + right, suffix);
    StreamAppend(prefix, right);
    MiddlesDiffer(prefix, left, right, suffix);
    BurstsAreDetected(prefix + left + suffix, prefix + right + suffix, |a|);
  }

  /** And 32 bits is the limit: from every register, 33 bits in the polynomial's own pattern leave
      what 33 zeros leave. */
  lemma {:induction false} LongerBurstsEscape(crc: Word, pattern: seq<bool>, zeros: seq<bool>)
    requires pattern == [true] + POLYNOMIAL
    requires |zeros| == 33 && forall i | 0 <= i < 33 :: !zeros[i]
    ensures RegisterBits(crc, pattern) == RegisterBits(crc, zeros)
  {
    var rest: Word := zeros[1..];
    var flipped, kept := Feed(crc, true), Feed(crc, false);
    assert pattern[1..] == POLYNOMIAL;
    WordIsItsBits(flipped, POLYNOMIAL);
    WordIsItsBits(kept, rest);
    assert Xor(flipped, Widen(POLYNOMIAL)) == kept == Xor(kept, Widen(rest));
  }

  /** That pattern in five bytes, followed by seven zero bits. */
  const ESCAPE: seq<byte> := [0x41, 0x06, 0x71, 0xdb, 0x01]

  lemma {:induction false} OneByteStream(b: byte, rest: seq<byte>)
    ensures Stream([b] + rest) == ToBits(b, 8) + Stream(rest)
  {
    assert ([b] + rest)[1..] == rest;
  }

  lemma {:induction false} FiveByteStream(a: byte, b: byte, c: byte, d: byte, e: byte)
    ensures Stream([a, b, c, d, e]) == ToBits(a, 8) + ToBits(b, 8) + ToBits(c, 8) + ToBits(d, 8) + ToBits(e, 8)
  {
    OneByteStream(a, [b, c, d, e]);
    OneByteStream(b, [c, d, e]);
    OneByteStream(c, [d, e]);
    OneByteStream(d, [e]);
    OneByteStream(e, []);
    assert [a, b, c, d, e] == [a] + [b, c, d, e] && [b, c, d, e] == [b] + [c, d, e] && [c, d, e] == [c] + [d, e];
    assert [d, e] == [d] + [e] && [e] == [e] + [];
  }

  const ESCAPE0: seq<bool> := [true, false, false, false, false, false, true, false]
  const ESCAPE1: seq<bool> := [false, true, true, false, false, false, false, false]
  const ESCAPE2: seq<bool> := [true, false, false, false, true, true, true, false]
  const ESCAPE3: seq<bool> := [true, true, false, true, true, false, true, true]
  const ESCAPE4: seq<bool> := [true, false, false, false, false, false, false, false]

  lemma {:induction false} BitsOfValue(bits: seq<bool>)
    ensures ToBits(ValueOf(bits), |bits|) == bits
  {
    if bits != [] {
      BitsOfValue(bits[1..]);
      var rest := ValueOf(bits[1..]);
      assert ValueOf(bits) / 2 == rest && (ValueOf(bits) % 2 == 1 <==> bits[0]);
      assert bits == [bits[0]] + bits[1..];
    }
  }

  lemma {:induction false} EightBitsValue(bits: seq<bool>)
    requires |bits| == 8
    ensures ValueOf(bits) == (if bits[0] then 1 else 0) + (if bits[1] then 2 else 0) + (if bits[2] then 4 else 0)
                             + (if bits[3] then 8 else 0) + (if bits[4] then 16 else 0) + (if bits[5] then 32 else 0)
                             + (if bits[6] then 64 else 0) + (if bits[7] then 128 else 0)
  {
    Nibble(bits, 0);
    Nibble(bits, 4);
    assert bits[0..] == bits && bits[8..] == [];
  }

  lemma {:induction false} BitsOf(bits: seq<bool>, n: nat, count: nat)
    requires |bits| == count && ValueOf(bits) == n
    ensures ToBits(n, count) == bits
  {
    BitsOfValue(bits);
  }

  lemma {:induction false} EscapeBits()
    ensures ToBits(0x41, 8) == ESCAPE0 && ToBits(0x06, 8) == ESCAPE1 && ToBits(0x71, 8) == ESCAPE2
    ensures ToBits(0xdb, 8) == ESCAPE3 && ToBits(0x01, 8) == ESCAPE4
  {
    EightBitsValue(ESCAPE0);
    BitsOf(ESCAPE0, 0x41, 8);
    EightBitsValue(ESCAPE1);
    BitsOf(ESCAPE1, 0x06, 8);
    EightBitsValue(ESCAPE2);
    BitsOf(ESCAPE2, 0x71, 8);
    EightBitsValue(ESCAPE3);
    BitsOf(ESCAPE3, 0xdb, 8);
    EightBitsValue(ESCAPE4);
    BitsOf(ESCAPE4, 0x01, 8);
  }

  lemma {:induction false} EightApart(x: seq<bool>)
    requires |x| == 40
    ensures x == x[..8] + x[8..16] + x[16..24] + x[24..32] + x[32..]
  {
  }

  lemma {:induction false} PatternStart(x: seq<bool>)
    requires x == [true] + POLYNOMIAL + Zeros(7)
    ensures x[..8] == ESCAPE0 && x[8..16] == ESCAPE1
  {
  }

  lemma {:induction false} PatternEnd(x: seq<bool>)
    requires x == [true] + POLYNOMIAL + Zeros(7)
    ensures x[16..24] == ESCAPE2 && x[24..32] == ESCAPE3 && x[32..] == ESCAPE4
  {
  }

  lemma {:induction false} EscapeStream()
    ensures Stream(ESCAPE) == [true] + POLYNOMIAL + Zeros(7)
  {
    FiveByteStream(0x41, 0x06, 0x71, 0xdb, 0x01);
    EscapeBits();
    PatternStart([true] + POLYNOMIAL + Zeros(7));
    PatternEnd([true] + POLYNOMIAL + Zeros(7));
    EightApart([true] + POLYNOMIAL + Zeros(7));
  }

  lemma {:induction false} ZeroStream(bytes: seq<byte>)
    requires forall i | 0 <= i < |bytes| :: bytes[i] == 0
    ensures Stream(bytes) == Zeros(8 * |bytes|)
  {
    if bytes != [] {
      ZeroStream(bytes[1..]);
      assert ToBits(0, 8) == [false, false, false, false, false, false, false, false];
    }
  }

  lemma {:induction false} SameMiddle(crc: Word, a: seq<bool>, left: seq<bool>, right: seq<bool>, c: seq<bool>)
    requires forall w: Word :: RegisterBits(w, left) == RegisterBits(w, right)
    ensures RegisterBits(crc, a + left + c) == RegisterBits(crc, a + right + c)
  {
    ThreeParts(crc, a, left, c);
    ThreeParts(crc, a, right, c);
  }

  lemma {:induction false} StreamAround(prefix: seq<byte>, x: seq<byte>, suffix: seq<byte>, l: seq<bool>,
                                        pad: seq<bool>)
    requires Stream(x) == l + pad
    ensures Stream(prefix + x + suffix) == Stream(prefix) + l + (pad + Stream(suffix))
  {
    StreamAppend(prefix + x, suffix);
    StreamAppend(prefix, x);
    Regroup(Stream(prefix), l, pad, Stream(suffix));
  }

  lemma {:induction false} Regroup<T>(a: seq<T>, b: seq<T>, c: seq<T>, d: seq<T>)
    ensures a + (b + c) + d == a + b + (c + d)
  {
  }

  lemma {:induction false} AgreeOutside<T>(a: seq<T>, l: seq<T>, r: seq<T>, c: seq<T>)
    requires |l| == |r|
    ensures |a + l + c| == |a + r + c|
    ensures forall i | 0 <= i < |a + l + c| && !(|a| <= i < |a| + |l|) :: (a + l + c)[i] == (a + r + c)[i]
  {
  }

  lemma {:induction false} SameRegisterSameChecksum(left: seq<byte>, right: seq<byte>)
    requires RegisterBits(ALL_ONES, Stream(left)) == RegisterBits(ALL_ONES, Stream(right))
    ensures Checksum(left) == Checksum(right)
  {
    RegisterIsBitSerial(ALL_ONES, left);
    RegisterIsBitSerial(ALL_ONES, right);
  }

  lemma {:induction false} CollideAround(prefix: seq<byte>, x: seq<byte>, y: seq<byte>, suffix: seq<byte>,
                                         l: seq<bool>, r: seq<bool>, pad: seq<bool>)
    requires Stream(x) == l + pad && Stream(y) == r + pad && |l| == |r|
    requires forall w: Word :: RegisterBits(w, l) == RegisterBits(w, r)
    ensures var (left, right) := (prefix + x + suffix, prefix + y + suffix);
            && |left| == |right| && Checksum(left) == Checksum(right)
            && forall i | 0 <= i < 8 * |left| && !(8 * |prefix| <= i < 8 * |prefix| + |l|) ::
                 Stream(left)[i] == Stream(right)[i]
  {
    var left, right := prefix + x + suffix, prefix + y + suffix;
    var a, c := Stream(prefix), pad + Stream(suffix);
    StreamAround(prefix, x, suffix, l, pad);
    StreamAround(prefix, y, suffix, r, pad);
    SameMiddle(ALL_ONES, a, l, r, c);
    SameRegisterSameChecksum(left, right);
    AgreeOutside(a, l, r, c);
    assert |x| == |y|;
  }

  /** In bytes: whatever stands before and after, these five bytes and five zero bytes, which differ
      within 33 consecutive bits, make two messages of one length and one checksum. */
  lemma {:induction false} LongerBurstsCollide(prefix: seq<byte>, zeros: seq<byte>, suffix: seq<byte>)
    requires |zeros| == 5 && forall i | 0 <= i < 5 :: zeros[i] == 0
    ensures var (left, right) := (prefix + ESCAPE + suffix, prefix + zeros + suffix);
            && |left| == |right| && left != right && Checksum(left) == Checksum(right)
            && forall i | 0 <= i < 8 * |left| && !(8 * |prefix| <= i < 8 * |prefix| + 33) ::
                 Stream(left)[i] == Stream(right)[i]
  {
    var l, r := [true] + POLYNOMIAL, Zeros(33);
    EscapeStream();
    ZeroStream(zeros);
    assert Zeros(40) == r + Zeros(7);
    forall w: Word
      ensures RegisterBits(w, l) == RegisterBits(w, r)
    {
      LongerBurstsEscape(w, l, r);
    }
    CollideAround(prefix, ESCAPE, zeros, suffix, l, r, Zeros(7));
    assert ESCAPE[0] != zeros[0];
    MiddlesDiffer(prefix, ESCAPE, zeros, suffix);
  }
}
