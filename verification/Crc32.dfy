/**
  CRC-32 as zlib computes it, bit by bit.

  The loop is compared with the table-driven form of section 8 of RFC 1952; a checksum can be taken
  in pieces; and no change confined to four consecutive bytes goes unnoticed.
*/
module Crc32 {
  /** A byte, already widened to the register. */
  type octet = b: bv32 | b < 256

  const POLY: bv32 := 0xEDB88320

  // The operations of the register, named so that proofs can treat them as black boxes.

  function Xor(a: bv32, b: bv32): bv32 { a ^ b }

  function Not(a: bv32): bv32 { !a }

  function Up1(a: bv32): bv32 { a << 1 }

  function Up4(a: bv32): bv32 { a << 4 }

  function Up8(a: bv32): bv32 { a << 8 }

  function Down1(a: bv32): bv32 { a >> 1 }

  function Down8(a: bv32): bv32 { a >> 8 }

  function Low(a: bv32): octet { a & 0xFF }

  /** At most 24 bits: there is room to move up by a byte. */
  predicate Room(a: bv32) { a < 0x100_0000 }

  /** The highest bit is free: there is room to move up by a bit. */
  predicate Spare(a: bv32) { a < 0x8000_0000 }

  predicate Odd(a: bv32) { a & 1 == 1 }

  function StepBit(c: bv32): bv32 {
    Xor(Down1(c), if Odd(c) then POLY else 0)
  }

  /** The step as the source writes it, with a mask instead of a branch. */
  function MaskedStep(c: bv32): bv32 {
    (c >> 1) ^ (POLY & (0 - (c & 1)))
  }

  lemma MaskIsTest(c: bv32)
    ensures MaskedStep(c) == StepBit(c)
  {
    assert c & 1 == 0 || c & 1 == 1;
  }

  function Steps(n: nat, c: bv32): bv32 {
    if n == 0 then c else Steps(n - 1, StepBit(c))
  }

  /** The register after the bytes, without the complement before and after. */
  function Raw(c: bv32, bytes: seq<octet>): bv32
    decreases |bytes|
  {
    if bytes == [] then c else Raw(Steps(8, Xor(c, bytes[0])), bytes[1..])
  }

  /** The checksum of `bytes`, continuing from the checksum `crc` of what came before. */
  function Crc(crc: bv32, bytes: seq<octet>): bv32 {
    Not(Raw(Not(crc), bytes))
  }

  /** `delta_crc32` and `crc32_update`. */
  method UpdateCrc(start: bv32, bytes: seq<octet>) returns (crc: bv32)
    ensures crc == Crc(start, bytes)
    ensures start == 0 ==> crc == Checksum(bytes)
  {
    hide StepBit, MaskedStep, Xor, Not, Checksum;
    CrcIsChecksum(bytes);
    crc := Not(start);
    var i := 0;
    while i < |bytes|
      invariant 0 <= i <= |bytes|
      invariant Raw(crc, bytes[i..]) == Raw(Not(start), bytes)
    {
      crc := Xor(crc, bytes[i]);
      ghost var before := crc;
      var bit := 0;
      while bit < 8
        invariant 0 <= bit <= 8
        invariant Steps(8 - bit, crc) == Steps(8, before)
      {
        MaskIsTest(crc);
        crc := MaskedStep(crc);
        bit := bit + 1;
      }
      assert bytes[i..][1..] == bytes[i + 1..];
      i := i + 1;
    }
    crc := Not(crc);
  }

  lemma NotNot(c: bv32)
    ensures Not(Not(c)) == c
  {
  }

  // ---------------------------------------------------------------- pieces

  lemma {:induction false} RawSplit(c: bv32, a: seq<octet>, b: seq<octet>)
    ensures Raw(c, a + b) == Raw(Raw(c, a), b)
    decreases |a|
  {
    hide Steps, Xor;
    if a == [] {
      assert a + b == b;
    } else {
      assert (a + b)[1..] == a[1..] + b;
      RawSplit(Steps(8, Xor(c, a[0])), a[1..], b);
    }
  }

  /** The checksum of the whole is the checksum of the rest continued from that of the start. */
  lemma CrcSplit(crc: bv32, a: seq<octet>, b: seq<octet>)
    ensures Crc(crc, a + b) == Crc(Crc(crc, a), b)
  {
    hide Raw, Not;
    RawSplit(Not(crc), a, b);
    NotNot(Raw(Not(crc), a));
  }

  lemma EmptyCrc()
    ensures Crc(0, []) == 0
  {
  }

  /** `session_payload_checksum`: one checksum over three buffers, as if they were one. */
  method SessionChecksum(session: seq<octet>, events: seq<octet>, measurements: seq<octet>) returns (crc: bv32)
    ensures crc == Checksum(session + events + measurements)
  {
    hide Crc, Checksum;
    CrcIsChecksum(session + events + measurements);
    CrcSplit(0, session, events);
    CrcSplit(0, session + events, measurements);
    crc := UpdateCrc(0, session);
    crc := UpdateCrc(crc, events);
    crc := UpdateCrc(crc, measurements);
  }

  // ---------------------------------------------------------------- moving the upper bits

  lemma XorAssoc(a: bv32, b: bv32, c: bv32)
    ensures Xor(Xor(a, b), c) == Xor(a, Xor(b, c))
  {
    assert (a ^ b) ^ c == a ^ (b ^ c);
  }

  lemma XorCommutes(a: bv32, b: bv32)
    ensures Xor(a, b) == Xor(b, a)
  {
  }

  lemma LowBitStays(x: bv32, z: bv32)
    ensures Odd(Xor(x, Up1(z))) == Odd(x)
  {
    assert (x ^ (z << 1)) & 1 == x & 1;
  }

  lemma HalfOfXor(x: bv32, z: bv32)
    requires Spare(z)
    ensures Down1(Xor(x, Up1(z))) == Xor(Down1(x), z)
  {
  }

  /** A step moves the upper bits and leaves them alone otherwise. */
  lemma StepLinear(x: bv32, z: bv32)
    requires Spare(z)
    ensures StepBit(Xor(x, Up1(z))) == Xor(StepBit(x), z)
  {
    hide Xor, Up1, Down1, Odd, Spare;
    var p := if Odd(x) then POLY else 0;
    LowBitStays(x, z);
    HalfOfXor(x, z);
    XorAssoc(Down1(x), z, p);
    XorCommutes(z, p);
    XorAssoc(Down1(x), p, z);
  }

  lemma Up4Once(y: bv32)
    ensures Up4(y) == Up1(Up1(Up1(Up1(y))))
  {
    assert y << 4 == (((y << 1) << 1) << 1) << 1;
  }

  lemma Up8Twice(y: bv32)
    ensures Up8(y) == Up4(Up4(y))
  {
    assert y << 8 == (y << 4) << 4;
  }

  lemma UpFits(y: bv32, u: bv32, m: bv32, n: bv32)
    requires y < m <= 0x4000_0000 && n == m << 1 && u == Up1(y)
    ensures u < n
  {
  }

  /** `y` moved up by 7, 6, ... 1 bits. */
  lemma Shifts(y: bv32) returns (y7: bv32, y6: bv32, y5: bv32, y4: bv32, y3: bv32, y2: bv32, y1: bv32)
    requires Room(y)
    ensures Up8(y) == Up1(y7) && y7 == Up1(y6) && y6 == Up1(y5) && y5 == Up1(y4)
    ensures y4 == Up1(y3) && y3 == Up1(y2) && y2 == Up1(y1) && y1 == Up1(y)
    ensures Spare(y7) && Spare(y6) && Spare(y5) && Spare(y4) && Spare(y3) && Spare(y2) && Spare(y1) && Spare(y)
  {
    hide Up1, Up4, Up8;
    Up8Twice(y);
    Up4Once(y);
    Up4Once(Up4(y));
    y1 := Up1(y);
    y2 := Up1(y1);
    y3 := Up1(y2);
    y4 := Up1(y3);
    y5 := Up1(y4);
    y6 := Up1(y5);
    y7 := Up1(y6);
    UpFits(y, y1, 0x100_0000, 0x200_0000);
    UpFits(y1, y2, 0x200_0000, 0x400_0000);
    UpFits(y2, y3, 0x400_0000, 0x800_0000);
    UpFits(y3, y4, 0x800_0000, 0x1000_0000);
    UpFits(y4, y5, 0x1000_0000, 0x2000_0000);
    UpFits(y5, y6, 0x2000_0000, 0x4000_0000);
    UpFits(y6, y7, 0x4000_0000, 0x8000_0000);
  }

  lemma Unroll(n: nat, c: bv32)
    requires n > 0
    ensures Steps(n, c) == Steps(n - 1, StepBit(c))
  {
  }

  lemma ShiftOnce(n: nat, x: bv32, z: bv32)
    requires n > 0 && Spare(z)
    ensures Steps(n, Xor(x, Up1(z))) == Steps(n - 1, Xor(StepBit(x), z))
    ensures Steps(n, x) == Steps(n - 1, StepBit(x))
  {
    hide Xor, StepBit, Steps, Up1, Spare;
    StepLinear(x, z);
    Unroll(n, Xor(x, Up1(z)));
    Unroll(n, x);
  }

  /** The bits above the low byte are only shifted while the low byte is worked off. */
  lemma EightStepsShift(x: bv32, y: bv32)
    requires Room(y)
    ensures Steps(8, Xor(x, Up8(y))) == Xor(Steps(8, x), y)
  {
    hide Xor, StepBit, Up1, Up8, Room, Spare, Steps;
    var y7, y6, y5, y4, y3, y2, y1 := Shifts(y);
    ShiftOnce(8, x, y7);
    var x1 := StepBit(x);
    ShiftOnce(7, x1, y6);
    var x2 := StepBit(x1);
    ShiftOnce(6, x2, y5);
    var x3 := StepBit(x2);
    ShiftOnce(5, x3, y4);
    var x4 := StepBit(x3);
    ShiftOnce(4, x4, y3);
    var x5 := StepBit(x4);
    ShiftOnce(3, x5, y2);
    var x6 := StepBit(x5);
    ShiftOnce(2, x6, y1);
    var x7 := StepBit(x6);
    ShiftOnce(1, x7, y);
    NoSteps(StepBit(x7));
    NoSteps(Xor(StepBit(x7), y));
  }

  lemma NoSteps(c: bv32)
    ensures Steps(0, c) == c
  {
  }

  lemma LowAndRest(c: bv32, b: octet)
    ensures Xor(c, b) == Xor(Low(Xor(c, b)), Up8(Down8(c)))
  {
    TopPart(c);
    LowPart(c, b);
  }

  lemma TopPart(c: bv32)
    ensures Up8(Down8(c)) == c & 0xFFFF_FF00
  {
  }

  lemma LowPart(c: bv32, b: octet)
    ensures Xor(c, b) == Xor(Low(Xor(c, b)), c & 0xFFFF_FF00)
  {
    TwoParts(Xor(c, b));
    SameTop(c, b);
    hide Xor, Low;
  }

  lemma TwoParts(x: bv32)
    ensures x == Xor(Low(x), x & 0xFFFF_FF00)
  {
  }

  lemma SameTop(c: bv32, b: octet)
    ensures Xor(c, b) & 0xFFFF_FF00 == c & 0xFFFF_FF00
  {
  }

  lemma DownLeavesRoom(c: bv32)
    ensures Room(Down8(c))
  {
  }

  // ---------------------------------------------------------------- polynomial division

  /** The powers of x in the generator polynomial. */
  predicate InGenerator(k: int) {
    || k == 32 || k == 26 || k == 23 || k == 22 || k == 16 || k == 12 || k == 11 || k == 10
    || k == 8 || k == 7 || k == 5 || k == 4 || k == 2 || k == 1 || k == 0
  }

  /** A remainder: the coefficients of x^31, x^30, ... x^0. */
  type Remainder = r: seq<bool> | |r| == 32 witness seq(32, _ => false)

  /** The coefficients of the generator below x^32. */
  function Divisor(): Remainder {
    seq(32, i => InGenerator(31 - i))
  }

  function Add(a: seq<bool>, b: seq<bool>): (c: seq<bool>)
    requires |a| == |b|
    ensures |c| == |a|
  {
    seq(|a|, i requires 0 <= i < |a| => a[i] != b[i])
  }

  /** One step of long division: the next bit of the message meets the coefficient of x^31. */
  function Divide(r: Remainder, bit: bool): Remainder {
    var shifted := r[1..] + [false];
    if r[0] != bit then Add(shifted, Divisor()) else shifted
  }

  function DivideAll(r: Remainder, bits: seq<bool>): Remainder
    decreases |bits|
  {
    if bits == [] then r else DivideAll(Divide(r, bits[0]), bits[1..])
  }

  /** The lowest `n` bits of a number, the lowest one first. */
  function LowestFirst(n: nat, y: bv32): (bits: seq<bool>)
    ensures |bits| == n
  {
    if n == 0 then [] else [Odd(y)] + LowestFirst(n - 1, Down1(y))
  }

  /** The bits of the message in the order in which they are sent. */
  function MessageBits(bytes: seq<octet>): seq<bool> {
    if bytes == [] then [] else LowestFirst(8, bytes[0]) + MessageBits(bytes[1..])
  }

  function Ones(): Remainder {
    seq(32, _ => true)
  }

  function Zeros(): Remainder {
    seq(32, _ => false)
  }

  /** The number whose bits these are, the first one lowest. */
  function Number(bits: seq<bool>): bv32 {
    if bits == [] then 0 else Xor(Digit(bits[0]), Up1(Number(bits[1..])))
  }

  /**
    CRC-32 as section 8.1.1.6.2 of ITU-T V.42 defines it: divide the message by the generator, with the
    remainder preset to all ones, and complement what is left; the coefficient of x^31 is sent first.
  */
  function Checksum(bytes: seq<octet>): bv32 {
    Number(Add(DivideAll(Ones(), MessageBits(bytes)), Ones()))
  }

  // Room to move up by `k` bits.

  predicate Fits(k: nat, v: bv32) {
    k == 0 || (Spare(v) && Fits(k - 1, Up1(v)))
  }

  lemma UpXor(a: bv32, b: bv32)
    ensures Up1(Xor(a, b)) == Xor(Up1(a), Up1(b))
    ensures Spare(a) && Spare(b) ==> Spare(Xor(a, b))
  {
  }

  lemma {:induction false} FitsXor(k: nat, a: bv32, b: bv32)
    requires Fits(k, a) && Fits(k, b)
    ensures Fits(k, Xor(a, b))
    decreases k
  {
    hide Xor, Up1, Spare;
    UpXor(a, b);
    if k > 0 {
      FitsXor(k - 1, Up1(a), Up1(b));
    }
  }

  lemma {:induction false} FitsLess(k: nat, v: bv32)
    requires Fits(k + 1, v)
    ensures Fits(k, v)
    decreases k
  {
    hide Up1, Spare;
    if k > 0 {
      FitsLess(k - 1, Up1(v));
    }
  }

  lemma {:induction false} ZeroFits(k: nat)
    ensures Fits(k, 0)
  {
    if k > 0 {
      assert Up1(0) == 0;
      ZeroFits(k - 1);
    }
  }

  lemma {:induction false} OneFits(k: nat)
    requires k <= 31
    ensures Fits(k, 1)
    decreases 31 - k
  {
    if k == 31 {
      assert Fits(3, 0x1000_0000);
      assert Fits(7, 0x100_0000) by { assert Fits(5, 0x400_0000); }
      assert Fits(11, 0x10_0000) by { assert Fits(9, 0x40_0000); }
      assert Fits(15, 0x1_0000) by { assert Fits(13, 0x4_0000); }
      assert Fits(19, 0x1000) by { assert Fits(17, 0x4000); }
      assert Fits(23, 0x100) by { assert Fits(21, 0x400); }
      assert Fits(27, 0x10) by { assert Fits(25, 0x40); }
      assert Fits(31, 1) by { assert Fits(29, 4); }
    } else {
      OneFits(k + 1);
      FitsLess(k, 1);
    }
  }

  lemma {:induction false} NumberFits(bits: seq<bool>, k: nat)
    requires |bits| + k <= 32
    ensures Fits(k, Number(bits))
    decreases |bits|
  {
    hide Xor, Up1, Spare;
    ZeroFits(k);
    if bits != [] {
      NumberFits(bits[1..], k + 1);
      OneFits(k);
      ZeroFits(k);
      FitsXor(k, Digit(bits[0]), Up1(Number(bits[1..])));
    }
  }

  lemma XorFour(a: bv32, b: bv32, c: bv32, d: bv32)
    ensures Xor(Xor(a, b), Xor(c, d)) == Xor(Xor(a, c), Xor(b, d))
  {
    hide Xor;
    XorAssoc(a, b, Xor(c, d));
    XorAssoc(b, c, d);
    XorCommutes(b, c);
    XorAssoc(c, b, d);
    XorAssoc(a, c, Xor(b, d));
  }

  function Digit(bit: bool): bv32 {
    if bit then 1 else 0
  }

  lemma DigitAdd(a: bool, b: bool)
    ensures Xor(Digit(a), Digit(b)) == Digit(a != b)
  {
  }

  /** Addition of polynomials is `^` on numbers. */
  lemma {:induction false} NumberAdd(a: seq<bool>, b: seq<bool>)
    requires |a| == |b|
    ensures Number(Add(a, b)) == Xor(Number(a), Number(b))
    decreases |a|
  {
    hide Xor, Up1, Spare, Digit;
    if a == [] {
      XorZero(0);
    } else {
      assert Add(a, b)[1..] == Add(a[1..], b[1..]);
      NumberAdd(a[1..], b[1..]);
      UpXor(Number(a[1..]), Number(b[1..]));
      XorFour(Digit(a[0]), Up1(Number(a[1..])), Digit(b[0]), Up1(Number(b[1..])));
      DigitAdd(a[0], b[0]);
    }
  }

  lemma {:induction false} NumberPadded(bits: seq<bool>)
    ensures Number(bits + [false]) == Number(bits)
    decreases |bits|
  {
    hide Xor, Up1;
    if bits == [] {
      assert [false][1..] == [];
      ZeroUp();
    } else {
      assert (bits + [false])[1..] == bits[1..] + [false];
      NumberPadded(bits[1..]);
    }
  }

  lemma ZeroUp()
    ensures Xor(0, Up1(0)) == 0
  {
  }

  lemma NumberFirst(bit: bool, bits: seq<bool>)
    ensures Number([bit] + bits) == Xor(Digit(bit), Up1(Number(bits)))
  {
    assert ([bit] + bits)[1..] == bits;
  }

  function FourDigits(a: bool, b: bool, c: bool, d: bool, v: bv32): bv32 {
    Xor(Digit(a), Up1(Xor(Digit(b), Up1(Xor(Digit(c), Up1(Xor(Digit(d), Up1(v))))))))
  }

  lemma FourMore(bits: seq<bool>, k: nat, v: bv32)
    requires k + 4 <= |bits| && Number(bits[k + 4..]) == v
    ensures Number(bits[k..]) == FourDigits(bits[k], bits[k + 1], bits[k + 2], bits[k + 3], v)
  {
    hide Xor, Up1, Digit;
    assert bits[k..] == [bits[k]] + bits[k + 1..] && bits[k + 1..] == [bits[k + 1]] + bits[k + 2..];
    assert bits[k + 2..] == [bits[k + 2]] + bits[k + 3..] && bits[k + 3..] == [bits[k + 3]] + bits[k + 4..];
    NumberFirst(bits[k + 3], bits[k + 4..]);
    NumberFirst(bits[k + 2], bits[k + 3..]);
    NumberFirst(bits[k + 1], bits[k + 2..]);
    NumberFirst(bits[k], bits[k + 1..]);
  }

  /** The coefficients of x^31 to x^16, and those below. */
  lemma DivisorBits()
    ensures Divisor()[..16] ==
      [false, false, false, false, false, true, false, false, true, true, false, false, false, false, false, true]
    ensures Divisor()[16..] ==
      [false, false, false, true, true, true, false, true, true, false, true, true, false, true, true, true]
  {
  }

  /** The constant of the source is the generator. */
  lemma PolyIsGenerator()
    ensures Number(Divisor()) == POLY
  {
    hide Number;
    DivisorBits();
    hide Divisor;
    var high := Divisor()[16..];
    NumberNone();
    assert high[16..] == [] && high[0..] == high;
    FourMore(high, 12, 0);
    FourMore(high, 8, 0xE);
    FourMore(high, 4, 0xED);
    FourMore(high, 0, 0xEDB);
    LowHalf();
  }

  lemma LowHalf()
    requires Number(Divisor()[16..]) == 0xEDB8
    ensures Number(Divisor()) == POLY
  {
    hide Number;
    DivisorBits();
    hide Divisor;
    var d := Divisor();
    assert d[0..] == d && forall k :: 0 <= k < 16 ==> d[k] == d[..16][k];
    FourMore(d, 12, 0xEDB8);
    FourMore(d, 8, 0xEDB88);
    FourMore(d, 4, 0xEDB883);
    FourMore(d, 0, 0xEDB8832);
  }

  lemma NumberNone()
    ensures Number([]) == 0
  {
  }

  lemma StepOfBit(bit: bool)
    ensures StepBit(Digit(bit)) == if bit then POLY else 0
  {
  }

  /** A step of the register is a step of long division. */
  lemma StepDivides(r: Remainder, bit: bool)
    ensures StepBit(Xor(Number(r), Digit(bit))) == Number(Divide(r, bit))
  {
    hide Xor, StepBit, Up1, Number, Spare, Digit;
    var rest, top := r[1..], r[0] != bit;
    assert r == [r[0]] + rest;
    NumberFirst(r[0], rest);
    NumberFits(rest, 1);
    assert Spare(Number(rest)) by { OneRoom(Number(rest)); }
    TopBit(r[0], bit, Up1(Number(rest)));
    StepLinear(Digit(top), Number(rest));
    StepOfBit(top);
    NumberPadded(rest);
    if top {
      PolyIsGenerator();
      NumberAdd(rest + [false], Divisor());
      XorCommutes(POLY, Number(rest));
    } else {
      XorCommutes(0, Number(rest));
      XorZero(Number(rest));
    }
  }

  lemma OneRoom(v: bv32)
    requires Fits(1, v)
    ensures Spare(v)
  {
  }

  lemma TopBit(first: bool, bit: bool, v: bv32)
    ensures Xor(Xor(Digit(first), v), Digit(bit)) == Xor(Digit(first != bit), v)
  {
    hide Xor, Digit;
    XorAssoc(Digit(first), v, Digit(bit));
    XorCommutes(v, Digit(bit));
    XorAssoc(Digit(first), Digit(bit), v);
    DigitAdd(first, bit);
  }

  /** `y` has no bits above the lowest `n`. */
  predicate Within(n: nat, y: bv32) {
    if n == 0 then y == 0 else Within(n - 1, Down1(y))
  }

  lemma OctetWithin(b: octet)
    ensures Within(8, b)
  {
    var b2 := Down1(Down1(b));
    var b4 := Down1(Down1(b2));
    var b6 := Down1(Down1(b4));
    assert b2 < 64 && b4 < 16 && b6 < 4;
    assert Within(2, b6);
    assert Within(4, b4);
    assert Within(6, b2);
  }

  lemma Halves(x: bv32, y: bv32)
    ensures Xor(x, y) == Xor(Xor(x, Digit(Odd(y))), Up1(Down1(y))) && Spare(Down1(y))
  {
    var low, high := Digit(Odd(y)), Up1(Down1(y));
    assert y == Xor(low, high) by {
      assert y == (y & 1) ^ ((y >> 1) << 1);
      assert y & 1 == 0 || y & 1 == 1;
    }
    XorAssoc(x, low, high);
  }

  /** `n` steps of the register divide by the lowest `n` bits that were added to it. */
  lemma {:induction false} StepsDivide(n: nat, r: Remainder, y: bv32)
    requires Within(n, y)
    ensures Steps(n, Xor(Number(r), y)) == Number(DivideAll(r, LowestFirst(n, y)))
    decreases n
  {
    hide Xor, StepBit, Odd, Up1, Down1, Spare, Number, Steps, Divide;
    if n == 0 {
      XorZero(Number(r));
      NoSteps(Number(r));
    } else {
      var bit := Odd(y);
      Halves(Number(r), y);
      StepLinear(Xor(Number(r), Digit(bit)), Down1(y));
      StepDivides(r, bit);
      Unroll(n, Xor(Number(r), y));
      StepsDivide(n - 1, Divide(r, bit), Down1(y));
      assert LowestFirst(n, y)[1..] == LowestFirst(n - 1, Down1(y));
    }
  }

  lemma {:induction false} DivideSplit(r: Remainder, a: seq<bool>, b: seq<bool>)
    ensures DivideAll(r, a + b) == DivideAll(DivideAll(r, a), b)
    decreases |a|
  {
    hide Divide;
    if a == [] {
      assert a + b == b;
    } else {
      assert (a + b)[1..] == a[1..] + b;
      DivideSplit(Divide(r, a[0]), a[1..], b);
    }
  }

  /** The register after a message is the remainder of its division. */
  lemma {:induction false} RawDivides(r: Remainder, bytes: seq<octet>)
    ensures Raw(Number(r), bytes) == Number(DivideAll(r, MessageBits(bytes)))
    decreases |bytes|
  {
    hide Xor, Number, Steps, Divide, LowestFirst, Within;
    if bytes != [] {
      var bits := LowestFirst(8, bytes[0]);
      OctetWithin(bytes[0]);
      StepsDivide(8, r, bytes[0]);
      RawDivides(DivideAll(r, bits), bytes[1..]);
      DivideSplit(r, bits, MessageBits(bytes[1..]));
    }
  }

  lemma NotIsXor(c: bv32)
    ensures Not(c) == Xor(c, 0xFFFF_FFFF)
  {
  }

  lemma OnesAreAll()
    ensures Number(Ones()) == 0xFFFF_FFFF
  {
    hide Number;
    var ones := Ones();
    NumberNone();
    assert ones[32..] == [] && ones[0..] == ones;
    FourMore(ones, 28, 0);
    FourMore(ones, 24, 0xF);
    FourMore(ones, 20, 0xFF);
    FourMore(ones, 16, 0xFFF);
    FourMore(ones, 12, 0xFFFF);
    FourMore(ones, 8, 0xF_FFFF);
    FourMore(ones, 4, 0xFF_FFFF);
    FourMore(ones, 0, 0xFFF_FFFF);
  }

  /** The loop of the source computes the checksum of the standard. */
  lemma CrcIsChecksum(bytes: seq<octet>)
    ensures Crc(0, bytes) == Checksum(bytes)
  {
    hide Xor, Not, Number, Raw, DivideAll, MessageBits, Add;
    var r := DivideAll(Ones(), MessageBits(bytes));
    NotIsXor(0);
    OnesAreAll();
    XorCommutes(0, 0xFFFF_FFFF);
    XorZero(0xFFFF_FFFF);
    RawDivides(Ones(), bytes);
    NotIsXor(Number(r));
    NumberAdd(r, Ones());
  }

  // ---------------------------------------------------------------- the table-driven form

  /** An entry of the table: the remainder of the division of one byte. */
  function Table(n: octet): bv32 {
    Number(DivideAll(Zeros(), LowestFirst(8, n)))
  }

  lemma ZerosNumber()
    ensures Number(Zeros()) == 0
  {
    ZeroNumber(32);
  }

  lemma {:induction false} ZeroNumber(n: nat)
    ensures Number(seq(n, _ => false)) == 0
  {
    hide Xor, Up1;
    if n > 0 {
      var bits := seq(n, _ => false);
      assert bits[1..] == seq(n - 1, _ => false);
      ZeroNumber(n - 1);
      ZeroUp();
    }
  }

  lemma TableEntry(n: octet)
    ensures Table(n) == Steps(8, n)
  {
    hide Xor, Number, Steps, DivideAll, LowestFirst, Within;
    OctetWithin(n);
    ZerosNumber();
    StepsDivide(8, Zeros(), n);
    XorCommutes(0, n);
    XorZero(n);
  }

  /** Eight steps are one look-up. */
  lemma TableStep(c: bv32, b: octet)
    ensures Steps(8, Xor(c, b)) == Xor(Table(Low(Xor(c, b))), Down8(c))
  {
    hide Xor, StepBit, Up8, Down8, Low, Room, Steps, Table;
    LowAndRest(c, b);
    DownLeavesRoom(c);
    TableEntry(Low(Xor(c, b)));
    EightStepsShift(Low(Xor(c, b)), Down8(c));
  }

  /** `update_crc` of RFC 1952, section 8. */
  function TableRaw(c: bv32, bytes: seq<octet>): bv32
    decreases |bytes|
  {
    if bytes == [] then c else TableRaw(Xor(Table(Low(Xor(c, bytes[0]))), Down8(c)), bytes[1..])
  }

  lemma {:induction false} TableDriven(c: bv32, bytes: seq<octet>)
    ensures Raw(c, bytes) == TableRaw(c, bytes)
    decreases |bytes|
  {
    hide Xor, Steps, Down8, Low, Table;
    if bytes != [] {
      TableStep(c, bytes[0]);
      TableDriven(Steps(8, Xor(c, bytes[0])), bytes[1..]);
    }
  }

  // ---------------------------------------------------------------- error detection

  lemma StepBitInjective(a: bv32, b: bv32)
    requires StepBit(a) == StepBit(b)
    ensures a == b
  {
  }

  lemma {:induction false} StepsInjective(n: nat, a: bv32, b: bv32)
    requires Steps(n, a) == Steps(n, b)
    ensures a == b
    decreases n
  {
    hide StepBit;
    if n > 0 {
      StepsInjective(n - 1, StepBit(a), StepBit(b));
      StepBitInjective(a, b);
    }
  }

  lemma XorCancels(a: bv32, b: bv32, x: bv32)
    ensures Xor(a, x) == Xor(b, x) ==> a == b
    ensures Xor(x, a) == Xor(x, b) ==> a == b
  {
  }

  /** Registers that differ stay different over the same bytes. */
  lemma {:induction false} RawInjective(a: bv32, b: bv32, bytes: seq<octet>)
    requires Raw(a, bytes) == Raw(b, bytes)
    ensures a == b
    decreases |bytes|
  {
    hide Steps, Xor;
    if bytes != [] {
      RawInjective(Steps(8, Xor(a, bytes[0])), Steps(8, Xor(b, bytes[0])), bytes[1..]);
      StepsInjective(8, Xor(a, bytes[0]), Xor(b, bytes[0]));
      XorCancels(a, b, bytes[0]);
    }
  }

  /** Up to four bytes as one number, the first one lowest. */
  function Pack(bytes: seq<octet>): bv32 {
    if bytes == [] then 0 else Xor(bytes[0], Up8(Pack(bytes[1..])))
  }

  /** Numbers of at most `k` bytes. */
  predicate Bytes(k: nat, p: bv32) {
    if k == 0 then p == 0 else if k == 1 then p < 0x100 else if k == 2 then p < 0x1_0000 else p < 0x100_0000
  }

  lemma PackStep(k: nat, b: octet, p: bv32)
    requires k <= 2 && Bytes(k, p)
    ensures Bytes(k + 1, Xor(b, Up8(p))) && Room(p)
  {
  }

  lemma BytesRoom(k: nat, p: bv32)
    requires k <= 3 && Bytes(k, p)
    ensures Room(p)
  {
  }

  lemma {:induction false} PackBound(bytes: seq<octet>)
    requires |bytes| <= 3
    ensures Bytes(|bytes|, Pack(bytes)) && Room(Pack(bytes))
    decreases |bytes|
  {
    hide Xor, Up8, Room;
    if bytes != [] {
      hide Bytes;
      PackBound(bytes[1..]);
      PackStep(|bytes| - 1, bytes[0], Pack(bytes[1..]));
    }
    BytesRoom(|bytes|, Pack(bytes));
  }

  lemma XorZero(a: bv32)
    ensures Xor(a, 0) == a
  {
  }

  lemma {:induction false} StepsAdd(n: nat, m: nat, c: bv32)
    ensures Steps(m, Steps(n, c)) == Steps(n + m, c)
    decreases n
  {
    hide StepBit;
    if n > 0 {
      StepsAdd(n - 1, m, StepBit(c));
    }
  }

  /** Up to four bytes act on the register as one number. */
  lemma {:induction false} RawPack(c: bv32, bytes: seq<octet>)
    requires |bytes| <= 4
    ensures Raw(c, bytes) == Steps(8 * |bytes|, Xor(c, Pack(bytes)))
    decreases |bytes|
  {
    hide Xor, Up8, Room, Steps;
    if bytes == [] {
      XorZero(c);
      NoSteps(c);
    } else {
      var b, p := bytes[0], Pack(bytes[1..]);
      PackBound(bytes[1..]);
      RawPack(Steps(8, Xor(c, b)), bytes[1..]);
      EightStepsShift(Xor(c, b), p);
      XorAssoc(c, b, Up8(p));
      StepsAdd(8, 8 * |bytes[1..]|, Xor(c, Pack(bytes)));
    }
  }

  lemma Unpack(x: octet, p: bv32, y: octet, q: bv32)
    requires Room(p) && Room(q) && Xor(x, Up8(p)) == Xor(y, Up8(q))
    ensures x == y && p == q
  {
  }

  lemma {:induction false} PackInjective(a: seq<octet>, b: seq<octet>)
    requires |a| == |b| <= 4 && Pack(a) == Pack(b)
    ensures a == b
    decreases |a|
  {
    hide Xor, Up8, Room;
    if a != [] {
      PackBound(a[1..]);
      PackBound(b[1..]);
      Unpack(a[0], Pack(a[1..]), b[0], Pack(b[1..]));
      PackInjective(a[1..], b[1..]);
      assert a == [a[0]] + a[1..] && b == [b[0]] + b[1..];
    }
  }

  lemma NotCancels(a: bv32, b: bv32)
    ensures Not(a) == Not(b) ==> a == b
  {
  }

  /**
    Two buffers of the same length that differ, but only within four consecutive bytes, never have
    the same checksum.
  */
  lemma BurstDetected(crc: bv32, before: seq<octet>, a: seq<octet>, b: seq<octet>, after: seq<octet>)
    requires |a| == |b| <= 4 && a != b
    ensures Crc(crc, before + a + after) != Crc(crc, before + b + after)
  {
    hide Raw, Steps, Pack, Xor, Not;
    var c0 := Not(crc);
    if Crc(crc, before + a + after) == Crc(crc, before + b + after) {
      NotCancels(Raw(c0, before + a + after), Raw(c0, before + b + after));
      RawSplit(c0, before + a, after);
      RawSplit(c0, before + b, after);
      RawInjective(Raw(c0, before + a), Raw(c0, before + b), after);
      RawSplit(c0, before, a);
      RawSplit(c0, before, b);
      var c := Raw(c0, before);
      RawPack(c, a);
      RawPack(c, b);
      StepsInjective(8 * |a|, Xor(c, Pack(a)), Xor(c, Pack(b)));
      XorCancels(Pack(a), Pack(b), c);
      PackInjective(a, b);
      assert false;
    }
  }
}
