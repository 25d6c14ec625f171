/**
  The three variable-length integers of a detools patch: the header sizes, the signed sizes inside
  the decompressed stream, and the run lengths of the CRLE compression.

  A number is sent least significant bits first.  The top bit of a byte says that another one
  follows.  The first byte of a header size or a signed size carries 6 bits (bit 6 is the sign of a
  signed size); every other byte carries 7.  The decoders stop a number from growing past what an
  `int` can hold by testing the bit offset before each consecutive byte.

  The source combines the groups of bits with `|`.  The model adds them: the bits never overlap,
  because a number decoded so far is below 2 to the power of the offset (`SizeOk`, `UsizeOk`).
*/
module Varint {
  import opened Bytes

  /** `is_overflow`: seven more bits would not fit in a 32-bit int. */
  predicate IsOverflow(offset: int) {
    offset + 7 > 32
  }

  // ---------------------------------------------------------------- signed sizes

  /** `patch_reader_p->size`.  While `first` holds the other fields are stale. */
  datatype SizeState = SizeState(first: bool, value: int, offset: nat, signed: bool)

  const SIZE_FIRST := SizeState(true, 0, 0, false)

  datatype SizeFeed = SizeMore(next: SizeState) | SizeDone(value: int) | SizeOverflow

  predicate SizeOk(z: SizeState) {
    z.first || (z.offset in {6, 13, 20, 27} && 0 <= z.value < Pow2(z.offset))
  }

  function FixSign(value: int, signed: bool): int {
    if signed then -value else value
  }

  /** One byte of a signed size. */
  function FeedSize(z: SizeState, b: byte): SizeFeed {
    if z.first then
      var value, signed := b % 64, (b / 64) % 2 == 1;
      if b < 128 then SizeDone(FixSign(value, signed)) else SizeMore(SizeState(false, value, 6, signed))
    else if IsOverflow(z.offset) then
      SizeOverflow
    else
      var value := z.value + (b % 128) * Pow2(z.offset);
      if b < 128 then SizeDone(FixSign(value, z.signed))
      else SizeMore(SizeState(false, value, z.offset + 7, z.signed))
  }

  lemma Pow2At()
    ensures Pow2(6) == 64 && Pow2(7) == 128 && Pow2(13) == 0x2000 && Pow2(14) == 0x4000
    ensures Pow2(20) == 0x10_0000 && Pow2(21) == 0x20_0000
    ensures Pow2(27) == 0x800_0000 && Pow2(28) == 0x1000_0000
  {
    assert Pow2(5) == 32;
    Pow2Add(1, 6);
    Pow2Add(6, 7);
    Pow2Add(7, 7);
    Pow2Add(13, 7);
    Pow2Add(14, 7);
    Pow2Add(20, 7);
    Pow2Add(21, 7);
  }

  /** A signed size stays within 27 bits, and the decoder's state within what its offset allows. */
  lemma FeedSizeBounds(z: SizeState, b: byte)
    requires SizeOk(z)
    ensures FeedSize(z, b).SizeMore? ==> SizeOk(FeedSize(z, b).next)
    ensures FeedSize(z, b).SizeDone? ==> -0x800_0000 < FeedSize(z, b).value < 0x800_0000
  {
    Pow2At();
    if !z.first && !IsOverflow(z.offset) {
      assert (b % 128) * Pow2(z.offset) <= 127 * Pow2(z.offset);
    }
  }

  // ---------------------------------------------------------------- run lengths

  /** `detools_unpack_usize_t`.  While `first` holds the other fields are stale. */
  datatype UsizeState = UsizeState(first: bool, value: int, offset: nat)

  const USIZE_FIRST := UsizeState(true, 0, 0)

  datatype UsizeFeed = UsizeMore(next: UsizeState) | UsizeDone(value: nat) | UsizeOverflow

  predicate UsizeOk(u: UsizeState) {
    u.first || (u.offset in {0, 7, 14, 21, 28} && 0 <= u.value < Pow2(u.offset))
  }

  /** One byte of a run length; the first one starts from value 0 and offset 0. */
  function FeedUsize(u: UsizeState, b: byte): UsizeFeed
    requires UsizeOk(u)
  {
    var v, o := if u.first then 0 else u.value, if u.first then 0 else u.offset;
    if IsOverflow(o) then
      UsizeOverflow
    else
      var value: nat := v + (b % 128) * Pow2(o);
      if b < 128 then UsizeDone(value) else UsizeMore(UsizeState(false, value, o + 7))
  }

  /** A run length stays within 28 bits. */
  lemma FeedUsizeBounds(u: UsizeState, b: byte)
    requires UsizeOk(u)
    ensures FeedUsize(u, b).UsizeMore? ==> UsizeOk(FeedUsize(u, b).next)
    ensures FeedUsize(u, b).UsizeDone? ==> FeedUsize(u, b).value < 0x1000_0000
  {
    Pow2At();
    var o := if u.first then 0 else u.offset;
    if !IsOverflow(o) {
      assert (b % 128) * Pow2(o) <= 127 * Pow2(o);
    }
  }

  // ---------------------------------------------------------------- header sizes

  datatype HeaderSize = HeaderShort | HeaderOverflow | HeaderGot(value: nat, rest: seq<byte>)

  /** A header size; bit 6 of the first byte is ignored. */
  function ParseHeaderSize(s: seq<byte>): HeaderSize {
    if s == [] then HeaderShort
    else ParseHeaderTail(s[0] >= 128, s[0] % 64, 6, s[1..])
  }

  function ParseHeaderTail(more: bool, value: nat, offset: nat, s: seq<byte>): HeaderSize
    decreases |s|
  {
    if !more then HeaderGot(value, s)
    else if s == [] then HeaderShort
    else if IsOverflow(offset) then HeaderOverflow
    else ParseHeaderTail(s[0] >= 128, value + (s[0] % 128) * Pow2(offset), offset + 7, s[1..])
  }

  lemma HeaderTailStep(value: nat, offset: nat, s: seq<byte>)
    ensures ParseHeaderTail(true, value, offset, s) ==
      if s == [] then HeaderShort
      else if IsOverflow(offset) then HeaderOverflow
      else ParseHeaderTail(s[0] >= 128, value + (s[0] % 128) * Pow2(offset), offset + 7, s[1..])
  {
  }

  lemma HeaderTailEnd(value: nat, offset: nat, s: seq<byte>)
    ensures ParseHeaderTail(false, value, offset, s) == HeaderGot(value, s)
  {
  }

  /** What a complete header size is does not depend on what follows it. */
  lemma {:induction false} HeaderTailExtends(more: bool, value: nat, offset: nat, s: seq<byte>, t: seq<byte>)
    ensures match ParseHeaderTail(more, value, offset, s)
      case HeaderShort => true
      case HeaderOverflow => ParseHeaderTail(more, value, offset, s + t) == HeaderOverflow
      case HeaderGot(v, rest) => |rest| <= |s| && ParseHeaderTail(more, value, offset, s + t) == HeaderGot(v, rest + t)
    decreases |s|
  {
    if more && s != [] && !IsOverflow(offset) {
      HeaderTailExtends(s[0] >= 128, value + (s[0] % 128) * Pow2(offset), offset + 7, s[1..], t);
      assert (s + t)[1..] == s[1..] + t;
    }
  }

  lemma HeaderSizeExtends(s: seq<byte>, t: seq<byte>)
    ensures match ParseHeaderSize(s)
      case HeaderShort => true
      case HeaderOverflow => ParseHeaderSize(s + t) == HeaderOverflow
      case HeaderGot(v, rest) => |rest| < |s| && ParseHeaderSize(s + t) == HeaderGot(v, rest + t)
  {
    if s != [] {
      HeaderTailExtends(s[0] >= 128, s[0] % 64, 6, s[1..], t);
      assert (s + t)[1..] == s[1..] + t;
    }
  }

  /** A header size stays within 27 bits. */
  lemma {:induction false} HeaderTailBound(more: bool, value: nat, offset: nat, s: seq<byte>)
    requires offset in {6, 13, 20, 27} && value < Pow2(offset)
    ensures ParseHeaderTail(more, value, offset, s).HeaderGot? ==>
      ParseHeaderTail(more, value, offset, s).value < 0x800_0000
    decreases |s|
  {
    Pow2At();
    if more && s != [] && !IsOverflow(offset) {
      assert (s[0] % 128) * Pow2(offset) <= 127 * Pow2(offset);
      HeaderTailBound(s[0] >= 128, value + (s[0] % 128) * Pow2(offset), offset + 7, s[1..]);
    }
  }

  lemma HeaderSizeBound(s: seq<byte>)
    ensures ParseHeaderSize(s).HeaderGot? ==> ParseHeaderSize(s).value < 0x800_0000
  {
    Pow2At();
    if s != [] {
      HeaderTailBound(s[0] >= 128, s[0] % 64, 6, s[1..]);
    }
  }

  /** Five bytes decide a header size. */
  lemma HeaderSizeShort(s: seq<byte>)
    requires |s| >= 5
    ensures !ParseHeaderSize(s).HeaderShort?
  {
    var v1 := s[0] % 64 + (s[1] % 128) * Pow2(6);
    var v2 := v1 + (s[2] % 128) * Pow2(13);
    var v3 := v2 + (s[3] % 128) * Pow2(20);
    assert !ParseHeaderTail(s[3] >= 128, v3, 27, s[1..][1..][1..][1..]).HeaderShort?;
    assert !ParseHeaderTail(s[2] >= 128, v2, 20, s[1..][1..][1..]).HeaderShort?;
    assert !ParseHeaderTail(s[1] >= 128, v1, 13, s[1..][1..]).HeaderShort?;
  }
}
