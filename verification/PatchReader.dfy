/**
  The patch reader: it hands out the decompressed bytes of a patch that arrives in chunks.

  `Pull` is the reference: it takes one decompressed byte from the compressed bytes still to come,
  with no notion of a chunk.  The class below is the source's reader.  It works on the chunk it was
  last given, in blocks of any size, and stops in the middle of a run or of a run length when the
  chunk ends.  Each method takes as a ghost argument the bytes of the chunks that have not arrived
  yet, and says what it did in terms of `Pull` on "rest of the chunk, then the future".
*/
module PatchReading {
  import opened Bytes
  import opened Varint

  // Results of the reader's methods, as in detools.h
  const OK := 0
  const MORE_INPUT := 1
  const AGAIN := 2
  const BAD_COMPRESSION := -4
  const CORRUPT_PATCH := -9
  const ALREADY_DONE := -11
  const SHORT_HEADER := -18
  const CORRUPT_PATCH_OVERFLOW := -25
  const CORRUPT_PATCH_CRLE_KIND := -26

  const COMPRESSION_NONE := 0
  const COMPRESSION_CRLE := 2

  datatype Crle =
    | Idle
    | ScatteredSize(size: UsizeState)
    | ScatteredData(left: nat)
    | RepeatedRepetitions(size: UsizeState)
    | RepeatedData(left: nat)
    | RepeatedDataRead(value: byte, left: nat)

  /** The `compression` union; `Absent` is a reader that was never initialised. */
  datatype Reader =
    | Absent
    | NoneReader(patchSize: nat, patchOffset: nat)
    | CrleReader(crle: Crle)

  predicate CrleOk(c: Crle) {
    match c
    case ScatteredSize(u) => UsizeOk(u)
    case RepeatedRepetitions(u) => UsizeOk(u)
    case _ => true
  }

  predicate ReaderOk(r: Reader) {
    match r
    case Absent => true
    case NoneReader(size, offset) => offset <= size
    case CrleReader(c) => CrleOk(c)
  }

  /** The result of `destroy`: may the patch end with the reader in this state? */
  predicate MayEnd(r: Reader) {
    match r
    case Absent => true
    case NoneReader(size, offset) => offset == size
    case CrleReader(_) => true
  }

  /** A bound on what the reader can still do without reading input. */
  function Held(r: Reader): nat {
    match r
    case CrleReader(RepeatedDataRead(_, left)) => left + 1
    case CrleReader(ScatteredData(_)) => 1
    case _ => 0
  }

  // ---------------------------------------------------------------- the reference reader

  datatype Pulled =
    | Got(value: byte, reader: Reader, rest: seq<byte>)
    | Starved                       // the patch ends here
    | Bad                           // the patch is malformed
    | Unspecified                   // a run of length zero: the source leaves its buffer unset

  /** Take one decompressed byte from the compressed bytes `input`. */
  function Pull(r: Reader, input: seq<byte>): (p: Pulled)
    requires ReaderOk(r)
    ensures p.Got? ==> ReaderOk(p.reader) && !p.reader.Absent?
    ensures p.Got? ==> |p.rest| < |input| || (p.rest == input && Held(p.reader) < Held(r))
    decreases |input|
  {
    match r
    case Absent => Bad
    case NoneReader(size, offset) =>
      if offset + 1 > size then Bad
      else if input == [] then Starved
      else Got(input[0], NoneReader(size, offset + 1), input[1..])
    case CrleReader(c) =>
      if c.RepeatedDataRead? then
        if c.left == 0 then Unspecified
        else Got(c.value, CrleReader(if c.left == 1 then Idle else RepeatedDataRead(c.value, c.left - 1)), input)
      else if c.ScatteredData? && c.left == 0 then Unspecified
      else if input == [] then Starved
      else
        var b, rest := input[0], input[1..];
        if c.ScatteredData? then
          Got(b, CrleReader(if c.left == 1 then Idle else ScatteredData(c.left - 1)), rest)
        else
          var next := CrleFeed(c, b);
          if next.Idle? then Bad else Pull(CrleReader(next), rest)
  }

  /** The state after a control byte; `Idle` if the byte is not acceptable. */
  function CrleFeed(c: Crle, b: byte): (next: Crle)
    requires CrleOk(c) && !c.ScatteredData? && !c.RepeatedDataRead?
    ensures CrleOk(next)
  {
    match c
    case Idle =>
      if b == 0 then ScatteredSize(USIZE_FIRST) else if b == 1 then RepeatedRepetitions(USIZE_FIRST) else Idle
    case ScatteredSize(u) =>
      FeedUsizeBounds(u, b);
      (match FeedUsize(u, b)
       case UsizeMore(u') => ScatteredSize(u')
       case UsizeDone(n) => ScatteredData(n)
       case UsizeOverflow => Idle)
    case RepeatedRepetitions(u) =>
      FeedUsizeBounds(u, b);
      (match FeedUsize(u, b)
       case UsizeMore(u') => RepeatedRepetitions(u')
       case UsizeDone(n) => RepeatedData(n)
       case UsizeOverflow => Idle)
    case RepeatedData(left) => RepeatedDataRead(b, left)
  }

  datatype PulledN =
    | GotN(values: seq<byte>, reader: Reader, rest: seq<byte>)
    | StarvedN
    | BadN
    | UnspecifiedN

  /** Take `n` decompressed bytes, one at a time. */
  function PullN(r: Reader, input: seq<byte>, n: nat): (p: PulledN)
    requires ReaderOk(r)
    ensures p.GotN? ==> |p.values| == n && ReaderOk(p.reader)
    decreases n
  {
    if n == 0 then GotN([], r, input)
    else match Pull(r, input)
      case Starved => StarvedN
      case Bad => BadN
      case Unspecified => UnspecifiedN
      case Got(b, r', rest) =>
        match PullN(r', rest, n - 1)
        case GotN(bs, r'', rest') => GotN([b] + bs, r'', rest')
        case p => p
  }

  datatype PulledSize =
    | GotSize(value: int, reader: Reader, rest: seq<byte>)
    | SizeFails
    | SizeUnspecified

  /** Take one signed size, continuing from `z`. */
  function PullSize(z: SizeState, r: Reader, input: seq<byte>): (p: PulledSize)
    requires ReaderOk(r) && SizeOk(z)
    ensures p.GotSize? ==> ReaderOk(p.reader) && -0x800_0000 < p.value < 0x800_0000
    ensures p.GotSize? ==> |p.rest| < |input| || (p.rest == input && Held(p.reader) < Held(r))
    decreases |input|, Held(r)
  {
    match Pull(r, input)
    case Unspecified => SizeUnspecified
    case Got(b, r', rest) =>
      FeedSizeBounds(z, b);
      (match FeedSize(z, b)
       case SizeMore(z') => PullSize(z', r', rest)
       case SizeDone(v) => GotSize(v, r', rest)
       case SizeOverflow => SizeFails)
    case _ => SizeFails
  }

  /** A signed size, once the next byte is there. */
  function AfterSizeByte(z: SizeState, b: byte, r: Reader, rest: seq<byte>): PulledSize
    requires SizeOk(z) && ReaderOk(r)
  {
    FeedSizeBounds(z, b);
    match FeedSize(z, b)
    case SizeMore(z') => PullSize(z', r, rest)
    case SizeDone(v) => GotSize(v, r, rest)
    case SizeOverflow => SizeFails
  }

  lemma PullSizeStep(z: SizeState, r: Reader, input: seq<byte>)
    requires SizeOk(z) && ReaderOk(r) && Pull(r, input).Got?
    ensures var p := Pull(r, input);
      PullSize(z, r, input) == AfterSizeByte(z, p.value, p.reader, p.rest)
  {
  }

  // ---------------------------------------------------------------- blocks are repeated pulls

  lemma {:induction false} PullNone(size: nat, offset: nat, input: seq<byte>, n: nat)
    requires offset + n <= size && n <= |input|
    ensures PullN(NoneReader(size, offset), input, n) == GotN(input[..n], NoneReader(size, offset + n), input[n..])
    decreases n
  {
    if n > 0 {
      PullNone(size, offset + 1, input[1..], n - 1);
      assert input[..n] == [input[0]] + input[1..][..n - 1];
    }
  }

  /** The source refuses a request that runs past the end of the patch before it reads any of it. */
  lemma {:induction false} PullNonePastEnd(size: nat, offset: nat, input: seq<byte>, n: nat)
    requires offset <= size < offset + n
    ensures PullN(NoneReader(size, offset), input, n) in {StarvedN, BadN}
    decreases n
  {
    if offset < size && input != [] {
      PullNonePastEnd(size, offset + 1, input[1..], n - 1);
    }
  }

  lemma {:induction false} PullScattered(left: nat, input: seq<byte>, n: nat)
    requires 1 <= n <= left && n <= |input|
    ensures PullN(CrleReader(ScatteredData(left)), input, n)
         == GotN(input[..n], CrleReader(if n == left then Idle else ScatteredData(left - n)), input[n..])
  {
    var r := CrleReader(if left == 1 then Idle else ScatteredData(left - 1));
    assert Pull(CrleReader(ScatteredData(left)), input) == Got(input[0], r, input[1..]);
    if n > 1 {
      PullScattered(left - 1, input[1..], n - 1);
      assert input[..n] == [input[0]] + input[1..][..n - 1];
    } else {
      assert PullN(r, input[1..], 0) == GotN([], r, input[1..]);
      assert input[..1] == [input[0]];
    }
  }

  lemma {:induction false} PullRepeated(value: byte, left: nat, input: seq<byte>, n: nat)
    requires 1 <= n <= left
    ensures PullN(CrleReader(RepeatedDataRead(value, left)), input, n)
         == GotN(seq(n, _ => value), CrleReader(if n == left then Idle else RepeatedDataRead(value, left - n)), input)
  {
    var r := CrleReader(if left == 1 then Idle else RepeatedDataRead(value, left - 1));
    assert Pull(CrleReader(RepeatedDataRead(value, left)), input) == Got(value, r, input);
    if n > 1 {
      PullRepeated(value, left - 1, input, n - 1);
      assert seq(n, _ => value) == [value] + seq(n - 1, _ => value);
    } else {
      assert PullN(r, input, 0) == GotN([], r, input);
      assert seq(1, _ => value) == [value];
    }
  }

  /** Taking n bytes and then m is taking n + m: how the caller cuts its requests does not matter. */
  lemma {:induction false} PullNSplit(r: Reader, input: seq<byte>, n: nat, m: nat)
    requires ReaderOk(r)
    ensures PullN(r, input, n + m) ==
      match PullN(r, input, n)
      case GotN(xs, r', rest) =>
        (match PullN(r', rest, m)
         case GotN(ys, r'', rest') => GotN(xs + ys, r'', rest')
         case p => p)
      case p => p
    decreases n
  {
    if n == 0 {
      match PullN(r, input, m) {
        case GotN(ys, _, _) => assert [] + ys == ys;
        case _ =>
      }
    } else {
      match Pull(r, input) {
        case Got(b, r', rest) =>
          PullNSplit(r', rest, n - 1, m);
          match PullN(r', rest, n - 1) {
            case GotN(xs, r1, rest1) =>
              match PullN(r1, rest1, m) {
                case GotN(ys, _, _) => assert [b] + (xs + ys) == ([b] + xs) + ys;
                case _ =>
              }
            case _ =>
          }
        case _ =>
      }
    }
  }

  lemma PullNOne(r: Reader, input: seq<byte>)
    requires ReaderOk(r)
    ensures Pull(r, input).Got? ==>
      PullN(r, input, 1) == GotN([Pull(r, input).value], Pull(r, input).reader, Pull(r, input).rest)
    ensures PullN(r, input, 1).GotN? <==> Pull(r, input).Got?
    ensures PullN(r, input, 1) in {StarvedN, BadN} <==> Pull(r, input) in {Starved, Bad}
  {
    match Pull(r, input) {
      case Got(b, r', rest) => assert PullN(r', rest, 0) == GotN([], r', rest);
      case _ =>
    }
  }

  lemma PullNUnfold(r: Reader, input: seq<byte>, r': Reader, input': seq<byte>, n: nat)
    requires ReaderOk(r) && ReaderOk(r') && Pull(r, input) == Pull(r', input')
    ensures n > 0 ==> PullN(r, input, n) == PullN(r', input', n)
  {
  }

  // ---------------------------------------------------------------- run lengths in the stream

  function LengthReader(repeated: bool, u: UsizeState): Reader {
    CrleReader(if repeated then RepeatedRepetitions(u) else ScatteredSize(u))
  }

  function RunReader(repeated: bool, left: nat): Reader {
    CrleReader(if repeated then RepeatedData(left) else ScatteredData(left))
  }

  /** A run length, one byte on. */
  function AfterLengthByte(repeated: bool, u: UsizeState, b: byte, rest: seq<byte>): Pulled
    requires UsizeOk(u)
  {
    FeedUsizeBounds(u, b);
    match FeedUsize(u, b)
    case UsizeOverflow => Bad
    case UsizeDone(n) => Pull(RunReader(repeated, n), rest)
    case UsizeMore(v) => Pull(LengthReader(repeated, v), rest)
  }

  lemma PullLength(repeated: bool, u: UsizeState, b: byte, rest: seq<byte>)
    requires UsizeOk(u)
    ensures Pull(LengthReader(repeated, u), [b] + rest) == AfterLengthByte(repeated, u, b, rest)
  {
    assert ([b] + rest)[1..] == rest;
  }

  lemma PullLengthFirst(repeated: bool, u: UsizeState, input: seq<byte>)
    requires UsizeOk(u)
    ensures Pull(LengthReader(repeated, u), input)
         == Pull(LengthReader(repeated, if u.first then UsizeState(false, 0, 0) else u), input)
  {
    if input != [] {
      assert input == [input[0]] + input[1..];
      PullLength(repeated, u, input[0], input[1..]);
      PullLength(repeated, if u.first then UsizeState(false, 0, 0) else u, input[0], input[1..]);
    }
  }

  // ---------------------------------------------------------------- the source's reader

  class PatchReader {
    // struct detools_apply_patch_chunk_t
    var buf: seq<byte>
    var offset: nat
    // the reader itself
    var reader: Reader
    var size: SizeState

    ghost predicate Valid()
      reads this
    {
      offset <= |buf| && ReaderOk(reader) && SizeOk(size)
    }

    ghost function Rest(): seq<byte>
      requires Valid()
      reads this
    {
      buf[offset..]
    }

    constructor ()
      ensures Valid() && reader == Absent && Rest() == []
    {
      buf, offset, reader, size := [], 0, Absent, SIZE_FIRST;
    }

    method ChunkAvailable() returns (available: bool)
      requires Valid()
      ensures available <==> Rest() != []
    {
      available := |buf| - offset > 0;
    }

    method ChunkGet() returns (res: int, data: byte)
      requires Valid()
      modifies this`offset
      ensures Valid()
      ensures old(Rest()) == [] ==> res == MORE_INPUT && Rest() == []
      ensures old(Rest()) != [] ==> res == OK && [data] + Rest() == old(Rest())
    {
      data := 0;
      if offset == |buf| {
        return MORE_INPUT, data;
      }
      data := buf[offset];
      offset := offset + 1;
      res := OK;
    }

    /** `chunk_read`: as much of the request as the chunk holds. */
    method ChunkRead(dst: array<byte>, request: nat) returns (res: int, n: nat)
      requires Valid() && request <= dst.Length
      modifies this`offset, dst
      ensures Valid()
      ensures old(Rest()) == [] ==> res == MORE_INPUT && n == 0 && Rest() == [] && dst[..] == old(dst[..])
      ensures old(Rest()) != [] ==>
        && res == OK
        && n == (if request <= |old(Rest())| then request else |old(Rest())|)
        && dst[..n] + Rest() == old(Rest())
    {
      if offset == |buf| {
        return MORE_INPUT, 0;
      }
      n := if request <= |buf| - offset then request else |buf| - offset;
      forall i | 0 <= i < n {
        dst[i] := buf[offset + i];
      }
      offset := offset + n;
      res := OK;
      assert dst[..n] == old(Rest())[..n];
    }

    method NoneDecompress(dst: array<byte>, request: nat, ghost future: seq<byte>) returns (res: int, n: nat)
      requires Valid() && reader.NoneReader? && 1 <= request <= dst.Length
      modifies this`offset, this`reader, dst
      ensures Valid()
      ensures Decompressed(old(reader), old(Rest()) + future, dst, request, res, n, future)
      ensures Progress(old(reader), old(Rest()), res)
    {
      ghost var input := Rest() + future;
      if reader.patchOffset + request > reader.patchSize {
        PullNonePastEnd(reader.patchSize, reader.patchOffset, input, request);
        return CORRUPT_PATCH, 0;
      }
      hide PullN;
      ghost var chunk := Rest();
      res, n := ChunkRead(dst, request);
      if res != OK {
        return;
      }
      assert chunk + future == dst[..n] + (Rest() + future);
      assert input[..n] == dst[..n] && input[n..] == Rest() + future;
      PullNone(reader.patchSize, reader.patchOffset, input, n);
      reader := reader.(patchOffset := reader.patchOffset + n);
    }

    /** What one call of `decompress` promises, in terms of the reference reader. */
    ghost predicate Decompressed(was: Reader, input: seq<byte>, dst: array<byte>, request: nat,
                                 res: int, n: nat, future: seq<byte>)
      requires ReaderOk(was) && Valid()
      reads this, dst
    {
      && (res == OK || res == MORE_INPUT || res < 0) && res != ALREADY_DONE
      && n <= request <= dst.Length
      && (was.Absent? <==> reader.Absent?)
      && (res == OK && n > 0 ==> PullN(was, input, n) == GotN(dst[..n], reader, Rest() + future))
      && (res == OK && n == 0 ==> Pull(was, input) == Unspecified)
      && (res == MORE_INPUT ==> Rest() == [] && Pull(was, input) == Pull(reader, future))
      && (res == MORE_INPUT ==> Pull(reader, []) in {Starved, Unspecified})
      && (res < 0 ==> PullN(was, input, request) in {StarvedN, BadN})
    }

    /**
      `unpack_usize`, called with the state kept in the CRLE record (which the caller stores back).
      `repeated` tells which of the two kinds of run the length belongs to.
    */
    method UnpackUsize(start: UsizeState, ghost repeated: bool, ghost future: seq<byte>)
      returns (res: int, u: UsizeState, value: nat)
      requires Valid() && UsizeOk(start)
      modifies this`offset
      ensures Valid() && (res != OK ==> UsizeOk(u))
      ensures res == OK || res == MORE_INPUT || res == CORRUPT_PATCH_OVERFLOW
      ensures |Rest()| <= |old(Rest())| && (res == OK ==> |Rest()| < |old(Rest())|)
      ensures var was := Pull(LengthReader(repeated, start), old(Rest()) + future);
        && (res == OK ==> was == Pull(RunReader(repeated, value), Rest() + future))
        && (res == MORE_INPUT ==> Rest() == [] && was == Pull(LengthReader(repeated, u), future))
        && (res < 0 ==> was == Bad)
    {
      hide Pull;
      u := if start.first then UsizeState(false, 0, 0) else start;
      value := 0;
      ghost var was := Pull(LengthReader(repeated, start), Rest() + future);
      PullLengthFirst(repeated, start, Rest() + future);
      while true
        invariant Valid() && UsizeOk(u) && !u.first
        invariant |Rest()| <= |old(Rest())|
        invariant was == Pull(LengthReader(repeated, u), Rest() + future)
        decreases |Rest()|
      {
        ghost var input := Rest() + future;
        var b: byte;
        res, b := ChunkGet();
        if res != OK {
          assert Rest() + future == future;
          return;
        }
        assert input == [b] + (Rest() + future);
        PullLength(repeated, u, b, Rest() + future);
        if IsOverflow(u.offset) {
          res := CORRUPT_PATCH_OVERFLOW;
          return;
        }
        ghost var fed := FeedUsize(u, b);
        FeedUsizeBounds(u, b);
        u := UsizeState(false, u.value + (b % 128) * Pow2(u.offset), u.offset + 7);
        if b < 128 {
          value := u.value;
          assert fed == UsizeDone(value);
          return;
        }
        assert fed == UsizeMore(u);
      }
    }

    /** A step of the CRLE reader that hands out nothing: a kind, a run length or a repeated value. */
    ghost predicate ControlStep(was: Reader, input: seq<byte>, res: int, future: seq<byte>)
      requires ReaderOk(was) && Valid()
      reads this
    {
      && reader.CrleReader?
      && (res == AGAIN || res == MORE_INPUT || res < 0) && res != ALREADY_DONE
      && (res == AGAIN ==> Pull(was, input) == Pull(reader, Rest() + future))
      && (res == MORE_INPUT ==> Rest() == [] && Pull(was, input) == Pull(reader, future))
      && (res == MORE_INPUT ==> Pull(reader, []) == Starved)
      && (res < 0 ==> Pull(was, input) == Bad)
    }

    method CrleIdle(ghost future: seq<byte>) returns (res: int)
      requires Valid() && reader == CrleReader(Idle)
      modifies this`offset, this`reader
      ensures Valid() && ControlStep(old(reader), old(Rest()) + future, res, future)
      ensures |Rest()| <= |old(Rest())| && (res == AGAIN ==> |Rest()| < |old(Rest())|)
    {
      ghost var input := Rest() + future;
      var kind: byte;
      res, kind := ChunkGet();
      if res != OK {
        assert Rest() + future == future == input;
        return;
      }
      assert input == [kind] + (Rest() + future);
      res := AGAIN;
      if kind == 0 {
        reader := CrleReader(ScatteredSize(USIZE_FIRST));
      } else if kind == 1 {
        reader := CrleReader(RepeatedRepetitions(USIZE_FIRST));
      } else {
        res := CORRUPT_PATCH_CRLE_KIND;
      }
    }

    method CrleScatteredSize(ghost future: seq<byte>) returns (res: int)
      requires Valid() && reader.CrleReader? && reader.crle.ScatteredSize?
      modifies this`offset, this`reader
      ensures Valid() && ControlStep(old(reader), old(Rest()) + future, res, future)
      ensures |Rest()| <= |old(Rest())| && (res == AGAIN ==> |Rest()| < |old(Rest())|)
    {
      var u, length;
      res, u, length := UnpackUsize(reader.crle.size, false, future);
      if res != OK {
        reader := CrleReader(ScatteredSize(u));
        return;
      }
      reader := CrleReader(ScatteredData(length));
      res := AGAIN;
    }

    method CrleRepeatedRepetitions(ghost future: seq<byte>) returns (res: int)
      requires Valid() && reader.CrleReader? && reader.crle.RepeatedRepetitions?
      modifies this`offset, this`reader
      ensures Valid() && ControlStep(old(reader), old(Rest()) + future, res, future)
      ensures |Rest()| <= |old(Rest())| && (res == AGAIN ==> |Rest()| < |old(Rest())|)
    {
      var u, repetitions;
      res, u, repetitions := UnpackUsize(reader.crle.size, true, future);
      if res != OK {
        reader := CrleReader(RepeatedRepetitions(u));
        return;
      }
      reader := CrleReader(RepeatedData(repetitions));
      res := AGAIN;
    }

    method CrleRepeatedData(ghost future: seq<byte>) returns (res: int)
      requires Valid() && reader.CrleReader? && reader.crle.RepeatedData?
      modifies this`offset, this`reader
      ensures Valid() && ControlStep(old(reader), old(Rest()) + future, res, future)
      ensures |Rest()| <= |old(Rest())| && (res == AGAIN ==> |Rest()| < |old(Rest())|)
    {
      ghost var input := Rest() + future;
      var value: byte;
      res, value := ChunkGet();
      if res != OK {
        assert Rest() + future == future == input;
        return;
      }
      assert input == [value] + (Rest() + future);
      reader := CrleReader(RepeatedDataRead(value, reader.crle.left));
      res := AGAIN;
    }

    method CrleScatteredData(dst: array<byte>, request: nat, ghost future: seq<byte>) returns (res: int, n: nat)
      requires Valid() && reader.CrleReader? && reader.crle.ScatteredData? && 1 <= request <= dst.Length
      modifies this`offset, this`reader, dst
      ensures Valid() && Decompressed(old(reader), old(Rest()) + future, dst, request, res, n, future)
      ensures reader.CrleReader? && (res == OK || res == MORE_INPUT)
      ensures |Rest()| <= |old(Rest())|
      ensures res == OK ==> |Rest()| < |old(Rest())| || (Rest() == old(Rest()) && Held(reader) < Held(old(reader)))
    {
      var left := reader.crle.left;
      ghost var chunk, input := Rest(), Rest() + future;
      var size := if request <= left then request else left;
      res, n := ChunkRead(dst, size);
      if res != OK {
        assert Rest() + future == future == input;
        return;
      }
      if n > 0 {
        assert input == dst[..n] + (Rest() + future);
        assert input[..n] == dst[..n] && input[n..] == Rest() + future;
        PullScattered(left, input, n);
      } else {
        assert Rest() == [] + Rest() == dst[..n] + Rest() == chunk;
      }
      reader := CrleReader(if n == left then Idle else ScatteredData(left - n));
    }

    method CrleRepeatedDataRead(dst: array<byte>, request: nat, ghost future: seq<byte>) returns (res: int, n: nat)
      requires Valid() && reader.CrleReader? && reader.crle.RepeatedDataRead? && 1 <= request <= dst.Length
      modifies this`reader, dst
      ensures Valid() && Decompressed(old(reader), old(Rest()) + future, dst, request, res, n, future)
      ensures reader.CrleReader? && res == OK && Held(reader) < Held(old(reader))
    {
      hide PullN, PullSize;
      var value, left := reader.crle.value, reader.crle.left;
      n := if request <= left then request else left;
      var i := 0;
      while i < n
        invariant 0 <= i <= n
        invariant forall k :: 0 <= k < i ==> dst[k] == value
        modifies dst
      {
        dst[i] := value;
        i := i + 1;
      }
      if n > 0 {
        PullRepeated(value, left, Rest() + future, n);
        assert dst[..n] == seq(n, _ => value);
      }
      reader := CrleReader(if n == left then Idle else RepeatedDataRead(value, left - n));
      res := OK;
    }

    /** `patch_reader_crle_decompress`: control steps until a step hands out data or input runs out. */
    method CrleDecompress(dst: array<byte>, request: nat, ghost future: seq<byte>) returns (res: int, n: nat)
      requires Valid() && reader.CrleReader? && 1 <= request <= dst.Length
      modifies this`offset, this`reader, dst
      ensures Valid() && Decompressed(old(reader), old(Rest()) + future, dst, request, res, n, future)
      ensures Progress(old(reader), old(Rest()), res)
      ensures reader.CrleReader? && (res < 0 ==> Pull(old(reader), old(Rest()) + future) == Bad)
    {
      n := 0;
      while true
        invariant Valid() && reader.CrleReader? && n == 0
        invariant Pull(reader, Rest() + future) == Pull(old(reader), old(Rest()) + future)
        invariant |Rest()| < |old(Rest())| || (Rest() == old(Rest()) && reader == old(reader))
        decreases |Rest()|
      {
        ghost var input := Rest() + future;
        match reader.crle {
          case Idle => res := CrleIdle(future);
          case ScatteredSize(_) => res := CrleScatteredSize(future);
          case RepeatedRepetitions(_) => res := CrleRepeatedRepetitions(future);
          case RepeatedData(_) => res := CrleRepeatedData(future);
          case ScatteredData(_) =>
            ghost var before := reader;
            res, n := CrleScatteredData(dst, request, future);
            PullNUnfold(old(reader), old(Rest()) + future, before, input, n);
            return;
          case RepeatedDataRead(_, _) =>
            ghost var before := reader;
            res, n := CrleRepeatedDataRead(dst, request, future);
            PullNUnfold(old(reader), old(Rest()) + future, before, input, n);
            return;
        }
        if res != AGAIN {
          return;
        }
      }
    }

    /** A successful call used up input, or some of what the reader was holding. */
    ghost predicate Progress(was: Reader, chunk: seq<byte>, res: int)
      requires Valid()
      reads this
    {
      && |Rest()| <= |chunk|
      && (res == OK ==> |Rest()| < |chunk| || (Rest() == chunk && Held(reader) < Held(was)))
    }

    /** `patch_reader_decompress`. */
    method Decompress(dst: array<byte>, request: nat, ghost future: seq<byte>) returns (res: int, n: nat)
      requires Valid() && !reader.Absent? && 1 <= request <= dst.Length
      modifies this`offset, this`reader, dst
      ensures Valid() && Decompressed(old(reader), old(Rest()) + future, dst, request, res, n, future)
      ensures Progress(old(reader), old(Rest()), res)
      ensures old(reader).CrleReader? ==>
        reader.CrleReader? && (res < 0 ==> Pull(old(reader), old(Rest()) + future) == Bad)
    {
      if reader.NoneReader? {
        res, n := NoneDecompress(dst, request, future);
      } else {
        res, n := CrleDecompress(dst, request, future);
      }
    }

    ghost predicate Unpacked(z: SizeState, was: Reader, input: seq<byte>, res: int, value: int, future: seq<byte>)
      requires ReaderOk(was) && SizeOk(z) && Valid()
      reads this
    {
      var expected := PullSize(z, was, input);
      && (res == MORE_INPUT ==> Rest() == [] && PullSize(size, reader, []) in {SizeFails, SizeUnspecified})
      && (|| expected == SizeUnspecified
          || (&& (res == OK ==> expected == GotSize(value, reader, Rest() + future))
              && (res == MORE_INPUT ==> expected == PullSize(size, reader, future))
              && (res < 0 ==> expected == SizeFails)))
    }

    /** `patch_reader_unpack_size`: a signed size, one decompressed byte at a time. */
    method UnpackSize(ghost future: seq<byte>) returns (res: int, value: int)
      requires Valid() && !reader.Absent?
      modifies this`offset, this`reader, this`size
      ensures Valid() && !reader.Absent?
      ensures (res == OK || res == MORE_INPUT || res < 0) && res != ALREADY_DONE
      ensures Progress(old(reader), old(Rest()), res)
      ensures res == OK ==> size == SIZE_FIRST
      ensures -0x8000_0000 <= value < 0x8000_0000
      ensures Unpacked(old(size), old(reader), old(Rest()) + future, res, value, future)
    {
      hide FeedSize, Pow2;
      value := 0;
      var dst := new byte[1];
      ghost var was := PullSize(size, reader, Rest() + future);
      while true
        invariant Valid() && !reader.Absent?
        invariant |Rest()| <= |old(Rest())|
        invariant |Rest()| < |old(Rest())| || (Rest() == old(Rest()) && Held(reader) <= Held(old(reader)))
        invariant -0x8000_0000 <= value < 0x8000_0000
        invariant was == SizeUnspecified || was == PullSize(size, reader, Rest() + future)
        decreases |Rest()|, Held(reader)
      {
        ghost var before, input := reader, Rest() + future;
        var n;
        res, n := Decompress(dst, 1, future);
        if res != OK {
          return;
        }
        if n == 0 {
          // A run of length zero: the source goes on with a byte nobody set.
          was := SizeUnspecified;
          size := SIZE_FIRST;
          value :| -0x8000_0000 <= value < 0x8000_0000;
          return;
        }
        var b := dst[0];
        assert dst[..1] == [b];
        PullNOne(before, input);
        var done;
        res, done, value := AcceptSizeByte(b);
        if res != OK || done {
          return;
        }
      }
    }

    /** The part of `patch_reader_unpack_size` that takes a byte into the number. */
    method AcceptSizeByte(b: byte) returns (res: int, done: bool, value: int)
      requires Valid()
      modifies this`size
      ensures Valid()
      ensures -0x8000_0000 <= value < 0x8000_0000
      ensures
        match FeedSize(old(size), b)
        case SizeOverflow => res == CORRUPT_PATCH_OVERFLOW
        case SizeDone(v) => res == OK && done && value == v && size == SIZE_FIRST
        case SizeMore(z) => res == OK && !done && size == z
    {
      FeedSizeBounds(size, b);
      value, done := 0, false;
      if size.first {
        size := SizeState(false, b % 64, 6, (b / 64) % 2 == 1);
      } else {
        if IsOverflow(size.offset) {
          return CORRUPT_PATCH_OVERFLOW, false, 0;
        }
        size := size.(value := size.value + (b % 128) * Pow2(size.offset), offset := size.offset + 7);
      }
      res := OK;
      if b < 128 {
        done := true;
        value := if size.signed then size.value * -1 else size.value;
        size := SIZE_FIRST;
      }
    }

    /** `chunk_unpack_header_size`. */
    method UnpackHeaderSize() returns (res: int, value: nat)
      requires Valid()
      modifies this`offset
      ensures Valid() && |Rest()| <= |old(Rest())|
      ensures
        match ParseHeaderSize(old(Rest()))
        case HeaderShort => res == SHORT_HEADER
        case HeaderOverflow => res == CORRUPT_PATCH_OVERFLOW
        case HeaderGot(v, rest) => res == OK && value == v && Rest() == rest && value < 0x800_0000
    {
      hide ParseHeaderTail, Pow2;
      HeaderSizeBound(Rest());
      ghost var expected := ParseHeaderSize(Rest());
      var b: byte;
      value := 0;
      res, b := ChunkGet();
      if res != OK {
        return SHORT_HEADER, 0;
      }
      value := b % 64;
      var bit := 6;
      while b >= 128
        invariant Valid() && |Rest()| <= |old(Rest())| && bit >= 6
        invariant ParseHeaderTail(b >= 128, value, bit, Rest()) == expected
        decreases |Rest()|, b
      {
        ghost var input := Rest();
        HeaderTailStep(value, bit, input);
        res, b := ChunkGet();
        if res != OK {
          return SHORT_HEADER, 0;
        }
        assert input[0] == b && input[1..] == Rest();
        if IsOverflow(bit) {
          return CORRUPT_PATCH_OVERFLOW, 0;
        }
        value := value + (b % 128) * Pow2(bit);
        bit := bit + 7;
      }
      HeaderTailEnd(value, bit, Rest());
      res := OK;
    }

    /** `patch_reader_init`, in a build with the two compressions that are modelled. */
    method Init(patchSize: nat, compression: int) returns (res: int)
      requires Valid()
      modifies this`reader, this`size
      ensures Valid() && size == SIZE_FIRST
      ensures res == if InitialReader(patchSize, compression).Absent? then BAD_COMPRESSION else OK
      ensures res == OK ==> reader == InitialReader(patchSize, compression)
      ensures res != OK ==> reader == old(reader)
    {
      size := SIZE_FIRST;
      if compression == COMPRESSION_NONE {
        reader := NoneReader(patchSize, 0);
      } else if compression == COMPRESSION_CRLE {
        reader := CrleReader(Idle);
      } else {
        return BAD_COMPRESSION;
      }
      res := OK;
    }

    /** The `destroy` callback. */
    method Destroy() returns (res: int)
      requires Valid()
      ensures res == if MayEnd(reader) then OK else CORRUPT_PATCH
    {
      match reader {
        case NoneReader(patchSize, patchOffset) =>
          res := if patchOffset == patchSize then OK else CORRUPT_PATCH;
        case _ =>
          res := OK;
      }
    }
  }

  function InitialReader(patchSize: nat, compression: int): Reader {
    if compression == COMPRESSION_NONE then NoneReader(patchSize, 0)
    else if compression == COMPRESSION_CRLE then CrleReader(Idle)
    else Absent
  }
}
