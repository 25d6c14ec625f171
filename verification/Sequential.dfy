/**
  The sequential patcher.

  `Exec` is the reference: it runs the rest of a patch, one decompressed byte at a time, and says
  what gets written, or that the patch is not accepted.  The class is the source's patcher, which
  is handed the patch in chunks and works through blocks of up to 128 bytes.
*/
module Sequential {
  import opened Bytes
  import opened Varint
  import opened PatchReading

  const NOT_IMPLEMENTED := -1
  const BAD_PATCH_TYPE := -3
  const IO_FAILED := -10
  const NOT_ENOUGH_PATCH_DATA := -19
  const ALREADY_FAILED := -24

  const PATCH_TYPE_SEQUENTIAL := 0
  const SIZE_MOD := 0x1_0000_0000  // size_t is 32 bits wide

  datatype State =
    | Init | DfpatchSize | DiffSize | DiffData | ExtraSize | ExtraData | Adjustment | Done | Failed

  /** The fields of `detools_apply_patch_t` that decide what the rest of a patch does. */
  datatype View = View(
    state: State, toOffset: nat, toSize: nat, fromOffset: int, chunkSize: nat,
    size: SizeState, reader: Reader)

  predicate ViewOk(v: View) {
    SizeOk(v.size) && ReaderOk(v.reader)
  }

  datatype Verdict =
    | Accept(out: seq<byte>)   // these bytes are still to be written, and then the patch is done
    | Reject
    | Undefined                // a run of length zero or a negative size: see README

  function Prepend(w: seq<byte>, v: Verdict): Verdict {
    if v.Accept? then Accept(w + v.out) else v
  }

  /** The source cursor may never reach the end of the partition. */
  predicate ReadOk(from: seq<byte>, offset: int, n: int) {
    0 <= offset && offset + n < |from|
  }

  function AddByte(a: byte, b: byte): byte {
    (a + b) % 256
  }

  function Rank(s: State): nat {
    if s.DiffData? || s.ExtraData? then 1 else 0
  }

  /** Run the patch from `v`, with `input` the whole of its compressed bytes still to come. */
  function Exec(v: View, input: seq<byte>, from: seq<byte>): Verdict
    requires ViewOk(v)
    decreases |input|, Held(v.reader), Rank(v.state)
  {
    match v.state
    case Init => Reject
    case Failed => Reject
    case Done => if input == [] && MayEnd(v.reader) then Accept([]) else Reject
    case DiffData =>
      if v.chunkSize == 0 then Exec(v.(state := ExtraSize), input, from) else ExecByte(v, input, from)
    case ExtraData =>
      if v.chunkSize == 0 then Exec(v.(state := Adjustment), input, from) else ExecByte(v, input, from)
    case _ =>
      match PullSize(v.size, v.reader, input)
      case SizeFails => Reject
      case SizeUnspecified => Undefined
      case GotSize(n, r, rest) =>
        var at := v.(size := SIZE_FIRST, reader := r);
        match AfterSize(at, n, from)
        case NextView(next) => Exec(next, rest, from)
        case NextFails => Reject
        case NextUndefined => Undefined
  }

  /** One byte of diff or extra data. */
  function ExecByte(v: View, input: seq<byte>, from: seq<byte>): Verdict
    requires ViewOk(v) && (v.state.DiffData? || v.state.ExtraData?) && v.chunkSize > 0
    decreases |input|, Held(v.reader), 0
  {
    match Pull(v.reader, input)
    case Got(b, r, rest) =>
      if v.state.DiffData? then
        if ReadOk(from, v.fromOffset, 1) then
          Prepend([AddByte(b, from[v.fromOffset])], Exec(DataDone(v, 1, r), rest, from))
        else
          Reject
      else
        Prepend([b], Exec(DataDone(v, 1, r), rest, from))
    case Unspecified => Undefined
    case _ => Reject
  }

  /** The view after `n` bytes of the current data. */
  function DataDone(v: View, n: nat, r: Reader): View
    requires n <= v.chunkSize
  {
    v.(toOffset := (v.toOffset + n) % SIZE_MOD, chunkSize := v.chunkSize - n, reader := r,
       fromOffset := if v.state.DiffData? then v.fromOffset + n else v.fromOffset)
  }

  datatype Next = NextView(view: View) | NextFails | NextUndefined

  /** What a size does, in the state that was waiting for it. */
  function AfterSize(v: View, n: int, from: seq<byte>): Next {
    match v.state
    case DfpatchSize => if n > 0 then NextFails else NextView(v.(state := DiffSize))
    case DiffSize => AfterLength(v, n, DiffData)
    case ExtraSize => AfterLength(v, n, ExtraData)
    case Adjustment =>
      if 0 <= v.fromOffset + n < |from| then
        NextView(v.(fromOffset := v.fromOffset + n, state := if v.toOffset == v.toSize then Done else DiffSize))
      else
        NextFails
    case _ => NextFails
  }

  function AfterLength(v: View, n: int, next: State): Next {
    if n < 0 then NextUndefined
    else if (v.toOffset + n) % SIZE_MOD > v.toSize then NextFails
    else NextView(v.(state := next, chunkSize := n))
  }

  /**
    The source compares sizes after conversion to an unsigned type.  A negative length gets through
    its check exactly when its magnitude is at most the number of bytes already written.
  */
  lemma NegativeLengths(toOffset: nat, toSize: nat, length: int)
    requires toOffset <= toSize < 0x800_0000 && -0x800_0000 < length < 0x800_0000
    ensures (toOffset + length % 0x1_0000_0000) % 0x1_0000_0000 <= toSize
            <==> (0 <= length && toOffset + length <= toSize) || (length < 0 && -length <= toOffset)
  {
    if length < 0 {
      assert length % SIZE_MOD == length + SIZE_MOD;
    }
  }

  // ---------------------------------------------------------------- the header

  datatype Header = HeaderIncomplete | HeaderBad | HeaderOk(compression: nat, toSize: nat, rest: seq<byte>)

  function ParseHeader(input: seq<byte>): Header {
    if input == [] then HeaderIncomplete
    else if (input[0] / 16) % 8 != PATCH_TYPE_SEQUENTIAL then HeaderBad
    else match ParseHeaderSize(input[1..])
      case HeaderShort => HeaderIncomplete
      case HeaderOverflow => HeaderBad
      case HeaderGot(n, rest) => HeaderOk(input[0] % 16, n, rest)
  }

  lemma HeaderExtends(s: seq<byte>, t: seq<byte>)
    ensures match ParseHeader(s)
      case HeaderIncomplete => true
      case HeaderBad => ParseHeader(s + t) == HeaderBad
      case HeaderOk(c, n, rest) => |rest| < |s| && ParseHeader(s + t) == HeaderOk(c, n, rest + t)
  {
    if s != [] {
      HeaderSizeExtends(s[1..], t);
      assert (s + t)[1..] == s[1..] + t;
    }
  }

  /** The view once the header is read. */
  function StartView(toSize: nat, r: Reader): View {
    View(if toSize > 0 then DfpatchSize else Done, 0, toSize, 0, 0, SIZE_FIRST, r)
  }

  /** The meaning of a whole patch, header included. */
  function ExecPatch(input: seq<byte>, patchSize: nat, from: seq<byte>): Verdict {
    match ParseHeader(input)
    case HeaderOk(compression, toSize, rest) =>
      ExecStart(compression, toSize, patchSize - (|input| - |rest|), rest, from)
    case _ => Reject
  }

  function ExecStart(compression: nat, toSize: nat, left: int, rest: seq<byte>, from: seq<byte>): Verdict {
    var r := InitialReader(left % SIZE_MOD, compression);
    if r.Absent? then Reject else Exec(StartView(toSize, r), rest, from)
  }

  /** The chunk that holds the header decides it. */
  lemma HeaderDecides(chunk: seq<byte>, future: seq<byte>, patchSize: nat, from: seq<byte>)
    ensures match ParseHeader(chunk)
      case HeaderIncomplete => true
      case HeaderBad => ExecPatch(chunk + future, patchSize, from) == Reject
      case HeaderOk(c, n, rest) =>
        (&& |rest| < |chunk|
         && ExecPatch(chunk + future, patchSize, from)
            == ExecStart(c, n, patchSize - (|chunk| - |rest|), rest + future, from))
  {
    HeaderExtends(chunk, future);
  }

  // ---------------------------------------------------------------- blocks of data

  /** What a block of decompressed bytes is written as. */
  function Combine(state: State, xs: seq<byte>, from: seq<byte>, offset: int): seq<byte>
    requires state.DiffData? ==> ReadOk(from, offset, |xs|)
  {
    if state.DiffData? then AddBytes(xs, from[offset..offset + |xs|]) else xs
  }

  function AddBytes(xs: seq<byte>, ys: seq<byte>): (zs: seq<byte>)
    requires |xs| == |ys|
    ensures |zs| == |xs|
  {
    seq(|xs|, i requires 0 <= i < |xs| => AddByte(xs[i], ys[i]))
  }

  predicate BlockOk(v: View, n: nat, from: seq<byte>) {
    v.state.DiffData? ==> ReadOk(from, v.fromOffset, n)
  }

  predicate InData(v: View) {
    v.state.DiffData? || v.state.ExtraData?
  }

  /** What is left of an accepted or rejected patch once the block `xs` is through. */
  function AfterBlock(v: View, xs: seq<byte>, r: Reader, rest: seq<byte>, from: seq<byte>): Verdict
    requires |xs| <= v.chunkSize && SizeOk(v.size) && ReaderOk(r)
  {
    if BlockOk(v, |xs|, from) then
      Prepend(Combine(v.state, xs, from, v.fromOffset), Exec(DataDone(v, |xs|, r), rest, from))
    else
      Reject
  }

  lemma DataByte(v: View, input: seq<byte>, from: seq<byte>)
    requires ViewOk(v) && InData(v) && v.chunkSize > 0 && Pull(v.reader, input).Got?
    ensures var p := Pull(v.reader, input);
      Exec(v, input, from) == AfterBlock(v, [p.value], p.reader, p.rest, from)
  {
    var p := Pull(v.reader, input);
    if BlockOk(v, 1, from) {
      assert Combine(v.state, [p.value], from, v.fromOffset)
          == [if v.state.DiffData? then AddByte(p.value, from[v.fromOffset]) else p.value];
    }
  }

  lemma OffsetTwice(offset: nat, n: nat)
    ensures ((offset + 1) % SIZE_MOD + n) % SIZE_MOD == (offset + (1 + n)) % SIZE_MOD
  {
  }

  lemma AfterBlockSplit(v: View, x: byte, xs: seq<byte>, r1: Reader, r: Reader, rest: seq<byte>, from: seq<byte>)
    requires InData(v) && 1 + |xs| <= v.chunkSize && SizeOk(v.size) && ReaderOk(r) && ReaderOk(r1)
    requires BlockOk(v, 1, from)
    ensures AfterBlock(v, [x] + xs, r, rest, from)
         == Prepend(Combine(v.state, [x], from, v.fromOffset), AfterBlock(DataDone(v, 1, r1), xs, r, rest, from))
  {
    var next := DataDone(v, 1, r1);
    var n := |xs|;
    OffsetTwice(v.toOffset, n);
    assert DataDone(next, n, r) == DataDone(v, 1 + n, r);
    if BlockOk(v, 1 + n, from) {
      var a, b := Combine(v.state, [x], from, v.fromOffset), Combine(v.state, xs, from, next.fromOffset);
      assert Combine(v.state, [x] + xs, from, v.fromOffset) == a + b;
      PrependPrepend(a, b, Exec(DataDone(v, 1 + n, r), rest, from));
    }
  }

  /** A block written at once is the same bytes written one by one. */
  lemma {:induction false} DataBlock(v: View, input: seq<byte>, from: seq<byte>, n: nat)
    requires ViewOk(v) && InData(v)
    requires 1 <= n <= v.chunkSize && PullN(v.reader, input, n).GotN?
    ensures var p := PullN(v.reader, input, n);
      Exec(v, input, from) == AfterBlock(v, p.values, p.reader, p.rest, from)
    decreases n
  {
    var p, first := PullN(v.reader, input, n), Pull(v.reader, input);
    DataByte(v, input, from);
    if n == 1 {
      assert PullN(first.reader, first.rest, 0) == GotN([], first.reader, first.rest);
      assert p.values == [first.value];
    } else {
      var tail := PullN(first.reader, first.rest, n - 1);
      if BlockOk(v, 1, from) {
        DataBlock(DataDone(v, 1, first.reader), first.rest, from, n - 1);
        AfterBlockSplit(v, first.value, tail.values, first.reader, p.reader, p.rest, from);
      }
    }
  }

  lemma PrependPrepend(a: seq<byte>, b: seq<byte>, v: Verdict)
    ensures Prepend(a, Prepend(b, v)) == Prepend(a + b, v)
  {
    if v.Accept? {
      assert a + (b + v.out) == (a + b) + v.out;
    }
  }

  lemma PrependNothing(v: Verdict)
    ensures Prepend([], v) == v
  {
    if v.Accept? {
      assert [] + v.out == v.out;
    }
  }

  /** `before` is undefined, or it is: write `w`, then go on with `after`. */
  predicate FollowsFrom(before: Verdict, w: seq<byte>, after: Verdict) {
    before == Undefined || before == Prepend(w, after)
  }

  lemma Follows(before: Verdict, a: seq<byte>, mid: Verdict, b: seq<byte>, after: Verdict)
    requires FollowsFrom(before, a, mid) && FollowsFrom(mid, b, after)
    ensures FollowsFrom(before, a + b, after)
  {
    PrependPrepend(a, b, after);
  }

  lemma Grown(a: seq<byte>, b: seq<byte>, c: seq<byte>)
    requires a <= b <= c
    ensures b[|a|..] + c[|b|..] == c[|a|..]
  {
  }

  lemma FailedRejects(v: View, input: seq<byte>, from: seq<byte>)
    requires ViewOk(v)
    ensures v.state.Failed? ==> Exec(v, input, from) == Reject
  {
  }

  lemma DoneTooEarly(v: View, input: seq<byte>, from: seq<byte>)
    requires ViewOk(v) && input != []
    ensures v.state.Done? ==> Exec(v, input, from) == Reject
  {
  }

  predicate InNumber(v: View) {
    v.state.DfpatchSize? || v.state.DiffSize? || v.state.ExtraSize? || v.state.Adjustment?
  }

  /** Only the number that comes out of the reader matters to a state that waits for one. */
  lemma SameNumber(v: View, input: seq<byte>, size: SizeState, reader: Reader, input': seq<byte>, from: seq<byte>)
    requires ViewOk(v) && InNumber(v) && SizeOk(size) && ReaderOk(reader)
    requires PullSize(v.size, v.reader, input) == PullSize(size, reader, input')
    ensures Exec(v, input, from) == Exec(v.(size := size, reader := reader), input', from)
  {
    hide PullSize, Pull;
  }

  lemma NumberMissing(v: View, input: seq<byte>, from: seq<byte>)
    requires ViewOk(v) && InNumber(v)
    ensures PullSize(v.size, v.reader, input) == SizeFails ==> Exec(v, input, from) == Reject
    ensures PullSize(v.size, v.reader, input) == SizeUnspecified ==> Exec(v, input, from) == Undefined
  {
  }

  lemma NumberArrived(v: View, input: seq<byte>, from: seq<byte>)
    requires ViewOk(v) && InNumber(v) && PullSize(v.size, v.reader, input).GotSize?
    ensures var p := PullSize(v.size, v.reader, input);
      var at := AfterSize(v.(size := SIZE_FIRST, reader := p.reader), p.value, from);
      && (at.NextView? ==> Exec(v, input, from) == Exec(at.view, p.rest, from))
      && (at.NextFails? ==> Exec(v, input, from) == Reject)
      && (at.NextUndefined? ==> Exec(v, input, from) == Undefined)
  {
  }

  /** If the reader cannot deliver part of the data the patch is not accepted. */
  lemma {:induction false} DataFails(v: View, input: seq<byte>, from: seq<byte>, n: nat)
    requires ViewOk(v) && (v.state.DiffData? || v.state.ExtraData?)
    requires n <= v.chunkSize && PullN(v.reader, input, n) in {StarvedN, BadN}
    ensures Exec(v, input, from) == Reject
    decreases n
  {
    match Pull(v.reader, input) {
      case Got(_, r, rest) => DataFails(DataDone(v, 1, r), rest, from, n - 1);
      case _ =>
    }
  }

  lemma SameAfterBlock(v: View, r: Reader, xs: seq<byte>, rest: seq<byte>, from: seq<byte>)
    requires |xs| <= v.chunkSize && SizeOk(v.size) && ReaderOk(r)
    ensures AfterBlock(v, xs, r, rest, from) == AfterBlock(v.(reader := r), xs, r, rest, from)
  {
    assert DataDone(v, |xs|, r) == DataDone(v.(reader := r), |xs|, r);
  }

  lemma DataOver(v: View, input: seq<byte>, from: seq<byte>)
    requires ViewOk(v) && InData(v) && v.chunkSize == 0
    ensures Exec(v, input, from) == Exec(v.(state := if v.state.DiffData? then ExtraSize else Adjustment), input, from)
  {
  }

  lemma DataUnset(v: View, input: seq<byte>, from: seq<byte>)
    requires ViewOk(v) && InData(v) && v.chunkSize > 0 && Pull(v.reader, input) == Unspecified
    ensures Exec(v, input, from) == Undefined
  {
  }

  lemma SameData(v: View, input: seq<byte>, r: Reader, input': seq<byte>, from: seq<byte>)
    requires ViewOk(v) && InData(v) && ReaderOk(r) && v.chunkSize > 0 && Pull(v.reader, input) == Pull(r, input')
    ensures Exec(v, input, from) == Exec(v.(reader := r), input', from)
  {
    match Pull(v.reader, input) {
      case Got(b, r', rest) => assert DataDone(v, 1, r') == DataDone(v.(reader := r), 1, r');
      case _ =>
    }
  }

  lemma DataMissing(v: View, input: seq<byte>, from: seq<byte>)
    requires ViewOk(v) && InData(v) && v.chunkSize > 0 && Pull(v.reader, input) in {Starved, Unspecified}
    ensures Exec(v, input, from) in {Reject, Undefined}
  {
  }

  /** A call of the reader that delivers nothing: the data goes on later, or never. */
  lemma DataStops(v: View, input: seq<byte>, from: seq<byte>, n: nat, res: int, r: Reader, future: seq<byte>)
    requires ViewOk(v) && InData(v) && ReaderOk(r) && 1 <= n <= v.chunkSize
    requires res == MORE_INPUT || res < 0
    requires res == MORE_INPUT ==> Pull(v.reader, input) == Pull(r, future) && Pull(r, []) in {Starved, Unspecified}
    requires res < 0 ==> PullN(v.reader, input, n) in {StarvedN, BadN}
    ensures res < 0 ==> Exec(v, input, from) == Reject
    ensures res == MORE_INPUT ==>
      Exec(v, input, from) == Exec(v.(reader := r), future, from) && Exec(v.(reader := r), [], from) in {Reject, Undefined}
  {
    hide Exec, Pull, PullN, PullSize;
    if res < 0 {
      DataFails(v, input, from, n);
    } else {
      SameData(v, input, r, future, from);
      DataMissing(v.(reader := r), [], from);
    }
  }

  // ---------------------------------------------------------------- accounting

  predicate Accounted(v: View) {
    && v.toSize < 0x800_0000
    && v.toOffset + (if InData(v) then v.chunkSize else 0) <= v.toSize
    && (v.state.Done? ==> v.toOffset == v.toSize)
  }

  /** An accepted patch writes exactly the bytes that were missing. */
  lemma {:induction false} AcceptedSize(v: View, input: seq<byte>, from: seq<byte>)
    requires ViewOk(v) && Accounted(v) && Exec(v, input, from).Accept?
    ensures v.toOffset + |Exec(v, input, from).out| == v.toSize
    decreases |input|, Held(v.reader), Rank(v.state), 1
  {
    if InData(v) && v.chunkSize > 0 {
      AcceptedSizeData(v, input, from);
    } else if InData(v) {
      AcceptedSize(v.(state := if v.state.DiffData? then ExtraSize else Adjustment), input, from);
    } else if !v.state.Done? {
      var next, rest := AcceptedNumber(v, input, from);
      AcceptedSize(next, rest, from);
    }
  }

  lemma {:induction false} AcceptedSizeData(v: View, input: seq<byte>, from: seq<byte>)
    requires ViewOk(v) && Accounted(v) && InData(v) && v.chunkSize > 0 && Exec(v, input, from).Accept?
    ensures v.toOffset + |Exec(v, input, from).out| == v.toSize
    decreases |input|, Held(v.reader), Rank(v.state), 0
  {
    hide Exec, Pull, PullSize;
    AcceptedByte(v, input, from);
    var p := Pull(v.reader, input);
    assert (v.toOffset + 1) % SIZE_MOD == v.toOffset + 1;
    AcceptedSize(DataDone(v, 1, p.reader), p.rest, from);
  }

  lemma AfterSizeFits(v: View, n: int, from: seq<byte>)
    requires v.toOffset <= v.toSize < 0x800_0000 && n < 0x800_0000
    ensures AfterSize(v, n, from).NextView? ==>
      var w := AfterSize(v, n, from).view;
      w.toOffset == v.toOffset && w.toSize == v.toSize && Accounted(w)
  {
    if 0 <= n {
      assert (v.toOffset + n) % SIZE_MOD == v.toOffset + n;
    }
  }

  lemma AcceptedByte(v: View, input: seq<byte>, from: seq<byte>)
    requires ViewOk(v) && InData(v) && v.chunkSize > 0 && Exec(v, input, from).Accept?
    ensures var p := Pull(v.reader, input);
      && p.Got?
      && Exec(DataDone(v, 1, p.reader), p.rest, from).Accept?
      && |Exec(v, input, from).out| == 1 + |Exec(DataDone(v, 1, p.reader), p.rest, from).out|
  {
    var p := Pull(v.reader, input);
    DataByte(v, input, from);
  }

  lemma AcceptedNumber(v: View, input: seq<byte>, from: seq<byte>) returns (next: View, rest: seq<byte>)
    requires ViewOk(v) && Accounted(v) && !InData(v) && !v.state.Done? && Exec(v, input, from).Accept?
    ensures ViewOk(next) && Accounted(next) && next.toOffset == v.toOffset && next.toSize == v.toSize
    ensures |rest| < |input| || (rest == input && Held(next.reader) < Held(v.reader))
    ensures Exec(next, rest, from) == Exec(v, input, from)
  {
    var p := PullSize(v.size, v.reader, input);
    var at := v.(size := SIZE_FIRST, reader := p.reader);
    AfterSizeFits(at, p.value, from);
    next, rest := AfterSize(at, p.value, from).view, p.rest;
  }

  // ---------------------------------------------------------------- the source's patcher

  /** The loop of `process_data`, and of its in-place form, that adds the source bytes to the diff. */
  method AddSource(dst: array<byte>, src: array<byte>, n: nat)
    requires n <= dst.Length && n <= src.Length && dst != src
    modifies dst
    ensures forall k :: 0 <= k < n ==> dst[k] == (old(dst[k]) as int + old(src[k]) as int) % 256
    ensures dst[..n] == AddBytes(old(dst[..n]), old(src[..n]))
  {
    var i := 0;
    while i < n
      invariant 0 <= i <= n
      invariant forall k :: 0 <= k < i ==> dst[k] == AddByte(old(dst[k]), old(src[k]))
      invariant forall k :: i <= k < dst.Length ==> dst[k] == old(dst[k])
    {
      dst[i] := (dst[i] as int + src[i] as int) % 256;
      i := i + 1;
    }
  }

  /** What `detools_apply_patch_dump` writes out. */
  datatype Dump = Dump(
    state: State, patchSize: nat, compression: int, patchOffset: nat, toOffset: nat, toSize: nat,
    fromOffset: int, chunkSize: nat, reader: Reader, size: SizeState)

  class ApplyPatch {
    // The callbacks' argument, `flash_mem_t`: the source partition with its cursor, and the sink.
    const from: seq<byte>
    var srcOffset: int
    var to: seq<byte>

    // struct detools_apply_patch_t
    var state: State
    var patchSize: nat
    var patchOffset: nat
    var compression: int
    var toOffset: nat
    var toSize: nat
    var fromOffset: int
    var chunkSize: nat
    const pr: PatchReader

    ghost predicate Valid()
      reads this, pr
    {
      && pr.Valid()
      && (!state.Init? && !state.Failed? ==> !pr.reader.Absent?)
      && (state.Init? ==> fromOffset == 0 && chunkSize == 0)
      && (!state.Failed? ==> srcOffset == fromOffset && CursorOk())
    }

    /** `from_offset` is where the source cursor really is, and that is inside the partition. */
    ghost predicate CursorOk()
      reads this
    {
      0 <= fromOffset && (from != [] ==> fromOffset < |from|)
    }

    ghost function Current(): View
      requires Valid()
      reads this, pr
    {
      View(state, toOffset, toSize, fromOffset, chunkSize, pr.size, pr.reader)
    }

    /** No write so far, and no write announced, goes past the size of the result. */
    predicate InBounds()
      reads this
    {
      && toSize < 0x800_0000
      && toOffset + (if state.DiffData? || state.ExtraData? then chunkSize else 0) <= toSize
      && (state.Done? ==> toOffset == toSize)
    }

    /** What the rest of the patch does, if `input` is all of it. */
    ghost function Whole(input: seq<byte>): Verdict
      requires Valid()
      reads this, pr
    {
      if state.Init? then ExecPatch(input, patchSize, from) else Exec(Current(), input, from)
    }

    /** `detools_apply_patch_init`. */
    constructor (from: seq<byte>, patchSize: nat)
      ensures Valid() && state == Init && fresh(pr) && pr.Rest() == [] && to == [] && InBounds()
      ensures this.from == from && this.patchSize == patchSize && srcOffset == 0
    {
      this.from, srcOffset, to := from, 0, [];
      this.patchSize, patchOffset := patchSize, 0;
      fromOffset, state := 0, Init;
      compression, toOffset, toSize, chunkSize := 0, 0, 0, 0;
      pr := new PatchReader();
    }

    /** `delta_flash_read_src`: the cursor may not reach the end of the partition. */
    method FromRead(dst: array<byte>, n: nat) returns (ok: bool)
      requires n <= dst.Length
      modifies this`srcOffset, dst
      ensures ok <==> n > 0 && 0 <= old(srcOffset) && old(srcOffset) + n < |from|
      ensures ok ==> srcOffset == old(srcOffset) + n && dst[..n] == from[old(srcOffset)..srcOffset]
    {
      if n == 0 || srcOffset < 0 || srcOffset + n > |from| {
        return false;
      }
      forall i | 0 <= i < n {
        dst[i] := from[srcOffset + i];
      }
      srcOffset := srcOffset + n;
      ok := srcOffset < |from|;
      assert dst[..n] == from[srcOffset - n..srcOffset];
    }

    /** `delta_flash_write_dest`. */
    method ToWrite(src: array<byte>, n: nat) returns (ok: bool)
      requires n <= src.Length
      modifies this`to
      ensures ok <==> n > 0
      ensures to == old(to) + src[..n]
    {
      to := to + src[..n];
      ok := n > 0;
    }

    /** `delta_flash_seek_src`. */
    method FromSeek(offset: int) returns (ok: bool)
      modifies this`srcOffset
      ensures srcOffset == old(srcOffset) + offset
      ensures ok <==> 0 <= srcOffset < |from|
    {
      srcOffset := srcOffset + offset;
      ok := 0 <= srcOffset < |from|;
    }

    /** What a step of the patcher promises, `before` being the meaning of the patch before it. */
    ghost predicate Stepped(before: Verdict, was: seq<byte>, res: int, future: seq<byte>)
      requires Valid()
      reads this, pr
    {
      && was <= to && !state.Init? && !state.Failed?
      && (res == OK || res == MORE_INPUT)
      && (res == MORE_INPUT ==> pr.Rest() == [] && Whole([]) in {Reject, Undefined})
      && FollowsFrom(before, to[|was|..], Whole(pr.Rest() + future))
    }

    /** The same for a step that may fail. */
    ghost predicate Outcome(before: Verdict, was: seq<byte>, res: int, future: seq<byte>)
      reads this, pr
    {
      && pr.Valid() && res != ALREADY_DONE
      && (if res < 0 then before in {Reject, Undefined} && was <= to
          else Valid() && Stepped(before, was, res, future))
    }

    /** Nothing is waiting before the step's own work is over: input, then what the reader holds. */
    ghost predicate Progress(chunk: seq<byte>, was: Reader, state0: State)
      requires Valid()
      reads this, pr
    {
      || |pr.Rest()| < |chunk|
      || (pr.Rest() == chunk && Held(pr.reader) < Held(was))
      || (pr.Rest() == chunk && pr.reader == was && Rank(state) < Rank(state0))
    }

    /** The first half of `process_init`: patch type, compression and size of the result. */
    method ReadHeader() returns (res: int, headerSize: nat)
      requires pr.Valid() && pr.offset == 0
      modifies this`compression, pr`offset
      ensures pr.Valid() && |pr.Rest()| <= |old(pr.Rest())|
      ensures
        match ParseHeader(old(pr.Rest()))
        case HeaderIncomplete => res == SHORT_HEADER
        case HeaderBad => res < 0 && res != ALREADY_DONE
        case HeaderOk(c, n, rest) =>
          (&& res == OK && compression == c && headerSize == n < 0x800_0000 && pr.Rest() == rest
           && pr.offset == |old(pr.Rest())| - |rest| > 0)
    {
      headerSize := 0;
      ghost var chunk := pr.Rest();
      var b: byte;
      res, b := pr.ChunkGet();
      if res != OK {
        return SHORT_HEADER, 0;
      }
      assert chunk[0] == b && chunk[1..] == pr.Rest();
      compression := b % 16;
      if (b / 16) % 8 != PATCH_TYPE_SEQUENTIAL {
        return BAD_PATCH_TYPE, 0;
      }
      res, headerSize := pr.UnpackHeaderSize();
    }

    method ProcessInit(ghost future: seq<byte>) returns (res: int)
      requires Valid() && state.Init? && pr.offset == 0
      modifies this, pr`offset, pr`reader, pr`size
      ensures res >= 0 ==> ParseHeader(old(pr.Rest())).HeaderOk? && toSize == ParseHeader(old(pr.Rest())).toSize
      ensures to == old(to) && (old(InBounds()) ==> InBounds())
      ensures ParseHeader(old(pr.Rest())).HeaderIncomplete? ==> res == SHORT_HEADER && pr.Valid()
      ensures !ParseHeader(old(pr.Rest())).HeaderIncomplete? ==>
        Outcome(old(Whole(pr.Rest() + future)), old(to), res, future)
      ensures res == OK ==> Valid() && !state.Init? && Progress(old(pr.Rest()), old(pr.reader), old(state))
    {
      hide Exec, PullSize, ParseHeader, Pull, PullN;
      HeaderDecides(pr.Rest(), future, patchSize, from);
      var headerSize;
      res, headerSize := ReadHeader();
      if res != OK {
        return;
      }
      res := pr.Init((patchSize - pr.offset) % SIZE_MOD, compression);
      if res != OK {
        return;
      }
      BeginPatch(headerSize);
      PrependNothing(Whole(pr.Rest() + future));
      assert to[|to|..] == [];
    }

    /** The second half of `process_init`. */
    method BeginPatch(size: nat)
      requires Valid() && state.Init? && !pr.reader.Absent? && pr.size == SIZE_FIRST && size < 0x800_0000
      modifies this`toOffset, this`toSize, this`state
      ensures Valid() && InBounds() && toSize == size && Current() == StartView(size, pr.reader)
    {
      toOffset := 0;
      toSize := size;
      state := if toSize > 0 then DfpatchSize else Done;
    }

    /** `patch_reader_unpack_size`, seen from a state that waits for a number. */
    method UnpackNumber(ghost future: seq<byte>) returns (res: int, value: int)
      requires Valid() && InNumber(Current())
      modifies pr`offset, pr`reader, pr`size
      ensures res != OK ==> Outcome(old(Whole(pr.Rest() + future)), old(to), res, future)
      ensures -0x8000_0000 <= value < 0x8000_0000
      ensures res == OK ==> Valid() && pr.size == SIZE_FIRST && Progress(old(pr.Rest()), old(pr.reader), old(state))
      ensures res == OK ==>
        var before := old(Whole(pr.Rest() + future));
        || before == Undefined
        || match AfterSize(Current(), value, from)
           case NextView(w) => before == Exec(w, pr.Rest() + future, from)
           case NextFails => before == Reject
           case NextUndefined => before == Undefined
    {
      hide Exec, PullSize, Pull;
      ghost var v, input := Current(), pr.Rest() + future;
      res, value := pr.UnpackSize(future);
      NumberMissing(v, input, from);
      if res == MORE_INPUT {
        if PullSize(v.size, v.reader, input) != SizeUnspecified {
          assert pr.Rest() + future == future;
          SameNumber(v, input, pr.size, pr.reader, future, from);
        }
        NumberMissing(Current(), [], from);
      } else if res == OK && PullSize(v.size, v.reader, input) != SizeUnspecified {
        NumberArrived(v, input, from);
      }
    }

    method ProcessDfpatchSize(ghost future: seq<byte>) returns (res: int)
      requires Valid() && state.DfpatchSize?
      modifies this, pr`offset, pr`reader, pr`size
      ensures toSize == old(toSize)
      ensures old(InBounds()) && old(Whole(pr.Rest() + future)) != Undefined ==> InBounds()
      ensures Outcome(old(Whole(pr.Rest() + future)), old(to), res, future)
      ensures res == OK ==> Valid() && Progress(old(pr.Rest()), old(pr.reader), old(state))
    {
      hide Exec, PullSize;
      var size;
      res, size := UnpackNumber(future);
      if res != OK {
        return;
      }
      if size > 0 {
        return NOT_IMPLEMENTED;
      }
      state := DiffSize;
    }

    /** `process_size`, with the 32-bit arithmetic of its bound check. */
    method ProcessSize(nextState: State, ghost future: seq<byte>) returns (res: int)
      requires Valid()
      requires (state.DiffSize? && nextState.DiffData?) || (state.ExtraSize? && nextState.ExtraData?)
      modifies this, pr`offset, pr`reader, pr`size
      ensures toSize == old(toSize)
      ensures old(InBounds()) && old(Whole(pr.Rest() + future)) != Undefined ==> InBounds()
      ensures Outcome(old(Whole(pr.Rest() + future)), old(to), res, future)
      ensures res == OK ==> Valid() && Progress(old(pr.Rest()), old(pr.reader), old(state))
    {
      hide Exec, PullSize;
      var size;
      res, size := UnpackNumber(future);
      if res != OK {
        return;
      }
      var usize := size % SIZE_MOD;
      if (toOffset + usize) % SIZE_MOD > toSize {
        return CORRUPT_PATCH;
      }
      ghost var at := AfterSize(Current(), size, from);
      state := nextState;
      chunkSize := usize;
      assert at.NextUndefined? || at == NextView(Current());
      assert at.NextView? ==> size == usize;
      PrependNothing(Whole(pr.Rest() + future));
      assert to[|to|..] == [];
    }

    method ProcessAdjustment(ghost future: seq<byte>) returns (res: int)
      requires Valid() && state.Adjustment?
      modifies this, pr`offset, pr`reader, pr`size
      ensures toSize == old(toSize)
      ensures old(InBounds()) && old(Whole(pr.Rest() + future)) != Undefined ==> InBounds()
      ensures Outcome(old(Whole(pr.Rest() + future)), old(to), res, future)
      ensures res == OK ==> Valid() && Progress(old(pr.Rest()), old(pr.reader), old(state))
    {
      hide Exec, PullSize;
      var offset;
      res, offset := UnpackNumber(future);
      if res != OK {
        return;
      }
      ghost var at := AfterSize(Current(), offset, from);
      var ok := FromSeek(offset);
      if !ok {
        return IO_FAILED;
      }
      fromOffset := fromOffset + offset;
      state := if toOffset == toSize then Done else DiffSize;
      assert at == NextView(Current());
      PrependNothing(Whole(pr.Rest() + future));
      assert to[|to|..] == [];
    }

    /** `patch_reader_decompress`, seen from a state that has data to come. */
    method ReadBlock(buf: array<byte>, request: nat, ghost future: seq<byte>) returns (res: int, n: nat)
      requires Valid() && InData(Current()) && 1 <= request <= buf.Length && request <= chunkSize
      modifies pr`offset, pr`reader, pr`size, buf
      ensures n <= request
      ensures res != OK ==> Outcome(old(Whole(pr.Rest() + future)), old(to), res, future)
      ensures res == OK ==> Valid() && Progress(old(pr.Rest()), old(pr.reader), old(state))
      ensures res == OK && n == 0 ==> old(Whole(pr.Rest() + future)) == Undefined
      ensures res == OK && n > 0 ==>
        old(Whole(pr.Rest() + future)) == AfterBlock(Current(), buf[..n], pr.reader, pr.Rest() + future, from)
    {
      hide Exec, PullSize, PullN;
      ghost var v, input := Current(), pr.Rest() + future;
      res, n := pr.Decompress(buf, request, future);
      if res != OK {
        DataStops(v, input, from, request, res, pr.reader, future);
        PrependNothing(Whole(future));
        assert to[|to|..] == [];
        assert res == MORE_INPUT ==> pr.Rest() + future == future;
        return;
      }
      if n > 0 {
        DataBlock(v, input, from, n);
        SameAfterBlock(v, pr.reader, buf[..n], pr.Rest() + future, from);
      } else {
        DataUnset(v, input, from);
      }
    }

    /** The source image's part in a block of diff data. */
    method AddFrom(buf: array<byte>, n: nat) returns (ok: bool)
      requires n <= 128 <= buf.Length && srcOffset == fromOffset
      modifies this`srcOffset, this`fromOffset, buf
      ensures ok <==> n > 0 && ReadOk(from, old(fromOffset), n)
      ensures ok ==> fromOffset == srcOffset == old(fromOffset) + n
      ensures ok ==> buf[..n] == AddBytes(old(buf[..n]), from[old(fromOffset)..old(fromOffset) + n])
    {
      var src := new byte[128];
      ok := FromRead(src, n);
      if !ok {
        return;
      }
      fromOffset := fromOffset + n;
      AddSource(buf, src, n);
    }

    /** `process_data`: up to 128 bytes of diff (added to the source image) or extra data. */
    method ProcessData(nextState: State, ghost future: seq<byte>) returns (res: int)
      requires Valid()
      requires (state.DiffData? && nextState.ExtraSize?) || (state.ExtraData? && nextState.Adjustment?)
      modifies this, pr`offset, pr`reader, pr`size
      ensures toSize == old(toSize)
      ensures old(InBounds()) && old(Whole(pr.Rest() + future)) != Undefined ==> InBounds()
      ensures Outcome(old(Whole(pr.Rest() + future)), old(to), res, future)
      ensures res == OK ==> Valid() && Progress(old(pr.Rest()), old(pr.reader), old(state))
    {
      hide Exec, PullSize;
      var n := if chunkSize < 128 then chunkSize else 128;
      if n == 0 {
        DataOver(Current(), pr.Rest() + future, from);
        state := nextState;
        PrependNothing(Whole(pr.Rest() + future));
        assert to[|to|..] == [];
        return OK;
      }
      var buf := new byte[128];
      res, n := ReadBlock(buf, n, future);
      if res != OK {
        return;
      }
      var ok := StoreBlock(buf, n);
      if !ok {
        return IO_FAILED;
      }
    }

    /** The second half of `process_data`: the block is written. */
    method StoreBlock(buf: array<byte>, n: nat) returns (ok: bool)
      requires Valid() && InData(Current()) && n <= chunkSize && n <= 128 <= buf.Length
      modifies this`srcOffset, this`fromOffset, this`toOffset, this`chunkSize, this`to, buf
      ensures ok <==> n > 0 && BlockOk(old(Current()), n, from)
      ensures old(to) <= to && (old(InBounds()) ==> InBounds())
      ensures ok ==> Valid() && Current() == DataDone(old(Current()), n, pr.reader)
      ensures ok ==> to[|old(to)|..] == old(Combine(state, buf[..n], from, fromOffset))
    {
      ghost var v, xs, was := Current(), buf[..n], to;
      if state.DiffData? {
        ok := AddFrom(buf, n);
        if !ok {
          return;
        }
      }
      toOffset := (toOffset + n) % SIZE_MOD;
      chunkSize := chunkSize - n;
      ok := ToWrite(buf, n);
      assert BlockOk(v, n, from) ==> to[|was|..] == buf[..n] == Combine(v.state, xs, from, v.fromOffset);
    }

    /** `apply_patch_process_once`. */
    method Once(ghost future: seq<byte>) returns (res: int)
      requires Valid() && (state.Init? ==> pr.offset == 0)
      modifies this, pr`offset, pr`reader, pr`size
      ensures Valid() && old(to) <= to
      ensures old(InBounds()) && (old(state).Init? || old(Whole(pr.Rest() + future)) != Undefined) ==> InBounds()
      ensures !old(state).Init? ==> toSize == old(toSize)
      ensures old(state).Init? && res >= 0 ==>
        ParseHeader(old(pr.Rest())).HeaderOk? && toSize == ParseHeader(old(pr.Rest())).toSize
      ensures !state.Init? && (res < 0 ==> state.Failed?)
      ensures res == OK ==> Progress(old(pr.Rest()), old(pr.reader), old(state))
      ensures old(state) == Done ==> res == ALREADY_DONE && to == old(to)
                                     && pr.reader == old(pr.reader) && toSize == old(toSize)
      ensures res == ALREADY_DONE ==> old(state) == Done
      ensures HeaderCut(old(state), old(pr.Rest())) ==> res < 0 && to == old(to)
      ensures old(state) != Done && !HeaderCut(old(state), old(pr.Rest())) ==>
        Outcome(old(Whole(pr.Rest() + future)), old(to), res, future)
    {
      hide Exec, PullSize, ExecPatch;
      FailedRejects(Current(), pr.Rest() + future, from);
      match state {
        case Init => res := ProcessInit(future);
        case DfpatchSize => res := ProcessDfpatchSize(future);
        case DiffSize => res := ProcessSize(DiffData, future);
        case DiffData => res := ProcessData(ExtraSize, future);
        case ExtraSize => res := ProcessSize(ExtraData, future);
        case ExtraData => res := ProcessData(Adjustment, future);
        case Adjustment => res := ProcessAdjustment(future);
        case Done => res := ALREADY_DONE;
        case Failed => res := ALREADY_FAILED;
      }
      if res < 0 {
        state := Failed;
      }
    }

    /** What feeding bytes promises: the bytes written so far, then whatever the rest will do. */
    ghost predicate Fed(before: Verdict, was: seq<byte>, res: int, future: seq<byte>)
      reads this, pr
    {
      && Valid() && was <= to
      && (res < 0 ==> before in {Reject, Undefined})
      && (res >= 0 ==> FollowsFrom(before, to[|was|..], Whole(future)))
    }

    /**
      `detools_apply_patch_process`.  Wherever the patch is cut, what was written and what is left
      to do make up the meaning of the patch.
    */
    method Process(chunk: seq<byte>, ghost future: seq<byte>) returns (res: int)
      requires Valid()
      modifies this, pr
      ensures Valid() && res <= 0 && (res < 0 ==> state.Failed?)
      ensures res >= 0 && !old(state).Failed? ==> !state.Failed?
      ensures old(InBounds()) && old(Whole(chunk + future)) != Undefined ==> InBounds()
      ensures chunk == [] ==> res == OK && state == old(state)
      ensures chunk != [] ==> !state.Init?
      ensures !old(state).Init? ==> toSize == old(toSize)
      ensures old(state).Init? && chunk != [] && res == OK ==>
        ParseHeader(chunk).HeaderOk? && toSize == ParseHeader(chunk).toSize
      ensures if chunk != [] && HeaderCut(old(state), chunk) then res < 0 && to == old(to)
              else Fed(old(Whole(chunk + future)), old(to), res, future)
    {
      hide Exec, ExecPatch, ParseHeader, PullSize, Pull, PullN;
      res := OK;
      ghost var before := Whole(chunk + future);
      patchOffset := patchOffset + |chunk|;
      pr.buf := chunk;
      pr.offset := 0;
      assert pr.Rest() == chunk;
      PrependNothing(before);
      assert to[|to|..] == [];
      ghost var cut := HeaderCut(state, chunk);
      var available := pr.ChunkAvailable();
      while available && res >= 0
        invariant Valid() && old(to) <= to
        invariant available <==> pr.Rest() != []
        invariant res in {OK, MORE_INPUT} || (res < 0 && state.Failed?)
        invariant res >= 0 && !old(state).Failed? ==> !state.Failed?
        invariant old(InBounds()) && before != Undefined ==> InBounds()
        invariant res == MORE_INPUT ==> !available
        invariant chunk == [] ==> !available && res == OK && state == old(state)
        invariant state.Init? ==> old(state).Init? && pr.offset == 0 && pr.Rest() == chunk
        invariant chunk != [] && state.Init? ==> available
        invariant !old(state).Init? ==> !state.Init? && toSize == old(toSize)
        invariant old(state).Init? && !state.Init? && res >= 0 ==>
          ParseHeader(chunk).HeaderOk? && toSize == ParseHeader(chunk).toSize
        invariant cut && chunk != [] ==> to == old(to) && (state.Init? || res < 0)
        invariant !cut && res < 0 ==> before in {Reject, Undefined}
        invariant (!cut || chunk == []) && res >= 0 ==> FollowsFrom(before, to[|old(to)|..], Whole(pr.Rest() + future))
        decreases res >= 0, |pr.Rest()|, Held(pr.reader), Rank(state)
      {
        ghost var mid, was := Whole(pr.Rest() + future), to;
        DoneTooEarly(Current(), pr.Rest() + future, from);
        assert !state.Init? && before != Undefined ==> mid != Undefined;
        res := Once(future);
        available := pr.ChunkAvailable();
        if res >= 0 && !cut {
          Follows(before, was[|old(to)|..], mid, to[|was|..], Whole(pr.Rest() + future));
          Grown(old(to), was, to);
        }
      }
      if res >= 0 {
        assert pr.Rest() + future == future;
      }
      if res == MORE_INPUT {
        res := OK;
      }
    }

    /** `apply_patch_common_finalize`. */
    method CommonFinalize(once: int) returns (res: int)
      requires pr.Valid() && once != OK
      ensures res == if once == ALREADY_DONE then (if MayEnd(pr.reader) then toSize else CORRUPT_PATCH)
                     else if once == MORE_INPUT then NOT_ENOUGH_PATCH_DATA else once
    {
      res := if once == MORE_INPUT then NOT_ENOUGH_PATCH_DATA else once;
      if res == ALREADY_DONE {
        res := OK;
      }
      if !pr.reader.Absent? {
        var destroyed := pr.Destroy();
        if res == OK {
          res := destroyed;
        }
      }
      if res == OK {
        res := toSize;
      }
    }

    /** `detools_apply_patch_finalize`. */
    method Finalize() returns (res: int)
      requires Valid()
      modifies this, pr
      ensures old(InBounds()) && old(Whole([])) != Undefined ==> InBounds()
      ensures var before := old(Whole([]));
        || before == Undefined
        || (before == Reject && res < 0)
        || (before.Accept? && to == old(to) + before.out && (!old(state).Init? ==> res == old(toSize)))
    {
      hide PullSize;
      ghost var before := Whole([]);
      pr.buf := [];
      pr.offset := 0;
      PrependNothing(before);
      assert to[|to|..] == [];
      ghost var done := false;
      res := OK;
      while res == OK
        invariant Valid() && pr.buf == [] && pr.offset == 0 && old(to) <= to
        invariant old(InBounds()) && before != Undefined ==> InBounds()
        invariant !old(state).Init? ==> !state.Init? && toSize == old(toSize)
        invariant res in {OK, MORE_INPUT} || res < 0
        invariant res == OK ==> FollowsFrom(before, to[|old(to)|..], Whole([]))
        invariant res == MORE_INPUT || (res < 0 && !done) ==> before in {Reject, Undefined}
        invariant res != OK && done ==>
          (res == ALREADY_DONE && FollowsFrom(before, to[|old(to)|..], if MayEnd(pr.reader) then Accept([]) else Reject))
        invariant res == ALREADY_DONE ==> done
        decreases res == OK, Held(pr.reader), Rank(state)
      {
        ghost var mid, was := Whole([]), to;
        done := state.Done?;
        assert pr.Rest() == [] && pr.Rest() + [] == [];
        res := Once([]);
        assert pr.Rest() == [] && pr.Rest() + [] == [];
        if res >= 0 {
          Follows(before, was[|old(to)|..], mid, to[|was|..], Whole([]));
          Grown(old(to), was, to);
        }
      }
      res := CommonFinalize(res);
      assert old(to) + to[|old(to)|..] == to;
      assert to[|old(to)|..] + [] == to[|old(to)|..];
    }

    /** `detools_apply_patch_dump`. */
    method DumpState() returns (d: Dump)
      requires Valid()
      ensures d == Saved()
    {
      d := Dump(state, patchSize, compression, patchOffset, toOffset, toSize, fromOffset, chunkSize, pr.reader, pr.size);
    }

    ghost function Saved(): Dump
      reads this, pr
    {
      Dump(state, patchSize, compression, patchOffset, toOffset, toSize, fromOffset, chunkSize, pr.reader, pr.size)
    }

    /**
      `detools_apply_patch_restore`, into a patcher that was just initialised.  Its source cursor
      is at 0; because `from_offset` is always the cursor's position, seeking by it is enough.
    */
    method Restore(d: Dump) returns (res: int)
      requires Valid() && state.Init? && srcOffset == 0
      requires Dumped(d, from)
      modifies this, pr
      ensures res == OK && Valid() && to == old(to)
      ensures patchSize == d.patchSize && state == d.state && (!d.state.Init? ==> Saved() == d)
      ensures forall input :: Whole(input) == WholeOf(d, input, from)
    {
      state := d.state;
      patchSize := d.patchSize;
      if state.Init? {
        return OK;
      }
      compression := d.compression;
      patchOffset := d.patchOffset;
      toOffset := d.toOffset;
      toSize := d.toSize;
      fromOffset := d.fromOffset;
      chunkSize := d.chunkSize;
      var ok := FromSeek(fromOffset);
      if !ok {
        return IO_FAILED;
      }
      pr.reader := d.reader;
      pr.size := d.size;
      res := OK;
      assert Current() == DumpView(d);
    }
  }

  /** What `DumpState` makes of a patcher that has not failed, over a partition that is not empty. */
  ghost predicate Dumped(d: Dump, from: seq<byte>) {
    && SizeOk(d.size) && ReaderOk(d.reader) && !d.state.Failed?
    && (!d.state.Init? ==> !d.reader.Absent?)
    && 0 <= d.fromOffset < |from|
  }

  function DumpView(d: Dump): View {
    View(d.state, d.toOffset, d.toSize, d.fromOffset, d.chunkSize, d.size, d.reader)
  }

  ghost function WholeOf(d: Dump, input: seq<byte>, from: seq<byte>): Verdict
    requires SizeOk(d.size) && ReaderOk(d.reader)
  {
    if d.state.Init? then ExecPatch(input, d.patchSize, from) else Exec(DumpView(d), input, from)
  }

  /**
    Stop at a chunk boundary, dump, restore into a fresh patcher whose cursor is at 0, and go on:
    the rest of the patch does exactly what it would have done.
  */
  method StopAndGoOn(p: ApplyPatch) returns (q: ApplyPatch)
    requires p.Valid() && !p.state.Failed? && p.from != []
    ensures fresh(q) && fresh(q.pr) && q.Valid() && q.to == [] && q.from == p.from
    ensures q.patchSize == p.patchSize && q.state == p.state && (!p.state.Init? ==> q.Saved() == p.Saved())
    ensures forall input :: q.Whole(input) == p.Whole(input)
  {
    var d := p.DumpState();
    q := new ApplyPatch(p.from, 0);
    var _ := q.Restore(d);
    assert DumpView(d) == p.Current();
  }

  // ---------------------------------------------------------------- whole patches

  function Concat(chunks: seq<seq<byte>>): seq<byte> {
    if chunks == [] then [] else chunks[0] + Concat(chunks[1..])
  }

  /** `res` and `to` are what the meaning of the patch calls for. */
  ghost predicate Honours(verdict: Verdict, res: int, to: seq<byte>) {
    || verdict == Undefined
    || (verdict == Reject && res < 0)
    || (verdict == Accept(to) && res == |to|)
  }

  /** An accepted patch writes as many bytes as its header announces. */
  lemma AcceptedPatchSize(input: seq<byte>, patchSize: nat, from: seq<byte>)
    requires ExecPatch(input, patchSize, from).Accept?
    ensures ParseHeader(input).HeaderOk? && |ExecPatch(input, patchSize, from).out| == ParseHeader(input).toSize
  {
    HeaderSizeBound(input[1..]);
    var h := ParseHeader(input);
    var r := InitialReader((patchSize - (|input| - |h.rest|)) % SIZE_MOD, h.compression);
    AcceptedSize(StartView(h.toSize, r), h.rest, from);
  }

  lemma HeaderOfFirstChunk(chunk: seq<byte>, future: seq<byte>)
    ensures ParseHeader(chunk).HeaderOk? ==>
      ParseHeader(chunk + future).HeaderOk? && ParseHeader(chunk + future).toSize == ParseHeader(chunk).toSize
  {
    HeaderExtends(chunk, future);
  }

  /**
    A patcher that has `rest` before it and has written `done`, in all, of a patch that means
    `verdict`; or that has refused the patch.
  */
  ghost predicate OnTrack(p: ApplyPatch, verdict: Verdict, done: seq<byte>, res: int, rest: seq<byte>)
    reads p, p.pr
  {
    && p.Valid() && res <= 0
    && (res < 0 ==> verdict in {Reject, Undefined})
    && (res >= 0 ==> !p.state.Failed? && FollowsFrom(verdict, done, p.Whole(rest)))
    && (res >= 0 && verdict.Accept? && !p.state.Init? ==> p.toSize == |verdict.out|)
  }

  /** Nothing has been fed, and the first of the chunks holds the header. */
  ghost predicate AtHeader(p: ApplyPatch, verdict: Verdict, done: seq<byte>, chunks: seq<seq<byte>>, rest: seq<byte>)
    requires p.Valid()
    reads p, p.pr
  {
    && done == [] && verdict == ExecPatch(rest, p.patchSize, p.from)
    && (chunks != [] ==> !ParseHeader(chunks[0]).HeaderIncomplete?)
  }

  /** Feed some chunks; `before` was written by earlier patchers, and `future` comes later. */
  method Feed(p: ApplyPatch, chunks: seq<seq<byte>>, ghost verdict: Verdict, ghost before: seq<byte>, ghost future: seq<byte>)
    returns (res: int)
    requires OnTrack(p, verdict, before + p.to, OK, Concat(chunks) + future)
    requires p.state.Init? ==> AtHeader(p, verdict, before + p.to, chunks, Concat(chunks) + future)
    modifies p, p.pr
    ensures OnTrack(p, verdict, before + p.to, res, future)
    ensures p.state.Init? <==> old(p.state.Init?) && chunks == []
    ensures chunks == [] ==> res == OK && p.to == old(p.to) && p.patchSize == old(p.patchSize)
  {
    hide Exec, PullSize, ParseHeader, ExecPatch;
    var i := 0;
    res := OK;
    while i < |chunks| && res == OK
      invariant 0 <= i <= |chunks|
      invariant OnTrack(p, verdict, before + p.to, res, Concat(chunks[i..]) + future)
      invariant p.state.Init? <==> old(p.state.Init?) && i == 0
      invariant i == 0 ==> res == OK && p.to == old(p.to) && p.patchSize == old(p.patchSize)
    {
      ghost var later, was := Concat(chunks[i + 1..]) + future, p.to;
      ghost var mid := p.Whole(Concat(chunks[i..]) + future);
      ConcatFrom(chunks, i, future);
      NoHeader();
      if p.state.Init? && verdict.Accept? {
        HeaderOfFirstChunk(chunks[0], later);
        AcceptedPatchSize(chunks[0] + later, p.patchSize, p.from);
      }
      res := p.Process(chunks[i], later);
      if res >= 0 {
        Follows(verdict, before + was, mid, p.to[|was|..], p.Whole(later));
        assert before + was + p.to[|was|..] == before + p.to;
      }
      i := i + 1;
    }
    if res == OK {
      assert chunks[i..] == [] && Concat(chunks[i..]) + future == future;
    }
  }

  lemma NoHeader()
    ensures ParseHeader([]).HeaderIncomplete?
  {
  }

  lemma ConcatFrom(chunks: seq<seq<byte>>, i: nat, future: seq<byte>)
    requires i < |chunks|
    ensures Concat(chunks[i..]) + future == chunks[i] + (Concat(chunks[i + 1..]) + future)
    ensures i == 0 ==> chunks[i..] == chunks
  {
    assert chunks[i..][1..] == chunks[i + 1..];
  }

  /** No more input: what was written in all and the result are what the patch calls for. */
  method Finish(p: ApplyPatch, fed: int, ghost verdict: Verdict, ghost before: seq<byte>) returns (res: int)
    requires OnTrack(p, verdict, before + p.to, fed, []) && !p.state.Init?
    modifies p, p.pr
    ensures Honours(verdict, res, before + p.to)
  {
    hide Exec, PullSize, ExecPatch;
    ghost var was, rest := p.to, p.Whole([]);
    res := p.Finalize();
    if fed < 0 {
      res := fed;
    }
    assert rest.Accept? ==> before + (was + rest.out) == before + was + rest.out;
  }

  /**
    A patch given in any chunks, the first of which holds the header: the bytes written and the
    result depend only on the concatenation of the chunks.
  */
  method ApplyInChunks(p: ApplyPatch, chunks: seq<seq<byte>>) returns (res: int)
    requires p.Valid() && p.state.Init? && p.to == []
    requires chunks != [] && !ParseHeader(chunks[0]).HeaderIncomplete?
    modifies p, p.pr
    ensures Honours(ExecPatch(Concat(chunks), old(p.patchSize), p.from), res, p.to)
  {
    hide Exec, PullSize, ExecPatch;
    ghost var verdict := p.Whole(Concat(chunks));
    PrependNothing(verdict);
    assert Concat(chunks) + [] == Concat(chunks) && [] + p.to == [];
    res := Feed(p, chunks, verdict, [], []);
    res := Finish(p, res, verdict, []);
    assert [] + p.to == p.to;
  }

  function Flatten(sessions: seq<seq<seq<byte>>>): seq<seq<byte>> {
    if sessions == [] then [] else sessions[0] + Flatten(sessions[1..])
  }

  lemma {:induction false} ConcatAppend(a: seq<seq<byte>>, b: seq<seq<byte>>)
    ensures Concat(a + b) == Concat(a) + Concat(b)
  {
    if a == [] {
      assert a + b == b;
    } else {
      ConcatAppend(a[1..], b);
      assert (a + b)[1..] == a[1..] + b && (a + b)[0] == a[0];
      assert a[0] + (Concat(a[1..]) + Concat(b)) == (a[0] + Concat(a[1..])) + Concat(b);
    }
  }

  lemma FlattenFrom(sessions: seq<seq<seq<byte>>>, i: nat)
    requires i < |sessions|
    ensures Flatten(sessions[i..]) == sessions[i] + Flatten(sessions[i + 1..])
    ensures Concat(Flatten(sessions[i..])) == Concat(sessions[i]) + Concat(Flatten(sessions[i + 1..]))
  {
    assert sessions[i..][1..] == sessions[i + 1..];
    ConcatAppend(sessions[i], Flatten(sessions[i + 1..]));
  }

  /**
    A patch given in chunks, with a stop after each session: the state is dumped, and a fresh patcher
    over a cursor at 0 is restored from it.  What all of them write, one after the other, and the
    result are what the patch calls for, as if there had been no stop.
  */
  method ApplyInSessions(from: seq<byte>, patchSize: nat, sessions: seq<seq<seq<byte>>>)
    returns (res: int, to: seq<byte>)
    requires from != []
    requires Flatten(sessions) != [] && !ParseHeader(Flatten(sessions)[0]).HeaderIncomplete?
    ensures Honours(ExecPatch(Concat(Flatten(sessions)), patchSize, from), res, to)
  {
    hide Exec, PullSize, ExecPatch, ParseHeader;
    var p := new ApplyPatch(from, patchSize);
    ghost var verdict := p.Whole(Concat(Flatten(sessions)));
    PrependNothing(verdict);
    assert sessions[0..] == sessions;
    to := [];
    res := OK;
    var i := 0;
    while i < |sessions| && res == OK
      invariant 0 <= i <= |sessions| && fresh(p) && fresh(p.pr) && p.from == from
      invariant res == OK ==> p.to == []
      invariant OnTrack(p, verdict, to, res, Concat(Flatten(sessions[i..])))
      invariant p.state.Init? ==> res == OK
      invariant p.state.Init? ==> to == [] && p.patchSize == patchSize && Flatten(sessions[i..]) == Flatten(sessions)
    {
      FlattenFrom(sessions, i);
      assert to + p.to == to;
      res := Feed(p, sessions[i], verdict, to, Concat(Flatten(sessions[i + 1..])));
      to := to + p.to;
      if res == OK {
        p := StopAndGoOn(p);
      }
      i := i + 1;
    }
    if res == OK {
      assert sessions[i..] == [];
      assert to + p.to == to;
      res := Finish(p, res, verdict, to);
      to := to + p.to;
    }
  }

  /** `callbacks_process`: the patch is read and processed 512 bytes at a time. */
  method CallbacksProcess(p: ApplyPatch, patch: seq<byte>) returns (res: int)
    requires p.Valid() && p.state.Init? && p.to == []
    modifies p, p.pr
    ensures Honours(ExecPatch(patch, old(p.patchSize), p.from), res, p.to)
  {
    hide Exec, PullSize;
    ghost var verdict := p.Whole(patch);
    PrependNothing(verdict);
    var patchOffset := 0;
    res := OK;
    while patchOffset < |patch| && res == OK
      invariant 0 <= patchOffset <= |patch| && p.Valid() && res <= 0
      invariant p.state.Init? <==> patchOffset == 0
      invariant patchOffset > 0 && res == OK && verdict.Accept? ==> p.toSize == |verdict.out|
      invariant res < 0 ==> verdict in {Reject, Undefined}
      invariant res >= 0 ==> FollowsFrom(verdict, p.to, p.Whole(patch[patchOffset..]))
    {
      var n := if |patch| - patchOffset < 512 then |patch| - patchOffset else 512;
      var chunk := patch[patchOffset..patchOffset + n];
      ghost var future, mid, was := patch[patchOffset + n..], p.Whole(patch[patchOffset..]), p.to;
      assert chunk + future == patch[patchOffset..];
      ShortHeaderRejected(chunk, future, p.patchSize, p.from);
      res := p.Process(chunk, future);
      if patchOffset == 0 && verdict.Accept? {
        HeaderOfFirstChunk(chunk, future);
        AcceptedPatchSize(patch, old(p.patchSize), p.from);
        assert patch[0..] == patch;
      }
      if res >= 0 {
        Follows(verdict, was, mid, p.to[|was|..], p.Whole(future));
        assert was + p.to[|was|..] == p.to;
      }
      patchOffset := patchOffset + n;
    }
    if res == OK {
      res := p.Finalize();
    } else {
      var _ := p.Finalize();
    }
  }

  /** 512 bytes are enough for any header, so one that is cut there is cut for good. */
  lemma ShortHeaderRejected(chunk: seq<byte>, future: seq<byte>, patchSize: nat, from: seq<byte>)
    requires |chunk| < 512 ==> future == []
    ensures ParseHeader(chunk).HeaderIncomplete? ==> ExecPatch(chunk + future, patchSize, from) == Reject
  {
    if |chunk| >= 6 {
      HeaderSizeShort(chunk[1..]);
    } else {
      assert chunk + future == chunk;
    }
  }


  /** The header must be in the first chunk; the source gives up on a header that is cut short. */
  predicate HeaderCut(state: State, chunk: seq<byte>) {
    state.Init? && ParseHeader(chunk).HeaderIncomplete?
  }
}
