/**
  What an in-place patch means.

  `Run` is the reference: it reads the old image only, never the memory, and gives the new image.
  It accepts the well-formed patches: each edit stays in its segment, and segment j reads the moved
  old image only at addresses from (j + 1) * segment size up.
*/
module InPlaceMeaning {
  import opened Bytes
  import opened Varint
  import opened PatchReading
  import opened InPlacePlan
  import S = Sequential

  const PATCH_TYPE_IN_PLACE := 1

  /** The fields of `detools_apply_patch_in_place_t` that decide what the rest of a patch does. */
  datatype View = View(
    state: S.State, toPos: nat, toSize: nat, chunkSize: nat,
    index: nat, from: int, toOffset: nat, segSize: nat, segPos: nat,  // the `segment` record
    size: SizeState, reader: Reader)

  predicate ViewOk(v: View) {
    SizeOk(v.size) && ReaderOk(v.reader)
  }

  predicate InData(v: View) {
    v.state.DiffData? || v.state.ExtraData?
  }

  predicate InNumber(v: View) {
    v.state.DfpatchSize? || v.state.DiffSize? || v.state.ExtraSize? || v.state.Adjustment?
  }

  /** The current segment may read these `n` bytes: moved old image that no step has overwritten. */
  predicate ReadLegal(v: View, g: Geometry, n: nat) {
    v.index * g.seg <= v.from && g.shift <= v.from && v.from + n <= g.shift + g.count * g.seg
  }

  function Run(v: View, input: seq<byte>, g: Geometry): S.Verdict
    requires ViewOk(v) && GeometryOk(g)
    decreases |input|, Held(v.reader), S.Rank(v.state)
  {
    match v.state
    case Init => S.Reject
    case Failed => S.Reject
    case Done => if input == [] && MayEnd(v.reader) then S.Accept([]) else S.Reject
    case DiffData =>
      if v.chunkSize == 0 then Run(v.(state := S.ExtraSize), input, g) else RunByte(v, input, g)
    case ExtraData =>
      if v.chunkSize == 0 then Run(v.(state := S.Adjustment), input, g) else RunByte(v, input, g)
    case _ =>
      match PullSize(v.size, v.reader, input)
      case SizeFails => S.Reject
      case SizeUnspecified => S.Undefined
      case GotSize(n, r, rest) =>
        match AfterSize(v.(size := SIZE_FIRST, reader := r), n, g)
        case NextView(next) => Run(next, rest, g)
        case NextFails => S.Reject
        case NextUndefined => S.Undefined
  }

  function RunByte(v: View, input: seq<byte>, g: Geometry): S.Verdict
    requires ViewOk(v) && GeometryOk(g) && InData(v) && v.chunkSize > 0
    decreases |input|, Held(v.reader), 0
  {
    match Pull(v.reader, input)
    case Got(b, r, rest) =>
      if v.state.ExtraData? || ReadLegal(v, g, 1) then
        S.Prepend(Combine(v, [b], g), Run(DataDone(v, 1, r), rest, g))
      else
        S.Undefined
    case Unspecified => S.Undefined
    case _ => S.Reject
  }

  /** What a block of decompressed bytes becomes in the new image. */
  function Combine(v: View, xs: seq<byte>, g: Geometry): (ys: seq<byte>)
    requires GeometryOk(g) && (v.state.DiffData? ==> ReadLegal(v, g, |xs|))
    ensures |ys| == |xs|
  {
    if v.state.DiffData? then S.AddBytes(xs, g.image[v.from - g.shift..v.from - g.shift + |xs|]) else xs
  }

  function DataDone(v: View, n: nat, r: Reader): View
    requires n <= v.chunkSize
  {
    v.(toPos := v.toPos + n, segPos := v.segPos + n, chunkSize := v.chunkSize - n, reader := r,
       from := if v.state.DiffData? then v.from + n else v.from)
  }

  datatype Next = NextView(view: View) | NextFails | NextUndefined

  function AfterSize(v: View, n: int, g: Geometry): Next {
    match v.state
    case DfpatchSize => if n > 0 then NextFails else AfterDfpatch(v, g)
    case DiffSize => AfterLength(v, n, S.DiffData)
    case ExtraSize => AfterLength(v, n, S.ExtraData)
    case Adjustment =>
      NextView(
        if v.toPos == v.toSize then v.(state := S.Done)
        else if v.segPos == v.segSize then v.(state := S.DfpatchSize)
        else v.(from := v.from + n, state := S.DiffSize))
    case _ => NextFails
  }

  /** A new segment. */
  function AfterDfpatch(v: View, g: Geometry): Next {
    var offset := v.index * g.seg;
    if offset > v.toSize then NextUndefined
    else NextView(v.(
      state := S.DiffSize,
      from := if g.seg * (v.index + 1) > g.shift then g.seg * (v.index + 1) else g.shift,
      toOffset := offset,
      segSize := if g.seg < v.toSize - offset then g.seg else v.toSize - offset,
      segPos := 0,
      index := v.index + 1))
  }

  function AfterLength(v: View, n: int, next: S.State): Next {
    if n < 0 then NextUndefined
    else if v.toPos + n > v.toSize then NextFails
    else if v.segPos + n > v.segSize then NextUndefined
    else NextView(v.(state := next, chunkSize := n))
  }

  // ---------------------------------------------------------------- the header

  datatype Sizes = SizesShort | SizesOverflow | SizesGot(values: seq<nat>, rest: seq<byte>)

  function ParseSizes(n: nat, s: seq<byte>): (p: Sizes)
    ensures p.SizesGot? ==> |p.values| == n
  {
    if n == 0 then SizesGot([], s)
    else match ParseHeaderSize(s)
      case HeaderShort => SizesShort
      case HeaderOverflow => SizesOverflow
      case HeaderGot(v, rest) =>
        match ParseSizes(n - 1, rest)
        case SizesGot(vs, rest') => SizesGot([v] + vs, rest')
        case p => p
  }

  lemma SizesStep(n: nat, s: seq<byte>)
    requires n > 0
    ensures ParseSizes(n, s) ==
      match ParseHeaderSize(s)
      case HeaderShort => SizesShort
      case HeaderOverflow => SizesOverflow
      case HeaderGot(v, rest) => ConsSize(v, ParseSizes(n - 1, rest))
  {
  }

  function ConsSize(v: nat, p: Sizes): Sizes {
    if p.SizesGot? then SizesGot([v] + p.values, p.rest) else p
  }

  lemma {:induction false} SizesExtend(n: nat, s: seq<byte>, t: seq<byte>)
    ensures match ParseSizes(n, s)
      case SizesShort => true
      case SizesOverflow => ParseSizes(n, s + t) == SizesOverflow
      case SizesGot(vs, rest) => |rest| <= |s| && ParseSizes(n, s + t) == SizesGot(vs, rest + t)
  {
    if n > 0 {
      HeaderSizeExtends(s, t);
      match ParseHeaderSize(s) {
        case HeaderGot(v, rest) => SizesExtend(n - 1, rest, t);
        case _ =>
      }
    }
  }

  datatype Header =
    | HeaderIncomplete
    | HeaderBad
    | HeaderOk(compression: nat, memorySize: nat, seg: nat, shift: nat, fromSize: nat, toSize: nat, rest: seq<byte>)

  function ParseHeader(input: seq<byte>): Header {
    if input == [] then HeaderIncomplete
    else if (input[0] / 16) % 8 != PATCH_TYPE_IN_PLACE then HeaderBad
    else match ParseSizes(5, input[1..])
      case SizesShort => HeaderIncomplete
      case SizesOverflow => HeaderBad
      case SizesGot(vs, rest) => HeaderOk(input[0] % 16, vs[0], vs[1], vs[2], vs[3], vs[4], rest)
  }

  lemma HeaderExtends(s: seq<byte>, t: seq<byte>)
    ensures match ParseHeader(s)
      case HeaderIncomplete => true
      case HeaderBad => ParseHeader(s + t) == HeaderBad
      case HeaderOk(c, m, e, h, f, n, rest) =>
        |rest| < |s| && ParseHeader(s + t) == HeaderOk(c, m, e, h, f, n, rest + t)
  {
    if s != [] {
      SizesExtend(5, s[1..], t);
      assert (s + t)[1..] == s[1..] + t;
    }
  }

  function Min(a: int, b: int): (m: int)
    ensures m <= a && m <= b && (m == a || m == b)
  {
    if a < b then a else b
  }

  /** How many segments `in_place_shift_memory` moves. */
  function MovedSegments(memorySize: nat, seg: nat, shift: nat, fromSize: nat): int
    requires seg > 0
  {
    (Min(fromSize, memorySize - shift) + seg - 1) / seg
  }

  /** The old image, as far as the memory has room for it above `shift`. */
  function OldSize(memorySize: nat, shift: nat, fromSize: nat): (n: nat)
    requires shift <= memorySize
    ensures n <= fromSize && shift + n <= memorySize && (n == fromSize || shift + n == memorySize)
  {
    if fromSize < memorySize - shift then fromSize else memorySize - shift
  }

  /** `count` segments hold `n` bytes, and fewer do not. */
  predicate Covers(count: int, seg: nat, n: nat) {
    count >= 0 && count * seg >= n && (count > 0 ==> (count - 1) * seg < n)
  }

  /** The segments that are moved hold all of the old image. */
  lemma MoveCovers(memorySize: nat, seg: nat, shift: nat, fromSize: nat)
    requires seg > 0 && shift <= memorySize
    ensures Covers(MovedSegments(memorySize, seg, shift, fromSize), seg, OldSize(memorySize, shift, fromSize))
  {
    var n := OldSize(memorySize, shift, fromSize) + seg - 1;
    assert n == (n / seg) * seg + n % seg;
    assert n / seg > 0 ==> (n / seg - 1) * seg == (n / seg) * seg - seg;
  }

  lemma CoversUnique(a: int, b: int, seg: nat, n: nat)
    requires seg > 0 && Covers(a, seg, n) && Covers(b, seg, n)
    ensures a == b
  {
    TimesGrows(a, b - 1, seg);
    TimesGrows(b, a - 1, seg);
  }

  lemma TimesGrows(a: int, b: int, seg: nat)
    ensures a <= b ==> a * seg <= b * seg
  {
  }

  function StartView(toSize: nat, r: Reader): View {
    View(if toSize > 0 then S.DfpatchSize else S.Done, 0, toSize, 0, 0, 0, 0, 0, 0, SIZE_FIRST, r)
  }

  /**
    `input` is a well-formed patch, and `p` is the update it asks for: the sizes fit the memory,
    the image is not moved by less than a segment, and the edits produce the target.
  */
  ghost predicate PatchFor(p: Plan, input: seq<byte>, patchSize: nat) {
    && PlanOk(p)
    && var h := ParseHeader(input);
    && h.HeaderOk?
    && h.seg == p.g.seg && h.shift == p.g.shift && h.toSize == |p.target|
    && (h.toSize > 0 ==> h.shift <= h.memorySize && MovedSegments(h.memorySize, h.seg, h.shift, h.fromSize) == p.g.count)
    && var r := InitialReader((patchSize - (|input| - |h.rest|)) % S.SIZE_MOD, h.compression);
    && !r.Absent?
    && Run(StartView(h.toSize, r), h.rest, p.g) == S.Accept(p.target)
  }

  /** The chunk that holds the header says what the patch asks for. */
  lemma PatchStarts(p: Plan, chunk: seq<byte>, future: seq<byte>, patchSize: nat)
    requires PatchFor(p, chunk + future, patchSize) && !ParseHeader(chunk).HeaderIncomplete?
    ensures var h := ParseHeader(chunk);
      && h.HeaderOk?
      && h.seg == p.g.seg && h.shift == p.g.shift && h.toSize == |p.target|
      && (h.toSize > 0 ==> h.shift <= h.memorySize && MovedSegments(h.memorySize, h.seg, h.shift, h.fromSize) == p.g.count)
      && var r := InitialReader((patchSize - (|chunk| - |h.rest|)) % S.SIZE_MOD, h.compression);
      && !r.Absent?
      && Run(StartView(h.toSize, r), h.rest + future, p.g) == S.Accept(p.target)
  {
    hide Run;
    HeaderExtends(chunk, future);
  }

  // ---------------------------------------------------------------- blocks and numbers

  lemma AcceptedByte(v: View, input: seq<byte>, g: Geometry)
    requires ViewOk(v) && GeometryOk(g) && InData(v) && v.chunkSize > 0 && Run(v, input, g).Accept?
    ensures var p := Pull(v.reader, input);
      && p.Got? && (v.state.DiffData? ==> ReadLegal(v, g, 1))
      && Run(v, input, g) == S.Prepend(Combine(v, [p.value], g), Run(DataDone(v, 1, p.reader), p.rest, g))
  {
  }

  lemma CombineSplit(v: View, x: byte, xs: seq<byte>, r: Reader, g: Geometry)
    requires GeometryOk(g) && InData(v) && 1 + |xs| <= v.chunkSize
    requires v.state.DiffData? ==> ReadLegal(v, g, 1) && ReadLegal(DataDone(v, 1, r), g, |xs|)
    ensures v.state.DiffData? ==> ReadLegal(v, g, 1 + |xs|)
    ensures Combine(v, [x] + xs, g) == Combine(v, [x], g) + Combine(DataDone(v, 1, r), xs, g)
  {
  }

  /** An accepted patch reads legally, and a block at once is the same as byte by byte. */
  lemma {:induction false} AcceptedBlock(v: View, input: seq<byte>, g: Geometry, n: nat)
    requires ViewOk(v) && GeometryOk(g) && InData(v) && 1 <= n <= v.chunkSize && Run(v, input, g).Accept?
    ensures var p := PullN(v.reader, input, n);
      && p.GotN? && (v.state.DiffData? ==> ReadLegal(v, g, n))
      && Run(v, input, g) == S.Prepend(Combine(v, p.values, g), Run(DataDone(v, n, p.reader), p.rest, g))
    decreases n
  {
    hide Run, Pull;
    AcceptedByte(v, input, g);
    var first := Pull(v.reader, input);
    var next := DataDone(v, 1, first.reader);
    if n == 1 {
      assert PullN(first.reader, first.rest, 0) == GotN([], first.reader, first.rest);
      assert PullN(v.reader, input, 1).values == [first.value];
    } else {
      AcceptedBlock(next, first.rest, g, n - 1);
      var tail := PullN(first.reader, first.rest, n - 1);
      CombineSplit(v, first.value, tail.values, first.reader, g);
      assert DataDone(next, n - 1, tail.reader) == DataDone(v, n, tail.reader);
      S.PrependPrepend(Combine(v, [first.value], g), Combine(next, tail.values, g),
        Run(DataDone(v, n, tail.reader), tail.rest, g));
    }
  }

  lemma AcceptedNumber(v: View, input: seq<byte>, g: Geometry)
    requires ViewOk(v) && GeometryOk(g) && InNumber(v) && Run(v, input, g).Accept?
    ensures var p := PullSize(v.size, v.reader, input);
      && p.GotSize?
      && var next := AfterSize(v.(size := SIZE_FIRST, reader := p.reader), p.value, g);
      && next.NextView? && Run(v, input, g) == Run(next.view, p.rest, g)
  {
  }

  lemma SameNumber(v: View, input: seq<byte>, size: SizeState, reader: Reader, input': seq<byte>, g: Geometry)
    requires ViewOk(v) && GeometryOk(g) && InNumber(v) && SizeOk(size) && ReaderOk(reader)
    requires PullSize(v.size, v.reader, input) == PullSize(size, reader, input')
    ensures Run(v, input, g) == Run(v.(size := size, reader := reader), input', g)
  {
  }

  lemma SameData(v: View, input: seq<byte>, reader: Reader, input': seq<byte>, g: Geometry)
    requires ViewOk(v) && GeometryOk(g) && InData(v) && v.chunkSize > 0 && ReaderOk(reader)
    requires Pull(v.reader, input) == Pull(reader, input')
    ensures Run(v, input, g) == Run(v.(reader := reader), input', g)
  {
    hide Pull, PullSize;
    match Pull(v.reader, input) {
      case Got(b, r, rest) => assert DataDone(v, 1, r) == DataDone(v.(reader := reader), 1, r);
      case _ =>
    }
  }

  lemma DataOver(v: View, input: seq<byte>, g: Geometry)
    requires ViewOk(v) && GeometryOk(g) && InData(v) && v.chunkSize == 0
    ensures Run(v, input, g) == Run(v.(state := if v.state.DiffData? then S.ExtraSize else S.Adjustment), input, g)
  {
  }

  lemma DoneOrFailed(v: View, input: seq<byte>, g: Geometry)
    requires ViewOk(v) && GeometryOk(g)
    ensures (v.state.Done? || v.state.Failed? || v.state.Init?) && Run(v, input, g).Accept? ==>
      v.state.Done? && input == [] && MayEnd(v.reader)
  {
  }
}
