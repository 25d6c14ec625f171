/**
  The in-place patch format, written down as its encoder.

  A script holds one list of edits a segment.  Its meaning is the sequential one, except that each
  segment starts with its own cursor in the moved old image.  Encoding a script gives a patch that
  `PatchFor` holds of, so everything proved of the patcher applies to it.
*/
module InPlaceScript {
  import opened Bytes
  import opened Varint
  import opened PatchReading
  import opened InPlacePlan
  import opened InPlaceMeaning
  import InPlace
  import S = Sequential
  import opened Script

  /** Where segment `j` starts to read. */
  function FirstRead(g: Geometry, j: nat): (a: nat)
    ensures a >= g.shift && a >= g.seg * (j + 1) && (a == g.shift || a == g.seg * (j + 1))
  {
    if g.seg * (j + 1) > g.shift then g.seg * (j + 1) else g.shift
  }

  /** The edits of segment `j` read only moved old image that is still there. */
  predicate SegmentRunnable(edits: seq<Edit>, g: Geometry, j: nat, addr: int) {
    edits != [] ==>
      var e := edits[0];
      && (e.diff != [] ==> (j + 1) * g.seg <= addr && g.shift <= addr && addr + |e.diff| <= g.shift + g.count * g.seg)
      && -0x800_0000 < e.adjust < 0x800_0000
      && SegmentRunnable(edits[1..], g, j, addr + |e.diff| + e.adjust)
  }

  /** The old image from address `addr` of the moved image on. */
  function OldBytes(g: Geometry, addr: int, n: nat): (s: seq<byte>)
    requires GeometryOk(g) && (n > 0 ==> g.shift <= addr && addr + n <= g.shift + g.count * g.seg)
    ensures |s| == n
  {
    if n == 0 then [] else g.image[addr - g.shift..addr - g.shift + n]
  }

  function SegmentMeaning(edits: seq<Edit>, g: Geometry, j: nat, addr: int): seq<byte>
    requires GeometryOk(g) && SegmentRunnable(edits, g, j, addr)
  {
    if edits == [] then []
    else
      var e := edits[0];
      S.AddBytes(e.diff, OldBytes(g, addr, |e.diff|)) + e.extra
        + SegmentMeaning(edits[1..], g, j, addr + |e.diff| + e.adjust)
  }

  /** The segments from `j` on fill the new image, each one exactly. */
  predicate SegmentsOk(segments: seq<seq<Edit>>, g: Geometry, j: nat, toSize: nat) {
    if segments == [] then j * g.seg >= toSize
    else
      && j * g.seg < toSize
      && Size(segments[0]) == Min(g.seg, toSize - j * g.seg)
      && EndsWithData(segments[0])
      && SegmentRunnable(segments[0], g, j, FirstRead(g, j))
      && SegmentsOk(segments[1..], g, j + 1, toSize)
  }

  function ImageMeaning(segments: seq<seq<Edit>>, g: Geometry, j: nat, toSize: nat): seq<byte>
    requires GeometryOk(g) && SegmentsOk(segments, g, j, toSize)
  {
    if segments == [] then []
    else SegmentMeaning(segments[0], g, j, FirstRead(g, j)) + ImageMeaning(segments[1..], g, j + 1, toSize)
  }

  function EncodeSegments(segments: seq<seq<Edit>>): seq<byte> {
    if segments == [] then []
    else (EncodeSize(0) + EncodeEdits(segments[0])) + EncodeSegments(segments[1..])
  }

  // ---------------------------------------------------------------- one segment

  lemma ReadsNumber(v: View, input: seq<byte>, x: int, r: Reader, mid: seq<byte>, g: Geometry)
    requires ViewOk(v) && GeometryOk(g) && InNumber(v) && v.size == SIZE_FIRST && -0x800_0000 < x < 0x800_0000
    requires Delivers(v.reader, input, EncodeSize(x), r, mid)
    ensures ReaderOk(r)
    ensures var next := AfterSize(v.(reader := r), x, g);
      next.NextView? ==> Run(v, input, g) == Run(next.view, mid, g)
  {
    hide PullSize, Pull;
    SizeReadBack(x, v.reader, input, r, mid);
  }

  function DataEnd(v: View, r: Reader): View {
    DataDone(v, v.chunkSize, r).(state := if v.state.DiffData? then S.ExtraSize else S.Adjustment)
  }

  lemma {:induction false} BlockRun(v: View, input: seq<byte>, g: Geometry, n: nat)
    requires ViewOk(v) && GeometryOk(g) && InData(v) && 1 <= n <= v.chunkSize
    requires PullN(v.reader, input, n).GotN? && (v.state.DiffData? ==> ReadLegal(v, g, n))
    ensures var p := PullN(v.reader, input, n);
      Run(v, input, g) == S.Prepend(Combine(v, p.values, g), Run(DataDone(v, n, p.reader), p.rest, g))
    decreases n
  {
    hide Run, Pull;
    var first := Pull(v.reader, input);
    var next := DataDone(v, 1, first.reader);
    ByteRun(v, input, g);
    if n == 1 {
      assert PullN(first.reader, first.rest, 0) == GotN([], first.reader, first.rest);
      assert PullN(v.reader, input, 1).values == [first.value];
    } else {
      BlockRun(next, first.rest, g, n - 1);
      var tail := PullN(first.reader, first.rest, n - 1);
      CombineSplit(v, first.value, tail.values, first.reader, g);
      assert DataDone(next, n - 1, tail.reader) == DataDone(v, n, tail.reader);
      S.PrependPrepend(Combine(v, [first.value], g), Combine(next, tail.values, g),
        Run(DataDone(v, n, tail.reader), tail.rest, g));
    }
  }

  lemma ByteRun(v: View, input: seq<byte>, g: Geometry)
    requires ViewOk(v) && GeometryOk(g) && InData(v) && v.chunkSize > 0
    requires Pull(v.reader, input).Got? && (v.state.DiffData? ==> ReadLegal(v, g, 1))
    ensures var p := Pull(v.reader, input);
      Run(v, input, g) == S.Prepend(Combine(v, [p.value], g), Run(DataDone(v, 1, p.reader), p.rest, g))
  {
  }

  function DataMeaning(v: View, xs: seq<byte>, g: Geometry): seq<byte>
    requires GeometryOk(g) && (v.state.DiffData? && xs != [] ==> ReadLegal(v, g, |xs|))
  {
    if v.state.DiffData? then S.AddBytes(xs, OldBytes(g, v.from, |xs|)) else xs
  }

  lemma ReadsData(v: View, input: seq<byte>, xs: seq<byte>, r: Reader, mid: seq<byte>, g: Geometry)
    requires ViewOk(v) && GeometryOk(g) && InData(v) && |xs| == v.chunkSize
    requires v.state.DiffData? && xs != [] ==> ReadLegal(v, g, |xs|)
    requires Delivers(v.reader, input, xs, r, mid)
    ensures ReaderOk(r)
    ensures Run(v, input, g) == S.Prepend(DataMeaning(v, xs, g), Run(DataEnd(v, r), mid, g))
  {
    hide Run, PullSize, Pull;
    if xs == [] {
      DataOver(v, input, g);
      assert DataEnd(v, r) == v.(state := if v.state.DiffData? then S.ExtraSize else S.Adjustment);
      assert DataMeaning(v, xs, g) == [];
      S.PrependNothing(Run(DataEnd(v, r), mid, g));
    } else {
      BlockRun(v, input, g, |xs|);
      assert DataMeaning(v, xs, g) == Combine(v, xs, g);
      DataOver(DataDone(v, |xs|, r), mid, g);
    }
  }

  function PartDone(v: View, n: nat, r: Reader): View {
    v.(toPos := v.toPos + n, segPos := v.segPos + n, chunkSize := 0, reader := r,
       from := if v.state.DiffSize? then v.from + n else v.from,
       state := if v.state.DiffSize? then S.ExtraSize else S.Adjustment)
  }

  predicate PartFits(v: View, n: nat, g: Geometry) {
    && v.size == SIZE_FIRST && v.toPos + n <= v.toSize < 0x800_0000 && v.segPos + n <= v.segSize
    && (v.state.DiffSize? || v.state.ExtraSize?)
    && (v.state.DiffSize? && n > 0 ==> ReadLegal(v, g, n))
  }

  lemma PartRun(v: View, input: seq<byte>, xs: seq<byte>, r: Reader, mid: seq<byte>, g: Geometry)
    requires ViewOk(v) && GeometryOk(g) && PartFits(v, |xs|, g)
    requires Delivers(v.reader, input, EncodePart(xs), r, mid)
    ensures ReaderOk(r)
    ensures Run(v, input, g) ==
      S.Prepend(if v.state.DiffSize? then S.AddBytes(xs, OldBytes(g, v.from, |xs|)) else xs,
                Run(PartDone(v, |xs|, r), mid, g))
  {
    hide Run, PullSize, Pull, PullN, EncodeSize;
    var r1, in1 := DeliversSplit(v.reader, input, EncodeSize(|xs|), xs, r, mid);
    var w := v.(reader := r1, state := if v.state.DiffSize? then S.DiffData else S.ExtraData, chunkSize := |xs|);
    ReadsNumber(v, input, |xs|, r1, in1, g);
    ReadsData(w, in1, xs, r, mid, g);
    assert DataEnd(w, r) == PartDone(v, |xs|, r);
  }

  /** The view after a whole edit. */
  function EditDone(v: View, e: Edit, r: Reader): View {
    var n := |e.diff| + |e.extra|;
    var w := v.(toPos := v.toPos + n, segPos := v.segPos + n, chunkSize := 0, reader := r, from := v.from + |e.diff|);
    if w.toPos == v.toSize then w.(state := S.Done)
    else if w.segPos == v.segSize then w.(state := S.DfpatchSize)
    else w.(state := S.DiffSize, from := w.from + e.adjust)
  }

  lemma EditRun(v: View, input: seq<byte>, e: Edit, r: Reader, mid: seq<byte>, g: Geometry)
    requires ViewOk(v) && GeometryOk(g) && v.state.DiffSize? && v.size == SIZE_FIRST && v.index >= 1
    requires v.toPos + |e.diff| + |e.extra| <= v.toSize < 0x800_0000 && v.segPos + |e.diff| + |e.extra| <= v.segSize
    requires e.diff != [] ==> ReadLegal(v, g, |e.diff|)
    requires -0x800_0000 < e.adjust < 0x800_0000
    requires Delivers(v.reader, input, EncodeEdit(e), r, mid)
    ensures ReaderOk(r)
    ensures Run(v, input, g) ==
      S.Prepend(S.AddBytes(e.diff, OldBytes(g, v.from, |e.diff|)) + e.extra, Run(EditDone(v, e, r), mid, g))
  {
    hide Run, PullSize, Pull, PullN, EncodeSize, EncodePart;
    var r1, in1 := DeliversSplit(v.reader, input, EncodePart(e.diff), EncodePart(e.extra) + EncodeSize(e.adjust), r, mid);
    var r2, in2 := DeliversSplit(r1, in1, EncodePart(e.extra), EncodeSize(e.adjust), r, mid);
    var v1 := PartDone(v, |e.diff|, r1);
    var v2 := PartDone(v1, |e.extra|, r2);
    PartRun(v, input, e.diff, r1, in1, g);
    PartRun(v1, in1, e.extra, r2, in2, g);
    ReadsNumber(v2, in2, e.adjust, r, mid, g);
    assert AfterSize(v2.(reader := r), e.adjust, g) == NextView(EditDone(v, e, r));
    S.PrependPrepend(S.AddBytes(e.diff, OldBytes(g, v.from, |e.diff|)), e.extra, Run(EditDone(v, e, r), mid, g));
  }

  /** After a segment's last edit the patcher is done, or waits for the next segment. */
  predicate SegmentOver(w: View, v: View, n: nat, r: Reader) {
    && w.toPos == v.toPos + n && w.toSize == v.toSize && w.chunkSize == 0 && w.index == v.index
    && w.size == SIZE_FIRST && w.reader == r
    && w.state == if w.toPos == v.toSize then S.Done else S.DfpatchSize
  }

  lemma {:induction false} EditsRun(v: View, input: seq<byte>, edits: seq<Edit>, r: Reader, mid: seq<byte>, g: Geometry, j: nat)
    returns (w: View)
    requires ViewOk(v) && GeometryOk(g) && v.state.DiffSize? && v.size == SIZE_FIRST && v.index == j + 1
    requires edits != [] && EndsWithData(edits) && SegmentRunnable(edits, g, j, v.from)
    requires v.segPos + Size(edits) == v.segSize && v.toPos + Size(edits) <= v.toSize < 0x800_0000
    requires Delivers(v.reader, input, EncodeEdits(edits), r, mid)
    ensures ReaderOk(r) && SegmentOver(w, v, Size(edits), r)
    ensures Run(v, input, g) == S.Prepend(SegmentMeaning(edits, g, j, v.from), Run(w, mid, g))
    decreases |edits|
  {
    hide Run, PullSize, Pull, PullN, EncodeEdit;
    var e, more := edits[0], edits[1..];
    var r1, in1 := DeliversSplit(v.reader, input, EncodeEdit(e), EncodeEdits(more), r, mid);
    EditRun(v, input, e, r1, in1, g);
    LastHasData(edits);
    var v1 := EditDone(v, e, r1);
    var head := S.AddBytes(e.diff, OldBytes(g, v.from, |e.diff|)) + e.extra;
    if more == [] {
      NothingDelivered(r1, in1, r, mid);
      w := v1;
      assert SegmentMeaning(edits, g, j, v.from) == head;
    } else {
      w := EditsRun(v1, in1, more, r, mid, g, j);
      S.PrependPrepend(head, SegmentMeaning(more, g, j, v1.from), Run(w, mid, g));
    }
  }

  lemma RunDone(v: View, g: Geometry)
    requires ViewOk(v) && GeometryOk(g) && v.state.Done? && MayEnd(v.reader)
    ensures Run(v, [], g) == S.Accept([])
  {
  }

  lemma NothingDelivered(r: Reader, input: seq<byte>, r': Reader, rest: seq<byte>)
    requires ReaderOk(r) && Delivers(r, input, [], r', rest)
    ensures r == r' && input == rest
  {
  }

  // ---------------------------------------------------------------- all segments

  lemma {:induction false} SegmentsRun(v: View, input: seq<byte>, segments: seq<seq<Edit>>, r: Reader, g: Geometry, j: nat)
    requires ViewOk(v) && GeometryOk(g) && v.size == SIZE_FIRST && v.index == j && v.toSize < 0x800_0000
    requires SegmentsOk(segments, g, j, v.toSize)
    requires if segments == [] then v.state.Done? else v.state.DfpatchSize? && v.toPos == j * g.seg
    requires Delivers(v.reader, input, EncodeSegments(segments), r, []) && MayEnd(r)
    ensures Run(v, input, g) == S.Accept(ImageMeaning(segments, g, j, v.toSize))
    decreases |segments|
  {
    hide Run, PullSize, Pull, PullN, EncodeEdits, EncodeSize, SegmentRunnable, Size, GeometryOk;
    if segments == [] {
      NothingDelivered(v.reader, input, r, []);
      RunDone(v, g);
    } else {
      var r1, in1 := DeliversSplit(v.reader, input, EncodeSize(0) + EncodeEdits(segments[0]), EncodeSegments(segments[1..]), r, []);
      var w := SegmentRun(v, input, segments[0], r1, in1, g, j);
      assert (j + 1) * g.seg == j * g.seg + g.seg;
      SegmentsRun(w, in1, segments[1..], r, g, j + 1);
    }
  }

  lemma SegmentRun(v: View, input: seq<byte>, edits: seq<Edit>, r: Reader, mid: seq<byte>, g: Geometry, j: nat)
    returns (w: View)
    requires ViewOk(v) && GeometryOk(g) && v.size == SIZE_FIRST && v.index == j && v.state.DfpatchSize?
    requires v.toPos == j * g.seg < v.toSize < 0x800_0000 && Size(edits) == Min(g.seg, v.toSize - j * g.seg)
    requires EndsWithData(edits) && SegmentRunnable(edits, g, j, FirstRead(g, j))
    requires Delivers(v.reader, input, EncodeSize(0) + EncodeEdits(edits), r, mid)
    ensures ReaderOk(r) && w.index == j + 1 && w.size == SIZE_FIRST && w.reader == r && w.toSize == v.toSize
    ensures w.toPos == v.toPos + Size(edits)
    ensures w.state == if w.toPos == v.toSize then S.Done else S.DfpatchSize
    ensures Run(v, input, g) == S.Prepend(SegmentMeaning(edits, g, j, FirstRead(g, j)), Run(w, mid, g))
  {
    hide Run, PullSize, Pull, PullN, EncodeEdits, EncodeSize, SegmentRunnable;
    var r1, in1 := DeliversSplit(v.reader, input, EncodeSize(0), EncodeEdits(edits), r, mid);
    ReadsNumber(v, input, 0, r1, in1, g);
    var v1 := AfterDfpatch(v.(reader := r1), g).view;
    w := EditsRun(v1, in1, edits, r, mid, g, j);
  }

  // ---------------------------------------------------------------- the whole patch

  /** The sizes an in-place header announces. */
  datatype Sizes = Sizes(memorySize: nat, seg: nat, shift: nat, fromSize: nat, toSize: nat)

  function EncodeHeader(s: Sizes): seq<byte> {
    EncodeSize(s.memorySize) + (EncodeSize(s.seg) + (EncodeSize(s.shift) + (EncodeSize(s.fromSize) + EncodeSize(s.toSize))))
  }

  function EncodeInPlace(s: Sizes, payload: Payload, plain: seq<byte>): seq<byte> {
    match payload
    case Stored => [16] + (EncodeHeader(s) + plain)
    case Crled(runs) => [18] + (EncodeHeader(s) + EncodeAll(runs))
  }

  predicate SizesOk(s: Sizes) {
    && s.memorySize < 0x800_0000 && s.seg < 0x800_0000 && s.shift < 0x800_0000
    && s.fromSize < 0x800_0000 && s.toSize < 0x800_0000
  }

  /** The script fits the memory and its own header. */
  predicate ScriptOk(s: Sizes, segments: seq<seq<Edit>>, payload: Payload, g: Geometry) {
    var plain := EncodeSegments(segments);
    && SizesOk(s) && GeometryOk(g)
    && s.seg == g.seg && s.shift == g.shift && s.shift <= s.memorySize && s.toSize <= |g.image|
    && (if s.toSize > 0 then Covers(g.count, s.seg, OldSize(s.memorySize, s.shift, s.fromSize)) else g.count == 0)
    && SegmentsOk(segments, g, 0, s.toSize)
    && (payload.Stored? ==> |plain| < S.SIZE_MOD)
    && (payload.Crled? ==> RunsOk(payload.runs) && ExpandAll(payload.runs) == plain)
  }

  lemma HeaderReadBack(s: Sizes, rest: seq<byte>)
    requires SizesOk(s)
    ensures ParseSizes(5, EncodeHeader(s) + rest)
         == SizesGot([s.memorySize, s.seg, s.shift, s.fromSize, s.toSize], rest)
  {
    hide ParseHeaderSize, EncodeSize;
    var t1 := EncodeSize(s.toSize) + rest;
    var t2 := EncodeSize(s.fromSize) + t1;
    var t3 := EncodeSize(s.shift) + t2;
    var t4 := EncodeSize(s.seg) + t3;
    var t5 := EncodeSize(s.memorySize) + t4;
    assert EncodeHeader(s) + rest == t5;
    HeaderSizeReadBack(s.toSize, rest);
    HeaderSizeReadBack(s.fromSize, t1);
    HeaderSizeReadBack(s.shift, t2);
    HeaderSizeReadBack(s.seg, t3);
    HeaderSizeReadBack(s.memorySize, t4);
    assert ParseSizes(0, rest) == SizesGot([], rest);
    assert ParseSizes(1, t1) == SizesGot([s.toSize], rest);
    assert ParseSizes(2, t2) == SizesGot([s.fromSize, s.toSize], rest);
    assert ParseSizes(3, t3) == SizesGot([s.shift, s.fromSize, s.toSize], rest);
    assert ParseSizes(4, t4) == SizesGot([s.seg, s.shift, s.fromSize, s.toSize], rest);
  }

  lemma {:induction false} ImageSize(segments: seq<seq<Edit>>, g: Geometry, j: nat, toSize: nat)
    requires GeometryOk(g) && SegmentsOk(segments, g, j, toSize)
    ensures j * g.seg <= toSize ==> j * g.seg + |ImageMeaning(segments, g, j, toSize)| == toSize
    decreases |segments|
  {
    if segments != [] {
      SegmentSize(segments[0], g, j, FirstRead(g, j));
      assert (j + 1) * g.seg == j * g.seg + g.seg;
      ImageSize(segments[1..], g, j + 1, toSize);
      assert (j + 1) * g.seg > toSize ==> segments[1..] == [];
    }
  }

  lemma {:induction false} SegmentSize(edits: seq<Edit>, g: Geometry, j: nat, addr: int)
    requires GeometryOk(g) && SegmentRunnable(edits, g, j, addr)
    ensures |SegmentMeaning(edits, g, j, addr)| == Size(edits)
    decreases |edits|
  {
    if edits != [] {
      SegmentSize(edits[1..], g, j, addr + |edits[0].diff| + edits[0].adjust);
    }
  }

  /** An encoded script is a well-formed patch, for an update to the meaning of the script. */
  lemma InPlaceRoundTrip(s: Sizes, segments: seq<seq<Edit>>, payload: Payload, g: Geometry)
    requires ScriptOk(s, segments, payload, g)
    ensures var patch := EncodeInPlace(s, payload, EncodeSegments(segments));
      PatchFor(Plan(g, ImageMeaning(segments, g, 0, s.toSize)), patch, |patch|)
  {
    hide Run, EncodeSegments, EncodeAll, EncodeHeader, PullN, ParseSizes, ImageMeaning, MovedSegments, ExpandAll;
    var plain := EncodeSegments(segments);
    var body := Body(payload, plain);
    var patch := EncodeInPlace(s, payload, plain);
    assert patch == [16 * PATCH_TYPE_IN_PLACE + Kind(payload)] + (EncodeHeader(s) + body);
    assert patch[1..] == EncodeHeader(s) + body;
    HeaderReadBack(s, body);
    assert ParseHeader(patch) == HeaderOk(Kind(payload), s.memorySize, s.seg, s.shift, s.fromSize, s.toSize, body);
    ImageSize(segments, g, 0, s.toSize);
    if s.toSize > 0 {
      MoveCovers(s.memorySize, s.seg, s.shift, s.fromSize);
      CoversUnique(g.count, MovedSegments(s.memorySize, s.seg, s.shift, s.fromSize), s.seg,
                   OldSize(s.memorySize, s.shift, s.fromSize));
    }
    hide Covers;
    var r, r' := PayloadReadBack(payload, plain);
    SegmentsRun(StartView(s.toSize, r), body, segments, r', g, 0);
    hide ParseHeader, EncodeInPlace, SegmentsOk, Delivers;
  }

  /**
    The whole promise: encode a script, cut its patch into any chunks that keep the header in the first
    one, and feed it after every loss of power.  With steady power at some time the update succeeds, and
    whenever it does, the memory begins with the meaning of the script.
  */
  method UpdateFromScript(m: InPlace.Memory, s: Sizes, segments: seq<seq<Edit>>, payload: Payload, g: Geometry,
                          chunks: seq<seq<byte>>, supplies: seq<InPlace.Supply>)
    returns (res: int)
    requires ScriptOk(s, segments, payload, g)
    requires chunks != [] && S.Concat(chunks) == EncodeInPlace(s, payload, EncodeSegments(segments))
    requires !ParseHeader(chunks[0]).HeaderIncomplete?
    requires m.mem == g.image && m.step == 0 && !m.alive
    modifies m
    ensures m.alive ==> res == s.toSize <= |m.mem| && m.mem[..s.toSize] == ImageMeaning(segments, g, 0, s.toSize)
    ensures m.alive ==> m.step == 0
    ensures InPlace.Steady in supplies ==> m.alive
  {
    hide PatchFor, EncodeInPlace, EncodeSegments, ParseHeader;
    InPlaceRoundTrip(s, segments, payload, g);
    ImageSize(segments, g, 0, s.toSize);
    hide ScriptOk, ImageMeaning;
    var patch := EncodeInPlace(s, payload, EncodeSegments(segments));
    res := InPlace.UpdateWithPowerCuts(m, chunks, |patch|, supplies, Plan(g, ImageMeaning(segments, g, 0, s.toSize)));
  }

  // ---------------------------------------------------------------- from the old image to the new one

  /** The pieces of segment `j` refer only to bytes of the old image that are still there. */
  predicate SegmentAligned(pieces: seq<Piece>, g: Geometry, oldSize: nat, j: nat, addr: int) {
    pieces != [] ==>
      var p := pieces[0];
      && (p.changed != [] ==>
        (j + 1) * g.seg <= addr && g.shift <= addr && addr + |p.changed| <= g.shift + oldSize)
      && -0x800_0000 < p.adjust < 0x800_0000
      && SegmentAligned(pieces[1..], g, oldSize, j, addr + |p.changed| + p.adjust)
  }

  /** The edits for these pieces. */
  function DiffedSegment(pieces: seq<Piece>, g: Geometry, oldSize: nat, j: nat, addr: int): seq<Edit>
    requires GeometryOk(g) && oldSize <= g.count * g.seg && SegmentAligned(pieces, g, oldSize, j, addr)
  {
    if pieces == [] then []
    else
      var p := pieces[0];
      [Edit(Difference(p.changed, OldBytes(g, addr, |p.changed|)), p.extra, p.adjust)]
        + DiffedSegment(pieces[1..], g, oldSize, j, addr + |p.changed| + p.adjust)
  }

  lemma {:induction false} DiffedSegmentMeaning(pieces: seq<Piece>, g: Geometry, oldSize: nat, j: nat, addr: int)
    requires GeometryOk(g) && oldSize <= g.count * g.seg && SegmentAligned(pieces, g, oldSize, j, addr)
    ensures var edits := DiffedSegment(pieces, g, oldSize, j, addr);
      && SegmentRunnable(edits, g, j, addr) && SegmentMeaning(edits, g, j, addr) == NewImage(pieces)
      && Size(edits) == |NewImage(pieces)|
    decreases |pieces|
  {
    hide S.AddBytes, Difference, OldBytes;
    if pieces != [] {
      var p := pieces[0];
      var next := addr + |p.changed| + p.adjust;
      assert DiffedSegment(pieces, g, oldSize, j, addr)[1..] == DiffedSegment(pieces[1..], g, oldSize, j, next);
      DifferenceAddsUp(p.changed, OldBytes(g, addr, |p.changed|));
      DiffedSegmentMeaning(pieces[1..], g, oldSize, j, next);
    }
  }

  /** The new image, one list of pieces a segment. */
  function NewSegments(segments: seq<seq<Piece>>): seq<byte> {
    if segments == [] then [] else NewImage(segments[0]) + NewSegments(segments[1..])
  }

  predicate SegmentsAligned(segments: seq<seq<Piece>>, g: Geometry, oldSize: nat, j: nat) {
    segments != [] ==>
      SegmentAligned(segments[0], g, oldSize, j, FirstRead(g, j)) && SegmentsAligned(segments[1..], g, oldSize, j + 1)
  }

  function DiffedSegments(segments: seq<seq<Piece>>, g: Geometry, oldSize: nat, j: nat): seq<seq<Edit>>
    requires GeometryOk(g) && oldSize <= g.count * g.seg && SegmentsAligned(segments, g, oldSize, j)
  {
    if segments == [] then []
    else [DiffedSegment(segments[0], g, oldSize, j, FirstRead(g, j))] + DiffedSegments(segments[1..], g, oldSize, j + 1)
  }

  lemma {:induction false} DiffedSegmentsMeaning(segments: seq<seq<Piece>>, g: Geometry, oldSize: nat, j: nat, toSize: nat)
    requires GeometryOk(g) && oldSize <= g.count * g.seg && SegmentsAligned(segments, g, oldSize, j)
    requires SegmentsOk(DiffedSegments(segments, g, oldSize, j), g, j, toSize)
    ensures ImageMeaning(DiffedSegments(segments, g, oldSize, j), g, j, toSize) == NewSegments(segments)
    decreases |segments|
  {
    hide SegmentMeaning, SegmentRunnable, DiffedSegment, NewImage, SegmentAligned;
    if segments != [] {
      assert DiffedSegments(segments, g, oldSize, j)[1..] == DiffedSegments(segments[1..], g, oldSize, j + 1);
      DiffedSegmentMeaning(segments[0], g, oldSize, j, FirstRead(g, j));
      DiffedSegmentsMeaning(segments[1..], g, oldSize, j + 1, toSize);
    }
  }

  /**
    From the old image to the new one in place: take the differences of pieces that refer to any bytes
    of the old image that are still there, up to its last one; encode them, cut the patch into chunks,
    lose power any number of times.  With steady power at some time the memory then begins with the
    new image.
  */
  method UpdateToNewImage(m: InPlace.Memory, s: Sizes, segments: seq<seq<Piece>>, payload: Payload, g: Geometry,
                          chunks: seq<seq<byte>>, supplies: seq<InPlace.Supply>)
    returns (res: int)
    requires s.shift <= s.memorySize && s.toSize > 0 && GeometryOk(g)
    requires Covers(g.count, g.seg, OldSize(s.memorySize, s.shift, s.fromSize))
    requires SegmentsAligned(segments, g, OldSize(s.memorySize, s.shift, s.fromSize), 0)
    requires var script := DiffedSegments(segments, g, OldSize(s.memorySize, s.shift, s.fromSize), 0);
      && ScriptOk(s, script, payload, g)
      && chunks != [] && S.Concat(chunks) == EncodeInPlace(s, payload, EncodeSegments(script))
      && !ParseHeader(chunks[0]).HeaderIncomplete?
    requires m.mem == g.image && m.step == 0 && !m.alive
    modifies m
    ensures m.alive ==> res == s.toSize <= |m.mem| && m.mem[..s.toSize] == NewSegments(segments)
    ensures InPlace.Steady in supplies ==> m.alive
  {
    hide EncodeInPlace, EncodeSegments, ParseHeader, SegmentsAligned, NewSegments, ImageMeaning, OldSize;
    ghost var oldSize := OldSize(s.memorySize, s.shift, s.fromSize);
    var script := DiffedSegments(segments, g, OldSize(s.memorySize, s.shift, s.fromSize), 0);
    DiffedSegmentsMeaning(segments, g, oldSize, 0, s.toSize);
    res := UpdateFromScript(m, s, script, payload, g, chunks, supplies);
  }
}
