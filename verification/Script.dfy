/**
  The patch format, written down as its encoder, and the round trip through the decoder.

  A script is a list of edits.  Its meaning takes three lines: add the diff to the source image at
  the cursor, append the extra bytes, move the cursor.
*/
module Script {
  import opened Bytes
  import opened Varint
  import opened PatchReading
  import opened Sequential

  datatype Edit = Edit(diff: seq<byte>, extra: seq<byte>, adjust: int)

  /** What a script writes, with the source cursor at `pos`. */
  function Meaning(edits: seq<Edit>, from: seq<byte>, pos: int): seq<byte>
    requires Runnable(edits, from, pos)
  {
    if edits == [] then []
    else
      var e := edits[0];
      AddBytes(e.diff, from[pos..pos + |e.diff|]) + e.extra
        + Meaning(edits[1..], from, pos + |e.diff| + e.adjust)
  }

  /** The cursor stays inside the source partition, and never gets to its end. */
  predicate Runnable(edits: seq<Edit>, from: seq<byte>, pos: int) {
    && 0 <= pos < |from|
    && (edits != [] ==>
          && pos + |edits[0].diff| < |from|
          && -0x800_0000 < edits[0].adjust < 0x800_0000
          && Runnable(edits[1..], from, pos + |edits[0].diff| + edits[0].adjust))
  }

  function Size(edits: seq<Edit>): nat {
    if edits == [] then 0 else |edits[0].diff| + |edits[0].extra| + Size(edits[1..])
  }

  /** The patcher stops at the first edit that completes the image, so the last edit must add to it. */
  predicate EndsWithData(edits: seq<Edit>) {
    edits != [] ==> var e := edits[|edits| - 1]; |e.diff| + |e.extra| > 0
  }

  lemma {:induction false} MeaningSize(edits: seq<Edit>, from: seq<byte>, pos: int)
    requires Runnable(edits, from, pos)
    ensures |Meaning(edits, from, pos)| == Size(edits)
  {
    if edits != [] {
      MeaningSize(edits[1..], from, pos + |edits[0].diff| + edits[0].adjust);
    }
  }

  // ---------------------------------------------------------------- numbers

  /** Groups of seven bits, least significant first. */
  function EncodeTail(v: nat): (s: seq<byte>)
    ensures s != []
  {
    if v < 128 then [v] else [128 + v % 128] + EncodeTail(v / 128)
  }

  function EncodeSize(x: int): (s: seq<byte>)
    ensures s != []
  {
    var a, sign := if x < 0 then -x else x, if x < 0 then 64 else 0;
    if a < 64 then [sign + a] else [128 + sign + a % 64] + EncodeTail(a / 64)
  }

  /** Does the reader deliver exactly `plain` next, and then go on as `r'` with `rest`? */
  predicate Delivers(r: Reader, input: seq<byte>, plain: seq<byte>, r': Reader, rest: seq<byte>)
    requires ReaderOk(r)
  {
    PullN(r, input, |plain|) == GotN(plain, r', rest)
  }

  /** Delivery of `a + b` is delivery of `a` and then of `b`. */
  lemma DeliversSplit(r: Reader, input: seq<byte>, a: seq<byte>, b: seq<byte>, r': Reader, rest: seq<byte>)
    returns (m: Reader, mid: seq<byte>)
    requires ReaderOk(r) && Delivers(r, input, a + b, r', rest)
    ensures ReaderOk(m) && Delivers(r, input, a, m, mid) && Delivers(m, mid, b, r', rest)
  {
    PullNSplit(r, input, |a|, |b|);
    var p := PullN(r, input, |a|);
    m, mid := p.reader, p.rest;
    var q := PullN(m, mid, |b|);
    assert p.values + q.values == a + b;
    assert p.values == (p.values + q.values)[..|a|] && q.values == (p.values + q.values)[|a|..];
  }

  lemma DeliversHead(r: Reader, input: seq<byte>, plain: seq<byte>, r': Reader, rest: seq<byte>)
    requires ReaderOk(r) && plain != [] && Delivers(r, input, plain, r', rest)
    ensures var p := Pull(r, input);
      p.Got? && p.value == plain[0] && Delivers(p.reader, p.rest, plain[1..], r', rest)
  {
    var p := Pull(r, input);
    var q := PullN(p.reader, p.rest, |plain| - 1);
    assert plain == [p.value] + q.values;
  }

  lemma TailHead(t: nat)
    ensures EncodeTail(t)[0] % 128 == t % 128 && (EncodeTail(t)[0] < 128 <==> t < 128)
    ensures EncodeTail(t)[1..] == if t < 128 then [] else EncodeTail(t / 128)
  {
  }

  lemma TailByteReadBack(t: nat, z: SizeState)
    requires SizeOk(z) && !z.first && z.offset in {6, 13, 20}
    ensures FeedSize(z, EncodeTail(t)[0]) ==
      if t < 128 then SizeDone(FixSign(z.value + t * Pow2(z.offset), z.signed))
      else SizeMore(SizeState(false, z.value + (t % 128) * Pow2(z.offset), z.offset + 7, z.signed))
  {
    hide Pow2, FixSign, EncodeTail;
    TailHead(t);
  }

  lemma {:induction false} TailReadBack(t: nat, z: SizeState, r: Reader, input: seq<byte>, r': Reader, rest: seq<byte>)
    requires SizeOk(z) && !z.first && z.offset in {6, 13, 20}
    requires 1 <= t < Pow2(27 - z.offset)
    requires ReaderOk(r) && Delivers(r, input, EncodeTail(t), r', rest)
    ensures PullSize(z, r, input) == GotSize(FixSign(z.value + t * Pow2(z.offset), z.signed), r', rest)
    decreases t
  {
    hide PullSize, Pull, Pow2, EncodeTail, FeedSize;
    DeliversHead(r, input, EncodeTail(t), r', rest);
    TailHead(t);
    TailByteReadBack(t, z);
    PullSizeStep(z, r, input);
    var p := Pull(r, input);
    if t < 128 {
      assert PullN(p.reader, p.rest, 0) == GotN([], p.reader, p.rest);
    } else {
      FeedSizeBounds(z, p.value);
      var z' := FeedSize(z, p.value).next;
      TailSplit(t, z.offset);
      TailReadBack(t / 128, z', p.reader, p.rest, r', rest);
    }
  }

  lemma TailSplit(t: nat, offset: nat)
    requires offset in {6, 13, 20} && 128 <= t < Pow2(27 - offset)
    ensures offset != 20 && 1 <= t / 128 < Pow2(27 - (offset + 7))
    ensures (t % 128) * Pow2(offset) + (t / 128) * Pow2(offset + 7) == t * Pow2(offset)
  {
    Pow2At();
    Pow2Add(offset, 7);
    assert t == t % 128 + (t / 128) * 128;
    assert (t / 128) * Pow2(offset + 7) == (t / 128) * 128 * Pow2(offset);
    if offset == 6 {
      assert t < 0x20_0000;
    }
  }

  lemma FirstByteReadBack(x: int)
    ensures var a := if x < 0 then -x else x;
      FeedSize(SIZE_FIRST, EncodeSize(x)[0])
        == if a < 64 then SizeDone(x) else SizeMore(SizeState(false, a % 64, 6, x < 0))
  {
    var a, sign := if x < 0 then -x else x, if x < 0 then 64 else 0;
    var b := EncodeSize(x)[0];
    assert b % 64 == a % 64 && (b / 64) % 2 == sign / 64;
  }

  /** Every size of up to 27 bits, of either sign, is read back. */
  lemma SizeReadBack(x: int, r: Reader, input: seq<byte>, r': Reader, rest: seq<byte>)
    requires -0x800_0000 < x < 0x800_0000
    requires ReaderOk(r) && Delivers(r, input, EncodeSize(x), r', rest)
    ensures PullSize(SIZE_FIRST, r, input) == GotSize(x, r', rest)
  {
    hide PullSize, Pull, FeedSize, Pow2;
    DeliversHead(r, input, EncodeSize(x), r', rest);
    PullSizeStep(SIZE_FIRST, r, input);
    FirstByteReadBack(x);
    var p := Pull(r, input);
    var a := if x < 0 then -x else x;
    if a < 64 {
      assert EncodeSize(x)[1..] == [];
      assert PullN(p.reader, p.rest, 0) == GotN([], p.reader, p.rest);
    } else {
      assert EncodeSize(x)[1..] == EncodeTail(a / 64);
      FirstGroup(a);
      TailReadBack(a / 64, SizeState(false, a % 64, 6, x < 0), p.reader, p.rest, r', rest);
    }
  }

  lemma FirstGroup(a: nat)
    requires 64 <= a < 0x800_0000
    ensures 1 <= a / 64 < Pow2(21) && a % 64 < Pow2(6) && a % 64 + (a / 64) * Pow2(6) == a
  {
    Pow2At();
  }

  // ---------------------------------------------------------------- edits

  /** A length and that many bytes. */
  function EncodePart(xs: seq<byte>): seq<byte> {
    EncodeSize(|xs|) + xs
  }

  function EncodeEdit(e: Edit): seq<byte> {
    EncodePart(e.diff) + (EncodePart(e.extra) + EncodeSize(e.adjust))
  }

  function EncodeEdits(edits: seq<Edit>): seq<byte> {
    if edits == [] then [] else EncodeEdit(edits[0]) + EncodeEdits(edits[1..])
  }

  lemma ReadsNumber(v: View, input: seq<byte>, x: int, m: Reader, mid: seq<byte>, from: seq<byte>)
    requires ViewOk(v) && InNumber(v) && v.size == SIZE_FIRST && -0x800_0000 < x < 0x800_0000
    requires Delivers(v.reader, input, EncodeSize(x), m, mid)
    ensures ReaderOk(m)
    ensures var next := AfterSize(v.(reader := m), x, from);
      next.NextView? ==> Exec(v, input, from) == Exec(next.view, mid, from)
  {
    hide Exec, PullSize, Pull;
    SizeReadBack(x, v.reader, input, m, mid);
    NumberArrived(v, input, from);
  }

  /** The view after all the data of the current length. */
  function DataEnd(v: View, m: Reader): View {
    DataDone(v, v.chunkSize, m).(state := if v.state.DiffData? then ExtraSize else Adjustment)
  }

  lemma ReadsNoData(v: View, input: seq<byte>, m: Reader, mid: seq<byte>, from: seq<byte>)
    requires ViewOk(v) && InData(v) && v.chunkSize == 0 && v.toOffset < SIZE_MOD
    requires Delivers(v.reader, input, [], m, mid)
    ensures ReaderOk(m) && Exec(v, input, from) == Prepend([], Exec(DataEnd(v, m), mid, from))
  {
    hide PullSize, Pull, PullN, Exec;
    NothingPulled(v.reader, input);
    DataOver(v, input, from);
    assert DataEnd(v, m) == v.(state := if v.state.DiffData? then ExtraSize else Adjustment);
    PrependNothing(Exec(DataEnd(v, m), mid, from));
  }

  lemma ReadsData(v: View, input: seq<byte>, xs: seq<byte>, m: Reader, mid: seq<byte>, from: seq<byte>)
    requires ViewOk(v) && InData(v) && |xs| == v.chunkSize && v.toOffset < SIZE_MOD
    requires xs != [] ==> BlockOk(v, |xs|, from)
    requires v.state.DiffData? ==> 0 <= v.fromOffset && v.fromOffset + |xs| <= |from|
    requires Delivers(v.reader, input, xs, m, mid)
    ensures ReaderOk(m)
    ensures Exec(v, input, from) ==
      Prepend(if v.state.DiffData? then AddBytes(xs, from[v.fromOffset..v.fromOffset + |xs|]) else xs,
              Exec(DataEnd(v, m), mid, from))
  {
    hide PullSize, Pull, PullN, Exec;
    if xs == [] {
      ReadsNoData(v, input, m, mid, from);
    } else {
      DataBlock(v, input, from, |xs|);
      DataOver(DataDone(v, |xs|, m), mid, from);
    }
  }

  lemma NothingPulled(r: Reader, input: seq<byte>)
    requires ReaderOk(r)
    ensures PullN(r, input, 0) == GotN([], r, input)
  {
  }

  /** The view after the diff or the extra part of an edit. */
  function PartDone(v: View, n: nat, m: Reader): View {
    v.(toOffset := v.toOffset + n, chunkSize := 0, reader := m,
       fromOffset := if v.state.DiffSize? then v.fromOffset + n else v.fromOffset,
       state := if v.state.DiffSize? then ExtraSize else Adjustment)
  }

  predicate PartFits(v: View, n: nat, from: seq<byte>) {
    && v.size == SIZE_FIRST && v.toOffset + n <= v.toSize < 0x800_0000
    && (v.state.DiffSize? || v.state.ExtraSize?)
    && (v.state.DiffSize? ==> 0 <= v.fromOffset && v.fromOffset + n < |from|)
  }

  function PartMeaning(v: View, xs: seq<byte>, from: seq<byte>): seq<byte>
    requires PartFits(v, |xs|, from)
  {
    if v.state.DiffSize? then AddBytes(xs, from[v.fromOffset..v.fromOffset + |xs|]) else xs
  }

  lemma PartReadBack(v: View, input: seq<byte>, xs: seq<byte>, m: Reader, mid: seq<byte>, from: seq<byte>)
    requires ViewOk(v) && PartFits(v, |xs|, from)
    requires Delivers(v.reader, input, EncodePart(xs), m, mid)
    ensures ReaderOk(m)
    ensures Exec(v, input, from) == Prepend(PartMeaning(v, xs, from), Exec(PartDone(v, |xs|, m), mid, from))
  {
    hide Exec, PullSize, Pull, PullN, EncodeSize;
    var r1, in1 := DeliversSplit(v.reader, input, EncodeSize(|xs|), xs, m, mid);
    var w := v.(reader := r1, state := if v.state.DiffSize? then DiffData else ExtraData, chunkSize := |xs|);
    assert (v.toOffset + |xs|) % SIZE_MOD == v.toOffset + |xs|;
    ReadsNumber(v, input, |xs|, r1, in1, from);
    ReadsData(w, in1, xs, m, mid, from);
    assert DataEnd(w, m) == PartDone(v, |xs|, m);
  }

  /** The view after a whole edit. */
  function EditDone(v: View, e: Edit, m: Reader): View {
    var offset := v.toOffset + |e.diff| + |e.extra|;
    v.(toOffset := offset, fromOffset := v.fromOffset + |e.diff| + e.adjust, chunkSize := 0, reader := m,
       state := if offset == v.toSize then Done else DiffSize)
  }

  lemma EditReadBack(v: View, input: seq<byte>, e: Edit, m: Reader, mid: seq<byte>, from: seq<byte>)
    requires ViewOk(v) && v.state.DiffSize? && v.size == SIZE_FIRST
    requires v.toOffset + |e.diff| + |e.extra| <= v.toSize < 0x800_0000
    requires 0 <= v.fromOffset && v.fromOffset + |e.diff| < |from| && -0x800_0000 < e.adjust < 0x800_0000
    requires 0 <= v.fromOffset + |e.diff| + e.adjust < |from|
    requires Delivers(v.reader, input, EncodeEdit(e), m, mid)
    ensures ReaderOk(m)
    ensures Exec(v, input, from) ==
      Prepend(AddBytes(e.diff, from[v.fromOffset..v.fromOffset + |e.diff|]) + e.extra,
              Exec(EditDone(v, e, m), mid, from))
  {
    hide Exec, PullSize, Pull, PullN, EncodeSize, EncodePart;
    var r1, in1 := DeliversSplit(v.reader, input, EncodePart(e.diff), EncodePart(e.extra) + EncodeSize(e.adjust), m, mid);
    var r2, in2 := DeliversSplit(r1, in1, EncodePart(e.extra), EncodeSize(e.adjust), m, mid);
    var v1 := PartDone(v, |e.diff|, r1);
    var v2 := PartDone(v1, |e.extra|, r2);
    PartReadBack(v, input, e.diff, r1, in1, from);
    PartReadBack(v1, in1, e.extra, r2, in2, from);
    ReadsNumber(v2, in2, e.adjust, m, mid, from);
    assert AfterSize(v2.(reader := m), e.adjust, from) == NextView(EditDone(v, e, m));
    PrependPrepend(PartMeaning(v, e.diff, from), e.extra, Exec(EditDone(v, e, m), mid, from));
  }

  lemma NothingLeft(v: View, input: seq<byte>, r': Reader, from: seq<byte>)
    requires ViewOk(v) && v.state.Done? && Delivers(v.reader, input, [], r', []) && MayEnd(r')
    ensures Exec(v, input, from) == Accept([])
  {
    assert r' == v.reader && input == [];
  }

  lemma {:induction false} EditsReadBack(v: View, input: seq<byte>, edits: seq<Edit>, r': Reader, from: seq<byte>)
    requires ViewOk(v) && v.size == SIZE_FIRST && v.toOffset + Size(edits) == v.toSize < 0x800_0000
    requires Runnable(edits, from, v.fromOffset) && EndsWithData(edits)
    requires v.state == if edits == [] then Done else DiffSize
    requires Delivers(v.reader, input, EncodeEdits(edits), r', []) && MayEnd(r')
    ensures Exec(v, input, from) == Accept(Meaning(edits, from, v.fromOffset))
    decreases |edits|
  {
    hide PullSize, Pull, PullN, EncodeEdit, Exec;
    if edits == [] {
      NothingLeft(v, input, r', from);
    } else {
      var e, more := edits[0], edits[1..];
      var m, mid := DeliversSplit(v.reader, input, EncodeEdit(e), EncodeEdits(more), r', []);
      assert Runnable(more, from, v.fromOffset + |e.diff| + e.adjust);
      EditReadBack(v, input, e, m, mid, from);
      LastHasData(edits);
      EditsReadBack(EditDone(v, e, m), mid, more, r', from);
    }
  }

  lemma {:induction false} LastHasData(edits: seq<Edit>)
    requires edits != [] && EndsWithData(edits)
    ensures EndsWithData(edits[1..]) && (edits[1..] == [] <==> Size(edits[1..]) == 0)
    decreases |edits|
  {
    if |edits| > 1 {
      assert edits[1..][|edits| - 2] == edits[|edits| - 1];
      LastHasData(edits[1..]);
    }
  }

  // ---------------------------------------------------------------- CRLE

  datatype CrleRun = Scattered(data: seq<byte>) | Repeated(value: byte, count: nat) {
    function Length(): nat {
      if Scattered? then |data| else count
    }

    function Expand(): (s: seq<byte>)
      ensures |s| == Length()
    {
      if Scattered? then data else seq(count, _ => value)
    }

    function Encode(): seq<byte> {
      if Scattered? then [0] + (EncodeTail(|data|) + data) else [1] + (EncodeTail(count) + [value])
    }
  }

  predicate RunsOk(runs: seq<CrleRun>) {
    forall run :: run in runs ==> 0 < run.Length() < 0x1000_0000
  }

  function ExpandAll(runs: seq<CrleRun>): seq<byte> {
    if runs == [] then [] else runs[0].Expand() + ExpandAll(runs[1..])
  }

  function EncodeAll(runs: seq<CrleRun>): seq<byte> {
    if runs == [] then [] else runs[0].Encode() + EncodeAll(runs[1..])
  }

  lemma RunTailByteReadBack(t: nat, u: UsizeState)
    requires UsizeOk(u) && !u.first && u.offset in {0, 7, 14, 21}
    ensures FeedUsize(u, EncodeTail(t)[0]) ==
      if t < 128 then UsizeDone(u.value + t * Pow2(u.offset))
      else UsizeMore(UsizeState(false, u.value + (t % 128) * Pow2(u.offset), u.offset + 7))
  {
    hide Pow2, EncodeTail;
    TailHead(t);
  }

  lemma {:induction false} RunLengthReadBack(repeated: bool, u: UsizeState, t: nat, rest: seq<byte>)
    requires UsizeOk(u) && !u.first && u.offset in {0, 7, 14, 21}
    requires t < Pow2(28 - u.offset) && (u.offset > 0 ==> t >= 1)
    ensures Pull(LengthReader(repeated, u), EncodeTail(t) + rest)
         == Pull(RunReader(repeated, u.value + t * Pow2(u.offset)), rest)
    decreases t
  {
    hide Pull, Pow2, FeedUsize;
    RunTailByteReadBack(t, u);
    var b := EncodeTail(t)[0];
    if t < 128 {
      PullLength(repeated, u, b, rest);
    } else {
      var u' := UsizeState(false, u.value + (t % 128) * Pow2(u.offset), u.offset + 7);
      assert EncodeTail(t) + rest == [b] + (EncodeTail(t / 128) + rest);
      PullLength(repeated, u, b, EncodeTail(t / 128) + rest);
      RunTailSplit(t, u.offset);
      FeedUsizeBounds(u, b);
      RunLengthReadBack(repeated, u', t / 128, rest);
    }
  }

  lemma RunTailSplit(t: nat, offset: nat)
    requires offset in {0, 7, 14, 21} && 128 <= t < Pow2(28 - offset)
    ensures offset != 21 && 1 <= t / 128 < Pow2(28 - (offset + 7))
    ensures (t % 128) * Pow2(offset) + (t / 128) * Pow2(offset + 7) == t * Pow2(offset)
  {
    Pow2At();
    Pow2Add(offset, 7);
    assert t == t % 128 + (t / 128) * 128;
    assert (t / 128) * Pow2(offset + 7) == (t / 128) * 128 * Pow2(offset);
  }

  /** A kind and a length in front of the data of a run. */
  lemma RunHeadReadBack(repeated: bool, count: nat, rest: seq<byte>)
    requires count < 0x1000_0000
    ensures Pull(CrleReader(Idle), [if repeated then 1 else 0] + (EncodeTail(count) + rest))
         == Pull(RunReader(repeated, count), rest)
  {
    Pow2At();
    var input := [if repeated then 1 else 0] + (EncodeTail(count) + rest);
    assert input[1..] == EncodeTail(count) + rest;
    assert Pull(CrleReader(Idle), input) == Pull(LengthReader(repeated, USIZE_FIRST), EncodeTail(count) + rest);
    PullLengthFirst(repeated, USIZE_FIRST, EncodeTail(count) + rest);
    assert Pow2(0) == 1 && Pow2(28 - 0) == 0x1000_0000;
    hide Pull, EncodeTail, Pow2;
    RunLengthReadBack(repeated, UsizeState(false, 0, 0), count, rest);
    assert count * Pow2(0) == count;
  }

  lemma RepeatedValueReadBack(value: byte, count: nat, tail: seq<byte>)
    ensures Pull(RunReader(true, count), [value] + tail) == Pull(CrleReader(RepeatedDataRead(value, count)), tail)
  {
    assert ([value] + tail)[1..] == tail;
  }

  /** An encoded run is delivered byte for byte, and leaves the reader idle. */
  lemma RunReadBack(run: CrleRun, tail: seq<byte>)
    requires 0 < run.Length() < 0x1000_0000
    ensures Delivers(CrleReader(Idle), run.Encode() + tail, run.Expand(), CrleReader(Idle), tail)
  {
    hide Pull, PullN, EncodeTail;
    var input, n := run.Encode() + tail, run.Length();
    match run {
      case Scattered(data) =>
        assert input == [0] + (EncodeTail(n) + (data + tail));
        RunHeadReadBack(false, n, data + tail);
        PullNUnfold(CrleReader(Idle), input, RunReader(false, n), data + tail, n);
        PullScattered(n, data + tail, n);
        assert (data + tail)[..n] == data && (data + tail)[n..] == tail;
      case Repeated(value, _) =>
        assert input == [1] + (EncodeTail(n) + ([value] + tail));
        RunHeadReadBack(true, n, [value] + tail);
        var r := CrleReader(RepeatedDataRead(value, n));
        RepeatedValueReadBack(value, n, tail);
        PullNUnfold(CrleReader(Idle), input, r, tail, n);
        PullRepeated(value, n, tail, n);
    }
  }

  lemma DeliversThen(r: Reader, input: seq<byte>, a: seq<byte>, m: Reader, mid: seq<byte>,
                     b: seq<byte>, r': Reader, rest: seq<byte>)
    requires ReaderOk(r) && ReaderOk(m) && Delivers(r, input, a, m, mid) && Delivers(m, mid, b, r', rest)
    ensures Delivers(r, input, a + b, r', rest)
  {
    PullNSplit(r, input, |a|, |b|);
  }

  /** CRLE: the decompressed bytes are the string that was encoded, however it was cut into runs. */
  lemma {:induction false} CrleReadBack(runs: seq<CrleRun>, tail: seq<byte>)
    requires RunsOk(runs)
    ensures Delivers(CrleReader(Idle), EncodeAll(runs) + tail, ExpandAll(runs), CrleReader(Idle), tail)
    decreases |runs|
  {
    hide Pull;
    if runs == [] {
      assert EncodeAll(runs) + tail == tail;
    } else {
      var more := EncodeAll(runs[1..]) + tail;
      assert EncodeAll(runs) + tail == runs[0].Encode() + more;
      RunReadBack(runs[0], more);
      CrleReadBack(runs[1..], tail);
      DeliversThen(CrleReader(Idle), EncodeAll(runs) + tail, runs[0].Expand(), CrleReader(Idle), more,
                   ExpandAll(runs[1..]), CrleReader(Idle), tail);
    }
  }

  /** The reader delivers `plain` from `input`, and then waits for more input. */
  predicate Owes(r: Reader, input: seq<byte>, plain: seq<byte>)
    requires ReaderOk(r)
  {
    var p := PullN(r, input, |plain|);
    p.GotN? && p.values == plain && Pull(p.reader, p.rest) == Starved
  }

  /** Whatever has been delivered was due, and the reader owes the rest. */
  lemma OwesRest(r: Reader, input: seq<byte>, plain: seq<byte>, n: nat)
    requires ReaderOk(r) && Owes(r, input, plain) && PullN(r, input, n).GotN?
    ensures var p := PullN(r, input, n);
      n <= |plain| && p.values == plain[..n] && Owes(p.reader, p.rest, plain[n..])
  {
    hide Pull;
    var whole, p := PullN(r, input, |plain|), PullN(r, input, n);
    if n <= |plain| {
      PullNSplit(r, input, n, |plain| - n);
      assert whole.values == p.values + PullN(p.reader, p.rest, |plain| - n).values;
    } else {
      PullNSplit(r, input, |plain|, n - |plain|);
      assert false;
    }
  }

  /** A call that delivers nothing leaves as much to deliver; at the end of the input, that is nothing. */
  lemma OwesStill(r: Reader, input: seq<byte>, plain: seq<byte>, r': Reader, future: seq<byte>)
    requires ReaderOk(r) && ReaderOk(r') && Owes(r, input, plain)
    ensures Pull(r, input) == Starved || (Pull(r, input).Got? && plain != [])
    ensures Pull(r, input) == Pull(r', future) ==> Owes(r', future, plain)
    ensures Pull(r, input) == Pull(r', future) && Pull(r', future) in {Starved, Unspecified} ==> plain == []
  {
    hide Pull;
    if plain == [] {
      assert PullN(r, input, 0) == GotN([], r, input);
      assert PullN(r', future, 0) == GotN([], r', future);
    }
  }

  /**
    CRLE under any interleaving: the encoded bytes may arrive in any chunks, and the caller may ask for
    any numbers of bytes.  What it gets is the beginning of the original, and all of it once it has
    asked often enough; a request that meets the end of a chunk is repeated with the next one.
  */
  method DecompressInChunks(runs: seq<CrleRun>, chunks: seq<seq<byte>>, requests: seq<nat>) returns (out: seq<byte>)
    requires RunsOk(runs) && Concat(chunks) == EncodeAll(runs)
    requires forall k :: 0 <= k < |requests| ==> requests[k] > 0
    ensures out <= ExpandAll(runs)
    ensures |requests| >= |ExpandAll(runs)| ==> out == ExpandAll(runs)
  {
    hide Pull, PullN, EncodeAll, ExpandAll, Owes;
    ghost var plain := ExpandAll(runs);
    var pr := new PatchReader();
    var _ := pr.Init(0, COMPRESSION_CRLE as int);
    StartOwing(runs, Concat(chunks));
    assert pr.Rest() + Concat(chunks) == Concat(chunks) && chunks[0..] == chunks && plain[0..] == plain;
    out := [];
    var i, k := 0, 0;
    while k < |requests|
      invariant 0 <= i <= |chunks| && k <= |requests| && k <= |out| <= |plain|
      invariant pr.Valid() && pr.reader.CrleReader?
      invariant out == plain[..|out|] && Owes(pr.reader, pr.Rest() + Concat(chunks[i..]), plain[|out|..])
      decreases |chunks| - i + |requests| - k
    {
      var res, xs := Request(pr, requests[k], Concat(chunks[i..]), plain, |out|);
      if res == OK {
        out := out + xs;
        k := k + 1;
      } else if i < |chunks| {
        ConcatFrom(chunks, i, []);
        pr.buf, pr.offset := chunks[i], 0;
        i := i + 1;
        assert pr.Rest() + Concat(chunks[i..]) == Concat(chunks[i - 1..]);
      } else {
        return;
      }
    }
  }

  /** One request of the caller, when `taken` bytes of `plain` have been delivered. */
  method Request(pr: PatchReader, request: nat, ghost future: seq<byte>, ghost plain: seq<byte>, ghost taken: nat)
    returns (res: int, xs: seq<byte>)
    requires pr.Valid() && pr.reader.CrleReader? && request > 0 && taken <= |plain|
    requires Owes(pr.reader, pr.Rest() + future, plain[taken..])
    modifies pr`offset, pr`reader
    ensures pr.Valid() && pr.reader.CrleReader?
    ensures if res == OK
      then xs != [] && taken + |xs| <= |plain| && plain[..taken] + xs == plain[..taken + |xs|] &&
        Owes(pr.reader, pr.Rest() + future, plain[taken + |xs|..])
      else pr.Rest() == [] && Owes(pr.reader, future, plain[taken..]) && (future == [] ==> taken == |plain|)
  {
    hide Pull, PullN, Owes;
    var buf := new byte[request];
    ghost var r, input := pr.reader, pr.Rest() + future;
    var n;
    res, n := pr.Decompress(buf, request, future);
    xs := buf[..n];
    OwesStill(r, input, plain[taken..], pr.reader, future);
    if res == OK {
      TakeMore(plain, plain[..taken], xs, r, input);
    }
  }

  /** A block that was delivered continues what came before it. */
  lemma TakeMore(plain: seq<byte>, out: seq<byte>, xs: seq<byte>, r: Reader, input: seq<byte>)
    requires |out| <= |plain| && out == plain[..|out|]
    requires ReaderOk(r) && Owes(r, input, plain[|out|..])
    requires PullN(r, input, |xs|).GotN? && PullN(r, input, |xs|).values == xs
    ensures var p, k := PullN(r, input, |xs|), |out| + |xs|;
      k <= |plain| && out + xs == plain[..k] && Owes(p.reader, p.rest, plain[k..])
  {
    hide Owes, PullN, Pull;
    OwesRest(r, input, plain[|out|..], |xs|);
    assert plain[|out|..][|xs|..] == plain[|out| + |xs|..];
  }

  lemma StartOwing(runs: seq<CrleRun>, input: seq<byte>)
    requires RunsOk(runs) && input == EncodeAll(runs)
    ensures Owes(CrleReader(Idle), input, ExpandAll(runs))
  {
    CrleReadBack(runs, []);
    assert input + [] == input;
  }

  // ---------------------------------------------------------------- whole patches

  lemma {:induction false} HeaderTailReadBack(t: nat, value: nat, offset: nat, rest: seq<byte>)
    requires offset in {6, 13, 20} && 1 <= t < Pow2(27 - offset)
    ensures ParseHeaderTail(true, value, offset, EncodeTail(t) + rest) == HeaderGot(value + t * Pow2(offset), rest)
    decreases t
  {
    hide Pow2, EncodeTail, ParseHeaderTail;
    var s := EncodeTail(t) + rest;
    TailHead(t);
    HeaderTailStep(value, offset, s);
    if t < 128 {
      HeaderTailEnd(value + t * Pow2(offset), offset + 7, rest);
      assert s[1..] == rest;
    } else {
      assert s[1..] == EncodeTail(t / 128) + rest;
      TailSplit(t, offset);
      HeaderTailReadBack(t / 128, value + (t % 128) * Pow2(offset), offset + 7, rest);
    }
  }

  lemma HeaderNoTail(n: nat, rest: seq<byte>)
    ensures ParseHeaderTail(false, n, 6, rest) == HeaderGot(n, rest)
  {
  }

  lemma HeaderSizeReadBack(n: nat, rest: seq<byte>)
    requires n < 0x800_0000
    ensures ParseHeaderSize(EncodeSize(n) + rest) == HeaderGot(n, rest)
  {
    hide Pow2, EncodeTail, ParseHeaderTail;
    var s := EncodeSize(n) + rest;
    if n < 64 {
      assert s[1..] == rest;
      HeaderNoTail(n, rest);
    } else {
      assert s[1..] == EncodeTail(n / 64) + rest;
      assert s[0] == 128 + n % 64;
      FirstGroup(n);
      HeaderTailReadBack(n / 64, n % 64, 6, rest);
    }
  }

  /** The decompressed contents of a patch: no dfpatch, then the edits. */
  function Plain(edits: seq<Edit>): seq<byte> {
    if edits == [] then [] else EncodeSize(0) + EncodeEdits(edits)
  }

  datatype Payload = Stored | Crled(runs: seq<CrleRun>)

  /** A whole sequential patch. */
  function EncodePatch(edits: seq<Edit>, payload: Payload): seq<byte> {
    var header := EncodeSize(Size(edits));
    match payload
    case Stored => [0] + (header + Plain(edits))
    case Crled(runs) => [2] + (header + EncodeAll(runs))
  }

  predicate PatchOk(edits: seq<Edit>, payload: Payload, from: seq<byte>) {
    && Runnable(edits, from, 0) && EndsWithData(edits) && Size(edits) < 0x800_0000
    && (payload.Stored? ==> |Plain(edits)| < SIZE_MOD)
    && (payload.Crled? ==> RunsOk(payload.runs) && ExpandAll(payload.runs) == Plain(edits))
  }

  function Body(payload: Payload, plain: seq<byte>): seq<byte> {
    if payload.Stored? then plain else EncodeAll(payload.runs)
  }

  function Kind(payload: Payload): byte {
    if payload.Stored? then COMPRESSION_NONE else COMPRESSION_CRLE
  }

  /** Either compression delivers its contents, and may end there. */
  lemma PayloadReadBack(payload: Payload, plain: seq<byte>) returns (r: Reader, r': Reader)
    requires payload.Stored? ==> |plain| < SIZE_MOD
    requires payload.Crled? ==> RunsOk(payload.runs) && ExpandAll(payload.runs) == plain
    ensures ReaderOk(r) && !r.Absent? && MayEnd(r')
    ensures r == InitialReader(|Body(payload, plain)| % SIZE_MOD, Kind(payload))
    ensures Delivers(r, Body(payload, plain), plain, r', [])
  {
    hide PullN, EncodeAll, ExpandAll;
    var body := Body(payload, plain);
    r := InitialReader(|body| % SIZE_MOD, Kind(payload));
    if payload.Stored? {
      r' := NoneReader(|body|, |body|);
      PullNone(|body|, 0, body, |body|);
      assert body[..|body|] == body && body[|body|..] == [];
    } else {
      r' := CrleReader(Idle);
      CrleReadBack(payload.runs, []);
      assert EncodeAll(payload.runs) + [] == body;
    }
  }

  /** Decoding an encoded patch gives the meaning of its script, for either compression. */
  lemma RoundTrip(edits: seq<Edit>, payload: Payload, from: seq<byte>)
    requires PatchOk(edits, payload, from)
    ensures var patch := EncodePatch(edits, payload);
      ExecPatch(patch, |patch|, from) == Accept(Meaning(edits, from, 0))
  {
    hide Exec, EncodeSize, PullN, Plain, EncodeAll, ExpandAll;
    var patch := EncodePatch(edits, payload);
    var size, body := Size(edits), Body(payload, Plain(edits));
    assert patch == [Kind(payload)] + (EncodeSize(size) + body);
    assert patch[1..] == EncodeSize(size) + body;
    HeaderSizeReadBack(size, body);
    assert ParseHeader(patch) == HeaderOk(patch[0], size, body);
    var r, r' := PayloadReadBack(payload, Plain(edits));
    PlainReadBack(edits, r, body, r', from);
  }

  lemma PlainReadBack(edits: seq<Edit>, r: Reader, body: seq<byte>, r': Reader, from: seq<byte>)
    requires Runnable(edits, from, 0) && EndsWithData(edits) && Size(edits) < 0x800_0000
    requires ReaderOk(r) && Delivers(r, body, Plain(edits), r', []) && MayEnd(r')
    ensures Exec(StartView(Size(edits), r), body, from) == Accept(Meaning(edits, from, 0))
  {
    hide PullSize, Pull;
    var v := StartView(Size(edits), r);
    if edits == [] {
      EditsReadBack(v, body, [], r', from);
    } else {
      EndsPositive(edits);
      var m, mid := DeliversSplit(r, body, EncodeSize(0), EncodeEdits(edits), r', []);
      ReadsNumber(v, body, 0, m, mid, from);
      EditsReadBack(v.(state := DiffSize, reader := m), mid, edits, r', from);
    }
  }

  lemma EndsPositive(edits: seq<Edit>)
    requires edits != [] && EndsWithData(edits)
    ensures Size(edits) > 0
  {
    LastHasData(edits);
  }

  /**
    The library's promise: encode any script, cut the patch into any chunks that keep the header
    in the first one, feed them and finalize.  The image written is the meaning of the script.
  */
  method PatchInChunks(edits: seq<Edit>, payload: Payload, from: seq<byte>, chunks: seq<seq<byte>>)
    returns (p: ApplyPatch, res: int)
    requires PatchOk(edits, payload, from)
    requires chunks != [] && Concat(chunks) == EncodePatch(edits, payload) && !ParseHeader(chunks[0]).HeaderIncomplete?
    ensures p.to == Meaning(edits, from, 0) && res == Size(edits)
  {
    hide Exec, ExecPatch, EncodePatch;
    RoundTrip(edits, payload, from);
    MeaningSize(edits, from, 0);
    p := new ApplyPatch(from, |EncodePatch(edits, payload)|);
    res := ApplyInChunks(p, chunks);
  }

  // ---------------------------------------------------------------- what a diff is for

  /**
    A part of a new image: bytes that are kept as their difference from the old image at the cursor,
    bytes that are kept as they are, and the way to the cursor of the next part.
  */
  datatype Piece = Piece(changed: seq<byte>, extra: seq<byte>, adjust: int)

  function NewImage(pieces: seq<Piece>): seq<byte> {
    if pieces == [] then [] else pieces[0].changed + pieces[0].extra + NewImage(pieces[1..])
  }

  /** New minus old, byte by byte. */
  function Difference(goal: seq<byte>, base: seq<byte>): (d: seq<byte>)
    requires |goal| == |base|
    ensures |d| == |goal|
    ensures forall i :: 0 <= i < |d| ==> d[i] == (goal[i] as int - base[i] as int) % 256
  {
    seq(|goal|, i requires 0 <= i < |goal| => (goal[i] as int - base[i] as int) % 256)
  }

  /** Adding the old bytes to the difference gives the new bytes back. */
  lemma DifferenceAddsUp(goal: seq<byte>, base: seq<byte>)
    requires |goal| == |base|
    ensures AddBytes(Difference(goal, base), base) == goal
  {
    var d := Difference(goal, base);
    forall i | 0 <= i < |goal|
      ensures AddBytes(d, base)[i] == goal[i]
    {
      BackAgain(goal[i], base[i]);
    }
  }

  lemma BackAgain(x: byte, y: byte)
    ensures AddByte((x as int - y as int) % 256, y) == x
  {
    if x < y {
      assert (x as int - y as int) % 256 == x as int - y as int + 256;
    }
  }

  /** The cursor stays inside the old image, and never gets to its end. */
  predicate Aligned(pieces: seq<Piece>, from: seq<byte>, pos: int) {
    && 0 <= pos < |from|
    && (pieces != [] ==>
          && pos + |pieces[0].changed| < |from|
          && -0x800_0000 < pieces[0].adjust < 0x800_0000
          && Aligned(pieces[1..], from, pos + |pieces[0].changed| + pieces[0].adjust))
  }

  /** The script for these pieces. */
  function Diffed(pieces: seq<Piece>, from: seq<byte>, pos: int): seq<Edit>
    requires Aligned(pieces, from, pos)
  {
    if pieces == [] then []
    else
      var p := pieces[0];
      [Edit(Difference(p.changed, from[pos..pos + |p.changed|]), p.extra, p.adjust)]
        + Diffed(pieces[1..], from, pos + |p.changed| + p.adjust)
  }

  /** It means the new image. */
  lemma {:induction false} DiffedMeaning(pieces: seq<Piece>, from: seq<byte>, pos: int)
    requires Aligned(pieces, from, pos)
    ensures var edits := Diffed(pieces, from, pos);
      Runnable(edits, from, pos) && Meaning(edits, from, pos) == NewImage(pieces) && Size(edits) == |NewImage(pieces)|
    decreases |pieces|
  {
    hide AddBytes, Difference;
    if pieces != [] {
      var p := pieces[0];
      var next := pos + |p.changed| + p.adjust;
      assert Diffed(pieces, from, pos)[1..] == Diffed(pieces[1..], from, next);
      DifferenceAddsUp(p.changed, from[pos..pos + |p.changed|]);
      DiffedMeaning(pieces[1..], from, next);
    }
  }

  /**
    From the old image to the new one: take the differences of any pieces the new image is made of,
    encode them, cut the patch into chunks.  What is written is the new image.
  */
  method PatchToNewImage(pieces: seq<Piece>, payload: Payload, from: seq<byte>, chunks: seq<seq<byte>>)
    returns (p: ApplyPatch, res: int)
    requires Aligned(pieces, from, 0) && PatchOk(Diffed(pieces, from, 0), payload, from)
    requires chunks != [] && Concat(chunks) == EncodePatch(Diffed(pieces, from, 0), payload)
    requires !ParseHeader(chunks[0]).HeaderIncomplete?
    ensures p.to == NewImage(pieces) && res == |NewImage(pieces)|
  {
    hide PatchOk, EncodePatch, ParseHeader;
    DiffedMeaning(pieces, from, 0);
    p, res := PatchInChunks(Diffed(pieces, from, 0), payload, from, chunks);
  }

  /** Numbers of the format in digits. */
  lemma SizeExamples()
    ensures EncodeSize(5) == [5] && EncodeSize(-5) == [69] && EncodeSize(64) == [128, 1]
    ensures EncodeSize(1000) == [168, 15] && EncodeSize(-1000) == [232, 15]
    ensures EncodeTail(300) == [172, 2]
  {
  }
}
