/**
  The in-place patcher, over a memory that can lose power in the middle of any operation.

  The patcher persists a step counter.  After a power cut the whole patch is fed again; the steps
  that were completed are skipped and the interrupted one is redone.
*/
module InPlace {
  import opened Bytes
  import opened Varint
  import opened PatchReading
  import opened InPlacePlan
  import opened InPlaceMeaning
  import S = Sequential

  const STEP_SET_FAILED := -22
  const STEP_GET_FAILED := -23

  /** Power that stays, or power for some operations and the garbage the cut leaves behind. */
  datatype Supply = Steady | Cut(operations: nat, leftover: nat -> byte)

  /**
    The memory and the persisted step.  Unless power is `steady`, `budget` operations succeed; the
    next one loses power and leaves `junk` in the range it was working on, and nothing works from
    then on.
  */
  class Memory {
    var mem: seq<byte>
    var step: nat
    var alive: bool
    var steady: bool
    var budget: nat
    var junk: nat -> byte

    constructor (mem: seq<byte>, step: nat)
      ensures this.mem == mem && this.step == step && !alive
    {
      this.mem, this.step, alive, steady, budget, junk := mem, step, false, false, 0, _ => 0;
    }

    /** Power comes back, for good or for some number of operations. */
    method PowerOn(supply: Supply)
      modifies this`alive, this`steady, this`budget, this`junk
      ensures alive && steady == supply.Steady?
      ensures supply.Cut? ==> budget == supply.operations && junk == supply.leftover
    {
      alive, steady := true, supply.Steady?;
      if supply.Cut? {
        budget, junk := supply.operations, supply.leftover;
      }
    }

    function Splice(addr: nat, data: seq<byte>): (m: seq<byte>)
      requires addr + |data| <= |mem|
      reads this
      ensures |m| == |mem|
      ensures forall a :: 0 <= a < |m| ==>
        m[a] == if addr <= a < addr + |data| then data[a - addr] else mem[a]
    {
      mem[..addr] + data + mem[addr + |data|..]
    }

    /** One operation: `data` is stored, or power is lost. */
    method Store(addr: nat, data: seq<byte>) returns (ok: bool)
      requires addr + |data| <= |mem|
      modifies this`mem, this`alive, this`budget
      ensures |mem| == |old(mem)| && ok == alive && (alive ==> old(alive))
      ensures old(alive) ==> (alive <==> steady || old(budget) > 0)
      ensures forall a :: 0 <= a < |mem| && !(addr <= a < addr + |data|) ==> mem[a] == old(mem)[a]
      ensures ok ==> forall a :: addr <= a < addr + |data| ==> mem[a] == data[a - addr]
    {
      if !alive {
        return false;
      }
      if budget == 0 && !steady {
        alive := false;
        var leftover := junk;
        mem := Splice(addr, seq(|data|, i requires 0 <= i < |data| => leftover(addr + i)));
        return false;
      }
      budget := if steady then budget else budget - 1;
      mem := Splice(addr, data);
      ok := true;
    }

    /** Erased bytes are 0xFF. */
    method Erase(addr: nat, n: nat) returns (ok: bool)
      requires addr + n <= |mem|
      modifies this`mem, this`alive, this`budget
      ensures |mem| == |old(mem)| && ok == alive && (alive ==> old(alive))
      ensures old(alive) ==> (alive <==> steady || old(budget) > 0)
      ensures forall a :: 0 <= a < |mem| && !(addr <= a < addr + n) ==> mem[a] == old(mem)[a]
      ensures ok ==> forall a :: addr <= a < addr + n ==> mem[a] == 0xFF
    {
      ok := Store(addr, seq(n, _ => 0xFF));
    }

    /** A byte that is not erased is spoiled by writing to it. */
    method Program(addr: nat, data: seq<byte>) returns (ok: bool)
      requires addr + |data| <= |mem|
      modifies this`mem, this`alive, this`budget
      ensures |mem| == |old(mem)| && ok == alive && (alive ==> old(alive))
      ensures old(alive) ==> (alive <==> steady || old(budget) > 0)
      ensures forall a :: 0 <= a < |mem| && !(addr <= a < addr + |data|) ==> mem[a] == old(mem)[a]
      ensures ok ==> forall a :: addr <= a < addr + |data| && old(mem)[a] == 0xFF ==> mem[a] == data[a - addr]
    {
      var was, spoiled := mem, junk;
      ok := Store(addr, seq(|data|, i requires 0 <= i < |data| =>
        if was[addr + i] == 0xFF then data[i] else spoiled(addr + i)));
    }

    method SetStep(k: nat) returns (ok: bool)
      modifies this`step, this`alive, this`budget
      ensures ok == alive && (alive ==> old(alive))
      ensures old(alive) ==> (alive <==> steady || old(budget) > 0)
      ensures step == if ok then k else old(step)
    {
      if !alive {
        return false;
      }
      if budget == 0 && !steady {
        alive := false;
        return false;
      }
      budget := if steady then budget else budget - 1;
      step := k;
      ok := true;
    }
  }

  class InPlacePatch {
    const m: Memory
    const pr: PatchReader
    var patchSize: nat
    var state: S.State
    var ongoing: nat
    var toPos: nat
    var toSize: nat
    var segmentSize: nat
    var shiftSize: nat
    var chunkSize: nat
    // segment
    var index: nat
    var from: int
    var toOffset: nat
    var segSize: nat
    var segPos: nat

    ghost predicate Valid()
      reads this, pr
    {
      pr.Valid() && (!state.Init? && !state.Failed? ==> !pr.reader.Absent?)
    }

    ghost function Current(): View
      requires Valid()
      reads this, pr
    {
      View(state, toPos, toSize, chunkSize, index, from, toOffset, segSize, segPos, pr.size, pr.reader)
    }

    /** `detools_apply_patch_in_place_init`. */
    constructor (m: Memory, patchSize: nat)
      ensures Valid() && this.m == m && this.patchSize == patchSize && fresh(pr)
      ensures state.Init? && ongoing == 1 && pr.Rest() == [] && chunkSize == 0
    {
      this.m, this.patchSize, state, ongoing := m, patchSize, S.Init, 1;
      toPos, toSize, segmentSize, shiftSize, chunkSize := 0, 0, 0, 0, 0;
      index, from, toOffset, segSize, segPos := 0, 0, 0, 0, 0;
      pr := new PatchReader();
    }

    /** The steps before the ongoing one are done, and the memory shows it. */
    ghost predicate Sound(p: Plan)
      requires PlanOk(p)
      reads this, m
    {
      1 <= ongoing <= m.step + 1 && Safe(p, m.mem, m.step)
    }

    /** The ongoing step is not one that an earlier run completed. */
    ghost predicate Live()
      reads this, m
    {
      ongoing == m.step + 1
    }

    // -------------------------------------------------------------- memory access

    /** `in_place_is_step_completed`. */
    method IsStepCompleted() returns (ok: bool, completed: bool)
      ensures ok == m.alive
      ensures completed == (ongoing <= m.step)
    {
      ok := m.alive;
      completed := ongoing <= m.step;
    }

    /** `in_place_mem_read`: zeros for a completed step. */
    method MemRead(dst: array<byte>, src: nat, n: nat) returns (ok: bool)
      requires n <= dst.Length && src + n <= |m.mem|
      modifies dst
      ensures ok == m.alive
      ensures ok && ongoing > m.step ==> dst[..n] == m.mem[src..src + n]
    {
      var completed;
      ok, completed := IsStepCompleted();
      if !ok {
        return;
      }
      if !completed {
        forall i | 0 <= i < n {
          dst[i] := m.mem[src + i];
        }
        assert dst[..n] == m.mem[src..src + n];
      } else {
        forall i | 0 <= i < n {
          dst[i] := 0;
        }
      }
    }

    /** `in_place_mem_write`: nothing for a completed step. */
    method MemWrite(addr: nat, src: array<byte>, n: nat) returns (ok: bool)
      requires n <= src.Length && addr + n <= |m.mem|
      modifies m`mem, m`alive, m`budget
      ensures |m.mem| == |old(m.mem)| && ok == m.alive && (m.alive ==> old(m.alive))
      ensures old(m.alive) && !m.alive ==> !m.steady
      ensures ongoing <= m.step ==> m.mem == old(m.mem)
      ensures forall a :: 0 <= a < |m.mem| && !(addr <= a < addr + n) ==> m.mem[a] == old(m.mem)[a]
      ensures ok && ongoing > m.step ==>
        forall a :: addr <= a < addr + n && old(m.mem)[a] == 0xFF ==> m.mem[a] == src[a - addr]
    {
      var completed;
      ok, completed := IsStepCompleted();
      if ok && !completed {
        ok := m.Program(addr, src[..n]);
      }
    }

    /** `in_place_mem_erase`: nothing for a completed step. */
    method MemErase(addr: nat, n: nat) returns (ok: bool)
      requires addr + n <= |m.mem|
      modifies m`mem, m`alive, m`budget
      ensures |m.mem| == |old(m.mem)| && ok == m.alive && (m.alive ==> old(m.alive))
      ensures old(m.alive) && !m.alive ==> !m.steady
      ensures ongoing <= m.step ==> m.mem == old(m.mem)
      ensures forall a :: 0 <= a < |m.mem| && !(addr <= a < addr + n) ==> m.mem[a] == old(m.mem)[a]
      ensures ok && ongoing > m.step ==> forall a :: addr <= a < addr + n ==> m.mem[a] == 0xFF
    {
      var completed;
      ok, completed := IsStepCompleted();
      if ok && !completed {
        ok := m.Erase(addr, n);
      }
    }

    /** The ongoing step did all it had to, unless an earlier run did. */
    ghost predicate WindowFilled(p: Plan)
      requires PlanOk(p)
      reads this, m
    {
      Live() ==>
        forall a :: 0 <= a < |m.mem| && a < |p.g.image| && InWindow(p, ongoing, a) ==> m.mem[a] == IdealAt(p, ongoing, a)
    }

    /** `in_place_next_step`. */
    method NextStep(ghost p: Plan) returns (res: int)
      requires PlanOk(p) && Sound(p) && ongoing < Steps(p) && WindowFilled(p)
      modifies this`ongoing, m`step, m`alive, m`budget
      ensures Safe(p, m.mem, m.step) && (res == OK <==> m.alive) && res != ALREADY_DONE && res <= 0
      ensures m.alive ==> old(m.alive)
      ensures old(m.alive) && !m.alive ==> !m.steady
      ensures ongoing == old(ongoing) + 1
      ensures res == OK ==> Sound(p)
      ensures res == OK ==> m.step == if old(ongoing) <= old(m.step) then old(m.step) else old(ongoing)
    {
      res := OK;
      var ok, completed := IsStepCompleted();
      if !ok {
        ongoing := ongoing + 1;
        return STEP_GET_FAILED;
      }
      if !completed {
        StepDone(p, m.mem, m.step);
        ok := m.SetStep(ongoing);
        if !ok {
          res := STEP_SET_FAILED;
        }
      }
      ongoing := ongoing + 1;
    }

    // -------------------------------------------------------------- moving the old image

    /** The first `n` bytes of the segment being moved are there, and the others are erased. */
    ghost predicate Copied(p: Plan, writeAddress: nat, n: nat)
      requires PlanOk(p)
      reads this, m
    {
      && |m.mem| == |p.g.image| && p.g.shift <= writeAddress && writeAddress + n <= |m.mem|
      && (Live() ==> forall a :: writeAddress <= a < writeAddress + n ==> m.mem[a] == p.g.image[a - p.g.shift])
      && writeAddress + p.g.seg <= |m.mem|
      && (Live() ==> forall a :: writeAddress + n <= a < writeAddress + p.g.seg ==> m.mem[a] == 0xFF)
    }

    /** What a live step of the move reads is the old image. */
    method ReadOld(readAddress: nat, offset: nat, size: nat, buf: array<byte>, ghost p: Plan) returns (ok: bool)
      requires PlanOk(p) && Sound(p) && 1 <= ongoing <= p.g.count && m.alive
      requires readAddress == (p.g.count - ongoing) * p.g.seg
      requires offset + size <= p.g.seg && size <= buf.Length
      modifies buf
      ensures ok && readAddress + offset + size <= |p.g.image|
      ensures Live() ==> forall x :: 0 <= x < size ==> buf[x] == p.g.image[readAddress + offset + x]
    {
      hide IdealAt, InWindow;
      MoveReads(p, ongoing, readAddress, p.g.seg - 1);
      ok := MemRead(buf, readAddress + offset, size);
      if Live() {
        forall x | 0 <= x < size
          ensures buf[x] == p.g.image[readAddress + offset + x]
        {
          MoveReads(p, ongoing, readAddress, offset + x);
          assert buf[..size][x] == m.mem[readAddress + offset + x];
        }
      }
    }

    /** One round of the inner loop of `in_place_shift_memory`. */
    method CopyBlock(readAddress: nat, writeAddress: nat, offset: nat, size: nat, buf: array<byte>, ghost p: Plan)
      returns (ok: bool)
      requires PlanOk(p) && Sound(p) && 1 <= ongoing <= p.g.count && m.alive
      requires readAddress == (p.g.count - ongoing) * p.g.seg && writeAddress == readAddress + p.g.shift
      requires offset + size <= p.g.seg && size <= buf.Length && Copied(p, writeAddress, offset)
      modifies m`mem, m`alive, m`budget, buf
      ensures Safe(p, m.mem, m.step) && ok == m.alive && (m.steady ==> ok)
      ensures ok ==> Copied(p, writeAddress, offset + size)
    {
      MoveWrites(p, ongoing, readAddress, p.g.seg - 1);
      SafeSize(p, m.mem, m.step);
      ok := ReadOld(readAddress, offset, size, buf, p);
      if !ok {
        return;
      }
      hide Safe, IdealAt, InWindow;
      ghost var before := m.mem;
      ok := MemWrite(writeAddress + offset, buf, size);
      MoveSafe(p, before, readAddress, writeAddress + offset, size);
    }

    /** Whatever a step of the move does inside its segment leaves the memory safe. */
    lemma MoveSafe(p: Plan, before: seq<byte>, readAddress: nat, addr: nat, n: nat)
      requires PlanOk(p) && 1 <= ongoing <= p.g.count && ongoing <= m.step + 1
      requires Safe(p, before, m.step) && |m.mem| == |before|
      requires readAddress == (p.g.count - ongoing) * p.g.seg
      requires readAddress + p.g.shift <= addr && addr + n <= readAddress + p.g.shift + p.g.seg
      requires ongoing <= m.step ==> m.mem == before
      requires forall a :: 0 <= a < |m.mem| && !(addr <= a < addr + n) ==> m.mem[a] == before[a]
      ensures Safe(p, m.mem, m.step)
    {
      hide IdealAt;
      if Live() {
        SafeWindow(p, before, m.mem, m.step);
      }
    }

    /** One round of the outer loop of `in_place_shift_memory`: erase a segment and copy into it. */
    method CopySegment(readAddress: nat, writeAddress: nat, ghost p: Plan) returns (ok: bool)
      requires PlanOk(p) && Sound(p) && 1 <= ongoing <= p.g.count && segmentSize == p.g.seg && m.alive
      requires readAddress == (p.g.count - ongoing) * p.g.seg && writeAddress == readAddress + p.g.shift
      modifies m`mem, m`alive, m`budget
      ensures Safe(p, m.mem, m.step) && ok == m.alive && (m.steady ==> ok)
      ensures ok ==> WindowFilled(p)
    {
      MoveReads(p, ongoing, readAddress, p.g.seg - 1);
      MoveWrites(p, ongoing, readAddress, p.g.seg - 1);
      hide IdealAt;
      ok := MemErase(writeAddress, segmentSize);
      SafeWindow(p, old(m.mem), m.mem, m.step);
      if !ok {
        return;
      }
      hide Safe, InWindow;
      var buf := new byte[128];
      var offset := 0;
      while offset < segmentSize
        invariant 0 <= offset <= segmentSize && m.alive && Safe(p, m.mem, m.step)
        invariant Copied(p, writeAddress, offset)
        modifies m`mem, m`alive, m`budget, buf
      {
        var size := if segmentSize - offset < 128 then segmentSize - offset else 128;
        ok := CopyBlock(readAddress, writeAddress, offset, size, buf, p);
        if !ok {
          return;
        }
        offset := offset + size;
      }
      CopiedFills(p, readAddress, writeAddress);
    }

    lemma CopiedFills(p: Plan, readAddress: nat, writeAddress: nat)
      requires PlanOk(p) && 1 <= ongoing <= p.g.count
      requires readAddress == (p.g.count - ongoing) * p.g.seg && writeAddress == readAddress + p.g.shift
      requires Copied(p, writeAddress, p.g.seg)
      ensures WindowFilled(p)
    {
      forall a | 0 <= a < |m.mem| && a < |p.g.image| && InWindow(p, ongoing, a)
        ensures Live() ==> m.mem[a] == IdealAt(p, ongoing, a)
      {
        MoveWrites(p, ongoing, readAddress, a - writeAddress);
      }
    }

    /** `in_place_shift_memory`. */
    method ShiftMemory(memorySize: nat, fromSize: nat, ghost p: Plan) returns (res: int)
      requires PlanOk(p) && Sound(p) && ongoing == 1 && m.alive
      requires segmentSize == p.g.seg && shiftSize == p.g.shift <= memorySize
      requires p.g.count == MovedSegments(memorySize, segmentSize, shiftSize, fromSize)
      modifies this`ongoing, m`mem, m`step, m`alive, m`budget
      ensures Safe(p, m.mem, m.step) && (res == OK <==> m.alive) && (m.steady ==> m.alive) && res != ALREADY_DONE && res <= 0
      ensures res == OK ==> Sound(p) && ongoing == p.g.count + 1
      ensures res == OK && old(m.step) == 0 ==>
        |m.mem| == |p.g.image| && shiftSize + OldSize(memorySize, shiftSize, fromSize) <= |m.mem|
      ensures res == OK && old(m.step) == 0 ==>
        forall i :: 0 <= i < OldSize(memorySize, shiftSize, fromSize) ==> m.mem[shiftSize + i] == p.g.image[i]
    {
      hide Safe, InWindow;
      SegmentsBound(p);
      MoveCovers(memorySize, segmentSize, shiftSize, fromSize);
      var segments := (Min(fromSize, memorySize - shiftSize) + segmentSize - 1) / segmentSize;
      assert segments == p.g.count;
      var readAddress := (segments - 1) * segmentSize;
      var writeAddress := readAddress + shiftSize;
      res := OK;
      var i := 0;
      while i < segments
        invariant 0 <= i <= segments && ongoing == i + 1 && m.alive && Sound(p) && res == OK
        invariant readAddress == (segments - ongoing) * segmentSize && writeAddress == readAddress + shiftSize
        invariant old(m.step) == 0 ==> m.step == i
        modifies this`ongoing, m`mem, m`step, m`alive, m`budget
      {
        Descend(segments, ongoing, segmentSize);
        var ok := CopySegment(readAddress, writeAddress, p);
        if !ok {
          return S.IO_FAILED;
        }
        res := NextStep(p);
        if res != OK {
          return;
        }
        writeAddress := writeAddress - segmentSize;
        readAddress := readAddress - segmentSize;
        i := i + 1;
      }
      if old(m.step) == 0 {
        OldIsThere(memorySize, fromSize, p);
      }
    }

    lemma OldIsThere(memorySize: nat, fromSize: nat, p: Plan)
      requires PlanOk(p) && Safe(p, m.mem, m.step) && m.step == p.g.count && p.g.shift <= memorySize
      requires Covers(p.g.count, p.g.seg, OldSize(memorySize, p.g.shift, fromSize))
      ensures |m.mem| == |p.g.image| && p.g.shift + OldSize(memorySize, p.g.shift, fromSize) <= |m.mem|
      ensures forall i :: 0 <= i < OldSize(memorySize, p.g.shift, fromSize) ==> m.mem[p.g.shift + i] == p.g.image[i]
    {
      SafeSize(p, m.mem, m.step);
      hide Safe, OldSize;
      forall i | 0 <= i < OldSize(memorySize, p.g.shift, fromSize)
        ensures m.mem[p.g.shift + i] == p.g.image[i]
      {
        OldImageMoved(p, m.mem, i);
      }
    }

    // -------------------------------------------------------------- the state between steps

    ghost predicate Geared(p: Plan)
      reads this
    {
      segmentSize == p.g.seg && shiftSize == p.g.shift && toSize == |p.target|
    }

    /** Before a segment: everything below it is done. */
    ghost predicate AtSegment(p: Plan)
      requires PlanOk(p)
      reads this, m
    {
      Geared(p) && Sound(p) && ongoing == p.g.count + 1 + index && toPos == index * p.g.seg < toSize
    }

    /** Inside a segment: the ongoing step has written the first `segPos` bytes of it. */
    ghost predicate InSegment(p: Plan)
      requires PlanOk(p)
      reads this, m
    {
      Placed(p) && ErasedFrom(toPos)
    }

    /** What is still to be written of the segment is erased. */
    ghost predicate ErasedFrom(start: nat)
      reads this, m
    {
      Live() ==> forall a :: start <= a < toOffset + segSize && a < |m.mem| ==> m.mem[a] == 0xFF
    }

    ghost predicate Placed(p: Plan)
      requires PlanOk(p)
      reads this, m
    {
      && Geared(p) && Sound(p) && 1 <= index && ongoing == p.g.count + index
      && toOffset == (index - 1) * p.g.seg < toSize
      && segSize == Min(p.g.seg, toSize - toOffset)
      && segPos <= segSize && toPos == toOffset + segPos
      && (state.DiffData? || state.ExtraData? ==> segPos + chunkSize <= segSize)
      && (Live() ==> forall a :: toOffset <= a < toPos ==> m.mem[a] == p.target[a])
    }

    /** Feeding `input`, the rest of the patch, will complete the update. */
    ghost predicate Ready(p: Plan, input: seq<byte>)
      reads this, m, pr
    {
      && Valid() && PlanOk(p)
      && match state
         case Init => Sound(p) && ongoing == 1 && chunkSize == 0 && PatchFor(p, input, patchSize)
         case Failed => false
         case Done => Finished(p, m.mem) && m.step == 0 && Geared(p) && Run(Current(), input, p.g) == S.Accept([])
         case DfpatchSize => AtSegment(p) && Run(Current(), input, p.g) == S.Accept(p.target[toPos..])
         case _ => InSegment(p) && Run(Current(), input, p.g) == S.Accept(p.target[toPos..])
    }

    lemma ReadySegment(p: Plan, input: seq<byte>)
      requires Valid() && PlanOk(p) && state.DfpatchSize? && AtSegment(p)
      requires Run(Current(), input, p.g) == S.Accept(p.target[toPos..])
      ensures Ready(p, input)
    {
    }

    lemma AtData(p: Plan, input: seq<byte>)
      requires Ready(p, input) && InData(Current())
      ensures PlanOk(p) && GeometryOk(p.g) && InSegment(p) && toPos <= |p.target|
      ensures Run(Current(), input, p.g) == S.Accept(p.target[toPos..])
    {
    }

    lemma ReadyEdit(p: Plan, input: seq<byte>)
      requires Valid() && PlanOk(p) && !state.DfpatchSize? && InSegment(p)
      requires !state.Init? && !state.Failed? && !state.Done?
      requires Run(Current(), input, p.g) == S.Accept(p.target[toPos..])
      ensures Ready(p, input)
    {
    }

    lemma ReadyDone(p: Plan, input: seq<byte>)
      requires Valid() && PlanOk(p) && state.Done? && Finished(p, m.mem) && m.step == 0 && Geared(p)
      requires Run(Current(), input, p.g) == S.Accept([])
      ensures Ready(p, input)
    {
    }

    /** A step went well, or power was lost and the memory can still be taken up. */
    ghost predicate Outcome(p: Plan, res: int, future: seq<byte>)
      reads this, m, pr
    {
      && pr.Valid() && PlanOk(p) && res != ALREADY_DONE
      && (res >= 0 ==> Valid() && (res == OK || res == MORE_INPUT) && m.alive && !state.Init? && Ready(p, pr.Rest() + future))
      && (res == MORE_INPUT ==> pr.Rest() == [] && future != [])
      && (res < 0 ==> !m.alive && !m.steady && Safe(p, m.mem, m.step))
    }

    ghost predicate Progress(chunk: seq<byte>, was: Reader, state0: S.State)
      requires Valid()
      reads this, pr
    {
      || |pr.Rest()| < |chunk|
      || (pr.Rest() == chunk && Held(pr.reader) < Held(was))
      || (pr.Rest() == chunk && pr.reader == was && S.Rank(state) < S.Rank(state0))
    }

    // -------------------------------------------------------------- the steps of the patcher

    /** `patch_reader_unpack_size`, seen from a state that waits for a number. */
    method UnpackNumber(ghost future: seq<byte>, ghost p: Plan) returns (res: int, value: int)
      requires Valid() && Ready(p, pr.Rest() + future) && InNumber(Current()) && m.alive
      modifies pr`offset, pr`reader, pr`size
      ensures res == OK || res == MORE_INPUT
      ensures res == MORE_INPUT ==> Outcome(p, res, future)
      ensures res == OK ==>
        && Valid() && Progress(old(pr.Rest()), old(pr.reader), state) && pr.size == SIZE_FIRST
        && -0x800_0000 < value < 0x800_0000
        && var next := AfterSize(Current(), value, p.g);
        && next.NextView?
        && Run(next.view, pr.Rest() + future, p.g) == S.Accept(p.target[toPos..])
    {
      hide Run, PullSize, Pull, Safe;
      ghost var v, input := Current(), pr.Rest() + future;
      AcceptedNumber(v, input, p.g);
      res, value := pr.UnpackSize(future);
      if res == MORE_INPUT {
        assert pr.Rest() + future == future;
        SameNumber(v, input, pr.size, pr.reader, future, p.g);
      }
    }

    /** `in_place_process_dfpatch_size`: a segment begins. */
    method ProcessDfpatchSize(ghost future: seq<byte>, ghost p: Plan) returns (res: int)
      requires Valid() && Ready(p, pr.Rest() + future) && state.DfpatchSize? && m.alive
      modifies this, m`mem, m`step, m`alive, m`budget, pr`offset, pr`reader, pr`size
      ensures Outcome(p, res, future)
      ensures res == OK ==> Progress(old(pr.Rest()), old(pr.reader), old(state))
    {
      hide Run, Safe, Steps, Finished;
      assert AtSegment(p);
      var size;
      res, size := UnpackNumber(future, p);
      if res != OK {
        return;
      }
      hide Ready;
      if size > 0 {
        return S.NOT_IMPLEMENTED;
      }
      ghost var next := AfterSize(Current(), size, p.g).view;
      assert next == AfterDfpatch(Current(), p.g).view;
      BeginSegment(p);
      hide InSegment, AtSegment;
      var ok := EraseSegment(p);
      if !ok {
        return S.IO_FAILED;
      }
      ReadyEdit(p, pr.Rest() + future);
    }

    /** The place of the segment in the memory, and of the source it reads. */
    method BeginSegment(ghost p: Plan)
      requires Valid() && PlanOk(p) && AtSegment(p) && state.DfpatchSize?
      modifies this`state, this`from, this`toOffset, this`segSize, this`segPos, this`index
      ensures Valid() && Placed(p) && segPos == 0 && state.DiffSize?
      ensures AfterDfpatch(old(Current()), p.g) == NextView(Current())
    {
      hide Safe, Steps, IdealAt;
      state := S.DiffSize;
      from := if segmentSize * (index + 1) > shiftSize then segmentSize * (index + 1) else shiftSize;
      toOffset := index * segmentSize;
      segSize := Min(segmentSize, toSize - toOffset);
      segPos := 0;
      index := index + 1;
    }

    method EraseSegment(ghost p: Plan) returns (ok: bool)
      requires PlanOk(p) && Placed(p) && segPos == 0 && !state.DiffData? && !state.ExtraData?
      modifies m`mem, m`alive, m`budget
      ensures Safe(p, m.mem, m.step) && ok == m.alive && (ok ==> InSegment(p))
      ensures old(m.alive) && !m.alive ==> !m.steady
    {
      ghost var before := m.mem;
      SafeSize(p, m.mem, m.step);
      hide Safe;
      ok := MemErase(toOffset, segSize);
      SegmentSafe(p, before, index - 1, toOffset, segSize);
    }

    /** Whatever a segment's step does inside its segment leaves the memory safe. */
    lemma SegmentSafe(p: Plan, before: seq<byte>, j: nat, addr: nat, n: nat)
      requires PlanOk(p) && 1 <= ongoing <= m.step + 1 && Safe(p, before, m.step) && |m.mem| == |before|
      requires ongoing == p.g.count + 1 + j
      requires j * p.g.seg <= addr && addr + n <= j * p.g.seg + p.g.seg && addr + n <= |p.target|
      requires ongoing <= m.step ==> m.mem == before
      requires forall a :: 0 <= a < |m.mem| && !(addr <= a < addr + n) ==> m.mem[a] == before[a]
      ensures Safe(p, m.mem, m.step)
    {
      hide IdealAt;
      if Live() {
        SafeWindow(p, before, m.mem, m.step);
      }
    }

    /** `in_place_process_size`. */
    method ProcessSize(nextState: S.State, ghost future: seq<byte>, ghost p: Plan) returns (res: int)
      requires Valid() && Ready(p, pr.Rest() + future) && m.alive
      requires (state.DiffSize? && nextState.DiffData?) || (state.ExtraSize? && nextState.ExtraData?)
      modifies this, pr`offset, pr`reader, pr`size
      ensures Outcome(p, res, future)
      ensures res == OK ==> Progress(old(pr.Rest()), old(pr.reader), old(state))
    {
      hide Run, Safe, Finished;
      assert InSegment(p);
      var size;
      res, size := UnpackNumber(future, p);
      if res != OK {
        return;
      }
      hide Ready;
      ghost var next := AfterSize(Current(), size, p.g).view;
      assert 0 <= size <= segSize - segPos && next == Current().(state := nextState, chunkSize := size);
      hide AfterSize;
      res := BeginData(nextState, size, p);
      hide InSegment;
      ReadyEdit(p, pr.Rest() + future);
    }

    /** The second half of `in_place_process_size`: the bound check, on 32-bit unsigned numbers. */
    method BeginData(nextState: S.State, size: int, ghost p: Plan) returns (res: int)
      requires Valid() && PlanOk(p) && InSegment(p) && !state.Init? && !state.Failed?
      requires nextState.DiffData? || nextState.ExtraData?
      requires 0 <= size <= segSize - segPos && size < 0x800_0000
      modifies this`state, this`chunkSize
      ensures res == OK && Valid() && InSegment(p)
      ensures Current() == old(Current()).(state := nextState, chunkSize := size)
    {
      hide IdealAt, InWindow, Safe;
      PassesUnsigned(toPos, size, toSize);
      var usize := size % S.SIZE_MOD;
      if (toPos + usize) % S.SIZE_MOD > toSize {
        return CORRUPT_PATCH;
      }
      res := OK;
      state := nextState;
      chunkSize := usize;
    }

    /** A size that fits passes the bound check unchanged. */
    static lemma PassesUnsigned(pos: nat, size: nat, limit: nat)
      requires pos + size <= limit && size < 0x800_0000
      ensures size % S.SIZE_MOD == size && (pos + size) % S.SIZE_MOD <= limit
    {
    }

    /** The last segment is written: `in_place_all_steps_completed`. */
    method Complete(ghost p: Plan) returns (res: int)
      requires PlanOk(p) && InSegment(p) && toPos == toSize && m.alive
      modifies this`state, m`step, m`alive, m`budget
      ensures (res == OK <==> m.alive) && (m.steady ==> m.alive) && res <= 0 && res != ALREADY_DONE && state.Done?
      ensures res != OK ==> Safe(p, m.mem, m.step)
      ensures res == OK ==> Finished(p, m.mem) && m.step == 0
    {
      hide Safe, Finished, IdealAt;
      SegmentCount(p, index - 1);
      SegmentCount(p, index);
      SafeSize(p, m.mem, m.step);
      SegmentWritten(p);
      LastStepDone(p, m.mem, m.step);
      var ok := m.SetStep(0);
      res := if ok then OK else STEP_SET_FAILED;
      state := S.Done;
    }

    /** A segment is written and there are more. */
    method EndSegment(ghost p: Plan) returns (res: int)
      requires PlanOk(p) && InSegment(p) && toPos != toSize && segPos == segSize && m.alive
      modifies this`ongoing, this`state, m`step, m`alive, m`budget
      ensures (res == OK <==> m.alive) && (m.steady ==> m.alive) && res <= 0 && res != ALREADY_DONE && state.DfpatchSize?
      ensures Safe(p, m.mem, m.step)
      ensures res == OK ==> AtSegment(p)
    {
      hide Safe, Finished, IdealAt, InWindow;
      SegmentCount(p, index);
      SegmentWritten(p);
      res := NextStep(p);
      state := S.DfpatchSize;
    }

    /** `in_place_process_adjustment`: on to the next edit, to the next segment, or done. */
    method ProcessAdjustment(ghost future: seq<byte>, ghost p: Plan) returns (res: int)
      requires Valid() && Ready(p, pr.Rest() + future) && state.Adjustment? && m.alive
      modifies this, m`mem, m`step, m`alive, m`budget, pr`offset, pr`reader, pr`size
      ensures Outcome(p, res, future)
      ensures res == OK ==> Progress(old(pr.Rest()), old(pr.reader), old(state))
    {
      hide Run, Safe, Finished, AtSegment;
      assert InSegment(p);
      assert p.target[|p.target|..] == [];
      var offset;
      res, offset := UnpackNumber(future, p);
      if res != OK {
        return;
      }
      hide Ready;
      ghost var next := AfterSize(Current(), offset, p.g).view;
      if toPos == toSize {
        res := Complete(p);
        hide InSegment;
        if res == OK {
          assert Current() == next;
          ReadyDone(p, pr.Rest() + future);
        }
      } else if segPos == segSize {
        res := EndSegment(p);
        hide InSegment;
        if res == OK {
          assert Current() == next;
          ReadySegment(p, pr.Rest() + future);
        }
      } else {
        from := from + offset;
        state := S.DiffSize;
        assert Current() == next;
        ReadyEdit(p, pr.Rest() + future);
      }
    }

    /** A segment written to its end fills the window of its step. */
    lemma SegmentWritten(p: Plan)
      requires PlanOk(p) && InSegment(p) && (segPos == segSize || toPos == toSize)
      ensures WindowFilled(p)
      ensures toPos == index * p.g.seg || toPos == toSize
    {
      hide Safe, ErasedFrom, IdealAt;
      assert index * p.g.seg == (index - 1) * p.g.seg + p.g.seg;
      if Live() {
        forall a | 0 <= a < |m.mem| && a < |p.g.image| && InWindow(p, ongoing, a)
          ensures m.mem[a] == IdealAt(p, ongoing, a)
        {
          SegmentWrites(p, index - 1, a);
        }
      }
    }

    /** `patch_reader_decompress`, seen from a state that has data to come. */
    method ReadBlock(buf: array<byte>, request: nat, ghost future: seq<byte>, ghost p: Plan) returns (res: int, n: nat)
      requires Valid() && Ready(p, pr.Rest() + future) && InData(Current()) && m.alive
      requires 1 <= request <= buf.Length && request <= chunkSize
      modifies pr`offset, pr`reader, pr`size, buf
      ensures res == OK || res == MORE_INPUT
      ensures res == MORE_INPUT ==> Outcome(p, res, future)
      ensures res == OK ==>
        && Valid() && Progress(old(pr.Rest()), old(pr.reader), state) && 1 <= n <= request && pr.size == old(pr.size)
        && (state.DiffData? ==> ReadLegal(Current(), p.g, n))
        && toPos + n <= |p.target| && Combine(Current(), buf[..n], p.g) == p.target[toPos..toPos + n]
        && Run(DataDone(Current(), n, pr.reader), pr.Rest() + future, p.g) == S.Accept(p.target[toPos + n..])
    {
      hide PlanOk, GeometryOk, Ready, InSegment, Run, Pull, PullSize, PullN, Safe, Finished, Combine, ReadLegal, AtSegment, IdealAt;
      AtData(p, pr.Rest() + future);
      ghost var v, input := Current(), pr.Rest() + future;
      AcceptedByte(v, input, p.g);
      AcceptedBlock(v, input, p.g, request);
      res, n := pr.Decompress(buf, request, future);
      if res == OK && n > 0 {
        AcceptedBlock(v, input, p.g, n);
        assert DataDone(v, n, pr.reader) == DataDone(Current(), n, pr.reader);
        SameCombine(v, pr.reader, buf[..n], p.g);
        TargetSplit(p.target, toPos, Combine(v, buf[..n], p.g),
                    Run(DataDone(v, n, pr.reader), pr.Rest() + future, p.g));
      } else if res == MORE_INPUT {
        assert pr.Rest() + future == future;
        SameData(v, input, pr.reader, future, p.g);
        assert Current() == v.(reader := pr.reader);
        ReadyEdit(p, pr.Rest() + future);
      }
    }

    /** The moved old image's part in a block of diff data; zeros if the step is completed. */
    method AddFrom(buf: array<byte>, n: nat, ghost p: Plan) returns (ok: bool)
      requires PlanOk(p) && InSegment(p) && m.alive && state.DiffData?
      requires 1 <= n <= 128 <= buf.Length && n <= chunkSize
      requires Valid() && ReadLegal(Current(), p.g, n)
      modifies this`from, buf
      ensures ok && from == old(from) + n
      ensures Live() ==> buf[..n] == old(Combine(Current(), buf[..n], p.g))
    {
      var src := new byte[128];
      ok := ReadMoved(src, n, p);
      hide InSegment;
      from := from + n;
      S.AddSource(buf, src, n);
    }

    /** Read the next part of the moved old image. */
    method ReadMoved(src: array<byte>, n: nat, ghost p: Plan) returns (ok: bool)
      requires PlanOk(p) && InSegment(p) && m.alive && n <= src.Length
      requires Valid() && ReadLegal(Current(), p.g, n)
      modifies src
      ensures ok
      ensures Live() ==> src[..n] == p.g.image[from - p.g.shift..from - p.g.shift + n]
    {
      hide Safe, Finished;
      assert from + n <= p.g.shift + p.g.count * p.g.seg <= |p.g.image|;
      SafeSize(p, m.mem, m.step);
      ok := MemRead(src, from, n);
      if Live() {
        MovedRead(p, n);
      }
    }

    /** What a live segment reads is the old image. */
    lemma MovedRead(p: Plan, n: nat)
      requires PlanOk(p) && InSegment(p) && Live() && Valid() && ReadLegal(Current(), p.g, n)
      ensures |m.mem| == |p.g.image|
      ensures m.mem[from..from + n] == p.g.image[from - p.g.shift..from - p.g.shift + n]
    {
      forall a: nat | from <= a < from + n
        ensures a < |m.mem| && m.mem[a] == p.g.image[a - p.g.shift]
      {
        SegmentReads(p, index - 1, a);
      }
    }

    /** `in_place_process_data`. */
    method ProcessData(nextState: S.State, ghost future: seq<byte>, ghost p: Plan) returns (res: int)
      requires Valid() && Ready(p, pr.Rest() + future) && m.alive
      requires (state.DiffData? && nextState.ExtraSize?) || (state.ExtraData? && nextState.Adjustment?)
      modifies this, m`mem, m`step, m`alive, m`budget, pr`offset, pr`reader, pr`size
      ensures Outcome(p, res, future)
      ensures res == OK ==> Progress(old(pr.Rest()), old(pr.reader), old(state))
    {
      hide Run, Safe, Finished, Combine, ReadLegal;
      assert InSegment(p);
      var n := if chunkSize < 128 then chunkSize else 128;
      if n == 0 {
        DataOver(Current(), pr.Rest() + future, p.g);
        hide Ready;
        state := nextState;
        ReadyEdit(p, pr.Rest() + future);
        return OK;
      }
      var buf := new byte[128];
      res, n := ReadBlock(buf, n, future, p);
      if res != OK {
        return;
      }
      hide InSegment, Ready;
      var ok := StoreBlock(buf, n, p);
      if !ok {
        return S.IO_FAILED;
      }
      ReadyEdit(p, pr.Rest() + future);
    }

    /** The second half of `in_place_process_data`: the block goes to memory. */
    method StoreBlock(buf: array<byte>, n: nat, ghost p: Plan) returns (ok: bool)
      requires Valid() && PlanOk(p) && InSegment(p) && InData(Current()) && m.alive
      requires 1 <= n <= chunkSize && n <= 128 <= buf.Length && toPos + n <= |p.target|
      requires state.DiffData? ==> ReadLegal(Current(), p.g, n)
      requires Combine(Current(), buf[..n], p.g) == p.target[toPos..toPos + n]
      modifies this`from, this`toPos, this`segPos, this`chunkSize, m`mem, m`alive, m`budget, buf
      ensures Safe(p, m.mem, m.step) && ok == m.alive && (m.steady ==> ok)
      ensures ok ==> Valid() && InSegment(p) && Current() == DataDone(old(Current()), n, pr.reader)
    {
      ghost var v := Current();
      assert v.state.ExtraData? ==> buf[..n] == p.target[toPos..toPos + n];
      hide Safe, Finished, Combine, ReadLegal;
      if state.DiffData? {
        ok := AddFrom(buf, n, p);
        if !ok {
          return;
        }
      }
      ok := WriteBlock(buf, n, p);
      if !ok {
        return;
      }
      toPos := toPos + n;
      segPos := segPos + n;
      chunkSize := chunkSize - n;
    }

    /** The write of `in_place_process_data`, at the segment's own position. */
    method WriteBlock(buf: array<byte>, n: nat, ghost p: Plan) returns (ok: bool)
      requires PlanOk(p) && InSegment(p) && n <= buf.Length && segPos + n <= segSize
      requires Live() ==> toPos + n <= |p.target| && buf[..n] == p.target[toPos..toPos + n]
      modifies m`mem, m`alive, m`budget
      ensures Safe(p, m.mem, m.step) && ok == m.alive
      ensures old(m.alive) && !m.alive ==> !m.steady
      ensures ok ==> Placed(p) && ErasedFrom(toPos + n)
      ensures ok && Live() ==> forall a :: toOffset <= a < toPos + n ==> m.mem[a] == p.target[a]
    {
      ghost var before := m.mem;
      SafeSize(p, m.mem, m.step);
      hide Safe;
      ok := MemWrite(segPos + toOffset, buf, n);
      SegmentSafe(p, before, index - 1, toPos, n);
      if Live() && ok {
        forall a | toPos <= a < toPos + n
          ensures m.mem[a] == p.target[a]
        {
          assert buf[..n][a - toPos] == p.target[toPos..toPos + n][a - toPos];
        }
      }
    }

    /** The five sizes of the header. */
    method ReadSizes() returns (res: int, memorySize: nat, seg: nat, shift: nat, fromSize: nat, newSize: nat)
      requires pr.Valid()
      modifies pr`offset
      ensures pr.Valid() && |pr.Rest()| <= |old(pr.Rest())|
      ensures var p := ParseSizes(5, old(pr.Rest()));
        if res == OK then p == SizesGot([memorySize, seg, shift, fromSize, newSize], pr.Rest()) else !p.SizesGot?
    {
      hide ParseSizes, ParseHeaderSize;
      memorySize, seg, shift, fromSize, newSize := 0, 0, 0, 0, 0;
      SizesStep(5, pr.Rest());
      res, memorySize := pr.UnpackHeaderSize();
      if res != OK {
        return;
      }
      SizesStep(4, pr.Rest());
      res, seg := pr.UnpackHeaderSize();
      if res != OK {
        return;
      }
      SizesStep(3, pr.Rest());
      res, shift := pr.UnpackHeaderSize();
      if res != OK {
        return;
      }
      SizesStep(2, pr.Rest());
      res, fromSize := pr.UnpackHeaderSize();
      if res != OK {
        return;
      }
      SizesStep(1, pr.Rest());
      res, newSize := pr.UnpackHeaderSize();
      NoSizes(pr.Rest());
    }

    /** `in_place_read_header`. */
    method ReadHeader()
      returns (res: int, compression: nat, memorySize: nat, seg: nat, shift: nat, fromSize: nat, newSize: nat)
      requires pr.Valid() && pr.offset == 0
      modifies pr`offset
      ensures pr.Valid() && |pr.Rest()| <= |old(pr.Rest())|
      ensures res == OK <==> ParseHeader(old(pr.Rest())).HeaderOk?
      ensures res == OK ==>
        && ParseHeader(old(pr.Rest())) == HeaderOk(compression, memorySize, seg, shift, fromSize, newSize, pr.Rest())
        && pr.offset == |old(pr.Rest())| - |pr.Rest()| > 0
    {
      hide ParseSizes;
      compression, memorySize, seg, shift, fromSize, newSize := 0, 0, 0, 0, 0, 0;
      ghost var chunk := pr.Rest();
      var b: byte;
      res, b := pr.ChunkGet();
      if res != OK {
        res := SHORT_HEADER;
        return;
      }
      assert chunk[0] == b && chunk[1..] == pr.Rest();
      if (b / 16) % 8 != PATCH_TYPE_IN_PLACE {
        res := S.BAD_PATCH_TYPE;
        return;
      }
      compression := b % 16;
      res, memorySize, seg, shift, fromSize, newSize := ReadSizes();
    }

    /** The first half of `in_place_process_init`: header, reader and fields. */
    method Begin() returns (res: int, memorySize: nat, fromSize: nat)
      requires pr.Valid() && pr.offset == 0
      modifies this`toPos, this`segmentSize, this`shiftSize, this`toSize, this`index
      modifies this`from, this`toOffset, this`segSize, this`segPos, pr`offset, pr`reader, pr`size
      ensures pr.Valid() && |pr.Rest()| <= |old(pr.Rest())|
      ensures var h := ParseHeader(old(pr.Rest()));
        h.HeaderOk? ==>
          var r := InitialReader((patchSize - (|old(pr.Rest())| - |h.rest|)) % S.SIZE_MOD, h.compression);
          !r.Absent? ==>
            && res == OK && pr.reader == r && pr.size == SIZE_FIRST && pr.Rest() == h.rest && |h.rest| < |old(pr.Rest())|
            && memorySize == h.memorySize && segmentSize == h.seg && shiftSize == h.shift
            && fromSize == h.fromSize && toSize == h.toSize
            && toPos == 0 && index == 0 && from == 0 && toOffset == 0 && segSize == 0 && segPos == 0
    {
      hide ParseHeader, ReaderOk, SizeOk;
      var compression, seg, shift, newSize;
      res, compression, memorySize, seg, shift, fromSize, newSize := ReadHeader();
      if res != OK {
        return;
      }
      res := pr.Init((patchSize - pr.offset) % S.SIZE_MOD, compression);
      if res != OK {
        return;
      }
      toPos := 0;
      segmentSize := seg;
      shiftSize := shift;
      toSize := newSize;
      index := 0;
      from, toOffset, segSize, segPos := 0, 0, 0, 0;  // unset in the source until a segment begins
    }

    /** The second half of `in_place_process_init`: move the old image, if there is a new one. */
    method Move(memorySize: nat, fromSize: nat, ghost p: Plan) returns (res: int)
      requires PlanOk(p) && Sound(p) && ongoing == 1 && Geared(p) && index == 0 && toPos == 0 && m.alive
      requires toSize > 0 ==> shiftSize <= memorySize && p.g.count == MovedSegments(memorySize, segmentSize, shiftSize, fromSize)
      modifies this`ongoing, this`state, m`mem, m`step, m`alive, m`budget
      ensures (res == OK <==> m.alive) && (m.steady ==> m.alive) && res <= 0 && res != ALREADY_DONE && Safe(p, m.mem, m.step)
      ensures res == OK ==> state == if toSize > 0 then S.DfpatchSize else S.Done
      ensures res == OK && toSize > 0 ==> AtSegment(p)
      ensures res == OK && toSize == 0 ==> Finished(p, m.mem) && m.step == 0
    {
      hide Safe, Finished, MovedSegments;
      res := OK;
      if toSize > 0 {
        res := ShiftMemory(memorySize, fromSize, p);
        if res != OK {
          return;
        }
        state := S.DfpatchSize;
      } else {
        NothingToDo(p, m.mem, m.step);
        state := S.Done;
      }
    }

    /** Move the old image; what is left of the patch then completes the update. */
    method Launch(memorySize: nat, fromSize: nat, ghost future: seq<byte>, ghost p: Plan) returns (res: int)
      requires PlanOk(p) && Sound(p) && ongoing == 1 && Geared(p) && m.alive
      requires pr.Valid() && !pr.reader.Absent? && pr.size == SIZE_FIRST
      requires toPos == 0 && chunkSize == 0 && index == 0 && from == 0 && toOffset == 0 && segSize == 0 && segPos == 0
      requires toSize > 0 ==> shiftSize <= memorySize && p.g.count == MovedSegments(memorySize, segmentSize, shiftSize, fromSize)
      requires Run(StartView(toSize, pr.reader), pr.Rest() + future, p.g) == S.Accept(p.target)
      modifies this`ongoing, this`state, m`mem, m`step, m`alive, m`budget
      ensures Outcome(p, res, future) && res <= 0
    {
      hide Run, Safe, Finished, MovedSegments, AtSegment, GeometryOk, PlanOk, Ready;
      res := Move(memorySize, fromSize, p);
      if res != OK {
        return;
      }
      assert Current() == StartView(toSize, pr.reader);
      assert p.target[0..] == p.target;
      if toSize > 0 {
        ReadySegment(p, pr.Rest() + future);
      } else {
        ReadyDone(p, pr.Rest() + future);
      }
    }

    /** `in_place_process_init`: read the header and move the old image. */
    method ProcessInit(ghost future: seq<byte>, ghost p: Plan) returns (res: int)
      requires Valid() && state.Init? && m.alive && PlanOk(p) && Sound(p) && ongoing == 1 && chunkSize == 0
      requires PatchFor(p, pr.Rest() + future, patchSize)
      requires pr.offset == 0 && !ParseHeader(pr.Rest()).HeaderIncomplete?
      modifies this, m`mem, m`step, m`alive, m`budget, pr`offset, pr`reader, pr`size
      ensures Outcome(p, res, future)
      ensures res == OK ==> Progress(old(pr.Rest()), old(pr.reader), old(state))
    {
      PatchStarts(p, pr.Rest(), future, patchSize);
      hide Run, Safe, ParseHeader, Finished, MovedSegments, PatchFor, InitialReader, Steps;
      var memorySize, fromSize;
      res, memorySize, fromSize := Begin();
      if res != OK {
        return;
      }
      res := Launch(memorySize, fromSize, future, p);
    }

    /** `apply_patch_in_place_process_once`. */
    method Once(ghost future: seq<byte>, ghost p: Plan) returns (res: int)
      requires Valid() && Ready(p, pr.Rest() + future) && m.alive
      requires state.Init? ==> pr.offset == 0 && !ParseHeader(pr.Rest()).HeaderIncomplete?
      modifies this, m`mem, m`step, m`alive, m`budget, pr`offset, pr`reader, pr`size
      ensures Valid() && !state.Init? && (res < 0 ==> state.Failed?)
      ensures old(state.Done?) <==> res == ALREADY_DONE
      ensures res == ALREADY_DONE ==> Finished(p, m.mem) && m.step == 0 && m.alive && toSize == |p.target| && MayEnd(pr.reader)
      ensures res != ALREADY_DONE ==> Outcome(p, res, future)
      ensures res == OK ==> Progress(old(pr.Rest()), old(pr.reader), old(state))
    {
      hide Run, Safe, ParseHeader, Finished;
      DoneOrFailed(Current(), pr.Rest() + future, p.g);
      match state {
        case Init => res := ProcessInit(future, p);
        case DfpatchSize => res := ProcessDfpatchSize(future, p);
        case DiffSize => res := ProcessSize(S.DiffData, future, p);
        case DiffData => res := ProcessData(S.ExtraSize, future, p);
        case ExtraSize => res := ProcessSize(S.ExtraData, future, p);
        case ExtraData => res := ProcessData(S.Adjustment, future, p);
        case Adjustment => res := ProcessAdjustment(future, p);
        case Done => res := ALREADY_DONE;
        case Failed => res := S.ALREADY_FAILED;
      }
      if res < 0 {
        state := S.Failed;
      }
    }

    /** `detools_apply_patch_in_place_process`. */
    method Process(chunk: seq<byte>, ghost future: seq<byte>, ghost p: Plan) returns (res: int)
      requires Valid() && Ready(p, chunk + future) && m.alive
      requires state.Init? ==> chunk == [] || !ParseHeader(chunk).HeaderIncomplete?
      modifies this, m`mem, m`step, m`alive, m`budget, pr
      ensures res <= 0 && Valid()
      ensures res == OK ==> m.alive && Ready(p, future) && (chunk != [] || old(!state.Init?) ==> !state.Init?)
      ensures res < 0 ==> !m.alive && !m.steady && Safe(p, m.mem, m.step) && state.Failed?
    {
      hide Run, Safe, ParseHeader, Finished;
      res := OK;
      pr.buf := chunk;
      pr.offset := 0;
      assert pr.Rest() == chunk;
      var available := pr.ChunkAvailable();
      while available && res >= 0
        invariant Valid() && (available <==> pr.Rest() != [])
        invariant res in {OK, MORE_INPUT} || (res < 0 && !m.alive && !m.steady && Safe(p, m.mem, m.step) && state.Failed?)
        invariant res == MORE_INPUT ==> !available
        invariant res >= 0 ==> m.alive && Ready(p, pr.Rest() + future)
        invariant state.Init? ==> old(state.Init?) && pr.offset == 0 && pr.Rest() == chunk && (chunk != [] ==> available)
        decreases res >= 0, |pr.Rest()|, Held(pr.reader), S.Rank(state)
      {
        DoneOrFailed(Current(), pr.Rest() + future, p.g);
        res := Once(future, p);
        available := pr.ChunkAvailable();
      }
      if res >= 0 {
        assert pr.Rest() + future == future;
      }
      if res == MORE_INPUT {
        res := OK;
      }
    }

    /** Nothing is left to feed, so the header is behind. */
    method EndInput(ghost p: Plan)
      requires Valid() && Ready(p, [])
      modifies pr`buf, pr`offset
      ensures PlanOk(p) && Valid() && Ready(p, []) && !state.Init? && pr.buf == [] && pr.offset == 0
    {
      hide Run, Safe, Finished, InSegment, AtSegment, Sound;
      NoHeader();
      pr.buf := [];
      pr.offset := 0;
    }

    /** `detools_apply_patch_in_place_finalize`. */
    method Finalize(ghost p: Plan) returns (res: int)
      requires Valid() && Ready(p, []) && m.alive
      modifies this, m`mem, m`step, m`alive, m`budget, pr
      ensures res < 0 ==> !m.alive && !m.steady && Safe(p, m.mem, m.step)
      ensures res >= 0 ==> res == |p.target| && Finished(p, m.mem) && m.step == 0 && m.alive
    {
      hide Run, Safe, Finished, Ready, ParseHeader, PlanOk, GeometryOk, AtSegment, InSegment, Sound, PatchFor;
      EndInput(p);
      res := OK;
      while res == OK
        invariant Valid() && pr.buf == [] && pr.offset == 0 && !state.Init?
        invariant res == OK ==> m.alive && Ready(p, [])
        invariant res == ALREADY_DONE ==>
          Finished(p, m.mem) && m.step == 0 && m.alive && toSize == |p.target| && MayEnd(pr.reader)
        invariant res != OK && res != ALREADY_DONE ==> res < 0 && !m.alive && !m.steady && Safe(p, m.mem, m.step)
        decreases res == OK, Held(pr.reader), S.Rank(state)
      {
        assert pr.Rest() == [] && pr.Rest() + [] == [];
        res := Once([], p);
        assert pr.Rest() == [] && pr.Rest() + [] == [];
      }
      if res == ALREADY_DONE {
        res := OK;
      }
      if !pr.reader.Absent? {
        var destroyed := pr.Destroy();
        if res == OK {
          res := destroyed;
        }
      }
      if res == OK {
        res := toSize;
      }
    }
  }

  // ---------------------------------------------------------------- whole updates

  /**
    One run of the update, from whatever an earlier run left.  Either power was lost, and the
    memory can be taken up again, or the update is finished.
  */
  method RunOnce(m: Memory, chunks: seq<seq<byte>>, patchSize: nat, ghost p: Plan) returns (res: int)
    requires chunks != [] && PatchFor(p, S.Concat(chunks), patchSize) && !ParseHeader(chunks[0]).HeaderIncomplete?
    requires m.alive && Safe(p, m.mem, m.step)
    modifies m`mem, m`step, m`alive, m`budget
    ensures m.alive ==> res == |p.target| && Finished(p, m.mem) && m.step == 0
    ensures !m.alive ==> res < 0 && !m.steady && Safe(p, m.mem, m.step)
  {
    assert PlanOk(p);
    hide Run, ParseHeader, Safe, Finished, PatchFor;
    var patcher := new InPlacePatch(m, patchSize);
    assert chunks[0..] == chunks;
    var i := 0;
    res := OK;
    while i < |chunks| && res == OK
      invariant 0 <= i <= |chunks| && patcher.Valid() && patcher.m == m && res <= 0
      invariant fresh(patcher) && fresh(patcher.pr)
      invariant res == OK ==> m.alive && patcher.Ready(p, S.Concat(chunks[i..]))
      invariant res == OK && i > 0 ==> !patcher.state.Init? || chunks[0] == []
      invariant patcher.state.Init? ==> i == 0
      invariant res < 0 ==> !m.alive && !m.steady && Safe(p, m.mem, m.step)
    {
      ghost var future := S.Concat(chunks[i + 1..]);
      assert S.Concat(chunks[i..]) == chunks[i] + future by { assert chunks[i..][1..] == chunks[i + 1..]; }
      NoHeader();
      res := patcher.Process(chunks[i], future, p);
      i := i + 1;
    }
    if res == OK {
      assert chunks[i..] == [];
      res := patcher.Finalize(p);
    }
  }

  /**
    Start from any memory, lose power any number of times at any operation, with any garbage in
    the range of the operation that was interrupted, and run the patch again each time.  As soon as
    a run gets through, the memory is the one an uninterrupted run leaves; and the first run with
    steady power does.
  */
  method UpdateWithPowerCuts(m: Memory, chunks: seq<seq<byte>>, patchSize: nat, supplies: seq<Supply>, ghost p: Plan)
    returns (res: int)
    requires chunks != [] && PatchFor(p, S.Concat(chunks), patchSize) && !ParseHeader(chunks[0]).HeaderIncomplete?
    requires m.mem == p.g.image && m.step == 0 && !m.alive
    modifies m
    ensures m.alive ==> res == |p.target| && Finished(p, m.mem) && m.step == 0
    ensures !m.alive ==> Safe(p, m.mem, m.step)
    ensures Steady in supplies ==> m.alive
  {
    hide Run, ParseHeader, Safe, Finished;
    SafeAtStart(p);
    res := S.NOT_ENOUGH_PATCH_DATA;
    var i := 0;
    while i < |supplies| && !m.alive
      invariant 0 <= i <= |supplies|
      invariant m.alive ==> res == |p.target| && Finished(p, m.mem) && m.step == 0
      invariant !m.alive ==> Safe(p, m.mem, m.step) && Steady !in supplies[..i]
    {
      m.PowerOn(supplies[i]);
      res := RunOnce(m, chunks, patchSize, p);
      i := i + 1;
    }
  }

  lemma NoHeader()
    ensures ParseHeader([]).HeaderIncomplete?
  {
  }

  lemma NoSizes(s: seq<byte>)
    ensures ParseSizes(0, s) == SizesGot([], s)
  {
  }

  lemma SameCombine(v: View, r: Reader, xs: seq<byte>, g: Geometry)
    requires GeometryOk(g) && (v.state.DiffData? ==> ReadLegal(v, g, |xs|))
    ensures v.state.DiffData? ==> ReadLegal(v.(reader := r), g, |xs|)
    ensures Combine(v, xs, g) == Combine(v.(reader := r), xs, g)
  {
  }

  lemma TargetSplit(target: seq<byte>, pos: nat, ys: seq<byte>, rest: S.Verdict)
    requires pos <= |target| && S.Accept(target[pos..]) == S.Prepend(ys, rest)
    ensures pos + |ys| <= |target| && ys == target[pos..pos + |ys|] && rest == S.Accept(target[pos + |ys|..])
  {
    assert target[pos..] == ys + rest.out;
    assert target[pos..][..|ys|] == ys && target[pos..][|ys|..] == rest.out;
  }

  lemma Descend(n: nat, k: nat, d: nat)
    requires k <= n
    ensures (n - k) * d >= 0 && (n - (k + 1)) * d == (n - k) * d - d
  {
  }
}
