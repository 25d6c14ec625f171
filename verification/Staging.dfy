/**
  Staging a patch on NOR flash.

  Erasing sets every bit of a page and writing can only clear bits, so a byte reads back as it was
  written only if it was erased since it was last written.  The writer works in one of three modes,
  chosen by which allocations succeed; all of them leave the same bytes behind.
*/
module Staging {
  import opened Crc32
  import opened Wrappers

  const OK := 0
  const FAIL := -1                       // ESP_FAIL
  const OUT_OF_MEMORY := -28
  const READING_PATCH_ERROR := -29
  const INVALID_ARGUMENT_ERROR := -38
  const OUT_OF_BOUNDS_ERROR := -39
  const PATCH_CHECKSUM_ERROR := -40

  const PAGE := 4096
  const WRITE_BUFFER := 16 * 1024
  const FLUSH_CHUNK := 4 * 1024
  const ERASE_CHUNK := 256 * 1024

  const ERASED: octet := 0xFF

  function And(a: octet, b: octet): octet { a & b }

  lemma ErasedTakesAnything(b: octet)
    ensures And(ERASED, b) == b
  {
  }

  function RoundUp(size: nat): nat {
    (size + PAGE - 1) / PAGE * PAGE
  }

  lemma RoundUpBounds(size: nat)
    ensures size <= RoundUp(size) < size + 4096 && RoundUp(size) % 4096 == 0
  {
  }

  /** A patch partition.  `faults` decides which of the coming operations fail. */
  class Flash {
    var cells: seq<octet>
    ghost var wear: seq<nat>  // how often each byte was written since it was last erased
    var faults: seq<bool>

    constructor (contents: seq<octet>, ghost worn: seq<nat>, schedule: seq<bool>)
      requires |worn| == |contents|
      ensures cells == contents && wear == worn && faults == schedule
    {
      cells, wear, faults := contents, worn, schedule;
    }

    ghost predicate Valid()
      reads this
    {
      |wear| == |cells|
    }

    predicate Sound()
      reads this
    {
      forall i :: 0 <= i < |faults| ==> !faults[i]
    }

    method NextFails() returns (fails: bool)
      modifies this`faults
      ensures old(Sound()) ==> Sound() && !fails
    {
      fails := false;
      if |faults| > 0 {
        fails := faults[0];
        faults := faults[1..];
      }
    }

    method Erase(at: nat, n: nat) returns (ok: bool)
      requires Valid() && at % PAGE == 0 && n % PAGE == 0
      modifies this
      ensures Valid() && |cells| == old(|cells|)
      ensures old(Sound()) ==> Sound() && ok == (at + n <= |cells|)
      ensures ok ==> at + n <= |cells|
      ensures forall i :: 0 <= i < |cells| ==>
        cells[i] == (if ok && at <= i < at + n then ERASED else old(cells[i])) &&
        wear[i] == (if ok && at <= i < at + n then 0 else old(wear[i]))
    {
      var fails := NextFails();
      ok := !fails && at + n <= |cells|;
      if ok {
        cells := cells[..at] + seq(n, i => ERASED) + cells[at + n..];
        wear := wear[..at] + seq(n, i => 0) + wear[at + n..];
      }
    }

    method Write(at: nat, data: seq<octet>) returns (ok: bool)
      requires Valid()
      modifies this
      ensures Valid() && |cells| == old(|cells|)
      ensures old(Sound()) ==> Sound() && ok == (at + |data| <= |cells|)
      ensures ok ==> at + |data| <= |cells|
      ensures forall i :: 0 <= i < |cells| ==>
        cells[i] == (if ok && at <= i < at + |data| then And(old(cells[i]), data[i - at]) else old(cells[i])) &&
        wear[i] == (if ok && at <= i < at + |data| then old(wear[i]) + 1 else old(wear[i]))
    {
      var fails := NextFails();
      ok := !fails && at + |data| <= |cells|;
      if ok {
        var was := cells;
        var programmed := seq(|data|, i requires 0 <= i < |data| => And(was[at + i], data[i]));
        cells := was[..at] + programmed + was[at + |data|..];
        ghost var worn := wear;
        var more := seq(|data|, i requires 0 <= i < |data| => worn[at + i] + 1);
        wear := worn[..at] + more + worn[at + |data|..];
      }
    }

    method Read(at: nat, n: nat) returns (ok: bool, data: seq<octet>)
      modifies this`faults
      ensures old(Sound()) ==> Sound() && ok == (at + n <= |cells|)
      ensures ok ==> at + n <= |cells| && data == cells[at..at + n]
    {
      var fails := NextFails();
      ok, data := !fails && at + n <= |cells|, [];
      if ok {
        data := cells[at..at + n];
      }
    }
  }

  /** The bytes up to `n` were written once since they were erased, the rest of `size` bytes never. */
  ghost predicate WrittenOnce(cells: seq<octet>, wear: seq<nat>, n: nat, size: nat) {
    && |wear| == |cells|
    && n <= size <= |cells|
    && (forall i :: 0 <= i < n ==> wear[i] == 1)
    && (forall i :: n <= i < size ==> wear[i] == 0 && cells[i] == ERASED)
  }

  /** Writing at the first unwritten byte stores the data as it is. */
  lemma WriteExtends(cells: seq<octet>, wear: seq<nat>, after: seq<octet>, worn: seq<nat>,
                     n: nat, data: seq<octet>, size: nat)
    requires WrittenOnce(cells, wear, n, size) && n + |data| <= size
    requires |after| == |worn| == |cells|
    requires forall i :: 0 <= i < |cells| ==>
      after[i] == (if n <= i < n + |data| then And(cells[i], data[i - n]) else cells[i]) &&
      worn[i] == (if n <= i < n + |data| then wear[i] + 1 else wear[i])
    ensures WrittenOnce(after, worn, n + |data|, size)
    ensures after[..n + |data|] == cells[..n] + data
    ensures after[size..] == cells[size..]
  {
    forall i | n <= i < n + |data|
      ensures after[i] == data[i - n]
    {
      ErasedTakesAnything(data[i - n]);
    }
  }

  ghost predicate SameFrom(a: seq<octet>, b: seq<octet>, n: nat) {
    |a| == |b| && forall i :: n <= i < |a| ==> a[i] == b[i]
  }

  /** `delta_partition_writer_t` */
  class Writer {
    const flash: Flash
    var size: nat
    var offset: nat
    var buf: array?<octet>
    var bufFill: nat
    var bufCap: nat
    var deferred: bool

    constructor (partition: Flash)
      ensures flash == partition
    {
      flash := partition;
      size, offset, buf, bufFill, bufCap, deferred := 0, 0, null, 0, 0, false;
    }

    ghost predicate BufferOk()
      reads this, buf
    {
      && offset + bufFill <= size
      && bufFill <= bufCap
      && (bufCap > 0 ==> buf != null && buf.Length == bufCap)
      && (if deferred then bufCap == size else bufCap == 0 || bufCap == WRITE_BUFFER)
    }

    /** Unless everything is still in memory, the flash is erased beyond what was written. */
    ghost predicate FlashOk()
      reads this, flash
    {
      flash.Valid() &&
      ((deferred && offset == 0) || WrittenOnce(flash.cells, flash.wear, offset, RoundUp(size)))
    }

    ghost predicate Valid()
      reads this, flash, buf
    {
      BufferOk() && FlashOk()
    }

    ghost function Buffered(): seq<octet>
      reads this, buf
      requires BufferOk()
    {
      if bufFill == 0 then [] else buf[..bufFill]
    }

    /** What has been accepted so far. */
    ghost function Contents(): (c: seq<octet>)
      reads this, flash, buf
      requires Valid()
      ensures |c| == offset + bufFill
    {
      flash.cells[..offset] + Buffered()
    }

    /** `delta_partition_erase` */
    method EraseRegion() returns (err: int)
      requires flash.Valid()
      modifies flash
      ensures flash.Valid()
      ensures old(flash.Sound()) ==> flash.Sound() && (err == OK <==> RoundUp(size) <= |flash.cells|)
      ensures err == OK || err == FAIL
      ensures err == OK ==> WrittenOnce(flash.cells, flash.wear, 0, RoundUp(size))
      ensures SameFrom(flash.cells, old(flash.cells), RoundUp(size))
    {
      var region := RoundUp(size);
      RoundUpBounds(size);
      var erased := 0;
      hide RoundUp;
      while erased < region
        invariant 0 <= erased <= region && erased % PAGE == 0
        invariant flash.Valid() && |flash.cells| == old(|flash.cells|)
        invariant old(flash.Sound()) ==> flash.Sound()
        invariant erased <= |flash.cells|
        invariant forall i :: 0 <= i < erased ==> flash.wear[i] == 0 && flash.cells[i] == ERASED
        invariant forall i :: region <= i < |flash.cells| ==> flash.cells[i] == old(flash.cells[i])
      {
        var chunk := region - erased;
        if chunk > ERASE_CHUNK {
          chunk := ERASE_CHUNK;
        }
        var ok := flash.Erase(erased, chunk);
        if !ok {
          return FAIL;
        }
        erased := erased + chunk;
      }
      return OK;
    }

    /** `delta_partition_deinit` */
    method Deinit()
      modifies this`buf, this`bufCap, this`bufFill, this`deferred
      ensures buf == null && bufCap == 0 && bufFill == 0 && !deferred
    {
      buf, bufCap, bufFill, deferred := null, 0, 0, false;
    }

    /** `delta_partition_init`; the arguments say which of the two allocations succeed. */
    method Init(patchSize: nat, psram: bool, internal: bool) returns (err: int)
      requires flash.Valid()
      modifies this, flash
      ensures flash.Valid() && size == patchSize
      ensures old(flash.Sound()) ==> flash.Sound() && (err == OK <==> psram || RoundUp(size) <= |flash.cells|)
      ensures err == OK || err == FAIL
      ensures err == OK ==> Valid() && Contents() == [] && (buf == null || fresh(buf))
      ensures deferred == psram
      ensures psram ==> flash.cells == old(flash.cells) && flash.wear == old(flash.wear)
      ensures SameFrom(flash.cells, old(flash.cells), RoundUp(size))
    {
      size := patchSize;
      offset := 0;
      Deinit();
      if psram {
        buf := new octet[patchSize];
        bufCap := patchSize;
        bufFill := 0;
        deferred := true;
        return OK;
      }
      err := EraseRegion();
      if err != OK {
        return FAIL;
      }
      if internal {
        buf := new octet[WRITE_BUFFER];
        bufCap := WRITE_BUFFER;
      } else {
        bufCap := 0;
      }
      bufFill := 0;
      deferred := false;
      return OK;
    }

    /** `delta_partition_write_batch` */
    method WriteBatch() returns (err: int)
      requires Valid() && !deferred
      modifies this`offset, this`bufFill, flash
      ensures Valid() && Contents() == old(Contents())
      ensures old(flash.Sound()) ==> flash.Sound() && err == OK
      ensures err == OK || err == FAIL
      ensures if err == OK then bufFill == 0 else offset == old(offset) && bufFill == old(bufFill)
      ensures SameFrom(flash.cells, old(flash.cells), RoundUp(size))
    {
      RoundUpBounds(size);
      hide RoundUp;
      if bufFill == 0 {
        return OK;
      }
      ghost var before, wornBefore := flash.cells, flash.wear;
      var ok := flash.Write(offset, buf[..bufFill]);
      if !ok {
        assert flash.cells == before && flash.wear == wornBefore;
        return FAIL;
      }
      WriteExtends(before, wornBefore, flash.cells, flash.wear, offset, buf[..bufFill], RoundUp(size));
      offset := offset + bufFill;
      bufFill := 0;
      return OK;
    }

    /** Copy `n` bytes of `data` into the buffer. */
    method Fill(data: seq<octet>, done: nat, n: nat)
      requires Valid() && done + n <= |data|
      requires n <= bufCap - bufFill && offset + bufFill + n <= size
      modifies this`bufFill, buf
      ensures Valid() && bufFill == old(bufFill) + n
      ensures Contents() == old(Contents()) + data[done..done + n]
    {
      hide RoundUp;
      if n > 0 {
        ghost var held := buf[..bufFill];
        forall k | 0 <= k < n {
          buf[bufFill + k] := data[done + k];
        }
        assert buf[..bufFill + n] == held + data[done..done + n];
      }
      bufFill := bufFill + n;
    }

    /** `delta_partition_write`; `taken` says how much was accepted when the flash fails. */
    method Write(data: seq<octet>) returns (err: int, ghost taken: nat)
      requires Valid()
      modifies this`offset, this`bufFill, buf, flash
      ensures Valid() && SameFrom(flash.cells, old(flash.cells), RoundUp(size))
      ensures taken <= |data| && Contents() == old(Contents()) + data[..taken]
      ensures err == OUT_OF_BOUNDS_ERROR <==> old(offset + bufFill) + |data| > size
      ensures err == OUT_OF_BOUNDS_ERROR ==> taken == 0
      ensures err == OK ==> taken == |data|
      ensures err == OK || err == OUT_OF_BOUNDS_ERROR || err == FAIL
      ensures old(flash.Sound()) ==> flash.Sound() && err != FAIL
      ensures deferred ==> offset == old(offset) && flash.cells == old(flash.cells) && flash.wear == old(flash.wear)
    {
      RoundUpBounds(size);
      hide RoundUp;
      taken := 0;
      assert data[..0] == [];
      if offset + bufFill + |data| > size {
        return OUT_OF_BOUNDS_ERROR, 0;
      }
      if deferred {
        Fill(data, 0, |data|);
        return OK, |data|;
      }
      if bufCap == 0 {
        err := WriteThrough(data);
        return err, if err == OK then |data| else 0;
      }
      err, taken := WriteBuffered(data);
    }

    /** The loop of `delta_partition_write`: whenever the buffer is full, it goes to flash. */
    method WriteBuffered(data: seq<octet>) returns (err: int, ghost taken: nat)
      requires Valid() && !deferred && bufCap > 0 && offset + bufFill + |data| <= size
      modifies this`offset, this`bufFill, buf, flash
      ensures Valid() && SameFrom(flash.cells, old(flash.cells), RoundUp(size))
      ensures taken <= |data| && Contents() == old(Contents()) + data[..taken]
      ensures err == OK ==> taken == |data|
      ensures err == OK || err == FAIL
      ensures old(flash.Sound()) ==> flash.Sound() && err == OK
    {
      RoundUpBounds(size);
      hide RoundUp, WrittenOnce, Contents;
      var done := 0;
      while done < |data|
        invariant 0 <= done <= |data|
        invariant Valid() && SameFrom(flash.cells, old(flash.cells), RoundUp(size))
        invariant Contents() == old(Contents()) + data[..done]
        invariant old(flash.Sound()) ==> flash.Sound()
        decreases |data| - done, bufFill
      {
        var space := bufCap - bufFill;
        var n := if |data| - done < space then |data| - done else space;
        Fill(data, done, n);
        assert data[..done] + data[done..done + n] == data[..done + n];
        done := done + n;
        if bufFill == bufCap {
          err := WriteBatch();
          if err != OK {
            return err, done;
          }
        }
      }
      return OK, |data|;
    }

    /** The unbuffered fallback of `delta_partition_write`. */
    method WriteThrough(data: seq<octet>) returns (err: int)
      requires Valid() && !deferred && bufFill == 0 && offset + |data| <= size
      modifies this`offset, flash
      ensures Valid() && SameFrom(flash.cells, old(flash.cells), RoundUp(size))
      ensures err == OK || err == FAIL
      ensures Contents() == old(Contents()) + if err == OK then data else []
      ensures old(flash.Sound()) ==> flash.Sound() && err == OK
    {
      RoundUpBounds(size);
      hide RoundUp;
      ghost var before, wornBefore := flash.cells, flash.wear;
      var ok := flash.Write(offset, data);
      if !ok {
        assert flash.cells == before && flash.wear == wornBefore;
        return FAIL;
      }
      WriteExtends(before, wornBefore, flash.cells, flash.wear, offset, data, RoundUp(size));
      offset := offset + |data|;
      return OK;
    }

    /** The copying of `delta_partition_flush`, in pieces through a small buffer. */
    method CopyToFlash() returns (err: int, written: nat)
      requires BufferOk() && flash.Valid() && WrittenOnce(flash.cells, flash.wear, 0, RoundUp(size))
      modifies flash
      ensures flash.Valid() && SameFrom(flash.cells, old(flash.cells), RoundUp(size))
      ensures err == OK ==> written == bufFill && WrittenOnce(flash.cells, flash.wear, bufFill, RoundUp(size))
      ensures err == OK ==> flash.cells[..bufFill] == Buffered()
      ensures err == OK || err == FAIL
      ensures old(flash.Sound()) ==> flash.Sound() && err == OK
    {
      RoundUpBounds(size);
      hide RoundUp;
      ghost var held := Buffered();
      written := 0;
      while written < bufFill
        invariant 0 <= written <= bufFill
        invariant flash.Valid() && SameFrom(flash.cells, old(flash.cells), RoundUp(size))
        invariant WrittenOnce(flash.cells, flash.wear, written, RoundUp(size))
        invariant flash.cells[..written] == held[..written]
        invariant old(flash.Sound()) ==> flash.Sound()
      {
        var n := bufFill - written;
        if n > FLUSH_CHUNK {
          n := FLUSH_CHUNK;
        }
        var scratch := buf[written..written + n];
        ghost var before, wornBefore := flash.cells, flash.wear;
        var ok := flash.Write(written, scratch);
        if !ok {
          assert flash.cells == before;
          return FAIL, written;
        }
        WriteExtends(before, wornBefore, flash.cells, flash.wear, written, scratch, RoundUp(size));
        assert scratch == held[written..written + n];
        assert held[..written] + scratch == held[..written + n];
        written := written + n;
      }
      assert held[..written] == held;
      return OK, written;
    }

    /** `delta_partition_flush`; `memory` says whether the copy buffer could be allocated. */
    method Flush(memory: bool) returns (err: int)
      requires Valid()
      modifies this`offset, this`bufFill, flash
      ensures flash.Valid() && SameFrom(flash.cells, old(flash.cells), RoundUp(size))
      ensures err == OK ==> Valid() && bufFill == 0
      ensures err == OK ==> WrittenOnce(flash.cells, flash.wear, offset, RoundUp(size))
      // A second flush of a deferred patch forgets the first one.
      ensures err == OK ==>
        flash.cells[..offset] == if deferred then old(Buffered()) else old(Contents())
      ensures err == OK || err == FAIL || err == OUT_OF_MEMORY
      ensures old(flash.Sound()) ==> flash.Sound()
      ensures old(flash.Sound()) ==> (err == OK <==> !deferred || (memory && RoundUp(size) <= |flash.cells|))
      // A flush that failed can be repeated.
      ensures err != OK && (deferred ==> old(offset) == 0) ==> Valid() && Contents() == old(Contents())
    {
      RoundUpBounds(size);
      hide RoundUp;
      if !deferred {
        err := WriteBatch();
        return;
      }
      err := EraseRegion();
      if err != OK {
        return FAIL;
      }
      if !memory {
        return OUT_OF_MEMORY;
      }
      var written;
      err, written := CopyToFlash();
      if err != OK {
        return FAIL;
      }
      offset := written;
      bufFill := 0;
      return OK;
    }

    /** `delta_partition_verify_crc32`; `memory` says whether the read buffer could be allocated. */
    method VerifyCrc32(size: int, expected: bv32, memory: bool) returns (err: int)
      requires flash.Valid()
      modifies flash`faults
      ensures err == INVALID_ARGUMENT_ERROR <==> size < 0
      ensures 0 <= size && !memory ==> err == OUT_OF_MEMORY
      ensures err == OK ==> 0 <= size <= |flash.cells| && Checksum(flash.cells[..size]) == expected
      ensures err == PATCH_CHECKSUM_ERROR ==> 0 <= size <= |flash.cells| && Checksum(flash.cells[..size]) != expected
      ensures err == OK || err == INVALID_ARGUMENT_ERROR || err == OUT_OF_MEMORY || err == READING_PATCH_ERROR ||
              err == PATCH_CHECKSUM_ERROR
      ensures old(flash.Sound()) && 0 <= size <= |flash.cells| && memory ==> err == OK || err == PATCH_CHECKSUM_ERROR
    {
      hide Crc, Checksum;
      if size < 0 {
        return INVALID_ARGUMENT_ERROR;
      }
      if !memory {
        return OUT_OF_MEMORY;
      }
      var crc: bv32 := 0;
      EmptyCrc();
      var offset := 0;
      assert flash.cells[..0] == [];
      while offset < size
        invariant 0 <= offset <= size && offset <= |flash.cells|
        invariant crc == Crc(0, flash.cells[..offset])
        invariant old(flash.Sound()) ==> flash.Sound()
      {
        var n := size - offset;
        if n > FLUSH_CHUNK {
          n := FLUSH_CHUNK;
        }
        var ok, scratch := flash.Read(offset, n);
        if !ok {
          return READING_PATCH_ERROR;
        }
        CrcSplit(0, flash.cells[..offset], scratch);
        assert flash.cells[..offset] + scratch == flash.cells[..offset + n];
        crc := UpdateCrc(crc, scratch);
        offset := offset + n;
      }
      CrcIsChecksum(flash.cells[..size]);
      return if crc != expected then PATCH_CHECKSUM_ERROR else OK;
    }
  }

  // ---------------------------------------------------------------- receiving a patch

  function Concat(chunks: seq<seq<octet>>): seq<octet> {
    if chunks == [] then [] else Concat(chunks[..|chunks| - 1]) + chunks[|chunks| - 1]
  }

  /** The chunks that were taken, one after the other. */
  function Kept(chunks: seq<seq<octet>>, taken: seq<bool>): seq<octet>
    requires |chunks| == |taken|
  {
    if chunks == [] then [] else
      var last := |chunks| - 1;
      Kept(chunks[..last], taken[..last]) + if taken[last] then chunks[last] else []
  }

  lemma {:induction false} KeptAll(chunks: seq<seq<octet>>, taken: seq<bool>)
    requires |chunks| == |taken| && forall i :: 0 <= i < |taken| ==> taken[i]
    ensures Kept(chunks, taken) == Concat(chunks)
  {
    if chunks != [] {
      KeptAll(chunks[..|chunks| - 1], taken[..|chunks| - 1]);
    }
  }

  lemma {:induction false} ConcatPrefix(chunks: seq<seq<octet>>, i: nat)
    requires i <= |chunks|
    ensures |Concat(chunks[..i])| <= |Concat(chunks)|
    decreases |chunks|
  {
    if i < |chunks| {
      ConcatPrefix(chunks[..|chunks| - 1], i);
      assert chunks[..|chunks| - 1][..i] == chunks[..i];
    } else {
      assert chunks[..i] == chunks;
    }
  }

  /** `OTAHandler::process_data_chunk`, for every chunk; `received` counts what was taken. */
  method TakeChunks(writer: Writer, chunks: seq<seq<octet>>) returns (received: nat, taken: seq<bool>)
    requires writer.Valid() && writer.Contents() == [] && (writer.deferred ==> writer.offset == 0)
    modifies writer`offset, writer`bufFill, writer.buf, writer.flash
    ensures |taken| == |chunks|
    ensures writer.Valid() && (writer.deferred ==> writer.offset == 0)
    ensures SameFrom(writer.flash.cells, old(writer.flash.cells), RoundUp(writer.size))
    ensures received == |Kept(chunks, taken)| <= |writer.Contents()|
    ensures received == |writer.Contents()| ==> writer.Contents() == Kept(chunks, taken)
    ensures old(writer.flash.Sound()) && |Concat(chunks)| <= writer.size ==>
      writer.flash.Sound() && Kept(chunks, taken) == Concat(chunks) == writer.Contents()
  {
    hide RoundUp, WrittenOnce, Writer.Contents;
    ghost var good := writer.flash.Sound() && |Concat(chunks)| <= writer.size;
    received, taken := 0, [];
    var i := 0;
    while i < |chunks|
      invariant 0 <= i == |taken| <= |chunks|
      invariant writer.Valid() && (writer.deferred ==> writer.offset == 0)
      invariant SameFrom(writer.flash.cells, old(writer.flash.cells), RoundUp(writer.size))
      invariant received == |Kept(chunks[..i], taken)| <= |writer.Contents()|
      invariant received == |writer.Contents()| ==> writer.Contents() == Kept(chunks[..i], taken)
      invariant good ==> writer.flash.Sound() && received == |writer.Contents()|
      invariant good ==> forall j :: 0 <= j < i ==> taken[j]
    {
      if good {
        KeptAll(chunks[..i], taken);
        ConcatPrefix(chunks, i + 1);
      }
      assert chunks[..i + 1][..i] == chunks[..i];
      var err, part := writer.Write(chunks[i]);
      taken := taken + [err == OK];
      assert taken[..i] + [err == OK] == taken;
      if err == OK {
        assert chunks[i][..part] == chunks[i];
        received := received + |chunks[i]|;
      }
      i := i + 1;
    }
    assert chunks[..i] == chunks;
    if good {
      KeptAll(chunks, taken);
    }
  }

  /** `OTAHandler::finalize_update`, up to the point where the patch is applied. */
  method FinishTransfer(writer: Writer, received: nat, expected: Option<bv32>, copyBuffer: bool, readBuffer: bool)
    returns (applied: bool)
    requires writer.Valid() && (writer.deferred ==> writer.offset == 0)
    modifies writer, writer.flash
    ensures writer.size == old(writer.size) && writer.flash.Valid()
    ensures SameFrom(writer.flash.cells, old(writer.flash.cells), RoundUp(writer.size))
    ensures applied ==>
      && received == writer.size
      && old(|writer.Contents()|) <= |writer.flash.cells|
      && writer.flash.cells[..old(|writer.Contents()|)] == old(writer.Contents())
      && WrittenOnce(writer.flash.cells, writer.flash.wear, old(|writer.Contents()|), RoundUp(writer.size))
    ensures applied && expected.Some? ==>
      received <= |writer.flash.cells| && Checksum(writer.flash.cells[..received]) == expected.value
    ensures old(writer.flash.Sound()) && copyBuffer && readBuffer && RoundUp(writer.size) <= |writer.flash.cells| &&
            received == writer.size == old(|writer.Contents()|) ==>
      (applied <==> expected == None || Checksum(old(writer.Contents())) == expected.value)
  {
    RoundUpBounds(writer.size);
    hide RoundUp, Checksum;
    assert writer.flash.cells[..0] + writer.Buffered() == writer.Buffered();
    var err := writer.Flush(copyBuffer);
    writer.Deinit();
    if err != OK || received != writer.size {
      return false;
    }
    if expected.Some? {
      err := writer.VerifyCrc32(writer.size, expected.value, readBuffer);
      if err != OK {
        return false;
      }
    }
    return true;
  }

  /**
    The transfer of `OTAHandler`: stage every chunk that arrives, then flush, and go on only if the
    sizes and the checksum, when there is one, agree.
  */
  method ReceivePatch(writer: Writer, patchSize: nat, chunks: seq<seq<octet>>, expected: Option<bv32>,
                      psram: bool, internal: bool, copyBuffer: bool, readBuffer: bool)
    returns (applied: bool, taken: seq<bool>)
    requires writer.flash.Valid()
    modifies writer, writer.flash
    ensures |taken| == |chunks|
    ensures writer.flash.Valid() && SameFrom(writer.flash.cells, old(writer.flash.cells), RoundUp(patchSize))
    // Whatever fails and whichever mode it is, what is applied is what was taken.
    ensures applied ==>
      && |Kept(chunks, taken)| == patchSize
      && WrittenOnce(writer.flash.cells, writer.flash.wear, patchSize, RoundUp(patchSize))
      && writer.flash.cells[..patchSize] == Kept(chunks, taken)
      && (expected.Some? ==> Checksum(Kept(chunks, taken)) == expected.value)
    // When nothing fails, a complete and undamaged patch is taken and applied.
    ensures old(writer.flash.Sound()) && copyBuffer && readBuffer &&
            RoundUp(patchSize) <= |writer.flash.cells| && |Concat(chunks)| == patchSize ==>
      && Kept(chunks, taken) == Concat(chunks)
      && (applied <==> expected == None || Checksum(Concat(chunks)) == expected.value)
  {
    RoundUpBounds(patchSize);
    hide RoundUp, WrittenOnce, Checksum, Concat, Kept;
    applied, taken := false, seq(|chunks|, i => false);
    var err := writer.Init(patchSize, psram, internal);
    if err != OK {
      return;
    }
    var received;
    received, taken := TakeChunks(writer, chunks);
    applied := FinishTransfer(writer, received, expected, copyBuffer, readBuffer);
  }
}
