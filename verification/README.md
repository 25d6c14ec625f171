# Smart grind-by-weight firmware: a verified model

A Dafny model of the parts of the firmware whose correctness is hard to see: the patch engine behind
over-the-air updates, the search for the motor's latency, the run of a grind, and three small
protocols. Each part is modelled in the form the source has: classes with the source's fields and
methods, loops over arrays and chunks, pure functions where the source is pure, and a state machine
over single memory accesses where two cores meet. Each is proved against an independent reference
definition, over every input and every run.

`dafny verify dfyconfig.toml` checks everything.

## The parts

| file | what it is about |
|---|---|
| `Bytes`, `Wrappers`, `Varint` | octets and powers of two; optional values; the sizes of the patch format and their bounds |
| `PatchReader` | the chunked reader for uncompressed and CRLE data, against a reader that takes one byte at a time |
| `Sequential` | the sequential patcher, against `Exec`, which runs a whole patch with no notion of chunks or blocks |
| `Script` | the patch format as an encoder, the meaning of an edit script, the round trip, and scripts made from an old and a new image |
| `InPlacePlan` | what the memory should look like after each step of an in-place update, and what a step may touch |
| `InPlaceMeaning` | what an in-place patch means, on the old image only |
| `InPlace` | the in-place patcher over a memory that must be erased before it is written and can lose power in the middle of any operation |
| `InPlaceScript` | the in-place format as an encoder: its patches are the well-formed ones |
| `Crc32` | the bitwise CRC-32, against division by the generator polynomial; the table-driven form, pieces, and bursts of errors |
| `Staging` | staging a patch on NOR flash in three modes, and the transfer around it |
| `Motor` | cutting a pulse into transmitter symbols, and the flags of the motor driver |
| `LatencySearch`, `AutoTune` | one test of the bisection and the whole search; the state machine around it |
| `PulseLoop` | the closed loop of correction pulses, with a plant |
| `GrindLog`, `GrindRun` | the event log; the seventeen phases of a grind |
| `GrindToEnd` | grinds that nothing holds up, to their completion |
| `NoiseMonitor` | a ring of samples and its variance |
| `TareHandshake` | the two-core tare handshake, step by step |
| `CloudSync` | the version snapshot that decides when everything is uploaded |

## How to read it

Sequential patches. `Exec` says what the rest of a patch writes, or that it is rejected. Every method
of the patcher takes, as a ghost argument, the bytes that have not arrived yet, and promises that the
bytes written so far followed by the meaning of the rest is the meaning of the whole. Chunk
independence (`ApplyInChunks`), dump and restore (`ApplyInSessions`) and the round trip (`RoundTrip`,
`PatchInChunks`, `PatchToNewImage`) follow. Two kinds of malformed input have the verdict `Undefined`, about which
nothing is promised: a CRLE run of length zero and a negative length.

In-place updates. A step of the update is a segment of the move or a segment of the new image. `Safe`
says that `c` steps are done and that only the window of the next one may hold anything else, which a
power cut preserves. `UpdateWithPowerCuts` is the result. The source writes a dump of the counter
after each segment; a completed step reads zeros and writes nothing when the patch is fed again.

A grind. `NextPhase`, `MotorNext` and `ResultNext` say, phase by phase, where a call leads; `Advanced`
says what it has done. Safety (`Run`, `RunOnPlant`) holds for any calls, completion (`GrindByWeight`,
`GrindByTime`) for calls with nothing in their way.

Reals stand for the floats. The lengths of the latency search are 300 less a multiple of 270 over a
power of two, so there the reals are exact.

## What was found

- `NegativeLengths`: the bound check of the sequential patcher is made on unsigned numbers, so a
  negative diff or extra length gets through it exactly when its magnitude is at most the number of
  bytes already written.
- `Staging.Writer.Flush`: a second flush of a deferred patch erases the first one.
- `ArrivalIsNotNoticed`: with exact arithmetic the pulse loop reaches its conservative target and
  then neither stops nor delivers anything, until its ten attempts are used up; it does so nowhere
  else (`IdlesOnlyThere`).
- `SearchConverges`: a motor that never delivers is tried fifty times at 300 ms; the two messages
  about a missing success cannot appear (`TestStaysInRange`).
- `JudgeRound`: the comment at `src/controllers/autotune_controller.cpp:395` speaks of 10 ms a round;
  the code adds 5.
- `CapacityIsLongest`: pulses of up to 1048 ms are accepted, while the error message names 1000.
- `StaleClaim` and `ForeignStatus`: a tare that begins while the sampling task is busy with an
  earlier one can be applied on old samples, or be reported on before it is applied. `HurriedExactly`
  and `MisledExactly` say when. A refused tare never moves the zero point and a granted one is claimed
  in every interleaving.
- `FirstPulseStaysBelow`: an estimate of the flow that is too low lets the first pulse pass the
  conservative target, unless the pulse is capped early enough.
- `LostAnswer`: an answer to the manifest that is lost after its status line, or cut short, counts as
  a short list of wishes. The run is then a success and sessions are forgotten until the next grind.
  `EndRun` has the exact condition.

## Model

| member | source | states |
|---|---|---|
| `Varint.FeedSizeBounds` | components/detools/detools.c:967-1023 | A signed size, 6 bits and then 7 bits a byte, stays strictly within 27 bits in either direction and the decoder state within what its offset allows, so 32-bit arithmetic never overflows |
| `Varint.FeedUsizeBounds` | components/detools/detools.c:553-593 | A run length stays within 28 bits, and the decoder state within what its offset allows |
| `Varint.HeaderSizeBound` | components/detools/detools.c:119-156 | A header size that is accepted is below 2^27 |
| `Varint.HeaderSizeExtends` | components/detools/detools.c:124-156 | A header size that was read from a chunk is the same whatever follows the chunk; only a size that runs off the chunk is undecided |
| `Varint.HeaderSizeShort` | components/detools/detools.c:119-156 | Five bytes always decide a header size, by its value or by the overflow guard |
| `PatchReading.Pull` | components/detools/detools.c:553-788 | Taking one decompressed byte uses up input, or some of what the reader holds of a repeated run: the measure by which every loop over the patch ends |
| `PatchReading.PullNSplit` | components/detools/detools.c:738-788 | Taking n bytes and then m is taking n + m: how the caller cuts its requests does not matter |
| `PatchReading.PullScattered` | components/detools/detools.c:651-673 | A scattered run hands out its bytes unchanged, and is over exactly after the last |
| `PatchReading.PullRepeated` | components/detools/detools.c:714-736 | A repeated run hands out copies of its byte without reading input, and is over exactly after the last |
| `PatchReading.PullNone` | components/detools/detools.c:164-189 | Uncompressed data is handed out as it is, up to the size of the patch |
| `PatchReading.PullNonePastEnd` | components/detools/detools.c:164-189 | A request past the end of an uncompressed patch, refused at once, is one that no later chunk could have satisfied |
| `PatchReading.PatchReader.ChunkRead` | components/detools/detools.c:103-115 | As much of a request as the chunk holds is copied, and the rest of the chunk is what follows |
| `PatchReading.PatchReader.NoneDecompress` | components/detools/detools.c:164-189 | Agrees with the one-byte reference reader on this chunk and any later ones |
| `PatchReading.PatchReader.UnpackUsize` | components/detools/detools.c:553-593 | A run length that is interrupted by the end of a chunk is continued as if there had been no cut |
| `PatchReading.PatchReader.CrleIdle` | components/detools/detools.c:595-628 | The kind of a run is read and anything but 0 and 1 is rejected |
| `PatchReading.PatchReader.CrleScatteredData` | components/detools/detools.c:651-673 | A block of a scattered run, over any chunk and request, agrees with the reference reader |
| `PatchReading.PatchReader.CrleRepeatedDataRead` | components/detools/detools.c:714-736 | A block of a repeated run agrees with the reference reader and shortens what it holds |
| `PatchReading.PatchReader.CrleDecompress` | components/detools/detools.c:738-788 | For any chunk and request the bytes handed out are those of the reference reader, also when the chunk ends inside a run or a run length; the loop ends |
| `PatchReading.PatchReader.Decompress` | components/detools/detools.c:956-962 | The same for either compression |
| `PatchReading.PatchReader.UnpackSize` | components/detools/detools.c:967-1023 | A signed size is the one the reference reads from this chunk and any later ones, resumed at the byte where a chunk ended |
| `PatchReading.PatchReader.UnpackHeaderSize` | components/detools/detools.c:124-156 | Reads the header size the reference parses, or rejects with the short-header or overflow error |
| `PatchReading.PatchReader.Init` | components/detools/detools.c:820-866 | Accepts the two compressions of the build and rejects every other |
| `PatchReading.PatchReader.Destroy` | components/detools/detools.c:191-203 | An uncompressed patch must have been read to its announced end, a CRLE patch may end anywhere |
| `Sequential.NegativeLengths` | components/detools/detools.c:1025-1044 | The unsigned bound check lets a length through exactly if it is non-negative and fits, or negative with a magnitude of at most the bytes already written |
| `Sequential.HeaderDecides` | components/detools/detools.c:1050-1097 | The chunk that holds the header decides what the whole patch means |
| `Sequential.DataBlock` | components/detools/detools.c:1140-1189 | A block of up to 128 bytes written at once is the same bytes written one by one |
| `Sequential.AcceptedSize` | components/detools/detools.c:1025-1044 | An accepted patch writes exactly the bytes that were missing |
| `Sequential.AcceptedPatchSize` | components/detools/detools.c:1239-1319 | An accepted patch writes as many bytes as its header announces |
| `Sequential.DataFails` | components/detools/detools.c:1140-1189 | When the reader refuses a block, no way of going on could have been accepted |
| `Sequential.ApplyPatch.FromRead` | components/delta/delta.c:68-97 | A read succeeds exactly if its end stays strictly before the end of the source partition, and then hands out the bytes there and moves the cursor by its length |
| `Sequential.ApplyPatch.FromSeek` | components/delta/delta.c:123-144 | A seek is relative and succeeds exactly if it lands inside the source partition |
| `Sequential.ApplyPatch.ReadHeader` | components/detools/detools.c:1050-1085 | Patch type, compression and size of the result are parsed as the reference parses them, with the short-header error for a cut header |
| `Sequential.ApplyPatch.ProcessInit` | components/detools/detools.c:1050-1097 | What was written, and what the patcher will do from its new state, is the meaning of the patch |
| `Sequential.ApplyPatch.ProcessSize` | components/detools/detools.c:1119-1138 | The same for a diff or extra size, with the 32-bit bound check |
| `Sequential.ApplyPatch.ProcessAdjustment` | components/detools/detools.c:1211-1237 | The same for an adjustment; from_offset stays the position of the source cursor |
| `Sequential.AddSource` | components/detools/detools.c:1175-1177 | Each byte of the diff becomes the old byte plus the source byte modulo 256, and no other changes |
| `Sequential.ApplyPatch.ProcessData` | components/detools/detools.c:1140-1189 | The same for up to 128 bytes of diff, added to the source image, or extra data |
| `Sequential.ApplyPatch.Once` | components/detools/detools.c:1239-1291 | One step keeps the meaning of the patch and the bound on to_offset plus chunk_size, makes progress by (input left, run bytes left, rank of the state), and on an error leaves the failed state |
| `Sequential.ApplyPatch.Process` | components/detools/detools.c:1410-1431 | Whatever the chunk, the bytes written so far followed by what the rest of the patch does is the meaning of the whole; the loop ends; and accepted or rejected, to_offset plus chunk_size stays within to_size as long as no negative length or empty run has been read |
| `Sequential.ApplyPatch.CommonFinalize` | components/detools/detools.c:1293-1319 | The result is the size exactly if the patch was done and its compression may end there, and an error otherwise |
| `Sequential.ApplyPatch.Finalize` | components/detools/detools.c:1433-1447 | An accepted patch has then been written completely and its size is returned; a rejected one gives a negative result |
| `Sequential.ApplyPatch.Restore` | components/detools/detools.c:1361-1398 | A patcher restored over a cursor at zero is in the dumped state and does with any further input what the dumped one would have done |
| `Sequential.StopAndGoOn` | components/detools/detools.c:1341-1398 | The patcher that goes on after a stop at a chunk boundary has the state and the meaning of the one that was stopped |
| `Sequential.ApplyInSessions` | components/detools/detools.c:1341-1398 | A patch given in any chunks, with any number of stops between them, each a dump and a restore into a fresh patcher: the bytes that all of them write and the result are those of a run without a stop |
| `Sequential.ApplyInChunks` | components/detools/detools.c:1410-1447 | The bytes written and the result depend only on the concatenation of the chunks, for any chunks the first of which holds the header |
| `Sequential.CallbacksProcess` | components/detools/detools.c:2036-2070 | The same for the 512-byte loop, which never cuts a valid header |
| `Sequential.ShortHeaderRejected` | components/detools/detools.c:2036-2070 | A header that is cut by a read of 512 bytes belongs to a patch that is rejected anyway |
| `Script.MeaningSize` | components/detools/detools.c:1140-1237 | The meaning of a script has the length that its edits add up to |
| `Script.SizeReadBack` | components/detools/detools.c:967-1023 | Every size of up to 27 bits, of either sign, is read back as it was encoded |
| `Script.HeaderSizeReadBack` | components/detools/detools.c:124-156 | Every header size of up to 27 bits is read back |
| `Script.RunReadBack` | components/detools/detools.c:595-736 | An encoded run of either kind is delivered byte for byte and leaves the reader idle |
| `Script.CrleReadBack` | components/detools/detools.c:595-788 | The decompressed bytes are the string that was encoded, however it was cut into positive runs |
| `Script.DecompressInChunks` | components/detools/detools.c:546-788 | A CRLE reader that is fed in any chunks and asked for any numbers of bytes hands out the beginning of the original, and all of it once it has been asked often enough |
| `Script.EditReadBack` | components/detools/detools.c:1119-1237 | One encoded edit writes the source plus the diff, then the extra bytes, and moves the cursor |
| `Script.EditsReadBack` | components/detools/detools.c:1099-1237 | A list of encoded edits writes the meaning of the list and ends the patch |
| `Script.RoundTrip` | components/detools/detools.c:1050-1319 | Decoding an encoded patch gives the meaning of its script, stored or as CRLE |
| `Script.PatchInChunks` | components/detools/detools.c:1410-1447 | Encode any script, cut the patch anywhere after its header, process and finalize: the image written is the meaning of the script and the result its size |
| `Script.DifferenceAddsUp` | components/detools/detools.c:1175-1177 | New minus old modulo 256, added to the old bytes, gives the new ones |
| `Script.DiffedMeaning` | components/detools/detools.c:1140-1237 | A script whose diffs are new minus old modulo 256 means the new image, piece by piece |
| `Script.PatchToNewImage` | components/detools/detools.c:1410-1447 | Make such a script for any new image, encode it, cut the patch anywhere after its header: what is written is the new image |
| `Script.SizeExamples` | components/detools/detools.c:967-1023 | Some sizes and their bytes in digits |
| `InPlacePlan.IdealStep` | components/detools/detools.c:1583-1648 | A step of the update changes nothing outside its window |
| `InPlacePlan.MoveReads` | components/detools/detools.c:1583-1648 | What a step of the move reads is still the old image and is not in its own window |
| `InPlacePlan.MoveWrites` | components/detools/detools.c:1583-1648 | What a step of the move must leave is the old image, shift_size higher |
| `InPlacePlan.SegmentReads` | components/detools/detools.c:1775-1787 | What segment j reads, from address (j + 1) * segment_size up, is the moved old image: no segment written so far reaches that far |
| `InPlacePlan.SegmentWrites` | components/detools/detools.c:1810-1866 | What a segment must leave in its window is the new image |
| `InPlacePlan.StepDone` | components/detools/detools.c:1491-1517 | When the window of a step holds what it should, the memory is that of one more completed step |
| `InPlacePlan.LastStepDone` | components/detools/detools.c:1453-1468 | When the last window holds what it should, the new image is complete |
| `InPlacePlan.OldImageMoved` | components/detools/detools.c:1583-1648 | When all steps of the move are done, every byte they cover is the old one, shift_size higher |
| `InPlacePlan.SafeWindow` | components/detools/detools.c:1542-1581 | Whatever happens to the window of the next step, garbage included, the update can be taken up from there |
| `InPlacePlan.FinishedUnique` | components/detools/detools.c:1453-1468 | There is only one finished memory, so an interrupted update ends like an uninterrupted one |
| `InPlaceMeaning.PatchStarts` | components/detools/detools.c:1650-1756 | The chunk that holds the header of a well-formed patch says what the patch asks for |
| `InPlaceMeaning.AcceptedBlock` | components/detools/detools.c:1810-1866 | A block of a well-formed patch is delivered, reads only what is still there, and becomes the next bytes of the new image |
| `InPlaceMeaning.MoveCovers` | components/detools/detools.c:1596-1597 | The moved segments are the fewest that cover all of the old image that fits above shift_size, a last incomplete segment included |
| `InPlace.InPlacePatch.NextStep` | components/detools/detools.c:1491-1517 | The counter moves on only when the window is filled; with or without power the memory can be taken up again |
| `InPlace.InPlacePatch.MemRead` | components/detools/detools.c:1519-1540 | A live step reads the memory |
| `InPlace.InPlacePatch.MemWrite` | components/detools/detools.c:1542-1561 | A completed step writes nothing; a live one writes its range where it is erased (other bytes end up spoiled), or loses power and leaves garbage in that range only |
| `InPlace.InPlacePatch.MemErase` | components/detools/detools.c:1563-1581 | A completed step erases nothing; a live one leaves 0xFF in its range, or loses power, and touches its range only |
| `InPlace.InPlacePatch.CopySegment` | components/detools/detools.c:1609-1636 | One segment of the move ends with its window filled, or with power lost and the memory safe |
| `InPlace.InPlacePatch.ShiftMemory` | components/detools/detools.c:1583-1648 | The old image is moved up from its highest segment down; afterwards exactly the steps of the move are done, and in a fresh update every byte of the old image that fits is shift_size higher, up to the last |
| `InPlace.InPlacePatch.ReadHeader` | components/detools/detools.c:1650-1698 | The five sizes of the header are the ones the reference parses |
| `InPlace.InPlacePatch.ProcessInit` | components/detools/detools.c:1700-1756 | Header and move: the rest of the patch completes the update, or power was lost and the memory is safe |
| `InPlace.InPlacePatch.ProcessDfpatchSize` | components/detools/detools.c:1758-1787 | The same for the start and the erasure of a segment |
| `InPlace.InPlacePatch.ProcessSize` | components/detools/detools.c:1789-1808 | The same for a diff or extra size |
| `InPlace.InPlacePatch.ProcessData` | components/detools/detools.c:1810-1866 | The same for up to 128 bytes of a segment |
| `InPlace.InPlacePatch.ProcessAdjustment` | components/detools/detools.c:1888-1911 | The same for an adjustment, at the end of a segment and at the end of the update |
| `InPlace.InPlacePatch.Complete` | components/detools/detools.c:1453-1468 | The end of the last segment sets the counter back to zero only when the new image is complete |
| `InPlace.InPlacePatch.Once` | components/detools/detools.c:1913-1966 | One step of the patcher keeps all this, makes progress, and reports the end exactly in the done state |
| `InPlace.InPlacePatch.Process` | components/detools/detools.c:1992-2013 | A chunk is processed completely, or power was lost and the memory is safe |
| `InPlace.InPlacePatch.Finalize` | components/detools/detools.c:2015-2030 | Finalizing returns the size of the new image, which is then in memory with the counter at zero, or power was lost and the memory is safe |
| `InPlace.RunOnce` | components/detools/detools.c:1992-2030 | One run from whatever an earlier run left: either the update is finished, or power was lost and the memory can be taken up again; with steady power it is finished |
| `InPlace.UpdateWithPowerCuts` | components/detools/detools.c:1453-1581 | Power may be lost any number of times at any memory operation, with any garbage left in its range; as soon as a run gets through, the memory is the one an uninterrupted run leaves, and the first run with steady power gets through |
| `InPlaceScript.SegmentRun` | components/detools/detools.c:1758-1911 | An encoded segment is accepted and becomes the meaning of its edits on the moved old image |
| `InPlaceScript.InPlaceRoundTrip` | components/detools/detools.c:1650-1911 | An encoded script whose segments read only what is still there is a well-formed patch, for an update to the meaning of the script |
| `InPlaceScript.UpdateFromScript` | components/detools/detools.c:1453-1911 | Encode a script, cut its patch into chunks, lose power any number of times: with steady power the update succeeds, and then the memory begins with the meaning of the script |
| `InPlaceScript.DiffedSegmentsMeaning` | components/detools/detools.c:1758-1911 | Segments whose diffs are new minus old modulo 256 mean the new image |
| `InPlaceScript.UpdateToNewImage` | components/detools/detools.c:1453-1911 | Such a script for any new image, whose segments may read up to the last byte of the old one: after power cuts and chunks of any kind the memory begins with the new image |
| `Crc32.UpdateCrc` | components/delta/delta.c:394-407 | The masked bit loop computes the CRC-32 of the bytes: from zero it is the complement of the remainder of the polynomial division of ITU-T V.42, section 8.1.1.6.2, with the generator given by its exponents; from another start value it goes on |
| `Crc32.PolyIsGenerator` | components/delta/delta.c:403 | The constant of the loop is the generator polynomial with the exponents 32, 26, 23, 22, 16, 12, 11, 10, 8, 7, 5, 4, 2, 1, 0, lowest exponent first |
| `Crc32.CrcIsChecksum` | components/delta/delta.c:394-407 | The register with its complements before and after is the checksum that the polynomial division defines, for any bytes |
| `Crc32.CrcSplit` | components/delta/delta.c:394-407 | The checksum of the whole is the checksum of the rest continued from that of the start |
| `Crc32.SessionChecksum` | src/logging/grind_logging.cpp:484-503 | The checksum chained over session, events and measurements is the checksum of their concatenation, as the division defines it |
| `Crc32.TableStep` | components/delta/delta.c:401-405 | Eight bit steps are one look-up in a table of remainders of polynomial division, as in RFC 1952, section 8 |
| `Crc32.TableEntry` | components/delta/delta.c:401-405 | The remainder of an octet is what eight steps of the bit loop make of it |
| `Crc32.TableDriven` | components/delta/delta.c:394-407 | Over any bytes the bit loop equals the table-driven form of RFC 1952, section 8, with that table |
| `Crc32.RawInjective` | components/delta/delta.c:394-407 | Registers that differ stay different over the same bytes |
| `Crc32.BurstDetected` | components/delta/delta.c:394-407 | Two buffers of one length that differ only within four consecutive bytes never have the same checksum |
| `Staging.RoundUpBounds` | components/delta/delta.c:206-209 | The erased region is whole pages, covers the patch and is less than a page larger |
| `Staging.WriteExtends` | components/delta/delta.c:277-289 | Writing at the first unwritten byte of an erased region stores the data as it is and uses each byte once |
| `Staging.Writer.EraseRegion` | components/delta/delta.c:206-225 | All pages of the patch and no others are erased, in chunks of at most 256 KB, or the driver failed or the region does not fit |
| `Staging.Writer.Init` | components/delta/delta.c:227-274 | Nothing is held; with a deferred buffer the flash is untouched, otherwise the region is erased |
| `Staging.Writer.WriteBatch` | components/delta/delta.c:277-289 | The held bytes go to flash behind the ones before; on failure nothing is forgotten |
| `Staging.Writer.WriteBuffered` | components/delta/delta.c:314-331 | Everything accepted is on flash or in the buffer, in order, whenever the buffer runs full in between |
| `Staging.Writer.Write` | components/delta/delta.c:291-333 | Exactly the writes that would pass the announced size are refused, and change nothing; the others extend what was accepted, and in deferred mode leave the flash alone |
| `Staging.Writer.CopyToFlash` | components/delta/delta.c:360-373 | The deferred patch arrives on flash piece by piece, each byte written once |
| `Staging.Writer.Flush` | components/delta/delta.c:335-378 | After a flush the flash holds what was accepted, each byte erased before and written once; a failed first flush can be repeated; a second flush of a deferred patch forgets the first |
| `Staging.Writer.VerifyCrc32` | components/delta/delta.c:409-442 | Succeeds exactly if the checksum, by polynomial division, of the first size bytes on flash is the expected one; every other result names its cause |
| `Staging.TakeChunks` | src/bluetooth/ota_handler.cpp:119-140 | The chunks that were accepted are held in order; a size that adds up rules out that part of a failed chunk is among them |
| `Staging.FinishTransfer` | src/bluetooth/ota_handler.cpp:267-305 | A transfer is applied only if the flush, the size and the checksum, when there is one, are right |
| `Staging.ReceivePatch` | components/delta/delta.c:206-442 | In all three modes, whatever fails, a patch that is applied is on flash as it was accepted, each byte written once, with the expected checksum; if nothing fails a complete and undamaged patch is applied |
| `Motor.HalvesFit` | src/hardware/rmt_pulse_timing.h:31-45 | Every half of a symbol fits its 15 bits, so the casts lose nothing, and none is empty unless the pulse is one microsecond long |
| `Motor.FewestSymbols` | src/hardware/rmt_pulse_timing.h:16-21 | No way of cutting a pulse into symbols uses fewer of them |
| `Motor.CutIsExact` | src/hardware/rmt_pulse_timing.h:31-45 | The halves of all symbols add up to the pulse, to the microsecond |
| `Motor.PayloadIsExact` | src/hardware/grinder.cpp:190-199 | The payload drives the motor for exactly the length of the pulse: nothing in it ends the transmission early |
| `Motor.CapacityIsLongest` | src/hardware/grinder.cpp:165-174 | A pulse fits the payload exactly from 1 to 1048 ms, which includes the promised 1000 |
| `Motor.Grinder.Start` | src/hardware/grinder.cpp:69-125 | The motor runs until stopped, exactly if the driver took the transmission |
| `Motor.Grinder.Stop` | src/hardware/grinder.cpp:127-151 | The line is low and no pulse is pending |
| `Motor.Grinder.StartPulse` | src/hardware/grinder.cpp:153-232 | A pulse of 1 to 1048 ms runs for exactly its length if the driver takes it; any other is refused and the motor stays off |
| `Motor.Grinder.IsPulseComplete` | src/hardware/grinder.cpp:234-257 | A pulse is reported complete exactly after the interrupt, and then the flags say that the motor is off |
| `LatencySearch.TestStaysInRange` | src/controllers/autotune_controller.cpp:291-367 | On any motor and scale every length tried is within 30 to 300 ms, and the two failures for lack of a success never happen |
| `LatencySearch.BracketKept` | src/controllers/autotune_controller.cpp:291-367 | On a motor with a threshold of at most 300 ms the search keeps it between a failing and a working length, one step apart; at most 13 tests are made, and the result is at most 270/64 ms too long, or 30 |
| `LatencySearch.SearchConverges` | src/controllers/autotune_controller.cpp:210-373 | The whole search ends with a candidate exactly if the threshold is at most 300 ms, and the candidate works and is less than 270/64 + 10 ms too long; otherwise all 50 tests are used up |
| `LatencySearch.WholeMilliseconds` | src/controllers/autotune_controller.cpp:494-499 | A motor that runs for whole milliseconds has its threshold at the next whole one above its limit |
| `LatencySearch.CeilTenBounds` | src/controllers/autotune_controller.cpp:302-304 | Rounding up gives a multiple of ten, adds less than ten and does not leave the range |
| `AutoTune.AutoTuneController.Start` | src/controllers/autotune_controller.cpp:46-102 | Starts only when not running, at the beginning of the search, with no pulse counted |
| `AutoTune.AutoTuneController.Cancel` | src/controllers/autotune_controller.cpp:104-116 | From any state the run is over at once and the motor off |
| `AutoTune.AutoTuneController.SaveMotorLatency` | src/controllers/grind_controller.cpp:1174-1194 | The latency changes only to a value within 30 to 300 ms, and only where it can be stored |
| `AutoTune.AutoTuneController.CompleteWithSuccess` | src/controllers/autotune_controller.cpp:608-641 | A result in range is stored; any other is a failure that stores nothing |
| `AutoTune.AutoTuneController.CompleteWithFailure` | src/controllers/autotune_controller.cpp:643-671 | The motor is off, the reason kept and the previous latency reported |
| `AutoTune.AutoTuneController.StartPulse` | src/controllers/autotune_controller.cpp:494-506 | The pulse runs for the whole milliseconds of its length, or the run fails with the motor off |
| `AutoTune.AutoTuneController.UpdateSettling` | src/controllers/autotune_controller.cpp:508-558 | Between a pulse and its result the run only waits, takes the settled weight, or fails on the timeout with the motor off; a call that finds nothing to wait for takes the next step |
| `AutoTune.AutoTuneController.UpdatePriming` | src/controllers/autotune_controller.cpp:148-208 | Priming is judged, waits for the tare or waits for its pulse; on a motor with a limit it never fails, and a call that finds nothing to wait for brings it nearer to the search |
| `AutoTune.AutoTuneController.JudgePriming` | src/controllers/autotune_controller.cpp:175-197 | Priming fails exactly if the settled gain is at most 0.010 g, and otherwise leads to the tare |
| `AutoTune.AutoTuneController.AwaitTare` | src/controllers/autotune_controller.cpp:570-580 | When the tare is done, and not before, the search begins |
| `AutoTune.AutoTuneController.FinishTest` | src/controllers/autotune_controller.cpp:291-367 | The result of a test changes the state as the search function says: the next length, a candidate, or a failure |
| `AutoTune.AutoTuneController.UpdateSearch` | src/controllers/autotune_controller.cpp:210-373 | On any motor the run stays sane; on a motor with a limit it stays on track to a candidate that works, and a call that finds nothing to wait for brings it nearer |
| `AutoTune.AutoTuneController.JudgeRound` | src/controllers/autotune_controller.cpp:378-425 | Four of five successes store the candidate; otherwise the next round uses one 5 ms longer, for at most five rounds and 300 ms |
| `AutoTune.AutoTuneController.UpdateVerification` | src/controllers/autotune_controller.cpp:375-488 | The same two guarantees for the verification; the latency changes only to the candidate |
| `AutoTune.AutoTuneController.Update` | src/controllers/autotune_controller.cpp:118-142 | One call of the main loop: the latency changes only on success and within range, and a run that ends leaves the motor off |
| `AutoTune.Tune` | src/controllers/autotune_controller.cpp:46-142 | A whole run with any calls on any motor and scale: at most 1 + 50 + 25 pulses, all of permitted lengths; the latency changes only on success; the motor ends off; and on a motor with a limit of at most 300 ms, priming included, 1 + 13 + 5 pulses are enough, and only a cancellation or a failing pulse or scale keeps the run from storing a latency that works |
| `AutoTune.TuneOnMotor` | src/controllers/autotune_controller.cpp:46-142 | On a motor with a limit of at most 300 ms, 134 calls that find the pulse over, the delays elapsed, the scale settled and the tare done end in success, with a latency that works and is near the limit |
| `PulseLoop.ClampedFlow` | src/controllers/weight_grind_strategy.cpp:51-61 | The flow that is used lies within 1 to 4 g/s whatever was measured |
| `PulseLoop.DurationBounds` | src/controllers/weight_grind_strategy.cpp:63-80 | A correction lasts from the latency to 250 ms more, in whole milliseconds from 30 to 550, so it is never refused for its length |
| `PulseLoop.YieldBelowError` | src/controllers/weight_grind_strategy.cpp:63-80 | On a plant no faster than assumed a pulse does not deliver more than the error |
| `PulseLoop.YieldAtFlow` | src/controllers/weight_grind_strategy.cpp:63-80 | With the flow known, a pulse removes the error, or a quarter second of flow if that is less |
| `PulseLoop.MeasurementRecovers` | src/controllers/pulse_flow_feedback.h:17-35 | A pulse with a productive part measures the flow of the plant |
| `PulseLoop.MeasurementInRange` | src/controllers/pulse_flow_feedback.h:17-35 | A measurement that is accepted is in range and explains the yield; an unproductive pulse is never accepted |
| `PulseLoop.NoOvershoot` | src/controllers/weight_grind_strategy.cpp:126-186 | Over a whole run, whatever the flow of each pulse as long as it is not above the one assumed, the weight never falls and never passes target minus tolerance; whole milliseconds included |
| `PulseLoop.Converges` | src/controllers/weight_grind_strategy.cpp:126-186 | With the flow known, n pulses leave max(0, error - 0.25 * flow * n) |
| `PulseLoop.FirstPulseMeasures` | src/controllers/weight_grind_strategy.cpp:137-157 | On a plant of constant flow the first pulse measures it exactly, however wrong the estimate was, and takes its yield off the error |
| `PulseLoop.FirstPulseStaysBelow` | src/controllers/weight_grind_strategy.cpp:63-80 | The first pulse stays below the conservative target exactly if the plant is not faster than the estimate or the longest pulse delivers no more than the error |
| `PulseLoop.ConvergesFromEstimate` | src/controllers/weight_grind_strategy.cpp:126-186 | From any estimate: under that condition the flow is measured once and the weight then driven to the conservative target; otherwise the loop stops after the first pulse |
| `PulseLoop.ArrivalIsNotNoticed` | src/controllers/weight_grind_strategy.cpp:159-168 | Exactly at the conservative target the loop does not stop: it goes on with pulses that deliver nothing until the attempts are used up |
| `PulseLoop.IdlesOnlyThere` | src/controllers/weight_grind_strategy.cpp:159-186 | A loop that has not stopped gets nothing from a pulse exactly if it is at the conservative target |
| `PulseLoop.WholePulse` | src/controllers/weight_grind_strategy.cpp:137-177 | A pulse cut to whole milliseconds passes the conservative target by at most 12 mg, also when the flow was measured from such a pulse |
| `PulseLoop.WholeMillisecondsStayBelow` | src/controllers/weight_grind_strategy.cpp:126-186 | With whole milliseconds and constant flow a run ends at most 12 mg above the conservative target, so below the target itself |
| `PulseLoop.StaysBelowFromEstimate` | src/controllers/weight_grind_strategy.cpp:126-186 | In particular whenever the first estimate of the flow was not too low |
| `PulseLoop.GainStaysInRange` | src/controllers/pulse_flow_feedback.h:43-58 | The learned gain stays within 0.5 to 2 |
| `PulseLoop.GainContracts` | src/controllers/pulse_flow_feedback.h:43-58 | Each equal sample leaves four fifths of the distance between the gain and the clamped ratio |
| `PulseLoop.GainApproaches` | src/controllers/pulse_flow_feedback.h:43-58 | After n equal samples the gain has kept 0.8 to the n of its distance from measured / base, or from the nearer of 0.5 and 2 if that ratio lies outside of them |
| `GrindLog.GrindLogger.LogEvent` | src/logging/grind_logging.cpp:275-288 | An event gets the next number and is appended, unless logging is off or fifty events are stored |
| `GrindLog.GrindLogger.StartSession` | src/logging/grind_logging.cpp:84-137 | A session starts with an empty log, if there is a buffer for it |
| `GrindRun.StaysInSequence` | src/controllers/grind_controller.cpp:714-757 | Logging the end of a phase and beginning the next one leaves no gap in the log |
| `GrindRun.GrindController.SwitchPhase` | src/controllers/grind_controller.cpp:700-859 | Only a change within the loop logs the ended phase and begins an event for the new one; the results of COMPLETED and TIMEOUT are set as specified |
| `GrindRun.GrindController.SwitchInLoop` | src/controllers/grind_controller.cpp:700-767 | A change within the loop adds at most one event and keeps the log without gaps |
| `GrindRun.GrindController.StepSetup` | src/controllers/grind_controller.cpp:344-359 | A session begins, and the event of the setup is its first |
| `GrindRun.GrindController.StepTareConfirm` | src/controllers/grind_controller.cpp:368-380 | After the tare the motor is started and the phase is TIME_GRINDING or PRIME, by mode |
| `GrindRun.GrindController.StepPrime` | src/controllers/grind_controller.cpp:382-405 | Priming stops at the amount less what is still on its way, or after five seconds |
| `GrindRun.GrindController.StepPrimeSettling` | src/controllers/grind_controller.cpp:407-449 | The user is asked exactly in purge mode with stale grounds, with the motor off; otherwise the grind goes on |
| `GrindRun.GrindController.StepTimeGrinding` | src/controllers/time_grind_strategy.cpp:16-46 | The motor is stopped exactly when the time is over |
| `GrindRun.GrindController.StepPredictive` | src/controllers/weight_grind_strategy.cpp:82-124 | The motor is stopped exactly when the settled motor has brought the weight to the target less the coast |
| `GrindRun.GrindController.StopsOneLatencyEarly` | src/controllers/weight_grind_strategy.cpp:82-124 | With a flow that has lasted for its latency and 1.5 seconds, the motor is stopped exactly when another latency of that flow makes up what is missing |
| `GrindRun.GrindController.CloseLoop` | src/controllers/weight_grind_strategy.cpp:137-157 | The settled yield of the last pulse replaces the assumed flow exactly if it is a usable measurement, and is blended into the gain |
| `GrindRun.GrindController.StartCorrection` | src/controllers/weight_grind_strategy.cpp:170-185 | The next pulse is entered into the history and runs for the whole milliseconds of its duration, or the grind times out because the driver refused it |
| `GrindRun.GrindController.CloseRound` | src/controllers/weight_grind_strategy.cpp:137-157 | The weight, the flow and the number of pulses after a round are those of the loop of PulseLoop; on a plant that is not faster than assumed the pulse has not passed the conservative target |
| `GrindRun.GrindController.StepPulseDecision` | src/controllers/weight_grind_strategy.cpp:126-186 | The corrections end exactly at the tolerance or after ten; otherwise a pulse is started; no index of the history is out of range; each decision is one round of the loop of PulseLoop |
| `GrindRun.GrindController.StepPulseExecute` | src/controllers/weight_grind_strategy.cpp:188-193 | When the pulse is over the motor is off |
| `GrindRun.GrindController.StepPulseSettling` | src/controllers/weight_grind_strategy.cpp:195-206 | A decision is made only after the coast time and a settled scale |
| `GrindRun.GrindController.StepFinalSettling` | src/controllers/grind_controller.cpp:684-697 | A grind by weight that delivered nothing is an error, any other is completed with its result |
| `GrindRun.GrindController.StepExtraPulse` | src/controllers/grind_controller.cpp:493-518 | An additional pulse leads back to COMPLETED with the motor off |
| `GrindRun.GrindController.Failsafes` | src/controllers/grind_controller.cpp:592-648 | A negative weight, a stale scale or the timeout ends in TIMEOUT with the motor off, and nothing else does |
| `GrindRun.GrindController.Update` | src/controllers/grind_controller.cpp:300-648 | A call moves phase, motor, result, attempts, times, flow and learned values on as the phase demands when no failsafe holds and the loop is not paused, ends in TIMEOUT with the motor off when one holds, and changes nothing of the grind in the purge pause; the motor runs only in the five phases |
| `GrindRun.ResultMeans` | src/controllers/grind_controller.cpp:805-819 | What the result of a completed grind says about the weight, the target and the corrections |
| `GrindRun.GrindController.StartGrind` | src/controllers/grind_controller.cpp:109-216 | A faulty scale, or a saturated one in weight mode, starts nothing; otherwise the run begins in INITIALIZING with every count, time, flag and target as it should be and the motor off |
| `GrindRun.GrindController.StopGrind` | src/controllers/grind_controller.cpp:242-262 | From any phase the motor is off, the log dropped and the controller idle |
| `GrindRun.GrindController.ContinueFromPurge` | src/controllers/grind_controller.cpp:264-298 | The grind goes on from the purge only, and the time of the user does not count |
| `GrindRun.GrindController.StartAdditionalPulse` | src/controllers/grind_controller.cpp:1105-1142 | A pulse of 100 ms from the completion screen only, with a fresh time window; a refused one changes nothing |
| `GrindRun.GrindController.ReturnToIdle` | src/controllers/grind_controller.cpp:223-240 | Only a finished grind returns to idle |
| `GrindRun.GrindController.Safety` | src/controllers/grind_controller.cpp:300-648 | What holds in every state: motor on only in the five phases, at most ten corrections of 30 to 550 ms, at most 40 events and none dropped, no gaps |
| `GrindRun.Run` | src/controllers/grind_controller.cpp:300-791 | For any sequence of loop calls and buttons with a start only from idle, all this holds after each call, and the time left never underflows |
| `GrindRun.RunOnPlant` | src/controllers/weight_grind_strategy.cpp:126-206 | In any sequence of grinds on a plant that is never faster than the flow assumed for a pulse, no correction pulse passes target minus tolerance |
| `GrindToEnd.GrindByWeight` | src/controllers/grind_controller.cpp:300-791 | From idle, with calls every 10 to 100 ms and nothing in their way, on a plant of any constant flow from 1 to 4 g/s, a grind by weight, with or without the purge, is completed within 371 calls: by the tolerance or after ten corrections, with the weight, the number of corrections and the result of the closed loop; if the estimate is not too low the target is not passed |
| `GrindToEnd.GrindByTime` | src/controllers/time_grind_strategy.cpp:16-46 | From idle, under the same calls, a grind by time is completed with success, and the motor has run for the time that was asked for, or up to the 100 ms between two calls longer |
| `GrindToEnd.RunStops` | src/controllers/weight_grind_strategy.cpp:159-168 | The closed loop on a plant has stopped after ten corrections |
| `NoiseMonitor.LoadCellNoiseMonitor.AddSample` | src/hardware/load_cell_noise_monitor.cpp:28-34 | The ring holds exactly the last 300 samples, or all of them |
| `NoiseMonitor.LoadCellNoiseMonitor.Clear` | src/hardware/load_cell_noise_monitor.cpp:16-26 | The ring is empty |
| `NoiseMonitor.SumsFit` | src/hardware/load_cell_noise_monitor.cpp:78-90 | No sum of a full ring of 24-bit samples overflows 64 bits |
| `NoiseMonitor.Steiner` | src/hardware/load_cell_noise_monitor.cpp:101-104 | Squares about one point in terms of squares about another |
| `NoiseMonitor.VarianceIsTextbook` | src/hardware/load_cell_noise_monitor.cpp:99-104 | Whichever sample the differences are taken from, the formula is the textbook sample variance |
| `NoiseMonitor.LoadCellNoiseMonitor.GetStats` | src/hardware/load_cell_noise_monitor.cpp:54-109 | From twenty samples on: the textbook variance, which is not negative, and maximum minus minimum of the last 300 samples |
| `TareHandshake.StepWinsOnce` | src/hardware/WeightSensor.cpp:805-833 | Every step of caller and task leaves every request pending, refused, replaced by the next one or claimed, and only one of these |
| `TareHandshake.StepAppliesInOrder` | src/hardware/WeightSensor.cpp:818-832 | What is claimed is applied in the order of the claims; only the last can still be under way |
| `TareHandshake.StepKeepsStatus` | src/hardware/WeightSensor.cpp:958-966 | A status that a caller can see is that of its own request, unless it was at risk when the request began |
| `TareHandshake.StepCounts` | src/hardware/WeightSensor.cpp:805-811 | A request is counted from zero, unless its count was at risk when it began |
| `TareHandshake.Handshake` | src/hardware/WeightSensor.cpp:241-275 | In every interleaving a refused request never moves the zero point or clears the filters; a granted one, or one that a caller has seen to be over, is claimed; what is claimed is applied exactly once |
| `TareHandshake.EnoughSamples` | src/hardware/WeightSensor.cpp:805-814 | A request whose count was not at risk is claimed after exactly eighteen samples of its own, or at least as many if the next one has zeroed the count meanwhile |
| `TareHandshake.MisledExactly` | src/hardware/WeightSensor.cpp:958-966 | From any reachable state, a new request can be confirmed before the zero point is moved for it exactly if an earlier tare is being applied or an abandoned request is pending |
| `TareHandshake.HurriedExactly` | src/hardware/WeightSensor.cpp:805-814 | From any reachable state, a new request can be claimed with fewer than eighteen samples of its own exactly if the task is between seeing a request and deciding about it or an abandoned request is pending |
| `TareHandshake.StaleClaim` | src/hardware/WeightSensor.cpp:805-814 | A run in which a second request is claimed with no sample of its own |
| `TareHandshake.ForeignStatus` | src/hardware/WeightSensor.cpp:958-966 | A run in which a polling caller is told of an earlier tare while its own is pending |
| `CloudSync.ListedAll` | src/system/cloud_sync.cpp:296-318 | With at most 250 well-formed sessions on flash, none is missing from the manifest |
| `CloudSync.CloudSync.ListSessions` | src/system/cloud_sync.cpp:296-318 | The manifest lists the first 250 well-formed files in the order of the directory |
| `CloudSync.CloudSync.MarkDirty` | src/logging/grind_logging.cpp:1386-1388 | A finished flush or purge raises the flag |
| `CloudSync.CloudSync.BeginRun` | src/system/cloud_sync.cpp:200-211 | A run takes the storage version as it is before the manifest |
| `CloudSync.CloudSync.EndRun` | src/system/cloud_sync.cpp:213-235 | Only a success moves the synced version, to the snapshot, so a flush that lands during the run keeps the flag up; without one everything is settled exactly if everything lacking was asked for |
| `CloudSync.CloudSync.StepManifest` | src/system/cloud_sync.cpp:280-354 | The wanted ids are the ones that arrive, at most 250; any status but 200 fails the run |
| `CloudSync.CloudSync.Send` | src/system/cloud_sync.cpp:382-401 | A file counts as uploaded exactly if the server stored it, had it or rejected it for good |
| `CloudSync.CloudSync.StepUpload` | src/system/cloud_sync.cpp:357-402 | One wanted file a step, at most 100 a run: a file that is gone or unreadable is skipped; one that is sent ends with the server on 200 or 201, is rejected for good on 422, counts in these cases and no others, and any other answer fails the run |
| `CloudSync.CloudSync.Step` | src/system/cloud_sync.cpp:250-266 | A run is a success exactly if it came to its end and everything wanted was answered for |
| `CloudSync.Live` | src/system/cloud_sync.cpp:164-266 | In any interleaving with flushes and purges: when the flag is down after a success with a complete answer, the server holds every well-formed session on flash or has rejected it |
| `CloudSync.FairRun` | src/system/cloud_sync.cpp:164-266 | A run in which every answer arrives and is 200, 201 or 422: the first hundred wanted files are settled and counted; with at most a hundred wanted it is a success with all of them settled, the flag is down, and if the server named all it lacks everything on flash is settled; with more it is partial |
| `CloudSync.LostAnswer` | src/system/cloud_sync.cpp:320-351 | If the answer to the manifest is lost after its status, the run is a success and a session on flash is forgotten |

## Left out

- Heatshrink and LZMA: their decoders are not part of this model. The build configuration of the
  repository enables Heatshrink only; the two compressions modelled are those whose code is complete
  in `components/detools/detools.c`.
- InPlace.RunOnce: speaks of well-formed patches only, those that `PatchFor` accepts; what the
  in-place patcher does with others is not modelled beyond its types.
- InPlace.UpdateWithPowerCuts: a failing operation is a loss of power; operations that fail and leave
  the system running are not modelled.
- Sequential.ApplyInChunks: a header that is cut by the end of the first chunk is rejected by the
  source by design, so the first chunk must hold it.
- Sequential.ApplyInSessions: needs a source partition that is not empty, because the callbacks refuse
  every seek in an empty one.
- Sequential.ApplyPatch.Finalize: destination writes do not fail, and a full update, which has no
  source partition, is not modelled.
- The width of `from_offset`: it is unbounded here; each adjustment has 27 bits and every seek is
  checked against the partition.
- Staging.Writer.Write: buffers have non-negative sizes and the null checks of the C code are
  not modelled; a failing flash operation leaves the flash as it was.
- Reading and writing files, partitions and boot selection, and the code that aborts a transfer.
- LatencySearch.SearchConverges: speaks of a motor with a threshold; a noisy one has the bounds of
  `AutoTune.Tune` only.
- AutoTune.Tune: log files, messages and progress records are not modelled, and the clock is a
  parameter.
- PulseLoop.Converges: ignores that the motor runs for whole milliseconds;
  `WholeMillisecondsStayBelow` has the bound that takes this into account.
- GrindRun.Run: a start while a grind is in progress, and other users of the motor at the same time,
  are excluded; the latency of the motor does not change during a run. Clocks are unbounded, the
  queues between the cores do not overflow, and measurements, screens, diagnostics, statistics and
  stored preferences are not modelled.
- GrindRun.GrindController.SaveSession: a session that the other core ends late may end the log of a
  later grind; then nothing is claimed about that log.
- GrindToEnd.GrindByWeight: the calls come every 10 to 100 ms and find the tare done, the scale settled
  and the driver willing; for other calls there is safety (`GrindRun.Run`) and no completion.
- GrindToEnd.GrindByTime: the time is at most 59 seconds, because the timeout of the grind would
  end a longer one.
- AutoTune.TuneOnMotor: no call finds anything to wait for; a wait only adds calls.
- Real time: taring, settling and pulses wait on hardware, so there are bounds on steps and pulses
  and none on milliseconds.
- NoiseMonitor.LoadCellNoiseMonitor.GetStats: gives the variance and not its square root, does not
  estimate the sample rate, and is not interrupted by new samples.
- TareHandshake.Handshake: one caller at a time, and the wait for a fresh sample is not timed.
- CloudSync.Live: the server keeps what it stored and the storage version does not wrap around;
  sessions from before the start of the system count once a run has succeeded. The schedule of
  the windows, brew records, bean configuration, JSON and HTTP are reduced to their outcomes.
- Boot guard, brew queue and prompt, profiles, the screens and the Bluetooth services: real logic, but
  it would add easy members only.
