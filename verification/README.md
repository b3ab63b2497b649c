# Verified models of QEMU's live state handling

A Dafny model of the parts of QEMU whose correctness rests on protocols, interleavings and bit-level
arithmetic rather than on device detail:

- **RAM migration** (`RamFormat`, `RamSender`, `RamTurns`, `RamSave`, `RamReceiver`, `RamGrammar`, `RamMigration`,
  with `Wire` and `Qsort`). The sender and receiver of `ram_save_live` and `ram_load`, down to the bytes of the
  stream; exactly which streams the receiver accepts, and what it does with the others.
  While it runs, the guest writes. Whatever it writes and whatever the rate limiter decides, stage 3 ends
  with equal memories.
- **Block migration** (`BlockMigration`, `BlockOvertake`, `BlockSave`, `BlockStream`, `BlockGrammar`,
  `BlockTransfer`). A machine
  whose steps interleave guest writes, dirty marks, asynchronous reads that see the disk sector by sector,
  completions in any order, and sends. The loops of the source are methods proved to take only steps of that
  machine. When reads of a chunk complete in order and the last flush leaves nothing clean behind, `block_load`
  makes of the stream exactly the source's disks; the exact conditions are theorems.
- **Copy-on-read** (`Clusters`, `CopyOnRead`, `CopyResults`, `CopyProgress`). Serialisation of overlapping requests
  in every interleaving, its transparency to the guest, what each request comes to, and that each can succeed.
- **Write merging** (`WriteMerge`, `Multiwrite`). What `multiwrite_merge` does to the disk, exactly when it
  is faithful, and the completion protocol.
- **Commit and byte-granular I/O** (`Commit`, `ByteIo`, with `Allocation`, `Splicing` and `Sectors`).
- **Dirty tracking and bitmaps** (`DirtyBitmap`, `Bitmap`, `BitSearch`, `ZeroArea`, with `Words`, `NatBits` and
  `Arith`).
- **Buffered migration file** (`BufferedFile`) and **bottom halves** (`BottomHalves`,
  `BottomRuns`).
- **AES** (`AesField`, `RoundCipher`, `AesCipher`, `AesWord`, `AesTables`, `AesBlock`, `AesKeySchedule`,
  `AesSbox`, `AesExpansion`, `AesVectors`) against FIPS 197 and its known answers, and **CBC** (`CbcMode`, `AesCbc`, `AesOverlap`, `AesStandard`) against section 6.2 of
  NIST SP 800-38A.

Code that works by changing state is a class or a method with loops over arrays, `seq` or `map` fields,
proved against a specification function; what the source promises is then proved about that function.
Interleavings are machines with a step datatype and an invariant kept by every step.

Choices that hold throughout:

- An `unsigned long` is a natural number below 2^64, and its bits are defined by recursion (`Words`).
  AES bytes and words are bit vectors.
- The answers of code outside the model (rate limiters, backends, allocators, failing reads and writes)
  are parameters, and the theorems hold for all of them.
- Callers' obligations are the only preconditions. Error returns are modelled where the source returns them.

Where the code does not do what one would expect, the code is modelled as it is, with a concrete input that
shows the difference and, where there is one, the exact condition under which it does:
`Multiwrite.ContainedRequestLosesTail` with `WriteMerge.MergeExact`; `BufferedFile.ZeroLosesData` and
`BufferedFile.ZeroReorders` with `BufferedFile.PutFaithfulIff`; `BlockMigration.CutFlushLosesData` with
`BlockMigration.FinishExact`; `BlockMigration.OvertakingLosesData` with `BlockMigration.ExclusiveCorrect` and
`BlockOvertake.OvertakingPossible`; the carried vector of CBC in `CbcMode.PartialVectorDiffers` with
`CbcMode.CarriedVector`; re-enabling dirty tracking in `DirtyBitmap.SwitchOnTwice` with
`DirtyBitmap.DirtyTracking.SetDirtyTracking`; empty dirty ranges in `DirtyBitmap.EmptyRangeTouches` with
`DirtyBitmap.TouchedIffMeets`; the area search in `ZeroArea.SearchAnswersBeforeStart` and
`ZeroArea.SearchNeverEnds` with `ZeroArea.SearchExact`; the last loop of block migration in
`BlockSave.SyncNeverEnds` with `BlockSave.SyncEndsIff`; and CBC in one buffer in `AesOverlap.EncryptsIff` and
`AesOverlap.DecryptsIff`.

`dafny verify dfyconfig.toml` checks everything.

## Model

| member | source | states |
|---|---|---|
| `RamMigration.MigrationCorrect` | qemu/arch_init.c:267-352 | for every source, destination, pattern of guest writes and rate-limit answers, stage 1, any iterations and a stage 3 with the guest stopped load completely and leave equal memories |
| `RamMigration.RunCoupled` | qemu/arch_init.c:267-352 | after every event of every run each page is dirty, logged or equal at the destination, and the receiver remembers the block the sender's cursor is in |
| `RamMigration.RunSucceeds` | qemu/arch_init.c:267-352 | a run fails only by an error of the rate limiter, and if it does not each call has sent a section |
| `RamMigration.DeliverCouples` | qemu/arch_init.c:137-195 | sending a page and delivering it keeps that coupling |
| `RamMigration.WriteCouples` | qemu/arch_init.c:280-299 | a guest write, logged or marked, keeps that coupling |
| `RamMigration.RecordLoads` | qemu/arch_init.c:152-177 | a page record decodes to its page at its address anywhere in the stream; CONTINUE is only sent when the receiver's remembered block is the sender's |
| `RamMigration.PageRecordLoads` | qemu/arch_init.c:435-476 | the receiver's branches on the four kinds of record each deliver what was encoded |
| `RamMigration.BlockListLoads` | qemu/arch_init.c:400-433 | the block lengths use up the announced total exactly, with nothing left over |
| `RamMigration.HeaderLoads` | qemu/arch_init.c:301-307 | the stage 1 header of the sender is accepted whole by the receiver |
| `RamMigration.SaveBlockLoads` | qemu/arch_init.c:137-195 | whatever one scan emits, loading it keeps source and destination coupled |
| `RamMigration.RateLoopLoads` | qemu/arch_init.c:313-321 | so does the rate-limited loop with guest writes between its turns |
| `RamMigration.FlushAllLoads` | qemu/arch_init.c:337-345 | so does the loop of stage 3 |
| `RamMigration.FlushAllCleans` | qemu/arch_init.c:337-345 | the loop of stage 3 leaves no page dirty |
| `RamMigration.LiveLoads` | qemu/arch_init.c:267-352 | one whole call, loaded, keeps source and destination coupled, and after a quiet stage 3 the memories are equal |
| `RamMigration.FlagTests` | qemu/arch_init.c:394-476 | the receiver's flag tests tell apart every combination the sender writes |
| `RamFormat.SplitWord` | qemu/arch_init.c:395-398 | a page-aligned offset ORed with flags splits back into both exactly |
| `RamFormat.JoinWord` | qemu/arch_init.c:161-177 | ORing flags into a page-aligned offset adds them below the page boundary |
| `RamFormat.ConstantIsFill` | qemu/arch_init.c:119-132 | a page is constant exactly when it is its first byte repeated |
| `RamSave.IsDupPage` | qemu/arch_init.c:119-132 | the word-wise loop answers yes exactly when all bytes equal the first |
| `RamSave.WordEqual` | qemu/arch_init.c:119-132 | a word equals a splatted byte exactly when each of its bytes is that byte |
| `RamSave.Sender.FindDirty` | qemu/arch_init.c:137-195 | the scan from the cursor ends, at the first dirty page in cyclic order or, having seen every page, at none |
| `RamSave.Sender.RamSaveBlock` | qemu/arch_init.c:137-195 | sends and cleans exactly that page, or nothing when no page of any block is dirty |
| `RamSave.Sender.PutPage` | qemu/arch_init.c:152-177 | writes the record of a page: one byte for a constant page, the name only without CONTINUE |
| `RamSave.ScanDecides` | qemu/arch_init.c:137-195 | where the scan ends is what the specified search finds |
| `RamSender.ScanSeesAll` | qemu/arch_init.c:137-195 | a scan that comes all the way round has seen every page, so none is dirty |
| `RamSender.SendPageStarted` | qemu/arch_init.c:137-195 | sending a dirty page sets the cursor, so that a null cursor still goes with every page dirty |
| `RamSender.BeginStarts` | qemu/arch_init.c:282-299 | stage 1 establishes that a null cursor goes with every page dirty, which is what makes the scan end |
| `RamSender.SaveBlockValid` | qemu/arch_init.c:137-195 | a scan keeps the sender well formed, and what it sends it cleans |
| `RamSave.Sender.RamSaveRemaining` | qemu/arch_init.c:199-215 | walking every page of every block counts the dirty pages |
| `RamSave.Sender.CountBlock` | qemu/arch_init.c:199-215 | the inner loop counts the dirty pages of one block |
| `RamSave.Sender.BytesTotalOf` | qemu/arch_init.c:227-236 | the total of the block lengths |
| `RamSave.Sender.BeginStage1` | qemu/arch_init.c:282-307 | stage 1's preparation: sorted list, null cursor, all pages dirty, logging on, and the header |
| `RamSave.Sender.SetAllDirty` | qemu/arch_init.c:289-297 | exactly the pages of the listed blocks become dirty |
| `RamSave.Sender.PutBlockList` | qemu/arch_init.c:301-307 | the total and then name and length of every block |
| `RamSave.Sender.SendUnderRateLimit` | qemu/arch_init.c:313-325 | the loop of stage 2 refines its specification for every answer of the rate limiter |
| `RamSave.Sender.SendRemaining` | qemu/arch_init.c:337-345 | the loop of stage 3 ends, because each turn cleans a page, and refines its specification |
| `RamSave.Sender.RamSaveLive` | qemu/arch_init.c:267-352 | the whole function refines its specification in every stage, errors included, and asks for stage 3 only from stage 2 and when the rest is expected to fit the downtime |
| `RamReceiver.Receiver.RamLoad` | qemu/arch_init.c:384-479 | the loop loads what the specification loads, or fails for the same reason, at the end of the stream too, and then leaves the memory the specification says |
| `RamGrammar.LoadsIff` | qemu/arch_init.c:384-479 | for every stream and destination, the stream is accepted if and only if it is of version 4 and a sequence of legal records of which the last alone has the end mark, and then it leaves what the records leave |
| `RamGrammar.HeaderIff` | qemu/arch_init.c:400-429 | a block list is accepted if and only if it is a list of entries, each naming a block of the destination with exactly its length, whose lengths add up to the announced total |
| `RamGrammar.BadListRefused` | qemu/arch_init.c:413-424 | a list with an unknown name or another length is refused with EINVAL and nothing is changed |
| `RamGrammar.RunLoads` | qemu/arch_init.c:393-476 | whatever follows legal records is loaded, or refused, on top of what they leave |
| `RamGrammar.NoHostRefused` | qemu/arch_init.c:362-382 | a page of one byte for no block is refused with EINVAL; a page in full for no block is a wild write |
| `RamGrammar.PastEndWild` | qemu/arch_init.c:435-470 | a page past the end of its block is a wild write |
| `RamGrammar.CutPageLeaves` | qemu/arch_init.c:459-475 | a stream that ends within a page in full leaves in it the bytes there were and then what it held |
| `RamGrammar.CutByteLeaves` | qemu/arch_init.c:435-475 | one that ends before the byte of a page of one byte leaves zeros |
| `RamGrammar.CutWordLeaves` | qemu/arch_init.c:393-476 | one that ends within a record's word leaves the records before it, with EIO |
| `RamGrammar.CutListRefused` | qemu/arch_init.c:407-431 | a list that ends within the length of an entry is an error of the stream if zeros make it a whole list, and refused otherwise |
| `RamGrammar.CutHostRefused` | qemu/arch_init.c:435-475 | a page that ends with its name, for no block or past the end of its block: an error of the stream in full, a wild write if of one byte past the end |
| `RamReceiver.Receiver.ReadBody` | qemu/arch_init.c:400-476 | what follows the word of a record is checked and stored as the specification says, or fails for the same reason |
| `RamReceiver.Receiver.CheckBlocks` | qemu/arch_init.c:400-433 | the loop over the announced blocks accepts exactly the list the specification accepts |
| `RamReceiver.Receiver.HostFromStreamOffset` | qemu/arch_init.c:354-382 | finds the page named by the stream or by the remembered block, and remembers it |
| `Qsort.SortCorrect` | qemu/arch_init.c:246-265 | sorting gives a sorted permutation |
| `RamSender.IdLessPreorder` | qemu/arch_init.c:238-244 | the comparison of block names is a total preorder |
| `RamTurns.IdLessIff` | qemu/arch_init.c:238-244 | it is that of strcmp: a prefix first, otherwise the smaller byte at the first difference |
| `RamTurns.BeginSorts` | qemu/arch_init.c:246-265 | stage 1 puts the same blocks into that order |
| `RamTurns.NextPage` | qemu/arch_init.c:139-192 | the page sent is the first dirty one from the cursor on, in list order and wrapping around |
| `RamTurns.RecordSize` | qemu/arch_init.c:150-178 | a record has a name exactly if the block is another than that of the page before, and one byte exactly if the page is constant; and what it counts as |
| `RamTurns.RoundEnds` | qemu/arch_init.c:313-322 | a round ends with the first answer of the rate limiter that stops it or when no page is dirty, until then sends a page for each answer, and leaves in memory the guest's stores up to then |
| `RamTurns.LiveFails` | qemu/arch_init.c:313-326 | a call fails exactly if it is not a cancel and the answer that stops its round is an error |
| `RamTurns.WritesStore` | qemu/arch_init.c:280-299 | the guest's stores take effect in order, logged or not |
| `RamTurns.WriteRecorded` | qemu/arch_init.c:280-299 | a store is recorded exactly while logging is on, and only for its own page |
| `RamTurns.LoggingStops` | qemu/arch_init.c:275-344 | logging is on after stage 1, off after a cancel and after a stage 3 that succeeds, and otherwise as it was |
| `Wire.GetPutWord` | qemu/savevm.c:801-813 | a big-endian 64-bit word reads back as written, whatever follows |
| `Wire.BeRoundTrip` | qemu/savevm.c:801-813 | the bytes of a number, most significant first, give the number back |
| `Wire.BeDigits` | qemu/arch_init.c:160-173 | the most significant byte comes first |
| `Wire.GetPutName` | qemu/arch_init.c:161-170 | a length-prefixed name reads back as written |
| `BlockMigration.MigrationCorrect` | qemu/block-migration.c:539-624 | after every run, in whatever order reads complete, read_done is the length of blk_list and submitted the number of reads pending; and if the reads of each chunk complete in order, then once nothing is left to mark, read or send every destination disk equals its source |
| `BlockMigration.ExclusiveCorrect` | qemu/block-migration.c:365-430 | if no dirty chunk is read again while a read of it is pending, that holds for every order of completions |
| `BlockMigration.DrainedCorrect` | qemu/block-migration.c:365-430 | in particular if the reads of the bulk phase have completed before the first dirty chunk is read: the in-flight bits then keep the reads of a chunk apart |
| `BlockOvertake.OvertakingPossible` | qemu/block-migration.c:187-204 | conversely, from every reachable state with two reads of one chunk pending and no failed read, some continuation settles with unequal disks |
| `BlockMigration.ExclusiveInOrder` | qemu/block-migration.c:365-430 | without such a second read no chunk ever has two reads pending, so no completion can be out of order |
| `BlockMigration.StepSound` | qemu/block-migration.c:187-477 | in any order of completions every step keeps: in-flight bits belong to pending reads, blocks to be sent are complete, a shared base stays equal past the bulk cursor, and two reads of a chunk are pending only after the bulk phase |
| `BlockMigration.StepKeeps` | qemu/block-migration.c:187-477 | every step that completes reads in order keeps: each sector is dirty, about to be marked, not reached by the bulk phase, or held by the newest read, queued block or destination |
| `BlockMigration.StepGood` | qemu/block-migration.c:187-477 | the coverage of one sector under each kind of step |
| `BlockMigration.BulkGood` | qemu/block-migration.c:206-260 | the bulk step covers what it reads and skips only what is equal on both sides |
| `BlockMigration.SkippedCovered` | qemu/block-migration.c:213-219 | with a shared base, unallocated sectors past the cursor are equal on both sides |
| `BlockMigration.BulkSingle` | qemu/block-migration.c:206-260 | the bulk phase never reads a chunk of which a read is pending |
| `BlockMigration.DirtyGood` | qemu/block-migration.c:391-416 | resetting the dirty bit after submitting the read keeps coverage |
| `BlockMigration.CompleteCovers` | qemu/block-migration.c:187-204 | a completing read takes its place behind all older blocks of its chunk |
| `BlockMigration.FlushGood` | qemu/block-migration.c:447-477 | sending the head of the queue keeps coverage |
| `BlockMigration.StepInFlight` | qemu/block-migration.c:141-173 | a chunk marked in flight always has a read pending |
| `BlockMigration.StepBase` | qemu/block-migration.c:626-701 | what the destination loads never touches chunks the bulk phase has not reached |
| `BlockMigration.InitInv` | qemu/block-migration.c:305-317 | the initial state satisfies the invariant, with writes already under way |
| `BlockMigration.FinishExact` | qemu/block-migration.c:602-608 | stage 3 makes the disks equal, for every destination that keeps the invariant, if and only if every block its flush left on blk_list is of a dirty chunk; always when none were left |
| `BlockMigration.CutFlushLosesData` | qemu/block-migration.c:447-477 | a run from the start, cut short by the rate limit at its flush, after which stage 3 loses the contents of a clean chunk |
| `BlockMigration.OvertakingLosesData` | qemu/block-migration.c:187-204 | a run from the start in which a read of the bulk phase is overtaken by a later read of the same chunk: it settles with the older contents at the destination |
| `BlockSave.BlkMigState.MigSaveDeviceBulk` | qemu/block-migration.c:206-260 | takes exactly the bulk step of the device and says whether its bulk phase is over |
| `BlockSave.SkipUnallocated` | qemu/block-migration.c:213-219 | the loop finds the first allocated sector from the cursor on, or the end |
| `BlockSave.BulkSkips` | qemu/block-migration.c:213-226 | over a shared base the bulk phase goes on at the first allocated sector, and otherwise at the cursor |
| `BlockSave.BulkSubmits` | qemu/block-migration.c:213-260 | a bulk step submits the read of the chunk it has come to, which is clean since, and moves to the end of it; past the last allocated sector it submits nothing and the bulk phase is over |
| `Allocation.IsAllocated` | qemu/block.c:2384-2405 | the state of a sector and a run in the same state within the limits given |
| `BlockSave.BlkMigState.SaveBulkedBlock` | qemu/block-migration.c:319-354 | takes the bulk step of the first device not finished, or finds that all are |
| `BlockSave.BlkMigState.MigSaveDeviceDirty` | qemu/block-migration.c:365-430 | the scan ends at the first dirty chunk from the cursor, which it submits, or reads and sends and cleans unless the read fails, or at the end with none dirty in between |
| `BlockSave.BlkMigState.DrainAll` | qemu/block-migration.c:375-377 | all pending reads complete, in any order and with any results, by steps of the machine, and nothing else changes |
| `BlockSave.BlkMigState.SaveDirtyBlock` | qemu/block-migration.c:432-445 | false exactly when no chunk of any device is dirty; otherwise it is the first dirty chunk of the first device with one that is sent and clean, unless the read fails, which is recorded |
| `BlockSave.BlkMigState.SubmitDirtyBlock` | qemu/block-migration.c:432-445 | submits exactly one block if some chunk from its device's cursor on is dirty, and finds nothing to submit if and only if none is; the cursors pass only clean chunks |
| `BlockSave.BlkMigState.FlushBlks` | qemu/block-migration.c:447-477 | sends the blocks of the queue up to the first rate limit or failed read, and no further |
| `BlockSave.BlkMigState.Transfer` | qemu/block-migration.c:574-591 | the loop of stage 2 ends and is a run of the machine; it ends only when the blocks on their way fill the rate limit, and with no more than it took to fill it, or when the bulk phase is over and no chunk from its device's cursor on is dirty |
| `BlockSave.BulkAhead` | qemu/block-migration.c:576-591 | a bulk step ends a device's bulk phase or puts one more block on its way |
| `BlockSave.BlkMigState.StageTwo` | qemu/block-migration.c:564-600 | stage 2 is a run of the machine: a flush, the loop, and a flush; without an error either the loop filled the rate limit, or the bulk phase is over and no chunk is dirty; it records an error only for a failed read at the head of the queue, and then the rest of the queue is freed |
| `BlockSave.BlkMigState.StageThree` | qemu/block-migration.c:564-619 | stage 3 flushes, sends exactly the dirty chunks and frees the rest of blk_list, whether or not the flush was cut short; with reads completed in order and only blocks of dirty chunks left it leaves every destination disk equal to its source; a failed read is reported |
| `BlockSave.BlkMigState.SendDirty` | qemu/block-migration.c:607 | the loop leaves the state and the number of reads that its turns leave one by one, with no chunk dirty, and an error exactly if one of its reads failed |
| `BlockSave.SyncOverWithin` | qemu/block-migration.c:607 | the loop is over after at most k turns if and only if as many of the first k reads succeed as chunks are dirty |
| `BlockSave.SyncEndsIff` | qemu/block-migration.c:607 | the loop ends if and only if some number of reads has that many successes |
| `BlockSave.SyncNeverEnds` | qemu/block-migration.c:404-430 | one dirty chunk that cannot be read: after any number of turns nothing has changed and the loop goes on |
| `BlockSave.SyncPicks` | qemu/block-migration.c:374-445 | the chunk a scan stops at is the first dirty one of the first device that has any |
| `BlockSave.SendOne` | qemu/block-migration.c:404-416 | a synchronous send leaves exactly one dirty chunk fewer and only the destination's copy of that chunk changed |
| `BlockSave.ClosedSame` | qemu/block-migration.c:602-608 | after a run with reads in order whose flush left only blocks of dirty chunks, closing makes the disks equal |
| `BlockTransfer.StreamMigrates` | qemu/block-migration.c:539-701 | the whole migration: for every encoding of sectors as bytes and however what was sent is split up into sections, each with its end mark, loading the sections one by one leaves the receiver's devices with exactly the source's disks |
| `BlockTransfer.RunSends` | qemu/block-migration.c:447-477 | up to any point of a run the destination's disks are what loading everything sent so far makes of them |
| `BlockTransfer.StreamLoadsAll` | qemu/block-migration.c:626-701 | loading records does to the bytes of the devices what the sends do to their sectors, whatever follows the last sector in a buffer |
| `BlockTransfer.SyncLoads` | qemu/block-migration.c:404-416 | the synchronous sends of stage 3 are loaded as they are made |
| `BlockStream.StreamLoads` | qemu/block-migration.c:626-701 | whatever blocks and progress records are sent, the receiver writes exactly those blocks, in order, each cut off at the end of its device |
| `BlockStream.SectionsLoad` | qemu/block-migration.c:626-701 | and however they are split up into sections |
| `BlockStream.AppliedSectors` | qemu/block-migration.c:667-681 | a block replaces the sectors of its chunk that lie on the device, and no others |
| `BlockStream.SplitWord` | qemu/block-migration.c:87-101 | a shifted sector number ORed with flags splits back into both |
| `BlockStream.BlockLoads` | qemu/block-migration.c:87-101 | a block record decodes to its device, sector and data anywhere in the stream |
| `BlockStream.BlockReceiver.BlockLoad` | qemu/block-migration.c:626-701 | the loop, with its remembered device length, loads what the specification loads, or fails for the same reason and leaves the disks as the specification says, a block cut off by the end of the stream included |
| `BlockGrammar.LoadsIff` | qemu/block-migration.c:626-701 | for every stream and set of devices, the stream is accepted if and only if it is a sequence of legal records of which the last alone has the end mark, and then it leaves what the records leave |
| `BlockGrammar.BadBlockRefused` | qemu/block-migration.c:644-681 | a block for a device there is not or an empty one is refused with EINVAL, one past the end of its device with EIO, and nothing is written |
| `BlockGrammar.BadWordRefused` | qemu/block-migration.c:638-693 | a word with none of the three flags, or cut off, is refused |
| `BlockGrammar.CutBlockLeaves` | qemu/block-migration.c:667-697 | a chunk cut off by the end of the stream has been written as far as it went, and then whatever the buffer held |
| `BlockGrammar.RefusedLater` | qemu/block-migration.c:638-698 | what is refused after a legal record is refused on top of what that leaves |
| `CopyOnRead.StepKeeps` | qemu/block.c:1284-1379 | every step, including the rescan of a restarted request whatever the count in flight, keeps the in-flight count, no wait on an untracked request, no two tracked requests sharing a cluster if one is copy-on-read, and bounce buffers that hold what the guest sees; only guest writes change what it sees |
| `CopyOnRead.Transparent` | qemu/block.c:1653-1714 | after any interleaving the guest sees exactly the effect of its own writes |
| `CopyOnRead.CopyOnReadReturnsView` | qemu/block.c:1653-1714 | a copy-on-read hands the guest what the guest-visible disk holds |
| `CopyResults.ReadReturns` | qemu/block.c:1719-1776 | over every run, a read that succeeds, plain or copy-on-read, has for each sector a value that the guest's own writes left there at some moment between its submission and its end; without a guest write to the sector in between, what the disk holds at its end |
| `CopyResults.WriteTakesEffect` | qemu/block.c:1823-1869 | over every run, at the end of a guest write that succeeds each of its sectors shows its data, unless another guest write wrote it meanwhile |
| `CopyResults.CopyFills` | qemu/block.c:1653-1714 | over every run, when a copy-on-read succeeds every sector it asked for is in the overlay, and if it copied so is every sector of its clusters, and they stay there |
| `CopyResults.AllocatedNotCopied` | qemu/block.c:1752-1766 | a copy-on-read of allocated sectors writes nothing back, however it is interleaved |
| `CopyResults.CheckDecides` | qemu/block.c:1752-1766 | it can be told so exactly if all its sectors are allocated; any other answer makes it copy |
| `CopyResults.NoWaiting` | qemu/block.c:1742-1750 | as long as no copy-on-read is submitted every request is served at once |
| `CopyResults.WaitsForFirst` | qemu/block.c:1345-1379 | a request that looks at the list waits for the first that overlaps its clusters, or is served if none does |
| `CopyResults.WaitsUntilEnd` | qemu/block.c:1345-1379 | and goes on waiting, unchanged, until that request ends |
| `CopyProgress.CanSucceed` | qemu/block.c:1653-1869 | from every state of every run, any request in flight can still be brought to a successful end |
| `CopyOnRead.NoDeadlock` | qemu/block.c:1345-1379 | a waiting request waits on a tracked one that is not waiting, so some step is always possible |
| `CopyOnRead.InitiallyConsistent` | qemu/block.c:1293-1312 | an idle device satisfies the invariant |
| `CopyOnRead.ScanTracked` | qemu/block.c:1345-1379 | the list walk finds the first overlapping request, or none |
| `CopyOnRead.FirstOverlapIsFirst` | qemu/block.c:1345-1379 | none before it on the list overlaps |
| `CopyOnRead.WriteBackKeeps` | qemu/block.c:1684-1705 | writing a bounce buffer back changes nothing the guest sees |
| `CopyOnRead.WriteSectorKeeps` | qemu/block.c:1823-1869 | a guest write keeps every bounce buffer current, because no copy-on-read shares its clusters |
| `CopyOnRead.EndKeeps` | qemu/block.c:1284-1291 | ending a request restarts its waiters and keeps the invariant |
| `CopyOnRead.DecrementKeeps` | qemu/block.c:1719-1776 | giving back the count keeps it equal to the copy-on-read requests between increment and decrement |
| `Clusters.OverlapsIffCommon` | qemu/block.c:1332-1343 | the overlap test holds exactly when two non-empty ranges have a sector in common |
| `Clusters.NoOverlapNoSharedCluster` | qemu/block.c:1314-1343 | testing a rounded range against an unrounded one keeps two requests out of each other's clusters |
| `Clusters.RoundCovers` | qemu/block.c:1314-1330 | rounding covers the range and lands on cluster boundaries |
| `WriteMerge.MergeExact` | qemu/block.c:2942-2996 | merging has the effect of the sorted requests for all data if and only if every dropped address is written again by a later request |
| `WriteMerge.MergePreserves` | qemu/block.c:2942-2996 | it always has for requests whose ends do not decrease |
| `WriteMerge.MergeKeeps` | qemu/block.c:2942-2996 | every address not dropped ends up as if the sorted requests had been done one by one |
| `WriteMerge.NoLossWhenEndsSorted` | qemu/block.c:2942-2996 | with ends that do not decrease nothing is dropped |
| `WriteMerge.JoinBytes` | qemu/block.c:2966-2986 | a join holds the first request's bytes up to the second's start, then the second's |
| `WriteMerge.ConcatBytes` | qemu/cutils.c:180-216 | copying part of a vector, empty segments passed over, copies exactly those bytes |
| `WriteMerge.MergeFits` | qemu/block.c:2962-2964 | merging never makes a vector of more segments than the system allows |
| `Multiwrite.ContainedRequestLosesTail` | qemu/block.c:2942-2996 | a request contained in its predecessor makes the merge drop the predecessor's tail |
| `Multiwrite.MultiwriteMerge` | qemu/block.c:2942-2996 | the array's first places hold the merge of the sorted requests, the fields beside the write stay in their places, and each join fills one fresh slot |
| `Multiwrite.MergeSorted` | qemu/block.c:2952-2995 | the in-place loop computes that merge |
| `Multiwrite.SortRequests` | qemu/block.c:2921-2935 | the requests are sorted by start sector, as a permutation |
| `Multiwrite.SlotsAndRequests` | qemu/block.c:2966-2986 | as many slots are filled as requests are joined away |
| `Multiwrite.JoinedIff` | qemu/block.c:2952-2968 | a request is joined exactly if it begins at or before the end of the one before it in sorted order, and the two vectors and one more segment fit |
| `Multiwrite.EachCallbackOnce` | qemu/block.c:2891-2919 | in any completion order nothing is called before the last merged request ends, and then every original callback exactly once, with the first recorded error |
| `Multiwrite.BatchReleases` | qemu/block.c:2891-2919 | for the batch as merged, the callback of every request as it was given is called once, with the first recorded error, and the vector of each join is released once, in the slot of the joined request's place in sorted order, and nothing else is called or released |
| `Multiwrite.CallersInOrder` | qemu/block.c:2891-2902 | the callers are called back in the order in which they gave their requests, although these are sorted in between |
| `Multiwrite.AioMultiwrite` | qemu/block.c:3012-3052 | without a medium every request is given the error; otherwise exactly the merge of the sorted requests is submitted, and the shared record starts with its count, the callbacks as given before the sort and the slots to release |
| `Multiwrite.Submit` | qemu/block.c:3044-3049 | what is in the first places of the array is submitted, in order |
| `Multiwrite.MultiwriteCb.constructor` | qemu/block.c:3029-3045 | nothing recorded, and the number of merged requests set before the first is submitted |
| `Multiwrite.MultiwriteCb.Cb` | qemu/block.c:2904-2919 | one completion: records the first error, counts down, and calls back at zero |
| `Multiwrite.MultiwriteCb.UserCb` | qemu/block.c:2891-2902 | calls every callback once, in order, and releases each filled slot once |
| `Commit.Chain.BdrvCommit` | qemu/block.c:1203-1230 | on every outcome, mid-loop failures and a bdrv_make_empty that fails part way included, the guest sees what it saw; once everything is copied every backing sector equals the visible one; everything is copied exactly if the backing file is long enough and no turn that copies fails |
| `Commit.Chain.CommitTurn` | qemu/block.c:1203-1217 | one turn, failing or not, changes nothing visible; it fails only if its read or write fails or the backing file is too short |
| `Commit.Chain.CopyAll` | qemu/block.c:1206-1219 | the loop goes through the device in turns of sectors all in the overlay or all not, and ends with every sector settled, or at the first turn that copies and fails or finds the backing file too short, with nothing visible changed |
| `Commit.HiddenWrite` | qemu/block.c:1203-1217 | a write to the backing file where the overlay hides it is invisible, even when it fails part way |
| `ByteIo.Disk.Pread` | qemu/block.c:1535-1578 | on success exactly the bytes asked for, for every offset and count; it takes at most three sector reads and fails only at the first that meets a fault or for a range that is not on the device |
| `ByteIo.Disk.Pwrite` | qemu/block.c:1580-1627 | on success exactly the given bytes change, to the given data; on any failure nothing outside the range changes; a partial sector is read and written, and it fails only at the first request that meets a fault or for a range that is not on the device |
| `ByteIo.Disk.PatchSector` | qemu/block.c:1594-1605 | reading, patching and writing back one sector changes exactly the patched bytes |
| `Splicing.SpliceThenSlice` | qemu/block.c:1535-1627 | a read after a write returns what was written, and rewriting what was there changes nothing |
| `Splicing.SpliceTwice` | qemu/block.c:1580-1627 | writing in adjoining pieces is writing at once |
| `DirtyBitmap.DirtyTracking.SetDirtyBitmap` | qemu/block.c:1495-1521 | exactly the touched chunks become dirty or clean, and dirty_count stays the number of dirty chunks |
| `DirtyBitmap.TouchedIffMeets` | qemu/block.c:1495-1521 | the touched chunks are exactly those the range meets, if and only if the range is not empty or starts on a chunk boundary past the first |
| `DirtyBitmap.EmptyRangeTouches` | qemu/block.c:1495-1521 | an empty range at sector 1 touches chunk 0, of which it has no sector |
| `DirtyBitmap.DirtyTracking.GetDirty` | qemu/block.c:3794-3805 | the bit of the sector's chunk, and clean past the end or untracked |
| `DirtyBitmap.DirtyTracking.SetDirtyTracking` | qemu/block.c:3773-3792 | enabling leaves the count right if and only if it does not keep a bitmap with dirty chunks |
| `DirtyBitmap.SwitchOnTwice` | qemu/block.c:3773-3792 | tracking switched on, one chunk marked, tracking switched on again: the chunk stays dirty and the count is 0 |
| `DirtyBitmap.SetBitSets` | qemu/block.c:1503-1519 | updating a bit of the word array adds or removes exactly that chunk |
| `DirtyBitmap.ChunkUpdate` | qemu/block.c:1503-1519 | counting on the old bit keeps the count equal to the number of set bits |
| `Bitmap.BitmapSet` | qemu/bitmap.c:160-178 | exactly the given range becomes set, word masks included |
| `Bitmap.BitmapClear` | qemu/bitmap.c:180-198 | exactly the given range becomes clear |
| `Bitmap.AllocateKeeps` | qemu/bitmap.c:214-237 | an area found free and then set overlaps nothing handed out before |
| `Bitmap.FreeKeeps` | qemu/bitmap.c:180-198 | clearing one handed-out area gives back exactly that area |
| `ZeroArea.SearchExact` | qemu/bitmap.c:214-237 | the search ends with the right answer on every bitmap and from every start if and only if two sums fit a 64-bit word: the size plus the mask, unless more bits are wanted than there are, and the last aligned place plus the bits wanted |
| `ZeroArea.SearchEnds` | qemu/bitmap.c:214-237 | if they do, it ends with the least aligned free area at or after start that fits, or above size when there is none; of no bits at all, with the next clear bit rounded up |
| `ZeroArea.SearchAnswersBeforeStart` | qemu/bitmap.c:214-237 | one clear word, searched from bit 5 with a mask of all ones: the answer is 0 |
| `ZeroArea.SearchNeverEnds` | qemu/bitmap.c:214-237 | one full word, with the same mask: after any number of turns the search goes on |
| `ZeroArea.FullNeverEnds` | qemu/bitmap.c:214-237 | so does every search of a full bitmap for bits that would fit, if size and mask wrap around |
| `ZeroArea.EndWraps` | qemu/bitmap.c:214-237 | on an empty bitmap, if the last aligned place and the bits wanted wrap around, an area that does not fit is the answer |
| `ZeroArea.FindNextZeroArea` | qemu/bitmap.c:214-237 | the loop gives the answer that its turns give, and if the sums fit the right one |
| `ZeroArea.AlignMaskIsAlignUp` | qemu/bitmap.c:200-225 | adding a mask and clearing its bits rounds up to the next multiple if and only if the sum does not wrap around; if it does, the result is 0 |
| `BitSearch.FindNextBit` | qemu/bitops.c:21-68 | equals the naive search for a set bit for every array, size and offset |
| `BitSearch.FindNextZeroBit` | qemu/bitops.c:70-113 | equals the naive search for a clear bit |
| `BitSearch.FindLastBit` | qemu/bitops.c:115-142 | the last set bit below size, or size |
| `Words.Ffsl` | qemu/bitops.h:31-61 | the binary search finds the lowest set bit of a word that has one |
| `Words.Flsl` | qemu/bitops.h:69-99 | the binary search finds the highest set bit |
| `Words.Ffz` | qemu/bitops.h:107-110 | the lowest clear bit of a word that has one |
| `BufferedFile.StreamConserved` | qemu/buffered_file.c:49-194 | over every run with a backend that never answers zero, while no error is recorded, bytes delivered and then bytes buffered are all bytes put, in order; a close that ends without error has delivered everything |
| `BufferedFile.PutFaithfulIff` | qemu/buffered_file.c:112-171 | for every backend, zero answers included, a put keeps the stream for all bytes if and only if, as the answers and the lengths alone decide, no zero answer stops the put loop and none that stops the flush is followed by an answer that takes new data past what is buffered |
| `BufferedFile.FlushEnds` | qemu/buffered_file.c:73-110 | which answer ends a flush, drained or stopped, follows from the answers and the buffered length |
| `BufferedFile.PutByStop` | qemu/buffered_file.c:133-160 | an answer that takes nothing, met within the data and the rate limit, is what stops a put and is its error |
| `BufferedFile.CloseEndsIff` | qemu/buffered_file.c:173-194 | a close without error ends if and only if the backend some time fails or is ready to take in all as many bytes as are buffered |
| `BufferedFile.ZeroLosesData` | qemu/buffered_file.c:112-171 | a zero answer to the put loop drops data without recording an error |
| `BufferedFile.ZeroReorders` | qemu/buffered_file.c:73-110 | a zero answer to the flush lets new data overtake buffered data |
| `BufferedFile.FlushKeepsStream` | qemu/buffered_file.c:73-110 | a flush never loses or reorders bytes by itself |
| `BufferedFile.QemuFileBuffered.BufferedFlush` | qemu/buffered_file.c:73-110 | the offset loop refines the specification of a flush |
| `BufferedFile.QemuFileBuffered.PutBuffer` | qemu/buffered_file.c:112-171 | refines the specification of a put, return value included |
| `BufferedFile.QemuFileBuffered.Append` | qemu/buffered_file.c:49-71 | the buffer grows by exactly the bytes given |
| `BufferedFile.QemuFileBuffered.BufferedClose` | qemu/buffered_file.c:173-194 | if the loop ends, it refines the specification of a close and nothing is left to do |
| `BufferedFile.QemuFileBuffered.RateTick` | qemu/buffered_file.c:243-263 | refines the specification of a tick |
| `BufferedFile.TickFlushes` | qemu/buffered_file.c:243-263 | a tick of a file neither frozen nor failed starts the count again and flushes until the buffer is drained or an answer stops it; any other tick does nothing |
| `BufferedFile.PutCharges` | qemu/buffered_file.c:132-158 | a put charges what it delivers of its own data, and goes over the limit by one answer at most |
| `BufferedFile.RateBound` | qemu/buffered_file.c:110-263 | over every run, with the limit never set above L and no answer above m bytes, no more than L + m bytes of what is put are delivered between ticks |
| `BufferedFile.FailedStays` | qemu/buffered_file.c:75-250 | nothing is delivered or buffered any more once an error is recorded |
| `BufferedFile.AnswerMeans` | qemu/buffered_file.c:202-218 | with nothing buffered, the rate limiter answers 0 exactly if the backend would be offered what is put |
| `BufferedFile.LimitSet` | qemu/buffered_file.c:220-234 | a rate is set for a second and limits a tenth of one; nothing is set while an error is recorded |
| `BufferedFile.QemuFileBuffered.RateLimit` | qemu/buffered_file.c:202-218 | answers an error, 1 or 0 as specified |
| `BufferedFile.QemuFileBuffered.SetRateLimit` | qemu/buffered_file.c:220-234 | sets the limit as specified and returns it |
| `BottomHalves.StepKeeps` | qemu/async.c:44-121 | creating, scheduling, cancelling, deleting and polling at any nesting keep the list linked and every walk's cursor on it |
| `BottomHalves.RunSafe` | qemu/async.c:55-92 | over every run every walk in progress refers only to allocated nodes |
| `BottomHalves.NoDanglingCursor` | qemu/async.c:55-92 | no walk, outer or inner, refers to a freed node |
| `BottomHalves.NoFreeWhilePolling` | qemu/async.c:75-89 | through any steps none of which ends the outermost poll, every node stays allocated |
| `BottomHalves.FreedAfterDelete` | qemu/async.c:55-121 | over every run, a node that is freed was deleted first, and an outermost poll has ended since |
| `BottomHalves.OutermostExitFrees` | qemu/async.c:75-89 | the outermost exit frees exactly the deleted nodes and keeps the others in order |
| `BottomHalves.WalkComplete` | qemu/async.c:63-73 | a walk that ends has looked at exactly the nodes present at its start, once each and in order |
| `BottomHalves.RunsOncePerSchedule` | qemu/async.c:55-110 | over every run, however polls nest, between two runs of a node's callback the node is scheduled again |
| `BottomHalves.ScheduledFirst` | qemu/async.c:55-110 | a node that is not scheduled does not run before it is scheduled |
| `BottomHalves.NoCallbackAfterDelete` | qemu/async.c:117-121 | no callback runs after its delete in any continuation, unless the address is allocated again |
| `BottomRuns.RunsWhenReached` | qemu/async.c:63-110 | whatever happens between, a node that has been scheduled and not cancelled, deleted or run since runs when a walk reaches it, as the kind it was scheduled as |
| `BottomRuns.NotBeforeScheduled` | qemu/async.c:44-115 | a node that is new or has been cancelled does not run before it is scheduled |
| `BottomRuns.PollRuns` | qemu/async.c:55-92 | over every run, a node in the list and scheduled when a poll begins has, when it ends, been run, by it or by a poll inside it, or been cancelled or deleted |
| `BottomRuns.PollReturns` | qemu/async.c:62-92 | a poll returns 1 exactly if it ran itself, not by a poll inside it, a callback that was not idle |
| `BottomRuns.PollsEnd` | qemu/async.c:55-92 | from every state of every run, all the polls in progress can end |
| `BottomRuns.GoesOn` | qemu/async.c:63-73 | a poll that begins, or whose callback returns, goes on with its list at once |
| `BottomHalves.BhList.RemoveDeleted` | qemu/async.c:75-89 | the pointer-to-pointer loop leaves exactly what the outermost exit is specified to leave |
| `BottomHalves.BhList.BhNew` | qemu/async.c:44-53 | the new node becomes the head and nothing else changes |
| `AesKeySchedule.RoundTrip` | qemu/aes.c:731-878 | for every 128, 192 or 256-bit key and every block, the equivalent inverse cipher under the inverted schedule undoes the cipher under the expanded key, over any invertible S-box |
| `RoundCipher.DecryptUndoesEncrypt` | qemu/aes.c:1076-1261 | the same for every key schedule of any length, for any transformations that obey the laws of `AesCipher.AesLaws` |
| `RoundCipher.StatesMirror` | qemu/aes.c:1076-1261 | after i rounds decryption is where encryption was i rounds before its end |
| `RoundCipher.RunRounds` | qemu/aes.c:977-1036 | the loop of two rounds a turn, left in the middle of its last turn, computes the cipher |
| `RoundCipher.MixedMirrored` | qemu/aes.c:846-876 | keys reversed and, but for the first and last, mixed are the inverted schedule |
| `AesCipher.AesLaws` | qemu/aes.c:46-58 | SubBytes with ShiftRows, MixColumns and AddRoundKey are undone by their inverses as the equivalent inverse cipher needs |
| `AesField.InvMixUndoesMix` | qemu/aes.c:46-58 | InvMixColumns undoes MixColumns on every column |
| `AesField.InvMixAdd` | qemu/aes.c:853-876 | InvMixColumns is additive, which is why mixing the round keys is enough |
| `AesTables.TableRoundIsRound` | qemu/aes.c:981-1005 | a table-driven round is SubBytes, ShiftRows, MixColumns and AddRoundKey of section 5.1 of FIPS 197 |
| `AesTables.TableFinalIsFinal` | qemu/aes.c:1038-1070 | the masked last round is the round without MixColumns |
| `AesTables.InvTableRoundIsRound` | qemu/aes.c:1172-1227 | a table-driven decryption round is the round of section 5.3.5 |
| `AesTables.InvTableFinalIsFinal` | qemu/aes.c:1229-1261 | the last decryption round is that round without InvMixColumns |
| `AesWord.PutGet` | qemu/aes.c:43-44 | a word built from four bytes gives the four bytes back |
| `AesWord.GetPut` | qemu/aes.c:43-44 | and the other way round |
| `AesWord.PutXor` | qemu/aes.c:43-44 | exclusive or of words is exclusive or of their bytes |
| `AesBlock.AesEncrypt` | qemu/aes.c:885-1070 | exactly the sixteen output bytes change, to the cipher of the input block, for overlapping buffers too |
| `AesBlock.AesDecrypt` | qemu/aes.c:1076-1261 | exactly the sixteen output bytes change, to the equivalent inverse cipher of the input block |
| `AesBlock.DecipheredBack` | qemu/aes.c:1076-1261 | deciphering under the inverted schedule undoes enciphering, on bytes |
| `AesBlock.EncryptImplements` | qemu/aes.c:977-1070 | the table-driven statements implement the rounds of the cipher |
| `AesBlock.DecryptImplements` | qemu/aes.c:1168-1261 | and those of the equivalent inverse cipher |
| `AesKeySchedule.AesSetEncryptKey` | qemu/aes.c:731-827 | error returns for missing arguments and bad lengths leave the key alone; otherwise rd_key holds the schedule of section 5.2 of FIPS 197 |
| `AesExpansion.WordSteps` | qemu/aes.c:757-826 | for every key of each length, what each word differs by from the word one group back: RotWord, SubWord and the round constant at the start of a group, SubWord in the middle of a group of eight, the word before elsewhere |
| `AesExpansion.Turn` | qemu/aes.c:757-826 | the same on 32-bit words: each group of the expanded key is followed by the group that follows it |
| `AesExpansion.ExpandedA128` | qemu/aes.c:757-772 | the expanded key of appendix A.1 of FIPS 197, first half |
| `AesExpansion.ExpandedA128Rest` | qemu/aes.c:757-772 | and the rest |
| `AesExpansion.ExpandedA192` | qemu/aes.c:773-794 | that of appendix A.2, first half |
| `AesExpansion.ExpandedA192Rest` | qemu/aes.c:773-794 | and the rest |
| `AesExpansion.ExpandedA256` | qemu/aes.c:795-826 | that of appendix A.3, first half |
| `AesExpansion.ExpandedA256Rest` | qemu/aes.c:795-826 | and the rest |
| `AesVectors.Ciphertext128` | qemu/aes.c:731-1070 | the ciphertext of appendix C.1, from its key and plaintext |
| `AesVectors.Ciphertext192` | qemu/aes.c:731-1070 | that of appendix C.2 |
| `AesVectors.Ciphertext256` | qemu/aes.c:731-1070 | that of appendix C.3 |
| `AesVectors.CipherBytes128` | qemu/aes.c:731-1070 | appendix C.1 on the bytes of key, plaintext and ciphertext |
| `AesVectors.CipherBytes192` | qemu/aes.c:731-1070 | appendix C.2 on bytes |
| `AesVectors.CipherBytes256` | qemu/aes.c:731-1070 | appendix C.3 on bytes |
| `AesKeySchedule.Expand128` | qemu/aes.c:756-773 | the loop fills 44 words of the standard's expansion |
| `AesKeySchedule.Expand192` | qemu/aes.c:776-795 | the loop fills 52 words |
| `AesKeySchedule.Expand256` | qemu/aes.c:798-825 | the loop fills 60 words |
| `AesKeySchedule.RotSubIs` | qemu/aes.c:758-764 | the masked table lookups are SubWord of RotWord, with the round constant |
| `AesKeySchedule.RconTable` | qemu/aes.c:722-726 | the table holds the powers of {02} |
| `AesKeySchedule.AesSetDecryptKey` | qemu/aes.c:832-878 | rd_key holds the schedule of the equivalent inverse cipher, section 5.3.5 |
| `AesKeySchedule.ReverseKeys` | qemu/aes.c:846-852 | the swap loop reverses the round keys in place |
| `AesKeySchedule.InvMixKeys` | qemu/aes.c:853-876 | the loop mixes exactly the inner round keys |
| `AesKeySchedule.InvMixWordIs` | qemu/aes.c:856-875 | a lookup in Td of a lookup in Te4 is InvMixColumns, because Si undoes S |
| `AesSbox.SubstitutionIsAffineInverse` | qemu/aes.c:46-58 | the S-box is the affine image of the inverse in GF(2^8), as section 5.1.1 of FIPS 197 defines it |
| `AesSbox.AesBoxInverts` | qemu/aes.c:46-58 | Si undoes S on every byte |
| `CbcMode.RoundTrip` | qemu/aes.c:1265-1314 | decrypting gives back a message of any length, a partial last block included, for any block cipher and its inverse |
| `CbcMode.EncryptSplit` | qemu/aes.c:1276-1294 | splitting at a block boundary with the carried vector gives the same output and vector |
| `CbcMode.DecryptSplit` | qemu/aes.c:1295-1313 | the same for decryption |
| `CbcMode.CarriedVector` | qemu/aes.c:1265-1314 | both directions carry the same vector if and only if there is no partial block or it is a fixed point of the block cipher |
| `CbcMode.PartialVectorDiffers` | qemu/aes.c:1265-1314 | one zero byte under the complement of every bit: encryption carries ones, decryption zeros |
| `CbcMode.ChainBlocks` | qemu/aes.c:1277-1285 | every whole ciphertext block is the cipher of the message block added to the block before, section 6.2 of NIST SP 800-38A |
| `CbcMode.UnchainBlocks` | qemu/aes.c:1296-1305 | every whole decrypted block is the inverse cipher of the ciphertext block added to the one before, for any ciphertext |
| `CbcMode.PadsWithZeros` | qemu/aes.c:1286-1294 | a partial last block is encrypted as if padded with zeros |
| `AesCbc.AesCbcEncrypt` | qemu/aes.c:1265-1314 | in both directions the buffers end up as going through them block by block leaves them, wherever the output lies; if no input is overwritten before it is read, exactly the result is written and the vector updated, in place or not |
| `AesCbc.CbcEncrypt` | qemu/aes.c:1276-1294 | the encryption loop over buffers writes the chained message, unless the message is more than a block and the output starts inside it |
| `AesCbc.CbcDecrypt` | qemu/aes.c:1295-1313 | the decryption loop over buffers writes only the announced bytes, unless the text is more than a block and the output starts inside it |
| `AesCbc.EncryptRunIs` | qemu/aes.c:1276-1294 | going through the buffers block by block is encrypting the message, if no input is overwritten before it is read |
| `AesCbc.DecryptRunIs` | qemu/aes.c:1295-1313 | the same for decryption |
| `AesOverlap.EncryptsIff` | qemu/aes.c:1276-1294 | encryption in one buffer is right for every block cipher, vector and message if and only if the output starts at or before the input, or past it, or the message is at most a block |
| `AesOverlap.DecryptsIff` | qemu/aes.c:1295-1313 | the same for decryption and the padded text |
| `AesCbc.KeyCiphers` | qemu/aes.c:1265-1314 | the block ciphers under an expanded key are what the loops chain |
| `AesCbc.AesCbcRoundTrip` | qemu/aes.c:1265-1314 | the round trip with AES over any invertible S-box, for every key, vector and message |
| `AesStandard.AesCbcRoundTrip` | qemu/aes.c:1265-1314 | the same with the S-box of the standard and no assumption |
| `AesStandard.AesRoundTrip` | qemu/aes.c:731-878 | for every key and block, decryption undoes encryption with the S-box of the standard |

## Left out

- BlockStream.BlockReceiver.BlockLoad: writes of the destination succeed unless they reach past the end of the device; a name cut off by the end of the stream is taken to name no device.
- BlockMigration.MigrationCorrect: equal disks are promised for runs whose reads of one chunk complete in order; BlockOvertake.OvertakingPossible shows that no more can be.
- BlockSave.BlkMigState.StageThree: it is called only where its loop ends, which `BlockSave.SyncEndsIff` makes exact.
- BlockSave.BlkMigState.StageTwo: after an error the list of blocks is emptied; the list of devices, which the source frees as well, is kept to be spoken of. Progress reports, and the answer of stage 2 from the measured bandwidth, are not modelled.
- BlockSave.BlkMigState.DrainAll: guest writes that complete during a drain are steps taken before or after it.
- BlockTransfer.StreamMigrates: sector contents are numbers, turned into bytes by an arbitrary encoding; the order of the synchronous sends of stage 3 is arbitrary too.
- RamReceiver.Receiver.RamLoad: stops, with nothing promised, where the source would write through an unchecked pointer; a name cut off by the end of the stream is taken to name no block.
- RamSave.Sender.RamSaveLive: the time expected for the rest is compared with the downtime by a parameter.
- ZeroArea.FindNextZeroArea: the alignment mask must be one less than a power of two, as the source's own comment asks; it is called only where the search ends, which it always does where the sums fit.
- BufferedFile.QemuFileBuffered.BufferedClose: the wait for the backend to become writable again changes no modelled state; put_ready and the timer are not modelled.
- DirtyBitmap.DirtyTracking.SetDirtyBitmap: the range must lie on the device, as the callers ensure; allocation sizes of the bitmap are not modelled.
- AesTables.TableRoundIsRound: the lookup tables are the formulas documented beside them, over S and Si; their literal entries are not transcribed.
- AesBlock.AesEncrypt: the two round loops, which differ only in their tables, are one method.
- AesCbc.AesCbcEncrypt: for an output that starts inside an input of more than a block the result is only stated block by block; that it can be wrong is shown with a block cipher that changes nothing.
- Multiwrite.MultiwriteMerge: a comment in the source speaks of filling gaps with zero sectors; the code never merges across a gap, and the model follows the code.
- CopyOnRead.StepKeeps: request throttling, flushes and the checks of a request against the device are not modelled.
- Commit.Chain.BdrvCommit: the refusals before the loop, reopening the backing file for writing, and the flushes are not modelled.
- BottomHalves.StepKeeps: waking the CPU when a bottom half is scheduled, and the timeout computed from the list, are not modelled.
- I/O throttling, image formats, snapshots, probing and reopening, and QMP queries.
- The select loop of aio.c, coroutine backends, signals and host system calls.
- Disassemblers, consoles, cursors and other user interface code, and the Python control tools: mostly tables and plumbing, with only easy properties.
- Nothing here has been executed; the properties are proved of the model.
