# Verified models of a random ARM test generator and of the QEMU code it ships with

The repository has two halves: a generator of random ARM test programs (`rit/art`, `rit/new_src`) and a
copy of QEMU 0.15 (`rit/qemu`) that executes ARM code. This project models the parts of both that
carry an argument worth checking, and proves the argument in Dafny. `dafny verify dfyconfig.toml` checks
the whole project.

**Live RAM migration** (`RamStream`, `RamSave`, `RamMigration`, `RamSaver`, `RamLoader`, over the byte
stream of `Wire`). The sender walks the pages of its RAM blocks round-robin, clears one dirty bit per
step and writes a record; the receiver replays the bytes. Guest writes may come before, between and, with
a hardware accelerator's dirty log, during the stages. `MigrationCopiesRam` is the result: whatever the
guest writes and however the rate limiter interrupts, after stage 3 the receiver that has the sender's
blocks has loaded exactly the sender's memory, and one that lacks a block refuses the stream. Records
flagged CONTINUE always resolve to the block the sender meant.

**Live block migration** (`BlockProtocol`, `BlockStream`, `BlockAgreement`, `BlockAccounting`,
`BlockOrder`, `BlockOverlap`, `BlockHypotheses`, `BlockProgress`, `BlockSaver`, `BlockLoader`). A protocol
of single steps (guest data, the dirty mark that follows it, asynchronous reads that pick up a sector at a
time, the queue, the stream) with an invariant over every run, and the sender's functions as programs
proved to take only such steps, while guest writes and reads go on between the stages, between the turns
of the stage 2 loop, and inside `qemu_aio_flush`. The receiver is `block_load`, called once for each
section. The two rules that the surroundings must keep (reads of one chunk complete in order; the queue is
empty when stage 3 sends) are explicit. For each there is a run that loses data without it, and the exact
condition for a good copy without it; and where no dirty chunk is read while the bulk read of it is in
flight, the first rule is not needed at all (`BlockOverlap`). No read fails.

**AES and CBC** (`AesField`, `AesWords`, `RoundCipher`, `AesCipher`, `AesTables`, `AesPacked`, `Aes`,
`Cbc`, `AesRoundTrip`). The cipher over any tables that satisfy the laws stated at the head of `aes.c`, as
sections 5.2 and 5.3.5 of FIPS 197 and section 6.2 of NIST SP 800-38A have it: key expansion, the reversed
and transformed decryption schedule, the table rounds and their 32-bit arithmetic, and chaining with
partial blocks. `AesRoundTrip` puts the programs together: both keys set up, a block or a buffer encrypted
and decrypted again.

**Bottom halves** (`BottomHalves`). A linked list walked by polls that callbacks start again while it is
being walked, with nodes freed only when the outermost walk is over. What callbacks do is an arbitrary
finite script.

**Bitmaps** (`Bits`, `Words`, `Bitops`, `Bitmap`). Machine words are natural numbers with bitwise
operators defined bit by bit; every word-at-a-time search and update is proved against positions.

**The generator** (`FlowTree`, `FlowRuns`, `FlowSlots`, `FlowLabels`, `FlowMaker`, `InstrBits`,
`InstrBuilder`). Trees of by-passes, hammocks, loops, interworking blocks and calls are laid out as code
and run on a machine on which chance decides every conditional: every run stays in the test and reaches
its end, and with the back edges of counted loops erased it executes no instruction twice. What `random`
draws is a function of the label, which is unrestricted because labels are distinct. Instructions are
built field by field without touching the bits of the opcode, and the registers asked for can be read back
from them.

**The Alpha disassembler's index** (`AlphaIndex`). Searching a bucket is as good as searching the table,
if and only if the table is sorted.

Where the code and its comments part ways, the model follows the code:

- `bitmap_empty` and its kin, asked about zero bits, read the whole first word (`Bitmap.FastQuery`).
- `bitmap.c` says that unused bits do not matter to results; the flag that `bitmap_and` and
  `bitmap_andnot` return counts them (`Bitmap.ReturnedFlag`, `Bitmap.FlagCountsTheTail`).
- `bitops.h` says that `find_last_bit` returns the first set bit; it returns the last.
- After decrypting a partial block, `AES_cbc_encrypt` leaves the decrypted block in `ivec`
  (`Cbc.FinalChainingValue`).
- `ram_load` checks the block of a compressed page but not that of a raw page; the model calls the latter
  a fault (`RamStream.LoadPage`).
- The bulk phase of block migration leaves `completed_sectors` at the start of a device's last chunk when
  it ends (`BlockSaver.BlockState.SaveDeviceBulk`).
- `bitmap_and` and its kin, asked for zero bits, combine and write a whole word (`Bitmap.FastCombine`).
- `bitmap_find_next_zero_area` with an alignment mask of all ones looks at index 0 only, wherever it starts:
  it may answer 0 although it started later, and it repeats the same turn for ever if a bit of the first
  area is set (`Bitmap.AllOnesSearch`, `Bitmap.AllOnesFails`).
- Scheduling a bottom half that is already scheduled as idle does not make it urgent
  (`BottomHalves.Context.Schedule`).
- Loop counts in `cfgdata` are never reset, so a loop entered again goes on from its last count; runs end
  all the same (`FlowRuns.EveryRunEnds`).

## Model

| member | source | states |
|---|---|---|
| RamMigration.MigrationCopiesRam | rit/qemu/arch_init.c:253-467 | for every sender, script of guest writes, number of stage 2 rounds and rate limit: a receiver that knows all blocks loads the whole stream and ends with the sender's final memory; any other receiver gets -EINVAL |
| RamMigration.StageLoads | rit/qemu/arch_init.c:253-343 | the section of each stage is consumed exactly, restores "every page not pending has arrived", and after a quiet stage 3 the memories are equal |
| RamMigration.FirstStageRefused | rit/qemu/arch_init.c:402-426 | a receiver that lacks a block, or has it with another length, refuses the first section |
| RamMigration.SaveBlockKeepsAgree | rit/qemu/arch_init.c:115-177 | the record of one ram_save_block, replayed, keeps sender and receiver in agreement |
| RamMigration.RecordArrives | rit/qemu/arch_init.c:128-156 | a page record, with or without CONTINUE, resolves at the receiver to the sender's block and page |
| RamMigration.DeliverKeepsAgree | rit/qemu/arch_init.c:132-134 | clearing a dirty bit and delivering the page keeps every other page's standing |
| RamMigration.WriteKeepsAgree | rit/qemu/arch_init.c:266-269 | a guest write, marked in the bitmap or in the accelerator's log, keeps agreement |
| RamMigration.RoundsKeepAgree | rit/qemu/arch_init.c:304-312 | the rate-limited loop keeps agreement for every script |
| RamMigration.FlushKeepsAgree | rit/qemu/arch_init.c:331-334 | the stage 3 loop ends, with no page dirty and agreement kept |
| RamMigration.CopiedWhenNothingPends | rit/qemu/arch_init.c:328-336 | in agreement with nothing dirty or logged, the receiver has the sender's memory |
| RamMigration.RestArrives | rit/qemu/arch_init.c:301-341 | all sections after the first load one after another and end with the memory copied |
| RamMigration.SectionThen | rit/qemu/arch_init.c:375-467 | ram_load of one section does not look past its end |
| RamSave.SaveBlockClearsOne | rit/qemu/arch_init.c:115-177 | ram_save_block returns 0 exactly when no page is dirty; otherwise it clears one dirty bit, of a page, and changes only the cursor besides |
| RamSave.PickIsDirty | rit/qemu/arch_init.c:127-171 | the scan finds a dirty page whenever there is one; it comes round only if there is a last block |
| RamSave.ScanIsNearest | rit/qemu/arch_init.c:161-171 | the page found is the nearest dirty one in round-robin order |
| RamSave.BeginIsValid | rit/qemu/arch_init.c:271-287 | stage 1 begins with the same blocks in a new order, every page dirty and none sent, so that the first scan finds a page before it looks at last_block |
| RamSave.SortSorts | rit/qemu/arch_init.c:232-251 | the list is sorted by address |
| RamSave.SortByAddress | rit/qemu/arch_init.c:232-251 | sorting permutes the blocks |
| RamSave.SortKeepsWellFormed | rit/qemu/arch_init.c:232-251 | blocks that are apart and properly named are so after sorting |
| RamSave.WriteKeepsValid | rit/qemu/arch_init.c:128-134 | guest writes change no shape and keep the sender's invariant |
| RamSave.StageKeepsValid | rit/qemu/arch_init.c:253-343 | every stage leaves a state from which the next can run |
| RamSave.RoundsKeepValid | rit/qemu/arch_init.c:304-312 | the loop of stages 1 and 2 keeps the sender's invariant |
| RamSave.FlushKeepsValid | rit/qemu/arch_init.c:331-334 | so does that of stage 3 |
| RamSaver.IsDupPage | rit/qemu/arch_init.c:97-110 | comparing words finds out whether every byte equals `ch` |
| RamSaver.Record | rit/qemu/arch_init.c:138-156 | the bytes written for a page are its record, and the count is 1 or the page size |
| RamSaver.RamState.SaveOne | rit/qemu/arch_init.c:115-177 | the loop over cursor, wrap-around and dirty bits does what SaveBlock specifies |
| RamSaver.RamState.Advance | rit/qemu/arch_init.c:161-170 | the next page in round-robin order |
| RamSaver.RamState.Emit | rit/qemu/arch_init.c:128-156 | clears exactly the page's bit and appends its record |
| RamSaver.RamState.Remaining | rit/qemu/arch_init.c:181-197 | counts exactly the dirty pages of the blocks |
| RamSaver.RamState.BytesTotal | rit/qemu/arch_init.c:209-218 | the sum of the block lengths |
| RamSaver.RamState.SortRamList | rit/qemu/arch_init.c:232-251 | puts the blocks back in sorted order |
| RamSaver.RamState.DirtyAll | rit/qemu/arch_init.c:278-287 | adds exactly the pages of the blocks to the dirty set |
| RamSaver.RamState.PutSizes | rit/qemu/arch_init.c:292-298 | writes the opening record |
| RamSaver.RamState.Start | rit/qemu/arch_init.c:271-298 | what stage 1 does before its loop: the state Begin and the opening record |
| RamSaver.RamState.SaveRounds | rit/qemu/arch_init.c:304-312 | the loop with guest writes between its turns gives Rounds |
| RamSaver.RamState.StoreAll | rit/qemu/arch_init.c:128-134 | guest writes set the page's bit in the bitmap or in the accelerator's log |
| RamSaver.RamState.FlushAll | rit/qemu/arch_init.c:331-334 | the stage 3 loop gives Flush; the number of dirty pages decreases |
| RamSaver.RamState.SaveLive | rit/qemu/arch_init.c:253-343 | each stage does what Stage specifies to memory, dirty bits, stream and byte count, and says 1 exactly in stage 2 when the estimate is good; a negative stage or a failed sync changes nothing; an error of the file ends the stage after its loop, without the end flag |
| RamStream.HeaderIsSum | rit/qemu/arch_init.c:139-148 | offset, CONTINUE and page flag combined by `or` come apart again |
| RamStream.PageMask | rit/qemu/arch_init.c:388-389 | the masks give the flags and the offset |
| RamStream.PageRecordLoads | rit/qemu/arch_init.c:430-459 | a page record is loaded as the page it was made from |
| RamStream.SizeRecordLoads | rit/qemu/arch_init.c:391-428 | the opening record is accepted, changing nothing, exactly when all blocks are known with their lengths |
| RamStream.BlockListChecks | rit/qemu/arch_init.c:402-426 | the block list is read to its end exactly when it is accepted |
| RamStream.LoadRecordExtends | rit/qemu/arch_init.c:385-464 | loading a record depends on no byte after it |
| RamStream.SectionLoads | rit/qemu/arch_init.c:385-464 | records followed by the end flag are one run of ram_load |
| RamStream.EosLoads | rit/qemu/arch_init.c:385-464 | the end flag ends the section |
| RamStream.Find | rit/qemu/arch_init.c:366-369 | a block of that name before which none has it, or -1 if no block has it |
| RamLoader.Receiver.CheckList | rit/qemu/arch_init.c:397-427 | the loop over the block list gives CheckBlocks |
| RamLoader.Receiver.Lookup | rit/qemu/arch_init.c:366-369 | the loop over the blocks finds the first of that name |
| RamLoader.Receiver.HostBlock | rit/qemu/arch_init.c:345-373 | the static block and the name lookup give TargetBlock |
| RamLoader.Receiver.LoadBody | rit/qemu/arch_init.c:430-459 | the page branches give LoadPage |
| RamLoader.Receiver.Load | rit/qemu/arch_init.c:375-467 | ram_load gives LoadSection: status, memory, and how far it read |
| Wire.Be64RoundTrip | rit/qemu/arch_init.c:386-386 | a 64-bit number is read back |
| Wire.CountedRoundTrip | rit/qemu/arch_init.c:362-364 | a counted name is read back |
| BlockAgreement.MigrationCopiesDisks | rit/qemu/block-migration.c:186-720 | every run that ends with the bulk phase over and nothing dirty, written or under way has copied every disk: replaying the records gives it, and so does block_load section by section once the last section has ended |
| BlockAgreement.StepKeepsInv | rit/qemu/block-migration.c:186-494 | every step keeps: a chunk the bulk phase has passed that is neither dirty nor being written is carried by the last block under way for it, or has arrived |
| BlockAgreement.RunKeepsInv | rit/qemu/block-migration.c:558-643 | so does every run |
| BlockAgreement.FinishedIsCopied | rit/qemu/block-migration.c:621-638 | at the end the receiver's disks are the sender's |
| BlockAgreement.CompleteKeepsAgree | rit/qemu/block-migration.c:186-203 | a read that completes in order moves to the queue and overtakes nothing of its chunk |
| BlockAgreement.FetchKeepsAgree | rit/qemu/block-migration.c:252-253 | a read may pick up sectors at any time between submission and completion |
| BlockAgreement.BulkKeepsAgree | rit/qemu/block-migration.c:205-262 | a bulk read submitted with its dirty bit reset keeps agreement |
| BlockAgreement.DirtyKeepsAgree | rit/qemu/block-migration.c:405-432 | so does an asynchronous read of a dirty chunk |
| BlockAgreement.SendKeepsAgree | rit/qemu/block-migration.c:472-489 | so does sending the head of the queue |
| BlockAgreement.SyncKeepsAgree | rit/qemu/block-migration.c:421-432 | so does a synchronous send with the queue empty |
| BlockAgreement.DataKeepsAgree | rit/qemu/block.c:1299-1304 | a guest write reaches the disk before it sets the dirty bit, and nothing is lost in between |
| BlockAgreement.MarkKeepsAgree | rit/qemu/block.c:1301-1304 | setting the dirty bit after the data keeps agreement |
| BlockAgreement.StructureKept | rit/qemu/block-migration.c:140-270 | cursors are chunk-aligned or at the end and never go back; a set in-flight bit means a read in flight |
| BlockAgreement.InitHasInv | rit/qemu/block-migration.c:281-330 | the state after init_blk_migration satisfies the invariant |
| BlockAccounting.RunAccounted | rit/qemu/block-migration.c:200-201 | in every run, in any order of completion, each asynchronous block is in flight, queued or sent, once, and the three counters are those counts |
| BlockAccounting.CountsAddUp | rit/qemu/block-migration.c:464-494 | submitted, read and transferred add up to all blocks issued |
| BlockAccounting.IssuedOnce | rit/qemu/block-migration.c:257-257 | each block submitted is accounted for exactly once |
| BlockAccounting.BulkReadsEachOnce | rit/qemu/block-migration.c:205-262 | the bulk phase reads the chunks of a device in order, each once, up to the cursor |
| BlockAccounting.RunInOrder | rit/qemu/block-migration.c:339-351 | devices are read in bulk one after another |
| BlockHypotheses.OutOfOrderLosesData | rit/qemu/block-migration.c:186-203 | a run in which two reads of a chunk complete out of order finishes with a stale copy |
| BlockOrder.CopiedIffLatestSentLast | rit/qemu/block-migration.c:186-203 | for every run, in any order of completion, that ends finished: the disks are copied if and only if for every chunk the record sent last holds the sectors of the read submitted last |
| BlockOrder.StepTracked | rit/qemu/block-migration.c:186-447 | every step keeps: the read of a chunk submitted last is in flight as it stands or complete, and what it has picked up is on the disk unless the chunk has been written since |
| BlockOrder.RunTracked | rit/qemu/block-migration.c:558-643 | so does every run, under any rules |
| BlockOrder.StepOnItsWay | rit/qemu/block-migration.c:186-494 | a chunk the bulk phase has passed is on its way or has been sent |
| BlockOrder.ArrivedIffSentLast | rit/qemu/block-migration.c:645-720 | at the end a chunk has arrived exactly when what was sent last is what was submitted last |
| BlockOverlap.NoOverlapCopiesDisks | rit/qemu/block-migration.c:205-262 | without any rule for the order of completion, a finished run in which no dirty chunk is read while a bulk read of it is in flight has copied the disks |
| BlockOverlap.RunIsOrdered | rit/qemu/block-migration.c:186-203 | such a run is a run in the order of submission: each chunk has at most one read in flight |
| BlockOverlap.StepOneRead | rit/qemu/block-migration.c:388-420 | every step keeps: at most one read of a chunk is in flight, and it is a bulk read or its bit is set; the bulk phase sets no bit, so a dirty chunk read during its own bulk read is the one overlap to exclude |
| BlockHypotheses.LeftoverQueue | rit/qemu/block-migration.c:472-475 | if the flush before stage 3 stops early, every receiver gets a copy if and only if, for each clean chunk with a block left in the queue, the last record already sent holds what the last block left holds |
| BlockHypotheses.LeftoverLosesData | rit/qemu/block-migration.c:472-475 | a reachable state whose leftover block is the only copy of its chunk: stage 3 has nothing to send and a receiver ends without it |
| BlockHypotheses.OneReceiver | rit/qemu/block-migration.c:621-638 | one receiver gets a copy exactly when the clean chunks with blocks left had arrived |
| BlockHypotheses.StageThreeResends | rit/qemu/block-migration.c:626-626 | stage 3 brings dirty chunks up to date and touches no other |
| BlockSaver.Migrate | rit/qemu/block-migration.c:558-643 | stage 1, stage 2 until it says enough, the stop of the guest and stage 3, with guest writes and reads going on meanwhile: every receiver ends with the disks if and only if the blocks that the last flush left were sent before, in particular if it left none; the progress reported never goes back and lies from 0 to 100; if there is no end, stage 2 was not satisfied |
| BlockSaver.BlockState.constructor | rit/qemu/block-migration.c:281-330 | the initial state: writable devices with sectors |
| BlockSaver.BlockState.SetAioInflight | rit/qemu/block-migration.c:152-172 | sets or clears exactly the bits of the chunks that the sectors lie in |
| BlockSaver.BlockState.ReadCallback | rit/qemu/block-migration.c:186-203 | moves the read to the queue, clears its bit, adjusts the counters |
| BlockSaver.BlockState.ReadDone | rit/qemu/block-migration.c:186-203 | the callback is a step of the protocol and its assertion holds |
| BlockSaver.BlockState.AioFlush | rit/qemu/block-migration.c:389-392 | the main loop runs until no read is in flight; guest writes may complete meanwhile, and chunks become dirty only by their marks |
| BlockSaver.BlockState.SaveDeviceBulk | rit/qemu/block-migration.c:205-262 | submits a read of the chunk at the cursor, resets its dirty bit and moves the cursor, or finds the device done |
| BlockSaver.BlockState.SaveBulkedBlock | rit/qemu/block-migration.c:332-368 | submits a bulk read for the first unfinished device, if there is one; the progress reported does not go back and does not pass 100 |
| BlockSaver.BlockState.ReportProgress | rit/qemu/block-migration.c:359-365 | a progress record exactly when the value has changed; the records keep rising |
| BlockSaver.ProgressMade | rit/qemu/block-migration.c:338-357 | the sum over the devices read so far is the sum over all, and its percentage has not gone back |
| BlockSaver.BlockState.SaveDeviceDirty | rit/qemu/block-migration.c:379-447 | saves the first dirty chunk from the cursor on, and no other, or finds none; chunks behind the cursor are clean but for those that guest writes marked during a wait |
| BlockSaver.BlockState.SaveChunkIfDirty | rit/qemu/block-migration.c:388-433 | waits for a read in flight, with guest writes completing meanwhile, then saves the chunk exactly if it is dirty by then; without a wait nothing else changes |
| BlockSaver.BlockState.SubmitDirty | rit/qemu/block-migration.c:405-420 | the asynchronous branch is a step of the protocol |
| BlockSaver.BlockState.SendDirty | rit/qemu/block-migration.c:421-429 | the synchronous branch is a step of the protocol |
| BlockSaver.BlockState.SaveDirtyBlock | rit/qemu/block-migration.c:449-462 | saves one dirty chunk, or finds all devices clean from their cursors on but for chunks marked during a wait |
| BlockSaver.BlockState.FlushBlks | rit/qemu/block-migration.c:464-494 | sends from the head of the queue as many blocks as the limit allows; none is lost between the counters |
| BlockSaver.BlockState.SendFirst | rit/qemu/block-migration.c:472-489 | one turn is a step of the protocol and its assertion holds |
| BlockSaver.BlockState.ResetDirtyCursor | rit/qemu/block-migration.c:370-377 | all cursors are zero |
| BlockSaver.BlockState.ReadAhead | rit/qemu/block-migration.c:593-610 | the loop ends with as many blocks on their way as the limit allows, or with the bulk phase over and nothing dirty but what guest writes marked meanwhile |
| BlockSaver.BlockState.MiddleStage | rit/qemu/block-migration.c:593-619 | a section that ends with the end flag; since it began the limit has been put on its way, or the bulk phase is over and nothing is dirty but what was marked meanwhile; it says enough exactly when the bulk phase is over and little is left; progress does not go back |
| BlockSaver.BlockState.Meanwhile | rit/qemu/block.c:1284-1310 | guest writes and reads, in any order that can happen; while the sender is at work only data moves |
| BlockSaver.BlockState.LastStage | rit/qemu/block-migration.c:621-638 | stage 3 with any limit on its flush: it ends with nothing dirty, and every receiver has the disks if and only if the blocks left in the queue were sent before; with none left the migration is finished and all disks are copied |
| BlockSaver.BlockState.SendDirtyChunks | rit/qemu/block-migration.c:626-626 | the loop of stage 3 ends, each turn with one dirty chunk less, and sends nothing else |
| BlockSaver.Delivered | rit/qemu/block-migration.c:621-638 | what stage 3 comes to, for every receiver that loads the stream section by section |
| BlockSaver.BlockState.FinishWrites | rit/qemu/cpus.c:392-403 | when the guest has stopped, writes under way set their dirty bits |
| BlockSaver.BlockState.StopGuest | rit/qemu/cpus.c:392-403 | when the guest has stopped no read is in flight and no write is unfinished |
| BlockSaver.NothingDirty | rit/qemu/block-migration.c:388-439 | cursors past the end of devices scanned from the start mean that only chunks marked meanwhile are dirty |
| BlockLoader.LoadBlock | rit/qemu/block-migration.c:663-700 | a block record, with the cached device size, is loaded as LoadRecord says |
| BlockLoader.Load | rit/qemu/block-migration.c:645-720 | block_load gives LoadSection: the disks, and how much of the stream is left; a stream that stops before the end flag is an error |
| BlockLoader.LoadAll | rit/qemu/block-migration.c:645-720 | the calls of block_load for a whole stream replay it |
| BlockStream.StreamIsReplayed | rit/qemu/block-migration.c:645-720 | loading section by section, with the cached device forgotten each time, is replaying the records if the stream stops at the end of a section, and an error otherwise |
| BlockStream.ReceiverHolds | rit/qemu/block-migration.c:663-700 | after a stream of whole chunks each chunk is as the last record for it says, or as it was if there is none |
| AesCipher.AesUndone | rit/qemu/aes.c:46-58 | under the table laws the steps of AES can be undone: key addition, substitution, and linear mixing |
| AesCipher.TablesAreLawful | rit/qemu/aes.c:46-58 | tables built as the comment says, with the doubling of FIPS 197, satisfy the laws if and only if the inverse S-box undoes the S-box |
| AesCipher.SomeTablesAreLawful | rit/qemu/aes.c:46-58 | there are tables that satisfy the laws |
| AesCipher.SubShiftUndone | rit/qemu/aes.c:1039-1067 | inverse substitution and row shift bring every byte back |
| AesCipher.MixUndone | rit/qemu/aes.c:853-876 | inverse mixing and the transformed key undo mixing and the key |
| AesField.InvMixUndoesMix | rit/qemu/aes.c:46-58 | InvMixColumns undoes MixColumns for any additive doubling |
| AesField.XTimeAdditive | rit/qemu/aes.c:46-58 | doubling in the field of FIPS 197, section 4.2.1, is additive |
| AesField.InvMixLinear | rit/qemu/aes.c:853-876 | InvMixColumns is linear |
| AesTables.TablesComputeAes | rit/qemu/aes.c:885-1261 | the table lookups of both directions compute the rounds of FIPS 197 |
| AesTables.TeSumIs | rit/qemu/aes.c:982-987 | four encryption lookups are substitution, shift and MixColumns |
| AesTables.TdSumIs | rit/qemu/aes.c:1173-1178 | four decryption lookups are their inverses |
| AesTables.TeRoundIs | rit/qemu/aes.c:981-1035 | one round of encryption lookups |
| AesTables.TdRoundIs | rit/qemu/aes.c:1172-1226 | one round of decryption lookups |
| AesTables.LastRoundsAre | rit/qemu/aes.c:1038-1070 | the masked lookups of the last rounds |
| RoundCipher.InvCipherUndoesCipher | rit/qemu/aes.c:1076-1261 | the equivalent inverse cipher undoes the cipher under the reversed, transformed keys, for any steps that can be undone |
| RoundCipher.Run | rit/qemu/aes.c:976-1036 | the loop of two rounds a turn computes the cipher |
| Aes.Expand128 | rit/qemu/aes.c:756-773 | the words of the 128-bit schedule |
| Aes.Expand192 | rit/qemu/aes.c:776-795 | the words of the 192-bit schedule |
| Aes.Expand256 | rit/qemu/aes.c:798-825 | the words of the 256-bit schedule |
| Aes.SetEncryptKey | rit/qemu/aes.c:731-827 | status -1, -2 or 0; on 0 the schedule of section 5.2 of FIPS 197, otherwise nothing changes |
| Aes.ExpansionLookups | rit/qemu/aes.c:757-763 | the masked lookups of the expansion are SubWord, with and without RotWord |
| Aes.ReverseRoundKeys | rit/qemu/aes.c:846-852 | the order of the round keys is reversed in place |
| Aes.MapRoundKeys | rit/qemu/aes.c:853-876 | all round keys but the outer two are transformed |
| Aes.InvMixWordIs | rit/qemu/aes.c:856-860 | substitution undone by the inverse table leaves InvMixColumns |
| Aes.InvertSchedule | rit/qemu/aes.c:844-876 | the two loops give the schedule of the equivalent inverse cipher |
| Aes.SetDecryptKey | rit/qemu/aes.c:832-878 | the same statuses; on 0 the decryption schedule of the user key |
| Aes.DecryptUndoesEncrypt | rit/qemu/aes.c:731-1261 | for every 128, 192 and 256-bit key and every block, the cipher under the decryption schedule undoes that under the encryption schedule |
| Aes.EncryptBlock | rit/qemu/aes.c:885-1070 | one block is encrypted in place or from elsewhere |
| Aes.DecryptBlock | rit/qemu/aes.c:1076-1261 | one block is decrypted in place or from elsewhere |
| AesRoundTrip.BlockRoundTrip | rit/qemu/aes.c:731-1261 | the four programs together: for every user key of 128, 192 or 256 bits and every block, setting up both keys, encrypting and decrypting gives the block back; any other size is refused and nothing is written |
| AesRoundTrip.EncryptKey | rit/qemu/aes.c:731-827 | a key that AES_set_encrypt_key has set up is one that AES_encrypt and AES_cbc_encrypt can use, for the round keys of the user key |
| AesRoundTrip.DecryptKey | rit/qemu/aes.c:832-878 | the same for AES_set_decrypt_key and its transformed round keys |
| AesRoundTrip.ReadyKey | rit/qemu/aes.c:885-1261 | a key with a full schedule realises the cipher of FIPS 197 and its inverse |
| AesRoundTrip.KeysUndo | rit/qemu/aes.c:731-1261 | the two keys of a user key undo each other on every block |
| AesRoundTrip.ThereAndBack | rit/qemu/aes.c:885-1261 | AES_encrypt into the output and AES_decrypt in place give the block back |
| AesWords.ShiftSelects | rit/qemu/aes.c:982-987 | shifts and masks of a 32-bit word select the bytes of the model's words |
| AesWords.XorOfWords | rit/qemu/aes.c:982-987 | xor of 32-bit words is xor of their bytes |
| AesWords.MaskKeeps | rit/qemu/aes.c:762-767 | a byte mask keeps one byte |
| AesPacked.ColumnIs | rit/qemu/aes.c:982-1030 | the C column expression of a full round, over packed words and any four tables, packs the sum of the four lookups and the key word |
| AesPacked.TeRoundPacked | rit/qemu/aes.c:981-1035 | the four columns of an encryption round are those of TeRound, packed |
| AesPacked.TdRoundPacked | rit/qemu/aes.c:1172-1226 | the four columns of a decryption round are those of TdRound, packed |
| AesPacked.LastColumnIsMasked | rit/qemu/aes.c:1042-1067 | a masked column of the last round packs LastWord |
| AesPacked.TeLastPacked | rit/qemu/aes.c:1042-1067 | the last round of encryption on packed words |
| AesPacked.TdLastPacked | rit/qemu/aes.c:1233-1258 | the last round of decryption on packed words |
| AesPacked.RotatedIs | rit/qemu/aes.c:758-764 | the masked lookups of the key expansion on packed words |
| AesPacked.EveryColumn | rit/qemu/aes.c:982-1030 | for any 32-bit words the C column is a 32-bit word and packs the column of their bytes |
| Cbc.DecryptionUndoesEncryption | rit/qemu/aes.c:1265-1314 | for every length, decrypting the encryption gives the message back |
| Cbc.EncryptionThreads | rit/qemu/aes.c:1276-1294 | a message may be cut at a block boundary and encrypted in two calls that thread ivec |
| Cbc.DecryptionThreads | rit/qemu/aes.c:1295-1313 | the same for decryption |
| Cbc.AnyNumberOfCalls | rit/qemu/aes.c:1276-1294 | any sequence of encrypting calls on whole blocks that pass ivec on gives what one call gives, ivec included |
| Cbc.AnyNumberOfDecryptions | rit/qemu/aes.c:1295-1313 | the same for decrypting calls |
| Cbc.AnyCallsRoundTrip | rit/qemu/aes.c:1265-1314 | a message encrypted in any sequence of calls and decrypted in any other comes back |
| Cbc.FinalChainingValue | rit/qemu/aes.c:1295-1313 | what ivec holds after decryption, for whole and for partial last blocks |
| Cbc.EncryptBuffer | rit/qemu/aes.c:1276-1294 | the encryption branch over arrays computes Encrypted and the chaining value |
| Cbc.EncryptWhole | rit/qemu/aes.c:1277-1285 | the loop over whole blocks |
| Cbc.ChainTail | rit/qemu/aes.c:1286-1294 | the partial block, padded with the chaining value |
| Cbc.DecryptBuffer | rit/qemu/aes.c:1295-1313 | the decryption branch computes Decrypted and the chaining value, also in place |
| Cbc.DecryptWhole | rit/qemu/aes.c:1296-1305 | the loop over whole blocks, in place or not |
| Cbc.UnchainTail | rit/qemu/aes.c:1306-1312 | the partial block |
| Cbc.AesCbcEncrypt | rit/qemu/aes.c:1265-1314 | AES_cbc_encrypt in both directions |
| Cbc.AesCbcRoundTrip | rit/qemu/aes.c:1265-1314 | with AES keys from the two key setups, the round trip for every length |
| AesRoundTrip.BufferRoundTrip | rit/qemu/aes.c:731-1314 | for every user key, chaining value and length: both keys set up, AES_cbc_encrypt one way and the other from the same chaining value gives the buffer back, also in place |
| BottomHalves.Context.Create | rit/qemu/async.c:44-53 | a new node at the head of the list |
| BottomHalves.Context.Schedule | rit/qemu/async.c:94-110 | takes effect only on a node that is not scheduled, idle or not |
| BottomHalves.Context.Cancel | rit/qemu/async.c:112-115 | ends a pending schedule |
| BottomHalves.Context.Delete | rit/qemu/async.c:117-121 | marks the node and ends its schedule; it stays on the list |
| BottomHalves.Context.PollAll | rit/qemu/async.c:55-92 | no freed node is followed; every run takes up a pending schedule of an undeleted node; all that was due is dealt with; the answer; nested polls keep the list, the outermost leaves the undeleted nodes in order |
| BottomHalves.Context.Walk | rit/qemu/async.c:63-74 | the walk over the list as it was when it began, while callbacks extend it |
| BottomHalves.Context.Turn | rit/qemu/async.c:64-73 | one turn: a due node is run, and the walk goes on to the node after it |
| BottomHalves.Context.Fire | rit/qemu/async.c:66-71 | the schedule is consumed before the callback runs |
| BottomHalves.Context.Callback | rit/qemu/async.c:71-71 | whatever a callback does, including polling, leaves the list an extension of what it was |
| BottomHalves.Context.Sweep | rit/qemu/async.c:78-89 | exactly the deleted nodes are unlinked and freed |
| BottomHalves.Context.Free | rit/qemu/async.c:80-86 | one node is unlinked and freed |
| BottomHalves.Context.UpdateTimeout | rit/qemu/async.c:123-141 | 0 if something is scheduled, at most 10 if something is scheduled idle, else unchanged |
| BottomHalves.SchedulesConserved | rit/qemu/async.c:66-71 | every schedule that takes effect is run once, dropped once, or still pending |
| BottomHalves.DealtWith | rit/qemu/async.c:66-71 | what was due and is no longer has been run, cancelled or deleted since |
| BottomHalves.SurvivorsAre | rit/qemu/async.c:78-89 | the nodes left are those not deleted, each as often as before |
| Bitops.Ffsl | rit/qemu/bitops.h:31-61 | the lowest set bit |
| Bitops.Flsl | rit/qemu/bitops.h:69-99 | the highest set bit |
| Bitops.Ffz | rit/qemu/bitops.h:107-110 | the lowest clear bit |
| Bitops.FindNextBit | rit/qemu/bitops.c:21-64 | the least set position from offset below size, or size |
| Bitops.FindNextZeroBit | rit/qemu/bitops.c:70-113 | the least clear position from offset below size, or size |
| Bitops.FindLastBit | rit/qemu/bitops.c:115-142 | the greatest set position below size, or size |
| Bitops.NextIsUnique | rit/qemu/bitops.c:21-113 | there is only one such position |
| Bitmap.Set | rit/qemu/bitmap.c:158-178 | sets exactly the range |
| Bitmap.Clear | rit/qemu/bitmap.c:180-198 | clears exactly the range |
| Bitmap.SlowQuery | rit/qemu/bitmap.c:39-94 | empty, full, equal and intersects depend on the first nbits bits only |
| Bitmap.FastQuery | rit/qemu/bitmap.h:128-212 | the one-word paths agree with them; on zero bits they read the whole word |
| Bitmap.WordQuery | rit/qemu/bitmap.h:128-212 | a one-word query depends on the bits that the last-word mask keeps |
| Bitmap.Combine | rit/qemu/bitmap.c:110-156 | and, or, xor, andnot bit by bit, and what the flag says |
| Bitmap.FastCombine | rit/qemu/bitmap.h:128-164 | the one-word paths agree with the loops; for zero bits they still write a word |
| Bitmap.CombineKeepsCleanTail | rit/qemu/bitmap.c:21-33 | clean tails give clean tails |
| Bitmap.ReturnedFlag | rit/qemu/bitmap.c:110-156 | the flag tells whether the result is empty if and only if the operands meet below nbits or do not meet in their tails |
| Bitmap.FlagCountsTheTail | rit/qemu/bitmap.c:110-120 | a result that is empty although the flag says it is not |
| Bitmap.Complement | rit/qemu/bitmap.c:96-108 | the complement, with a clean tail |
| Bitmap.FastComplement | rit/qemu/bitmap.h:166-174 | the one-word path of the complement; for zero bits it complements a word |
| Bitmap.LastWordMaskBits | rit/qemu/bitmap.h:58-62 | which bits the last-word mask keeps |
| Bitmap.AlignUp | rit/qemu/bitmap.c:200-237 | rounding up to the alignment gives the least aligned index, and 0 when the sum wraps |
| Bitmap.FindNextZeroArea | rit/qemu/bitmap.c:200-237 | where no sum wraps: the least aligned free area from start, and a value above size exactly when there is none; with the mask of all ones, where the search ends: 0, or `nr` if that is above size |
| Bitmap.TurnFinds | rit/qemu/bitmap.c:219-234 | where no sum wraps, a turn of the search gives the first area, shows that there is none, or goes on past its start leaving no area out |
| Bitmap.AllOnesSearch | rit/qemu/bitmap.c:200-234 | with the mask of all ones the search ends if and only if `nr` is above size or the first `nr` bits are clear, and repeats the same turn for ever otherwise; an index it gives within size is an area if and only if it started at 0 |
| Bitmap.AllOnesFails | rit/qemu/bitmap.c:200-234 | two bits for which that search never ends, and two for which it gives an index before its start |
| Bitmap.OnlyAllOnesWraps | rit/qemu/bitmap.c:200-200 | with any other mask no sum wraps for bitmaps and areas of up to 2^63 bits together |
| FlowRuns.EveryRunEnds | rit/art/randomblock.py:22-390 | for every tree, whatever chance decides and whatever cfgdata holds, the run executes instructions of the block only and reaches the end label; with counted back edges erased it executes none of them twice, so it takes no more steps than there are instructions; words of enclosing levels are untouched |
| FlowRuns.RunByPass | rit/art/randomblock.py:45-73 | a by-pass is run through |
| FlowRuns.RunHammock | rit/art/randomblock.py:76-115 | a hammock is run through |
| FlowRuns.RunLoop | rit/art/randomblock.py:118-137 | a counted loop ends: its count goes up each time it goes back |
| FlowRuns.RunIrLoop | rit/art/randomblock.py:140-172 | so does an irreducible loop, entered at either block |
| FlowRuns.RunInterwork | rit/art/randomblock.py:175-223 | both layouts of an interworking block are run through, the backward jump included |
| FlowRuns.Through | rit/art/instrgen.py:1024-1037 | a call comes back to the address after it, whatever the called block contains |
| FlowRuns.RunCallRet | rit/art/randomblock.py:226-287 | all four layouts of a call are run through |
| FlowRuns.RunGlue | rit/art/randomblock.py:355-391 | blocks that join two others by straight-line code are run through |
| FlowRuns.LoopLeg | rit/art/instrgen.py:553-572 | the loop instruction counts in its own word and goes back only within the limit |
| FlowSlots.LevelEight | rit/art/instrgen.py:553-572 | slots are apart from those of enclosing blocks and inside cfgdata for every tree, if and only if trees are drawn at a level of at most 8 |
| FlowSlots.SlotsAreFine | rit/art/code.py:236-236 | the same for a tree inside blocks that use slots of higher levels |
| FlowLabels.LabelsDiffer | rit/art/randomblock.py:59-61 | no two blocks of a tree share a label or an end label |
| FlowLabels.SiblingsDiffer | rit/art/randomblock.py:59-61 | parts of a block share no label |
| FlowLabels.OwnDiffers | rit/art/randomblock.py:62-72 | nor do a part and the block itself |
| FlowLabels.BasicsDiffer | rit/art/randomblock.py:22-30 | different parts of a block have different basic blocks |
| FlowMaker.GetRBlock | rit/art/randomblock.py:393-433 | at level 0 and below only basic blocks are drawn; above level 3 only in place of a PC-writing block |
| FlowMaker.Maker.GenBranch | rit/art/instrgen.py:506-543 | where cbz is allowed, the block jumped over, which callers must have put in the table, gets its limit; nothing else changes |
| FlowMaker.Maker.MakeRandomBlock | rit/art/randomblock.py:22-390 | ends; restores nest and instruction set; makes a tree of the kind asked for that fits the level; the basic blocks returned are those added to the table, each once |
| FlowMaker.Maker.MakeHammock | rit/art/randomblock.py:89-115 | the same for a hammock, whose list is nested |
| FlowMaker.Maker.MakeBasic | rit/art/randomblock.py:24-28 | one basic block, added to the table and returned |
| FlowMaker.Maker.MakeAluPc | rit/art/randomblock.py:377-391 | the same for a block that writes the PC |
| FlowMaker.Maker.MakeExclusive | rit/art/randomblock.py:357-374 | the same for an exclusive-access block |
| FlowMaker.Maker.MakeIrLoop | rit/art/randomblock.py:153-172 | the same for an irreducible loop and its numbers |
| FlowMaker.Maker.MakeLoop | rit/art/randomblock.py:126-137 | the same for a loop, with an increment of 1 to 10 and a limit of 0 to 256 |
| FlowMaker.Maker.MakeByPass | rit/art/randomblock.py:56-73 | the same for a by-pass |
| FlowMaker.Maker.MakeInterwork | rit/art/randomblock.py:184-223 | the same for a block that changes the instruction set and back |
| FlowMaker.Maker.MakeCallRet | rit/art/randomblock.py:235-287 | the same for a call that may change it |
| FlowMaker.MakeTest | rit/art/art.py:11-17 | a whole test: table and returned list agree, all labels differ; made at a level of at most 8, its slots are apart and every run of it, whatever chance decides and cfgdata holds, stays in it and comes to its end, with counted back edges erased without executing an instruction twice |
| InstrBits.SetInstrBits | rit/new_src/InstrUtil.c:127-142 | a field gets the value and every other bit stays |
| InstrBits.FieldRoundTrip | rit/new_src/InstrUtil.c:51-55 | what is written to a field is read back, as far as it fits |
| InstrBits.FieldKept | rit/new_src/InstrUtil.c:127-142 | other fields read as before |
| InstrBits.SplitRoundTrip | rit/new_src/RandomInstrGen.c:738-752 | a value in two fields is put together again |
| InstrBits.IsFixed | rit/new_src/InstrUtil.c:149-161 | whether the field holds a bit of the opcode |
| InstrBits.FreeFieldKeeps | rit/new_src/InstrUtil.c:127-161 | writing a free field keeps the opcode bits |
| InstrBits.GetBitIs | rit/new_src/InstrUtil.c:40-48 | get_bit_value reads the bit |
| InstrBuilder.OpcodePutIn | rit/new_src/RandomInstrGen.c:1088-1097 | the word then matches the opcode and is as before elsewhere |
| InstrBuilder.Builder.constructor | rit/new_src/RandomInstrGen.c:1088-1097 | the random word, cut to its half for a 16-bit instruction, with the opcode in it |
| InstrBuilder.Builder.SetSbit | rit/new_src/RandomInstrGen.c:208-219 | the S bit as the option says, unless the opcode fixes it; the opcode stays |
| InstrBuilder.Builder.PutRegister | rit/new_src/RandomInstrGen.c:644-682 | a register field and the extra bits of a floating-point register |
| InstrBuilder.Builder.PutMerged | rit/new_src/RandomInstrGen.c:711-728 | a register number over a field and a bit |
| InstrBuilder.Builder.PutSplit | rit/new_src/RandomInstrGen.c:738-752 | an immediate over two fields, written only if both are free |
| InstrBuilder.Builder.PutShift | rit/new_src/RandomInstrGen.c:767-793 | a Thumb shift over four fields |
| InstrBuilder.Builder.PutExpanded | rit/new_src/RandomInstrGen.c:794-819 | an expanded immediate over three fields, written only if all are free |
| InstrBuilder.Builder.SetOpnd | rit/new_src/RandomInstrGen.c:634-840 | one operand is written as its type asks, registers being taken from the list one after another; the opcode stays |
| InstrBuilder.Builder.SetValue | rit/new_src/RandomInstrGen.c:684-832 | the immediate, shift, list and condition types |
| InstrBuilder.Builder.SetOpndBits | rit/new_src/RandomInstrGen.c:594-843 | a pass over the input or output operands, in order; the opcode stays |
| InstrBuilder.RegisterStays | rit/new_src/RandomInstrGen.c:634-682 | after a pass the field of a register operand reads as the register whose place in the list is the number of operands before it that took one |
| InstrBuilder.OnlyItsBits | rit/new_src/RandomInstrGen.c:634-840 | an operand changes bits of its own fields only |
| InstrBuilder.Build | rit/new_src/RandomInstrGen.c:845-863 | for all options and any random word the instruction built matches the opcode, holds in each register field that nothing is written over the register given for it, and elsewhere the S bit asked for or the random bits |
| InstrBuilder.MergedRoundTrip | rit/new_src/InstrUtil.c:57-81 | get_regnum reads back a register split over a field and a bit |
| AlphaIndex.AlphaIndexIsRight | rit/qemu/alpha-dis.c:1776-1851 | the bucket search selects what a scan of the whole table selects, for every instruction, if and only if the table is sorted by major opcode |
| AlphaIndex.SortedAgrees | rit/qemu/alpha-dis.c:1821-1851 | in a sorted table the bucket search agrees with the scan |
| AlphaIndex.BuildIndex | rit/qemu/alpha-dis.c:1776-1788 | fills the index |
| AlphaIndex.Find | rit/qemu/alpha-dis.c:1821-1851 | searches the bucket |
| AlphaIndex.IndexSplits | rit/qemu/alpha-dis.c:1781-1787 | in a sorted table the entries before an index are those with smaller major opcodes |
| AlphaIndex.MatchHasMajor | rit/qemu/alpha-dis.c:1825-1826 | an entry that matches has the instruction's major opcode |
| AlphaIndex.UnsortedMisses | rit/qemu/alpha-dis.c:1781-1787 | in an unsorted table there is an entry that the index never finds |

## Left out

- The file layer under migration (`QEMUFile`, sections of `savevm.c`), clocks and bandwidth estimates: they are inputs (how often the loop runs, how many blocks a flush sends, whether the end is near) or absent.
- A page is copied at one moment: a guest store that tears a page while it is being sent is not modelled.
- The version 3 RAM stream, and what is left in memory after ram_load has failed.
- The byte encoding of block migration records; the model keeps the stream as records (RAM migration is modelled down to the bytes).
- Shared-base block migration, read errors, cancellation and cleanup, and the switch that disables block migration.
- Size and allocation of the in-flight bitmap: it is a set of chunks.
- Block migration: a guest write that puts its data on the disk in the middle of one turn of the sender's loops, rather than between two turns or inside a wait; the protocol (`BlockAgreement`, `BlockOrder`) allows it at any point.
- Bitmap.FindNextZeroArea: requires that no sum wraps or that the mask is all ones and the search ends. When the mask is all ones the search ends exactly then (`Bitmap.AllOnesSearch`); with any other mask sums can wrap only for more than 2^63 bits (`Bitmap.OnlyAllOnesWraps`), which no memory holds.
- The 256-entry AES tables as constants and the fully unrolled rounds: tables are any that satisfy the stated laws; the loop form is modelled.
- Single-bit set, clear, change and test-and-modify of bitops.h, and zero, fill and copy of bitmaps: each follows from one bit lemma.
- Bottom halves: the wake-up of the CPU when something is scheduled; addresses of freed nodes are not given out again.
- Random instructions inside basic blocks, the bodies of exclusive-access and PC-writing blocks, and literal pools: they count as straight-line code that leaves cfgdata alone.
- ThumbTBRBlock, which nothing uses.
- Loop counts are unbounded integers: a count would have to pass 2^31 to wrap.
- The record of option-fixed bits (instr_fixed_bit) and the warning about truncated three-bit registers.
- Condition bits and the fixing of unpredictable bits, which are written without regard to the opcode mask.
- What the disassembler prints, and its operand extraction functions, which are arbitrary tests in the model.
