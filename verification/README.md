# Verified models of the CryFS block layer

CryFS keeps a file system as encrypted blocks in a directory that other clients
and the storage provider can change. This project models the layer between the
file system and that directory, and proves what the layer is for: readers and
writers of shared data never collide, a client notices rolled-back and deleted
blocks but never rejects honest ones, the write-back stores act like a plain map
from ids to bytes, and the byte formats can be read back.

`dafny verify dfyconfig.toml` checks everything.

## How the models are built

Concurrent protocols are step machines (`Runs.dfy`): a step is one access to an
atomic variable or one section under a mutex, and a run is any interleaving of
steps by any number of threads or clients. Objects that are updated in place are
classes whose methods are proved against functions on values; the theorems about
whole runs are about those functions.

| file | what it models |
|---|---|
| `LeftRight.dfy`, `LeftRightProofs.dfy`, `LeftRightOutcomes.dfy` | the Left-Right primitive: two instances, two reader counters, readers that never wait |
| `KnownVersions.dfy`, `BlockHeader.dfy`, `IntegrityStore.dfy` | versions known to a client, the block header, the integrity store |
| `NoRollback.dfy` | one client against an arbitrary base store |
| `MultiClient.dfy` | any number of honest clients on one base store |
| `Migration.dfy` | adding integrity headers to a store that has none, with interruptions |
| `Serialization.dfy`, `StateFile.dfy` | serializer, deserializer and the file with a client's known versions |
| `PlainStore.dfy`, `CachingStore.dfy` | the in-memory store and the write-back cache over a store |
| `SharedBlocks.dfy`, `SharedBlocksProofs.dfy` | reference-counted handles to write-back blocks, with removal by promise |
| `OpenFiles.dfy` | the table of open file descriptors |
| `BlockStack.dfy` | encryption format, file format and size arithmetic through all layers |
| `Bytes.dfy`, `Runs.dfy` | little-endian fields; runs of a machine |

## What turned out not to hold as it stands

Each of these has a lemma that shows it fails and a lemma with the exact condition.

- `incrementVersion` refuses only a next version of 2^64-1. From 2^64-1 it wraps to
  0 (`IncrementWraps`); versions grow if and only if that value was not reached
  (`IncrementGrowsIff`).
- `CachingBlockStore2::tryCreate` does not look into the base store. It answers as
  the plain map does if and only if the id is cached or not in the base store
  (`CreateRefinesIff`); otherwise a later `remove` brings the old block back
  (`StaleCreateResurrects`).
- `CachingBlockStore2::tryCreate` pushes to the cache before it lists the block as
  not in the base store. If the block is evicted in between, a later `remove` says
  it has removed the block and the block stays (`EvictedCreateResurrects`). Over
  every run the cached store acts like the plain map if and only if created ids are
  fresh and this does not happen (`RefinesIffOrderly`).
- `CachingBlockStore2::numBlocks` reads two numbers one after the other. With
  evictions in between their sum is exact if and only if no unwritten block was
  evicted (`TornCountIff`, failing at `TornCountFails`).
- A refused `IntegrityBlockStore2::tryCreate` has already counted up the version.
  The block that was there is then rejected if and only if its version had been
  seen (`RefusedCreateBlocksLoad`; a run that gets there is `RefusedCreateRun`).
- In `ParallelAccessStore`, a block can be opened after it was handed to a remover
  and before the remover has removed it; the handle can show old data
  (`StaleReadInWindow`) and its destructor ends the program (`OpeningInWindow`,
  `TerminatesIff`). A removal by id looks the block up without the mutex, and if the
  block is opened before it is removed it comes back (`RemovedBlockReturns`). A
  creation has three sections, and if the block is opened between them the creator
  gets no handle (`DisturbedCreation`). Over every interleaving the store acts like
  the plain map if and only if none of the three happens (`RefinesIffDisciplined`).
- The cipher computes sizes in 32 bits. The usable size is right if and only if the
  plaintext size fits (`UsableSizeIff`, failing at `UsableSizeWraps`). The file size
  is right if and only if the ciphertext size fits (`FileFillsPhysicalSize`, failing
  at `FileSizeWraps`), and beyond it nothing can be read back (`EncryptRoundTrip`,
  `OversizedIsLost`).
- The migration takes a block for migrated unless its first word is 0. Its bytes load
  afterwards if and only if that word was 0 (`MigratedLoadsIff`, failing at
  `SkippedBlockIsLost`).

## Model

| member | source | states |
|---|---|---|
| `LeftRightProofs.WriteExcludesRead` | src/cpp-utils/thread/LeftRight.h:49-132 | in every interleaving, no instance is written or restored while a `readFunc` is on it, and no step changes an instance being read |
| `LeftRightProofs.CountersCountReaders` | src/cpp-utils/thread/LeftRight.h:12-25 | in every reachable state each counter is the number of readers between their increment and decrement, although index load and increment are separate steps |
| `LeftRightProofs.ReadSeesPrefix` | src/cpp-utils/thread/LeftRight.h:49-58 | what a read sees is the result of a prefix of the writes, no shorter than the history when the read began |
| `LeftRightProofs.ReadIsStable` | src/cpp-utils/thread/LeftRight.h:49-58 | one `readFunc` call sees one value however often it looks and whatever else runs |
| `LeftRightOutcomes.ReadIsWaitFree` | src/cpp-utils/thread/LeftRight.h:49-58 | from every reachable state without the flag, the reader's own steps lead through a whole read of the newest contents and back |
| `LeftRightOutcomes.ReadPassesIff` | src/cpp-utils/thread/LeftRight.h:49-58 | over every run, a read passes its check exactly if the destructor had not set the flag, and throws otherwise |
| `LeftRightOutcomes.ReadStartsNewest` | src/cpp-utils/thread/LeftRight.h:49-58 | a read starts on the result of all writes in effect and on nothing else |
| `LeftRightProofs.IdleInstancesAgree` | src/cpp-utils/thread/LeftRight.h:74-132 | whenever no write runs both instances equal the result of all writes that took effect |
| `LeftRightProofs.WriteIsAtomic` | src/cpp-utils/thread/LeftRight.h:74-144 | from lock to unlock a write adds itself to the history exactly once, or not at all if it was refused or its first call threw, and both instances agree at the end whichever call threw |
| `LeftRightOutcomes.WriteOutcome` | src/cpp-utils/thread/LeftRight.h:60-144 | over every run, the outcome of a write follows from the steps between its lock and unlock: refused exactly if the destructor had set the flag before the check, else returned exactly if `writeFunc` did not throw, and in effect exactly if the data index was switched |
| `LeftRightOutcomes.WriteTakesEffect` | src/cpp-utils/thread/LeftRight.h:60-132 | without a destructor and without exceptions every write that finishes returns, is in effect, and both instances hold its result |
| `LeftRightOutcomes.WriteCompletes` | src/cpp-utils/thread/LeftRight.h:74-132 | with no reader about, a write runs to its end by its own steps and leaves the primitive idle with the new contents |
| `LeftRightOutcomes.FailedWriteCompletes` | src/cpp-utils/thread/LeftRight.h:134-144 | whichever call throws, the write ends with both instances equal to the writes in effect |
| `LeftRightOutcomes.WriteFuncIsFree` | src/cpp-utils/thread/LeftRight.h:134-144 | while it runs, `writeFunc` can leave anything in the background instance and nothing elsewhere |
| `LeftRightProofs.NobodyAfterTeardown` | src/cpp-utils/thread/LeftRight.h:34-58 | after the destructor has seen the counters at zero one after the other, no reader or writer is or ever comes inside; late readers take the throwing path |
| `LeftRightOutcomes.TeardownCompletes` | src/cpp-utils/thread/LeftRight.h:34-47 | with nobody about, the destructor gets through |
| `LeftRightOutcomes.PollsOfTeardown` | src/cpp-utils/thread/LeftRight.h:44-46 | the destructor goes on exactly if no reader is behind the counter it looks at, and starts over otherwise |
| `LeftRightOutcomes.RefusedCallsLeaveNoTrace` | src/cpp-utils/thread/LeftRight.h:34-71 | after the flag is set, a read or write ends with everything as it was |
| `LeftRightOutcomes.FlagIff` | src/cpp-utils/thread/LeftRight.h:34-36 | the flag is set exactly if the destructor has set it |
| `LeftRightProofs.WaitOnlyDrains` | src/cpp-utils/thread/LeftRight.h:146-150 | while the writer spins on a counter the set of readers that use it only shrinks |
| `LeftRightOutcomes.PollPassesIff` | src/cpp-utils/thread/LeftRight.h:146-150 | a waiting writer goes on exactly if no reader is between increment and decrement of the awaited counter |
| `LeftRightProofs.SnapshotIsFresh` | src/cpp-utils/thread/LeftRight.h:49-58 | a read only ever starts on an instance that holds every write that had taken effect when the read began |
| `LeftRightProofs.HistoryGrows` | src/cpp-utils/thread/LeftRight.h:74-132 | writes that took effect stay in effect, in order |
| `LeftRightProofs.ExclusionKept` | src/cpp-utils/thread/LeftRight.h:74-132 | each step of any thread keeps the relation between writer position, counters and readers behind the exclusion |
| `LeftRightProofs.ContentsKept` | src/cpp-utils/thread/LeftRight.h:74-144 | each step keeps what the two instances hold at each position of the writer |
| `LeftRightProofs.TeardownKept` | src/cpp-utils/thread/LeftRight.h:34-58 | each step keeps what the destructor has established so far |
| `LeftRightProofs.Reachable` | src/cpp-utils/thread/LeftRight.h:28-157 | all invariants hold in every reachable state |
| `KnownVersions.AcceptedIff` | src/blockstore/implementations/integrity/KnownBlockVersions.cpp:58-81 | a presented version is accepted exactly if it is newer than the known one of that client, or the same and that client was the last updater |
| `KnownVersions.CheckEffect` | src/blockstore/implementations/integrity/KnownBlockVersions.cpp:58-81 | a check changes one version and one last updater, and only if it accepts |
| `KnownVersions.IncrementEffect` | src/blockstore/implementations/integrity/KnownBlockVersions.cpp:83-94 | an increment throws exactly at 2^64-2, changing nothing, and otherwise changes only the own version and last updater of that block |
| `KnownVersions.MarkDeletedEffect` | src/blockstore/implementations/integrity/KnownBlockVersions.cpp:216-218 | deletion keeps all versions and changes one last updater |
| `KnownVersions.ExistingIff` | src/blockstore/implementations/integrity/KnownBlockVersions.cpp:220-238 | a block should exist exactly if its last known update was not its deletion |
| `KnownVersions.IncrementGrowsIff` | src/blockstore/implementations/integrity/KnownBlockVersions.cpp:83-94 | an increment that does not throw makes the version grow exactly if it was not 2^64-1 |
| `KnownVersions.IncrementWraps` | src/blockstore/implementations/integrity/KnownBlockVersions.cpp:83-94 | from 2^64-1 the version wraps to 0 and version 1 is accepted again |
| `KnownVersions.KnownBlockVersions.CheckAndUpdateVersion` | src/blockstore/implementations/integrity/KnownBlockVersions.cpp:58-81 | new state and verdict of a check, with the exact condition of acceptance |
| `KnownVersions.KnownBlockVersions.IncrementVersion` | src/blockstore/implementations/integrity/KnownBlockVersions.cpp:83-94 | new state and version, or no change and the overflow exception |
| `KnownVersions.KnownBlockVersions.MarkBlockAsDeleted` | src/blockstore/implementations/integrity/KnownBlockVersions.cpp:216-218 | new state after a deletion |
| `KnownVersions.KnownBlockVersions.BlockShouldExist` | src/blockstore/implementations/integrity/KnownBlockVersions.cpp:220-228 | agrees with the set of existing blocks |
| `KnownVersions.KnownBlockVersions.ExistingBlocks` | src/blockstore/implementations/integrity/KnownBlockVersions.cpp:230-238 | the loop collects exactly the blocks whose last updater is not the deletion marker |
| `NoRollback.SupersededNeverReturns` | src/blockstore/implementations/integrity/KnownBlockVersions.cpp:58-138 | over every run against any base store, with restarts: once (client, version) was accepted or written and then superseded by another client or deleted, be it by the write-back of the very load that accepted it, no later load yields data from that client at or below that version; nothing is written back, and a violation is recorded unless the header itself is malformed and throws |
| `NoRollback.OlderNeverReturns` | src/blockstore/implementations/integrity/KnownBlockVersions.cpp:58-138 | over every such run, once a version was accepted or written no older version of the same client is ever accepted again |
| `NoRollback.MissingIsNoticed` | src/blockstore/implementations/integrity/IntegrityBlockStore2.cpp:124-131 | over every such run with missing-block checking, a block that was accepted or written and not deleted since is missed: a load that finds none records a violation |
| `NoRollback.DeletedIsNotMissed` | src/blockstore/implementations/integrity/IntegrityBlockStore2.cpp:124-131 | a block that was deleted and neither accepted nor written since is not missed |
| `NoRollback.ExpectationKept` | src/blockstore/implementations/integrity/KnownBlockVersions.cpp:58-94 | only its deletion makes a client stop expecting a block |
| `NoRollback.KnownVersionsMonotone` | src/blockstore/implementations/integrity/KnownBlockVersions.cpp:58-94 | no known version ever decreases over such a run, whether or not violations are allowed |
| `NoRollback.RestartIsIdentity` | src/blockstore/implementations/integrity/KnownBlockVersions.cpp:96-138 | saving and reloading changes nothing of what is known, in any iteration order |
| `NoRollback.LoadEffect` | src/blockstore/implementations/integrity/IntegrityBlockStore2.cpp:124-147 | what a load does to the known versions for every block, old or new layout, accepted, refused or let through |
| `NoRollback.BarredKept` | src/blockstore/implementations/integrity/KnownBlockVersions.cpp:58-94 | no event of any kind makes a barred version acceptable again |
| `NoRollback.BarredIsRefused` | src/blockstore/implementations/integrity/IntegrityBlockStore2.cpp:53-63 | a barred version, or an older one, yields no data and is reported |
| `NoRollback.SupersededIsBarred` | src/blockstore/implementations/integrity/KnownBlockVersions.cpp:58-94 | being superseded bars the version |
| `NoRollback.SupersededAtOnce` | src/blockstore/implementations/integrity/IntegrityBlockStore2.cpp:124-147 | accepting another client's block in the old layout and storing it back bars the accepted version |
| `MultiClient.HonestLoadsSucceed` | src/blockstore/implementations/integrity/IntegrityBlockStore2.cpp:113-164 | with any number of clients and no tampering, every load by every client returns exactly the last stored payload, or nothing if there is none, with no violation and no rewrite |
| `MultiClient.StoreIsPlainMap` | src/blockstore/implementations/integrity/IntegrityBlockStore2.cpp:113-164 | the payloads on the base store are those of a plain map run with the same operations |
| `MultiClient.CreateSucceeds` | src/blockstore/implementations/integrity/IntegrityBlockStore2.cpp:113-117 | over every honest run, creating a fresh block answers so and every client then loads its data |
| `MultiClient.StoreSucceeds` | src/blockstore/implementations/integrity/IntegrityBlockStore2.cpp:160-164 | over every honest run, a store answers so and every client then loads its data |
| `MultiClient.NothingMissing` | src/blockstore/implementations/integrity/KnownBlockVersions.cpp:216-238 | for a single client the blocks that should exist are exactly the blocks of the base store |
| `MultiClient.RefusedCreateBlocksLoad` | src/blockstore/implementations/integrity/IntegrityBlockStore2.cpp:113-117 | a refused create leaves the base store alone but makes the own client reject the block exactly if it had seen that version |
| `MultiClient.RefusedCreateRun` | src/blockstore/implementations/integrity/IntegrityBlockStore2.cpp:113-117 | a run in which a client can no longer load the block it has created |
| `MultiClient.LoadAccepted` | src/blockstore/implementations/integrity/IntegrityBlockStore2.cpp:124-147 | under the invariant every client accepts every block |
| `MultiClient.InvKept` | src/blockstore/implementations/integrity/KnownBlockVersions.cpp:58-94 | joins, creates, stores, removes, loads and restarts keep the invariant that no client knows more of another than that client has written |
| `BlockHeader.HeaderRoundTrip` | src/blockstore/implementations/integrity/IntegrityBlockStore2.cpp:31-40 | all header readers invert the writer, for all ids, clients, versions and payloads |
| `BlockHeader.HeaderDetermined` | src/blockstore/implementations/integrity/IntegrityBlockStore2.cpp:77-95 | a block of the current format is determined by what the readers return |
| `BlockHeader.MigrateRoundTrip` | src/blockstore/implementations/integrity/IntegrityBlockStore2.cpp:150-157 | migrating any block of at least 14 bytes keeps client, version and payload and sets format and id |
| `BlockHeader.MigrateOldBlock` | src/blockstore/implementations/integrity/IntegrityBlockStore2.cpp:150-157 | migrating an old block gives byte for byte what the current version would have written |
| `IntegrityStore.IntegrityBlockStore.TryCreate` | src/blockstore/implementations/integrity/IntegrityBlockStore2.cpp:113-117 | new versions, new base store and result, the version going up before the base store can refuse; the answer says whether the block was there |
| `IntegrityStore.CreateAnswersIff` | src/blockstore/implementations/integrity/IntegrityBlockStore2.cpp:113-117 | a creation answers created exactly if the block was absent, overflow exactly at 2^64-2, and stores a header with the new version exactly if created |
| `IntegrityStore.IntegrityBlockStore.RemoveBlock` | src/blockstore/implementations/integrity/IntegrityBlockStore2.cpp:119-122 | marks the block deleted whether or not it was there |
| `IntegrityStore.IntegrityBlockStore.Load` | src/blockstore/implementations/integrity/IntegrityBlockStore2.cpp:124-147 | versions, result and base store after a load, with all error paths and the write-back of old blocks; a missing block is reported exactly if it should exist and that is checked |
| `IntegrityStore.LoadResultIs` | src/blockstore/implementations/integrity/IntegrityBlockStore2.cpp:42-147 | for every block and configuration: what a load returns, when a violation is recorded and what is stored back, in terms of header fields and known versions |
| `IntegrityStore.MissingReportedIff` | src/blockstore/implementations/integrity/IntegrityBlockStore2.cpp:124-131 | loading a missing block gives nothing, changes no version, and is a violation exactly if the block should exist and that is checked |
| `IntegrityStore.OldBlockReplaced` | src/blockstore/implementations/integrity/IntegrityBlockStore2.cpp:132-147 | a loaded block of the old layout is replaced in the base store by one that loads as the same data and is not replaced again |
| `IntegrityStore.IntegrityBlockStore.Store` | src/blockstore/implementations/integrity/IntegrityBlockStore2.cpp:160-164 | new versions and base store, or the overflow exception |
| `IntegrityStore.StoreAnswersIff` | src/blockstore/implementations/integrity/IntegrityBlockStore2.cpp:160-164 | a store succeeds except at 2^64-2, whether or not the block was there, and puts the data under the new version |
| `IntegrityStore.IntegrityBlockStore.CheckBlockHeader` | src/blockstore/implementations/integrity/IntegrityBlockStore2.cpp:42-75 | order and effect of the format, id and version checks |
| `IntegrityStore.IntegrityBlockStore.ReportViolation` | src/blockstore/implementations/integrity/IntegrityBlockStore2.cpp:97-104 | records a violation unless violations are allowed |
| `IntegrityStore.IntegrityBlockStore.ForEachBlock` | src/blockstore/implementations/integrity/IntegrityBlockStore2.cpp:182-199 | visits each block once and reports a violation exactly if checking is on and some block that should exist is absent |
| `IntegrityStore.VisitAll` | src/blockstore/implementations/integrity/IntegrityBlockStore2.cpp:182-199 | the loop visits each id once and leaves the expected ids that were not visited |
| `IntegrityStore.LoadedLength` | src/blockstore/implementations/integrity/IntegrityBlockStore2.cpp:124-147 | a load that gives data gives the answer of the base store without its header |
| `Migration.MigrationResumable` | src/blockstore/implementations/integrity/IntegrityBlockStore2.cpp:202-232 | after any number of attempts, stopped anywhere, restarted and mixed with loads, that together cover the store, each block is wrapped once, its version went up once and it can be loaded |
| `Migration.LoadsOriginal` | src/blockstore/implementations/integrity/IntegrityBlockStore2.cpp:124-147 | every load of a migrated block anywhere in such a run gives the original bytes and rewrites nothing |
| `Migration.ProgressAlong` | src/blockstore/implementations/integrity/IntegrityBlockStore2.cpp:202-232 | at every point of such a run exactly the processed blocks are wrapped, all others are untouched |
| `Migration.MigratedLoadsIff` | src/blockstore/implementations/integrity/IntegrityBlockStore2.cpp:217-232 | after the migration a block loads as its original bytes exactly if its first word was 0 |
| `Migration.SkippedBlockIsLost` | src/blockstore/implementations/integrity/IntegrityBlockStore2.cpp:217-232 | a block that starts with the word 2 is skipped and loading it throws |
| `Migration.MigrationThrowsIff` | src/blockstore/implementations/integrity/IntegrityBlockStore2.cpp:217-232 | migrating a block throws exactly if it has to be wrapped and the version is 2^64-2; then nothing has changed |
| `Migration.ProgressStep` | src/blockstore/implementations/integrity/IntegrityBlockStore2.cpp:217-232 | processing a block, for the first time or again, keeps exact progress |
| `Migration.WrappedLoads` | src/blockstore/implementations/integrity/IntegrityBlockStore2.cpp:124-147 | a wrapped block loads as its original bytes at any point of the migration |
| `Migration.MigrateOne` | src/blockstore/implementations/integrity/IntegrityBlockStore2.cpp:217-232 | the statements for one block compute its migration |
| `Migration.MigrateSession` | src/blockstore/implementations/integrity/IntegrityBlockStore2.cpp:202-215 | one attempt keeps exact progress wherever it is stopped, and completes if it is not |
| `StateFile.FileRoundTrip` | src/blockstore/implementations/integrity/KnownBlockVersions.cpp:96-205 | for every state and every iteration order, loading the saved file gives the same flag and the same tables |
| `StateFile.OldFileLoads` | src/blockstore/implementations/integrity/KnownBlockVersions.cpp:96-123 | a file of the old format loads with the flag unset and asks to be saved; what is saved, in any order, loads to the same state and does not ask again |
| `StateFile.LoadedFileIsEncoding` | src/blockstore/implementations/integrity/KnownBlockVersions.cpp:96-205 | conversely, a file that loads is byte for byte an encoding of what was loaded |
| `StateFile.LoadsIffEncoding` | src/blockstore/implementations/integrity/KnownBlockVersions.cpp:96-205 | exactly the encodings, old or current, load; every other file is refused |
| `StateFile.EncodingLoads` | src/blockstore/implementations/integrity/KnownBlockVersions.cpp:96-205 | every encoding loads to its flag and tables, also with repeated keys |
| `StateFile.FirstVersionCounts` | src/blockstore/implementations/integrity/KnownBlockVersions.cpp:140-150 | of several versions for one key the first counts |
| `StateFile.FirstLastCounts` | src/blockstore/implementations/integrity/KnownBlockVersions.cpp:175-185 | of several last updaters for one block the first counts |
| `StateFile.FirstMount` | src/blockstore/implementations/integrity/KnownBlockVersions.cpp:96-101 | without a file nothing is known or expected of any block and no violation is recorded |
| `StateFile.SaveStateFile` | src/blockstore/implementations/integrity/KnownBlockVersions.cpp:125-138 | the precomputed size is exactly filled, no write and no final check throws, the file lists both tables, and loading it gives back the whole state |
| `StateFile.SerializeVersions` | src/blockstore/implementations/integrity/KnownBlockVersions.cpp:152-173 | appends the count and every entry once |
| `StateFile.SerializeLasts` | src/blockstore/implementations/integrity/KnownBlockVersions.cpp:186-205 | appends the count and every entry once |
| `StateFile.DeserializeVersions` | src/blockstore/implementations/integrity/KnownBlockVersions.cpp:140-150 | the loop reads the table at the cursor, or fails as the first bad read does |
| `StateFile.DeserializeLasts` | src/blockstore/implementations/integrity/KnownBlockVersions.cpp:175-185 | the loop reads the table at the cursor, or fails as the first bad read does |
| `StateFile.LoadStateFile` | src/blockstore/implementations/integrity/KnownBlockVersions.cpp:96-123 | loads a missing, old, current or malformed file; an old file is replaced on disk by a current one that loads to the same state, any other file is left alone |
| `StateFile.ReadStateFile` | src/blockstore/implementations/integrity/KnownBlockVersions.cpp:96-123 | the reading part computes the loading of a missing, old, current or malformed file |
| `StateFile.DeserializeTables` | src/blockstore/implementations/integrity/KnownBlockVersions.cpp:104-122 | reads both tables and fails unless they end where the file ends |
| `Serialization.Serializer.WriteData` | src/cpp-utils/data/Serializer.h:123-129 | appends the bytes at the cursor exactly if they fit, and changes nothing otherwise |
| `Serialization.Serializer.WriteUint` | src/cpp-utils/data/Serializer.h:95-102 | appends the little-endian bytes exactly if they fit |
| `Serialization.Serializer.WriteBool` | src/cpp-utils/data/Serializer.h:59-61 | appends 1 or 0 exactly if it fits |
| `Serialization.Serializer.WriteString` | src/cpp-utils/data/Serializer.h:132-134 | appends the string and a null byte exactly if both fit |
| `Serialization.Serializer.Finished` | src/cpp-utils/data/Serializer.h:140-145 | returns the buffer exactly if it was filled |
| `Serialization.Deserializer.ReadUint` | src/cpp-utils/data/Deserializer.h:89-98 | reads the field at the cursor and moves past it, or throws at the end |
| `Serialization.Deserializer.ReadBool` | src/cpp-utils/data/Deserializer.h:46-55 | accepts the bytes 0 and 1 only |
| `Serialization.Deserializer.ReadFixed` | src/cpp-utils/data/Deserializer.h:119-129 | reads the bytes at the cursor; a read past the end is told apart because the source does not check |
| `Serialization.Deserializer.ReadString` | src/cpp-utils/data/Deserializer.h:131-141 | the search finds the string before the first null byte, or throws if there is none |
| `Serialization.StringUpTo` | src/cpp-utils/data/Deserializer.h:131-141 | what is read is what lies before the first null byte |
| `Serialization.StringWas` | src/cpp-utils/data/Deserializer.h:131-141 | a string that was read was followed by a null byte |
| `Bytes.DecodeEncode` | src/cpp-utils/data/Serializer.h:95-102 | decoding inverts encoding for every value that fits the width |
| `Bytes.EncodeDecode` | src/cpp-utils/data/Deserializer.h:89-98 | encoding inverts decoding for every byte sequence |
| `PlainStore.InMemoryBlockStore.TryCreate` | src/blockstore/implementations/inmemory/InMemoryBlockStore2.cpp:20-28 | inserts exactly if the id is absent |
| `PlainStore.InMemoryBlockStore.RemoveBlock` | src/blockstore/implementations/inmemory/InMemoryBlockStore2.cpp:30-40 | the id is gone and the result says whether it was there |
| `PlainStore.InMemoryBlockStore.Load` | src/blockstore/implementations/inmemory/InMemoryBlockStore2.cpp:42-49 | the data under the id, or nothing |
| `PlainStore.InMemoryBlockStore.Store` | src/blockstore/implementations/inmemory/InMemoryBlockStore2.cpp:51-63 | puts the data whether or not the id was there; the exception is unreachable |
| `PlainStore.InMemoryBlockStore.ForEachBlock` | src/blockstore/implementations/inmemory/InMemoryBlockStore2.cpp:78-93 | visits every id once |
| `CachingStore.CacheRefinesMap` | src/blockstore/implementations/caching/CachingBlockStore2.cpp:25-123 | over every run with fresh ids and evictions anywhere, also during creations but not of the block being created, the cached store shows and answers what the plain map does, the exception in `remove` is unreachable, and with an empty cache the base store is the map |
| `CachingStore.RefinesIffOrderly` | src/blockstore/implementations/caching/CachingBlockStore2.cpp:51-123 | over every run, the store answers like the plain map at every point, whatever could follow there, exactly if created ids were fresh and no block was evicted between the two halves of its creation |
| `CachingStore.FlagMeansEvicted` | src/blockstore/implementations/caching/CachingBlockStore2.cpp:51-64 | that condition on events: an eviction of the block lies between the halves of its creation |
| `CachingStore.EvictedCreateResurrects` | src/blockstore/implementations/caching/CachingBlockStore2.cpp:51-86 | a run in which a block is still there after `remove` said it was removed |
| `CachingStore.ActRefines` | src/blockstore/implementations/caching/CachingBlockStore2.cpp:25-123 | each action, also each half of a creation, keeps the invariant and acts and answers as on a plain map |
| `CachingStore.NumBlocksExact` | src/blockstore/implementations/caching/CachingBlockStore2.cpp:125-132 | in every reachable state the number of blocks is exact but for blocks between the halves of their creation |
| `CachingStore.TornCountIff` | src/blockstore/implementations/caching/CachingBlockStore2.cpp:125-132 | with evictions between its two reads the number is exact exactly if no unwritten block was evicted |
| `CachingStore.TornCountFails` | src/blockstore/implementations/caching/CachingBlockStore2.cpp:125-132 | a block evicted between the reads is counted twice |
| `CachingStore.StepRefines` | src/blockstore/implementations/caching/CachingBlockStore2.cpp:51-123 | each operation keeps the invariant, acts on the view as on a plain map and gives the same answer |
| `CachingStore.UsedIsCached` | src/blockstore/implementations/caching/CachingBlockStore2.cpp:51-123 | blocks that are created, stored or found are cached, and the base store is touched only for other blocks, to remove and to write back |
| `CachingStore.ViewDestroyed` | src/blockstore/implementations/caching/CachingBlockStore2.cpp:25-32 | the destructor of a cached block changes nothing a caller can see |
| `CachingStore.CreateRefinesIff` | src/blockstore/implementations/caching/CachingBlockStore2.cpp:51-64 | `tryCreate` answers as the plain map does exactly for ids that are cached or not in the base store |
| `CachingStore.StaleCreateResurrects` | src/blockstore/implementations/caching/CachingBlockStore2.cpp:51-86 | otherwise creating and removing a block brings the old one back |
| `CachingStore.CountsAdd` | src/blockstore/implementations/caching/CachingBlockStore2.cpp:125-150 | base store and not-in-base list together are the view, without overlap |
| `CachingStore.CountExactIffNotEvicted` | src/blockstore/implementations/caching/CachingBlockStore2.cpp:51-64 | listing a created block keeps the count exact exactly if it was not evicted since it was pushed |
| `CachingStore.CachingBlockStore.TryCreate` | src/blockstore/implementations/caching/CachingBlockStore2.cpp:51-64 | both halves without interruption: for fresh ids the view gains exactly this block or the call is refused |
| `CachingStore.CachingBlockStore.BeginCreate` | src/blockstore/implementations/caching/CachingBlockStore2.cpp:51-60 | pushes exactly if nothing is cached under the id |
| `CachingStore.CachingBlockStore.RemoveBlock` | src/blockstore/implementations/caching/CachingBlockStore2.cpp:66-86 | the block is gone from the view and the result says whether it was visible |
| `CachingStore.CachingBlockStore.Load` | src/blockstore/implementations/caching/CachingBlockStore2.cpp:88-110 | returns what is visible and leaves the view alone |
| `CachingStore.CachingBlockStore.StoreBlock` | src/blockstore/implementations/caching/CachingBlockStore2.cpp:112-123 | the view holds the data under this id and is otherwise unchanged |
| `CachingStore.CachingBlockStore.EvictBlock` | src/blockstore/implementations/caching/cache/Cache.h:103-116 | an eviction keeps the view |
| `CachingStore.CachingBlockStore.DestroyBlock` | src/blockstore/implementations/caching/CachingBlockStore2.cpp:25-32 | writes back a dirty block and takes it off the not-in-base list |
| `CachingStore.CachingBlockStore.Flush` | src/blockstore/implementations/caching/CachingBlockStore2.cpp:152-154 | afterwards the base store is what was visible |
| `CachingStore.CachingBlockStore.NumBlocks` | src/blockstore/implementations/caching/CachingBlockStore2.cpp:125-132 | the size of the view |
| `CachingStore.CachingBlockStore.ForEachBlock` | src/blockstore/implementations/caching/CachingBlockStore2.cpp:142-150 | visits every visible block exactly once |
| `SharedBlocksProofs.HandlesConsistent` | src/parallelaccessstore/ParallelAccessStore.h:63-246 | in every interleaving each reference count is the number of live handles, every handle points at what is open under its id, and a block given to a remover has no handle |
| `SharedBlocksProofs.HandlesRefineMap` | src/blockstore/implementations/parallelaccess/ParallelAccessBlockStore.cpp:29-71 | in every run in which nothing is opened between hand-over and removal, no removal by id hits a block opened or handed over since its look-up and no creation is disturbed, blocks seen through any handle are those of a plain map, and every open block is in the base store |
| `SharedBlocksProofs.RefinesIffDisciplined` | src/parallelaccessstore/ParallelAccessStore.h:139-246 | over every interleaving, the store shows and answers what the plain map does at every point, whatever disciplined events could follow there, exactly if all events were disciplined in those three ways |
| `SharedBlocksProofs.GoodIffDisciplined` | src/parallelaccessstore/ParallelAccessStore.h:139-246 | one event keeps the invariant and has the outcome of the plain map exactly if it is disciplined |
| `SharedBlocksProofs.RemovedBlockReturns` | src/parallelaccessstore/ParallelAccessStore.h:218-231 | a run in which a block removed by id comes back |
| `SharedBlocksProofs.DisturbedCreation` | src/blockstore/implementations/parallelaccess/ParallelAccessBlockStore.cpp:29-39 | a run in which a creation that succeeded in the base store gets no handle |
| `SharedBlocksProofs.OutcomesAgree` | src/blockstore/implementations/parallelaccess/ParallelAccessBlockStore.cpp:29-71 | in such runs loading gives a handle exactly if the block exists, creating stores exactly if it does not and then gets its handle, and removing finds its block |
| `SharedBlocksProofs.RemoveThroughLastHandle` | src/blockstore/implementations/parallelaccess/ParallelAccessBlockStore.cpp:62-71 | removing through the only handle leaves the id absent everywhere, dirty or not |
| `SharedBlocksProofs.RemoveByIdWaits` | src/parallelaccessstore/ParallelAccessStore.h:218-226 | removing by id a block that is open registers and waits |
| `SharedBlocksProofs.WaitingIsInvisible` | src/parallelaccessstore/ParallelAccessStore.h:218-226 | while such a removal waits nothing visible changes |
| `SharedBlocksProofs.RemoveByIdFinishes` | src/parallelaccessstore/ParallelAccessStore.h:218-246 | when the last handle goes the waiting removal gets the block, and then it is gone from base store and map |
| `SharedBlocksProofs.RemoveByIdClosed` | src/parallelaccessstore/ParallelAccessStore.h:227-231 | removing by id a block that is not open takes it away at once |
| `SharedBlocksProofs.SecondRemovalFails` | src/parallelaccessstore/ParallelAccessStore.h:197-216 | a second removal through a handle fails, costs the handle and leaves the first removal alone |
| `SharedBlocksProofs.SecondRegistrationFails` | src/parallelaccessstore/ParallelAccessStore.h:210-223 | a second removal by id fails and leaves the first one alone |
| `SharedBlocksProofs.FlushWritesBack` | src/blockstore/implementations/low2highlevel/LowToHighLevelBlock.cpp:60-63 | flushing puts the contents into the base store and changes nothing else there |
| `SharedBlocksProofs.AllWrittenBack` | src/parallelaccessstore/ParallelAccessStore.h:233-246 | over every disciplined run, when there are no handles and no removals the base store is the plain map |
| `SharedBlocksProofs.TerminatesIff` | src/parallelaccessstore/ParallelAccessStore.h:233-246 | a handle's destructor ends the program exactly if it drops the last handle of a block that was already handed to a remover |
| `SharedBlocksProofs.OpeningInWindow` | src/parallelaccessstore/ParallelAccessStore.h:179-208 | dropping a handle that was just opened ends the program exactly if the block was between hand-over and removal; only there, and only for a dirty block, can it show something else than the block, namely what was last written back |
| `SharedBlocksProofs.StaleReadInWindow` | src/parallelaccessstore/ParallelAccessStore.h:197-208 | a run in which such a handle shows data from before a write |
| `SharedBlocksProofs.InvKept` | src/parallelaccessstore/ParallelAccessStore.h:139-246 | every section under the mutex, disciplined or not, keeps counts, identities and promises consistent |
| `SharedBlocksProofs.StepRefines` | src/parallelaccessstore/ParallelAccessStore.h:139-246 | every disciplined section acts on the visible blocks as on a plain map and ends nothing |
| `SharedBlocksProofs.LoadedView` | src/parallelaccessstore/ParallelAccessStore.h:179-195 | opening changes nothing visible and gives the visible contents |
| `SharedBlocksProofs.CreatedView` | src/blockstore/implementations/parallelaccess/ParallelAccessBlockStore.cpp:29-39 | creating adds the block exactly if it is not visible |
| `SharedBlocksProofs.StoredView` | src/blockstore/implementations/parallelaccess/ParallelAccessBlockStore.cpp:33-37 | a block put into the base store is visible at once |
| `SharedBlocksProofs.UndisturbedView` | src/blockstore/implementations/parallelaccess/ParallelAccessBlockStore.cpp:38-38 | adding a block that nobody touched since it was stored changes nothing visible |
| `SharedBlocksProofs.OverwriteView` | src/blockstore/implementations/parallelaccess/ParallelAccessBlockStore.cpp:49-60 | overwriting makes the data visible, open or not |
| `SharedBlocksProofs.ReleasedView` | src/parallelaccessstore/ParallelAccessStore.h:233-246 | dropping a handle, last or not, changes nothing visible |
| `SharedBlocksProofs.FinishedView` | src/blockstore/interface/BlockStore.h:36-40 | finishing a removal cannot fail and leaves the id absent, although destroying a dirty block first writes it back |
| `SharedBlocks.OverwrittenIsData` | src/blockstore/implementations/parallelaccess/ParallelAccessBlockStore.cpp:49-60 | resizing and then writing at offset 0 leaves exactly the new data |
| `SharedBlocks.WrittenBytes` | src/blockstore/implementations/low2highlevel/LowToHighLevelBlock.cpp:54-58 | a write inside the block changes exactly the bytes it covers and any other write nothing |
| `SharedBlocks.ResizedBytes` | src/cpp-utils/data/DataUtils.cpp:5-10 | a resize keeps every byte that fits and fills with zeroes |
| `SharedBlocks.LowToHighLevelBlock.TryCreateNew` | src/blockstore/implementations/low2highlevel/LowToHighLevelBlock.cpp:15-22 | a clean block and a new base block exactly if the id was absent |
| `SharedBlocks.LowToHighLevelBlock.Overwrite` | src/blockstore/implementations/low2highlevel/LowToHighLevelBlock.cpp:24-27 | the base store holds the data and the block agrees with it |
| `SharedBlocks.LowToHighLevelBlock.Load` | src/blockstore/implementations/low2highlevel/LowToHighLevelBlock.cpp:29-35 | a clean block with the stored data exactly if there is one |
| `SharedBlocks.LowToHighLevelBlock.Write` | src/blockstore/implementations/low2highlevel/LowToHighLevelBlock.cpp:54-58 | byte by byte: replaces exactly the given range, or changes nothing if it is not inside the block |
| `SharedBlocks.LowToHighLevelBlock.Resize` | src/blockstore/implementations/low2highlevel/LowToHighLevelBlock.cpp:69-72 | byte by byte: keeps what fits, fills with zeroes and marks the block dirty |
| `SharedBlocks.LowToHighLevelBlock.StoreToBase` | src/blockstore/implementations/low2highlevel/LowToHighLevelBlock.cpp:74-79 | afterwards the base store holds the block's data, other blocks are unchanged and the block is clean |
| `SharedBlocks.ParallelAccessStore.Add` | src/parallelaccessstore/ParallelAccessStore.h:139-148 | opens a block under an id that is not open, with one handle |
| `SharedBlocks.ParallelAccessStore.GetReference` | src/parallelaccessstore/ParallelAccessStore.h:63-89 | one more handle to the same block, with the count modulo 2^32 |
| `SharedBlocks.ParallelAccessStore.LoadBlock` | src/parallelaccessstore/ParallelAccessStore.h:179-195 | handle to the open block, else to one loaded from the base store, else none |
| `SharedBlocks.ParallelAccessStore.TryCreate` | src/blockstore/implementations/parallelaccess/ParallelAccessBlockStore.cpp:29-39 | the three sections without interruption refuse ids that are open or in the base store |
| `SharedBlocks.ParallelAccessStore.CreateInBase` | src/blockstore/implementations/low2highlevel/LowToHighLevelBlock.cpp:15-22 | puts the block into the base store exactly if it is not there |
| `SharedBlocks.ParallelAccessStore.OverwriteBlock` | src/parallelaccessstore/ParallelAccessStore.h:157-170 | resizes and writes the open block, or stores and opens it |
| `SharedBlocks.ParallelAccessStore.ReleaseHandle` | src/parallelaccessstore/ParallelAccessStore.h:233-246 | counts down and, at zero, writes back or hands over; fails exactly if the promise was already fulfilled |
| `SharedBlocks.ParallelAccessStore.FinishRemoval` | src/parallelaccessstore/ParallelAccessStore.h:197-231 | destroys the handed-over block and removes it from the base store |
| `OpenFiles.NoUseAfterClose` | src/fspp/impl/FuseOpenFileList.h:73-113 | in every interleaving no callback runs on a removed file, both tables have the same keys, each count is the number of running callbacks, and all counts are zero exactly if no callback runs |
| `OpenFiles.CallbackKeepsFile` | src/fspp/impl/FuseOpenFileList.h:81-101 | from entering to leaving a callback keeps the very file it was given, whoever tries to close it |
| `OpenFiles.LoadGivesOpenedFile` | src/fspp/impl/FuseOpenFileList.h:73-101 | over every run, each load of a descriptor that was opened and not closed since runs its callback on the file it was opened for |
| `OpenFiles.OpenUntilClosed` | src/fspp/impl/FuseOpenFileList.h:73-113 | from its opening until it is closed a descriptor stands for its file |
| `OpenFiles.ClosedForGood` | src/fspp/impl/FuseOpenFileList.h:103-113 | after it was closed a descriptor is never open again and no callback on it runs |
| `OpenFiles.DescriptorsUnique` | src/fspp/impl/IdList.h:40-46 | descriptors only grow, so none is given out twice |
| `OpenFiles.CloseKept` | src/fspp/impl/FuseOpenFileList.h:103-113 | closing keeps the invariant and removes a file only if no callback runs on it |
| `OpenFiles.EnterKept` | src/fspp/impl/FuseOpenFileList.h:81-101 | entering a callback counts it and keeps tables and counts consistent |
| `OpenFiles.LeaveKept` | src/fspp/impl/FuseOpenFileList.h:81-101 | a running callback is counted, so leaving it never fails and uncounts exactly it |
| `OpenFiles.EnterIff` | src/fspp/impl/FuseOpenFileList.h:81-101 | a load runs the callback on the file of the descriptor exactly if it is open, and does nothing otherwise |
| `OpenFiles.LeaveEnds` | src/fspp/impl/FuseOpenFileList.h:81-101 | the end of a callback ends it and touches no file |
| `OpenFiles.CloseIff` | src/fspp/impl/FuseOpenFileList.h:103-113 | a close, at once or after waking up, closes exactly if no callback runs, waits exactly if one does, and throws for an unknown descriptor |
| `OpenFiles.InvKept` | src/fspp/impl/FuseOpenFileList.h:73-113 | every section keeps tables and counts consistent |
| `OpenFiles.FuseOpenFileList.Open` | src/fspp/impl/FuseOpenFileList.h:73-79 | a new descriptor for the file with count zero |
| `OpenFiles.FuseOpenFileList.BeginLoad` | src/fspp/impl/FuseOpenFileList.h:81-101 | counts up and gives the file of the descriptor exactly if it is open, and nothing otherwise |
| `OpenFiles.FuseOpenFileList.TryClose` | src/fspp/impl/FuseOpenFileList.h:103-113 | removes the file from both tables exactly if its count is zero, and otherwise waits or throws |
| `BlockStack.OldBlockUpgrades` | src/blockstore/implementations/integrity/IntegrityBlockStore2.cpp:124-147 | an accepted block that is old in both layers, of a size that fits the cipher, loads as its payload, ends up new in both layers, and every later load returns the same |
| `BlockStack.EveryLaterLoad` | src/blockstore/implementations/encrypted/EncryptedBlockStore2.h:83-91 | any number of loads of an up-to-date block return its payload and change nothing on disk |
| `BlockStack.StoredLoads` | src/blockstore/implementations/encrypted/EncryptedBlockStore2.h:93-97 | what is stored through both layers, of a size that fits the cipher, is what every later load returns |
| `BlockStack.OversizedIsLost` | src/cpp-utils/crypto/symmetric/AEAD_Cipher.h:42-86 | a payload whose ciphertext size does not fit 32 bits is never loaded again as it was stored |
| `BlockStack.UpToDateLoads` | src/blockstore/implementations/encrypted/EncryptedBlockStore2.h:129-150 | loading an up-to-date block returns its payload and keeps it up to date |
| `BlockStack.StackLoadIs` | src/blockstore/implementations/encrypted/EncryptedBlockStore2.h:83-150 | an unknown format throws; an absent block, one the cipher rejects and an old one of another id are missing to the integrity layer; anything else is handed on decrypted |
| `BlockStack.EncryptRoundTrip` | src/blockstore/implementations/encrypted/EncryptedBlockStore2.h:123-150 | decryption inverts encryption for every id, and the size grows by header and overhead, exactly if the ciphertext size fits 32 bits |
| `BlockStack.OldEncryptReads` | src/blockstore/implementations/encrypted/EncryptedBlockStore2.h:138-161 | in the old format the id prefix is compared and stripped once and any other id is rejected, as long as the ciphertext size fits; otherwise the data is not read back |
| `BlockStack.FileHeaderRoundTrip` | src/blockstore/implementations/ondisk/OnDiskBlockStore2.cpp:26-50 | a file yields a block exactly if it is the file of that block |
| `BlockStack.OtherFilesRefused` | src/blockstore/implementations/ondisk/OnDiskBlockStore2.cpp:26-50 | other files are refused, as too new exactly if they start like a block file |
| `BlockStack.UsableSizeIff` | src/blockstore/implementations/integrity/IntegrityBlockStore2.cpp:174-180 | for every physical size and overhead the usable size is what all overheads leave, or 0, exactly as long as the 32-bit plaintext size does not wrap |
| `BlockStack.UsableSizeWraps` | src/cpp-utils/crypto/symmetric/AEAD_Cipher.h:25-27 | at 4 GiB and 79 bytes one byte is usable |
| `BlockStack.FileFillsPhysicalSize` | src/blockstore/implementations/ondisk/OnDiskBlockStore2.cpp:88-116 | storing a payload of the usable size gives a file of exactly the physical size exactly if the 32-bit ciphertext size does not wrap |
| `BlockStack.FileSizeWraps` | src/cpp-utils/crypto/symmetric/AEAD_Cipher.h:21-23 | at 4 GiB and 16 bytes the file has 16 bytes |
| `BlockStack.Low32IsModulo` | src/cpp-utils/crypto/symmetric/AEAD_Cipher.h:21-27 | sizes are taken modulo 2^32 |

## Left out

- Weak memory: atomics are sequentially consistent, and the 32-bit reader counters of `LeftRight` do not overflow (fewer than 2^31 readers at once).
- Liveness: `LeftRightProofs.WaitOnlyDrains` shows that a waiting writer only sees readers leave, not that they do leave; nothing is claimed about a `ParallelAccessStore::remove` by key that waits for a promise nobody fulfils.
- Ciphers, key derivation, hashing and random numbers: encryption is a pair of functions where decryption inverts encryption with a fixed overhead; the initialisation vector is a parameter.
- Blocks that are shorter than the header the source reads: it reads past their end, so `Readable` and `Decryptable` exclude them.
- Big-endian hosts: integers are written in host order, and the model is little-endian.
- `Cache.h`: which entry is evicted, and when, is arbitrary; operations on one id are serialised by its caller as in the source. Its queue, timers and locks are not modelled.
- A crash before the state file is saved: a restart reads what the destructor wrote.
- Refusing to start after an earlier violation was recorded: the flag is part of the state and the file, the exception in the constructor is not modelled.
- `EncryptedBlockStore2` and `OnDiskBlockStore2` as objects: their operations forward to the store below, so only their formats and sizes are modelled, on values; directories and free space are not.
- `SharedBlocks.ParallelAccessStore.TryCreate`: one call without interruption; the interleavings of its three sections are in the machine (`CreateCheck`, `CreateStore`, `CreateAdd`) and in `SharedBlocksProofs.RefinesIffDisciplined`.
- `CachingStore.CachingBlockStore.TryCreate`: one call without interruption; evictions between its halves are in the machine (`Begin`, `End`) and in `CachingStore.RefinesIffOrderly`.
- `CachingStore.CachingBlockStore.NumBlocks`: one call without interruption; evictions between its two reads are in `CachingStore.TornCountIff`. The same holds of `CachingStore.CachingBlockStore.ForEachBlock`.
- `SharedBlocksProofs.HandlesConsistent`: in the runs there are fewer than 2^32 handles to one block, so the 32-bit reference count does not wrap around.
- `SharedBlocks.LowToHighLevelBlock.Write`: offset plus length does not wrap around 64 bits. In `ParallelAccessStore` the open blocks are values with an identity, so aliasing between handles is through that identity.
- `OpenFiles.FuseOpenFileList.Open`: fewer than 2^31 files are opened, because beyond that the increment of the signed counter is undefined. The 64-bit count of callbacks does not overflow.
- `StateFile.SaveStateFile`: that the file loads back is stated for table sizes that fit 64 bits.
- What the cipher does to bytes when a size wraps around: only the sizes of its results are modelled there.
- `loadOrAdd` with other callbacks than those of `overwrite`; reading of sized and tail data in the serializer: they would only add easy members.
- Data trees, blobs, directories, the file system, FUSE, command line, configuration, compression and platform code.
