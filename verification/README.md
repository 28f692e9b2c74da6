# yabiir in Dafny

yabiir is a Bitcask store: append-only data files, a keydir in memory that maps
each key to where its newest value lies, recovery by scanning the files, a merge
that copies live entries forward while the store stays in use, and a group
commit that lets writers share an fsync. This project models that store and
proves what it promises.

## How the model is laid out

**Bytes and scans.** `Bytes` (little-endian integers, the running checksum), `Crc32`,
`Format`, `EntryFormat`, `HintFormat` (the two record formats, written and read),
`Reader` (reading from a stream that may return short reads), `Scan` (what a scan
of any byte string finds), `FileNames`.

**The store, as one caller uses it.** `Index` (the keydir), `Recovery` (the scan
loops and what they compute), `DiskState` (what a directory means), `Files`
(written and flushed bytes, what a process crash may leave, the active file),
`LogFacts` (appending to, and crashing while appending to, the newest file),
`MergeFacts` and `MergeSteps` (why outputs that only repeat what the inputs say
are harmless), `MergeWriter`, `MergeCopy`, `MergeRun` (the merge itself, loop by
loop), `EngineFacts` and `Engine` (open, get, put, delete, list, fold, merge, and
whole runs of them), `Sessions` (many such runs, each ended by a crash). Files, the
keydir, the id counter, the active file, the merge output writer, the pending queue
and the engine are classes whose methods change their fields, as in the source. The directory keeps, for the proofs only,
the history of every state it went through, so that a crash between any two
file operations can be spoken of.

**The concurrent protocols, as step machines.** `GroupCommit` holds the critical
sections of the coordinator; `CommitProtocol` interleaves them with appends,
rotations, merge's rotation, explicit syncs and failing fsyncs, and `CommitOutcome` says
what each call of `commit` comes to. `MergeProtocol`
interleaves one merge at a time with any number of puts, deletes and gets at the
granularity of the source's locks. `MergeSession` opens a session on any directory and
closes it by a crash; a run is any number of such sessions. `MergeInterleavings`
states what holds in every run, `MergeOperations` what one put, delete, get or merge
comes to whatever is interleaved with it, `MergeGuard` when a merge may start, `MergeRecovery`
what a crash in the middle of concurrent work leaves, `MergeExact` that its condition
cannot be weakened, and `MergeGap` where the documented gap lies. These machines work
on records with sizes, and files rotate when they reach the size limit the session was
opened with. `RecordBytes` ties the records to the bytes of the data files, and
`PowerLoss` ties group commit to what recovery finds after a power loss.

The checksum is a parameter: an initial state, a step per byte and a final map.
No theorem assumes that two byte strings have different checksums. That damage to a
single byte is always detected is proved for every checksum that forgets nothing from
step to step, and CRC-32 (section 8 of RFC 1952) is proved to be one.

The central invariant of the sequential store is `StoreOk` in `MergeRun`:
everything is flushed, recovering what is on disk gives exactly the live keydir,
pointer for pointer, and the active file is the newest file, whole and without a
hint file. Recovery goes by file id; merge writes files with ids above the old
active file, so ids no longer follow time. The proof that this does no harm is in
`MergeFacts`: a directory with files of copies on top, and any number of inputs
gone from the bottom, presents the same store.

## Main results

* Any run of put, delete, get, reopen and merge answers as a plain map would, and
  a process crash at any moment of it leaves the map before or after the operation
  in progress (`Engine.Run`); so it goes on through any number of sessions
  (`Sessions.SessionsKeepPrefixes`). The store keeps a put if and only if its sizes
  fit in an entry's header (`Engine.Perform`).
* A merge reads the same before and after, recovers pointer for pointer, is
  crash-safe at every file operation, and compacts exactly (`MergeRun.Merge`).
* Every entry or hint file with one byte changed is recognised as damaged, the two size
  fields of an entry excepted, and the damage costs that one entry and nothing else
  (`Scan.OneBadByteIsLocal`, `HintFormat.OneBadHintByte`).
* In every interleaving with one merge, from the opening of any directory and through
  any crashes, no merge step changes what any key maps to, nothing dangles, and a
  successful get returns what was current at its lookup (`MergeInterleavings`); the
  condition on starting a merge that this needs is exact (`MergeGuard.GuardIsExact`).
  A get fails only if its file is removed between its lookup and its fetch, what a put
  or a delete has done is what every later get sees, and a merge takes away exactly its
  inputs (`MergeOperations`).
* A crash at any moment of such a run, followed by a reopen, brings back the live map,
  provided no write is overtaken by a copy that a merge makes of an older value
  (`MergeRecovery.QuietReopensLive`). This condition too is exact: any step that breaks
  it, a put, a delete or the start of a merge, has a continuation that loses the write
  (`MergeExact.CleanIsExact`, `MergeExact.UncleanIsLost`). All of this holds of the bytes:
  what a crash leaves of the files, cut anywhere, reads as the records say
  (`RecordBytes.QuietReopensBytes`).
* `commit` returns Ok if and only if no step of the call's own failed, and then only for
  a write that a successful fsync of its own file, begun after it, has covered
  (`CommitOutcome.AnswerIsExact`, `CommitOutcome.CoveredIsSynced`); no wakeup is lost; two
  rounds always suffice, and one round serves exactly those who had recorded before it was
  decided on (`CommitProtocol`). A power loss that keeps
  only what was synced, and any prefix of each file beyond it, leaves the store after the
  first so many writes, every one answered Ok among them
  (`PowerLoss.PowerLossKeepsPrefix`, `PowerLoss.OkSurvivesPowerLoss`).
* A hint file closed by merge always verifies and stands for exactly the scan of
  its data file (`DiskState.ClosedHintIsScan`).

## Where the code and its documentation differ

* The module comment of `src/commit.rs` (lines 18-21) says that an fsync found in
  flight started after the waiting thread's append and will cover it. It need not:
  in the run of `CommitProtocol.InFlightMayNotCover` the thread appends while the
  leader's fsync is running. `RoundServesExactly` says whom a round serves, and the
  loop around the wait makes the result right all the same (`OkMeansDurable`,
  `TwoRoundsSuffice`).
* `put` releases the active-file lock before it inserts into the keydir
  (`src/engine.rs:270-281`). A merge that starts in this gap, with the record in a
  file that has been rotated out, removes that file and leaves the later insert
  pointing nowhere. `MergeGuard` proves that this is the only way to get there.
* `src/merge/mod.rs:25-37` describes a gap for keys written while a merge copies
  them. `MergeGap.GapIsReal` is such a run, in which no crash is needed; `MergeExact`
  says exactly which writes fall into the gap, deletes included.
* `encode_entry` relies on its caller to bound the key length, and the engine does
  not. `EntryFormat.EntryRoundTripExactly` says for which sizes an entry can be read
  back, and `Engine.Engine.Put` that exactly those puts are kept.

## Model

| member | source | states |
|---|---|---|
| `Bytes.Checksum.FeedAppend` | src/merge/output_writer.rs:86-93 | A hasher fed in two updates ends where one update of the concatenation ends, for every checksum. |
| `Bytes.LittleEndian` | src/format/mod.rs:8 | The i-th byte of an integer counts 256 to the i: the least significant byte comes first. |
| `Bytes.Checksum.FeedSnoc` | src/format/entry.rs:92-94 | Every byte is fed, in order, through one step each. |
| `Bytes.Checksum.OneByteShows` | src/format/entry.rs:134-140 | If no step of the checksum forgets anything, changing any one byte changes it. |
| `Crc32.Crc32Injective` | src/format/entry.rs:134-140 | CRC-32 forgets nothing. |
| `Crc32.KnownHash` | src/format/entry.rs:92-94 | The CRC-32 of the byte 255 is the known one. |
| `Crc32.KnownStep` | src/format/entry.rs:92-94 | A single bit becomes CRC-32's polynomial when it is shifted out. |
| `Format.KeySizeBijection` | src/format/mod.rs:78-89 | Unpacking gives a 31-bit length and a flag that pack back to the same word, and no other pair does. |
| `Format.KeySizeRoundTrip` | src/format/mod.rs:58-84 | A length and a flag survive packing if and only if the length is at most `MAX_KEY_LEN`. |
| `EntryFormat.EncodeEntry` | src/format/entry.rs:81-99 | Filling the buffer and then patching the checksum in gives the bytes of the format, sizes cut to 32 bits as the casts do. |
| `EntryFormat.ReadEntryExtends` | src/format/entry.rs:169-197 | What a complete entry reads as does not depend on what follows it. |
| `EntryFormat.ReadEntryCut` | src/format/entry.rs:142-197 | A file cut at any byte reads as a clean end, as torn, or as the same entry, according to where the cut is. |
| `EntryFormat.EntryRoundTrip` | src/format/entry.rs:81-197 | Encoding and then reading, with any suffix behind, gives the same header, key and value and stops at the suffix. |
| `EntryFormat.EntryRoundTripExactly` | src/format/entry.rs:74-83 | Reading back returns the key and value that were encoded if and only if their sizes fit in the header fields. |
| `EntryFormat.EntryLayout` | src/format/mod.rs:8-18 | Each field of an encoded entry is where the layout says, and the checksum is that of all bytes behind it. |
| `EntryFormat.OneBadByte` | src/format/entry.rs:134-197 | One byte of an intact entry changed, anywhere but in its two size fields, and it reads as corrupt, at its full length. |
| `HintFormat.HintLayout` | src/format/mod.rs:27-36 | Each field of a hint record is where the layout says. |
| `HintFormat.OneBadHintByte` | src/format/hint.rs:150-171 | One byte changed anywhere in a hint file that verifies, trailer included, and it no longer does. |
| `HintFormat.HintRoundTrip` | src/format/hint.rs:61-148 | A hint record followed by any suffix reads back to itself. |
| `HintFormat.ReadHintCut` | src/format/hint.rs:128-148 | A record cut at any byte after its first reads as torn. |
| `HintFormat.ParseStream` | src/recovery.rs:144-174 | Records written one after the other are read back, all of them and in order. |
| `HintFormat.ParseCutStream` | src/recovery.rs:144-174 | If a cut stream reads without a torn record at all, it reads to a prefix of what was written. |
| `HintFormat.ClosedHintVerifies` | src/format/hint.rs:150-171 | Content followed by its checksum verifies, and yields exactly that content. |
| `Reader.ByteSource.Read` | src/format/mod.rs:91-95 | One read call may return any number of bytes up to what was asked for, and none only at the end of the file. |
| `Reader.ReadUpTo` | src/format/mod.rs:96-105 | Under every schedule of short reads the buffer is filled unless the file ends, and the cursor has moved by exactly what was read. |
| `Reader.ReadEntryFrom` | src/format/entry.rs:169-197 | Under every schedule of short reads, reading an entry finds what the bytes say and leaves the cursor just behind it. |
| `Reader.ReadHintFrom` | src/format/hint.rs:128-148 | The same for a hint record. |
| `Scan.ParseAppend` | src/recovery.rs:86-116 | Appending behind a file without a torn tail appends to what a scan finds. |
| `Scan.ParseOne` | src/format/entry.rs:81-99 | One encoded entry scans to exactly that entry. |
| `Scan.ParseCut` | src/recovery.rs:79-116 | For any bytes and any cut, the scan finds exactly the entries that end at or before the cut. |
| `Scan.ParseBounds` | src/recovery.rs:86-116 | For any bytes, each entry found lies inside the file and its value is the bytes at the position the scan computes. |
| `Scan.ParseOrdered` | src/recovery.rs:86-116 | For any bytes, the entries found come in file order and do not overlap. |
| `Scan.CorruptionIsLocal` | src/recovery.rs:84-116 | Damaging one entry anywhere but in its size fields, so that its checksum fails, loses that entry and nothing else. |
| `Scan.OneBadByteIsLocal` | src/recovery.rs:84-116 | One byte of an entry changed, its size fields excepted, costs a scan that entry and nothing else. |
| `FileNames.NamesRoundTrip` | src/datafile.rs:198-254 | A name parses to an id if and only if it is that id's data file name; hint file names parse to none. |
| `FileNames.NameOrderIsIdOrder` | src/datafile.rs:198-200 | Data file names compare character by character exactly as their ids compare as numbers. |
| `Index.Keydir.Insert` | src/keydir.rs:63-74 | Overwrites the key's entry and touches no other key. |
| `Index.Keydir.Remove` | src/keydir.rs:76-79 | Removes the key only, and returns what it pointed at. |
| `Index.Keydir.CasRepoint` | src/keydir.rs:97-114 | Succeeds if and only if the key still points at exactly the expected entry; otherwise nothing changes. |
| `Index.Keydir.Snapshot` | src/keydir.rs:172-184 | Every key with its entry, each exactly once. |
| `Recovery.ScanDataFile` | src/recovery.rs:86-116 | The loop applies exactly the intact entries of the file, in order; its running position is the reader's cursor throughout. |
| `Recovery.ApplyEntry` | src/recovery.rs:51-77 | A tombstone removes its key; any other entry repoints its key at the value's position. |
| `Recovery.CollectHints` | src/recovery.rs:142-174 | All records, or nothing as soon as one is torn or reaches past the data file, with the saturating addition. |
| `Recovery.TryScanHintFile` | src/recovery.rs:118-200 | The hint file is applied wholly if every check passes, and leaves the keydir untouched otherwise. |
| `Recovery.Discover` | src/datafile.rs:178-196 | Every data file id, ascending. |
| `Recovery.Recover` | src/recovery.rs:34-49 | For any bytes in any files it ends, and leaves the fold of each file's hint or scan in ascending id order. |
| `Recovery.RecoverIsFind` | src/recovery.rs:34-77 | Scanning upwards and overwriting is the same as searching downwards for the newest file that mentions the key: last write wins. |
| `DiskState.RecoveredPoints` | src/recovery.rs:34-77 | After opening a directory whose hint files are truthful, every pointer leads to an intact live entry of its own key. |
| `DiskState.RecoveredInBounds` | src/recovery.rs:142-174 | Whatever bytes the data and hint files hold, every recovered pointer can be read. |
| `DiskState.HonestCut` | src/merge/output_writer.rs:155-167 | Cutting an output and its hint file at any bytes leaves a hint file that is either not trusted or truthful, even if its last four bytes match by accident. |
| `DiskState.ClosedHintIsScan` | src/recovery.rs:118-200 | A hint file closed by the merge writer passes every check and contributes exactly what a full scan of its data file would. |
| `DiskState.HintSparesScan` | src/recovery.rs:118-200 | A hint file that is trusted stands in for its data file: whatever bytes of the same length the data file holds, recovery yields the same. |
| `Files.DataOperations` | src/datafile.rs:67-133 | What is appended to a data file comes behind what is there and reaches the disk only with a flush; each operation leaves every other file alone. |
| `Files.HintOperations` | src/merge/output_writer.rs:56-100 | The same of hint files, which start out empty when they are created. |
| `Files.CutsExactly` | src/datafile.rs:78-90 | A process crash may cut a file at any byte it has not flushed, and nowhere else. |
| `Files.FlushedImage` | src/datafile.rs:78-90 | When every write has been flushed, a process crash leaves exactly what is there. |
| `Files.ActiveFile.constructor` | src/datafile.rs:35-57 | Opening creates the file if it is missing and takes its offset from the file's length. |
| `Files.ActiveFile.AppendBuffered` | src/datafile.rs:63-102 | Extends the written bytes, flushes nothing, and returns where the value lies. |
| `Files.ActiveFile.Append` | src/datafile.rs:78-90 | The entry is written and then flushed; the value lies at the end of it. |
| `LogFacts.AppendRecovers` | src/engine.rs:103-110 | Appending one whole entry to the active file changes what recovery yields by exactly that put or delete. |
| `LogFacts.TornAppend` | src/recovery.rs:79-104 | An append cut short at any byte recovers as if it had not begun. |
| `LogFacts.CrashIsPrefix` | src/recovery.rs:79-116 | Cutting the newest file at any byte recovers the state after its first m records, which include every record that ends before the cut. |
| `LogFacts.FreshActive` | src/engine.rs:214-226 | Starting a new highest file changes nothing recovery sees. |
| `MergeFacts.OverlayKey` | src/merge/mod.rs:6-24 | With inputs gone from the bottom and files of copies on top, a key recovers to the old pointer or to a copy that reads the same; no other key appears. |
| `MergeFacts.OverlayView` | src/merge/mod.rs:6-24 | Such a directory presents the same store, although file ids no longer follow time. |
| `MergeFacts.WritingIsCrashSafe` | src/merge/mod.rs:148-172 | A process crash at any moment of the copying, torn outputs and hint files without trailer included, opens to the store before the merge. |
| `MergeSteps.AppendRecord` | src/merge/output_writer.rs:86-93 | Writing the hint record keeps one record per entry in the output and keeps a crash harmless. |
| `MergeSteps.RemovingIsCrashSafe` | src/merge/mod.rs:270-281 | A crash after any number of inputs were removed, lowest id first, loses nothing and brings nothing deleted back. |
| `MergeSteps.RemovedRecovers` | src/merge/mod.rs:160-176 | Recovering what merge leaves gives the old keydir with each copied key repointed at its copy, pointer for pointer. |
| `MergeWriter.PendingQueue.Queue` | src/merge/pending_queue.rs:14-43 | The repoint goes from where the scan found the entry to where the writer put it, and joins the end of the queue. |
| `MergeWriter.PendingQueue.Drain` | src/merge/pending_queue.rs:51-57 | Returns everything queued, in order, and leaves the queue empty. |
| `MergeWriter.OpenOutput` | src/merge/output_writer.rs:56-67 | Claims an id nobody else has, creates the data file and then the hint file, and is crash-safe in between. |
| `MergeWriter.MergeOutputWriter.WriteLiveEntry` | src/merge/output_writer.rs:74-100 | The entry is the last one of the output, at the position returned; the count since the last flush stays below a batch; it rotates exactly when the file has reached its maximum size and flushes exactly when it rotates or a batch is full, and reports whether it did. |
| `MergeWriter.MergeOutputWriter.AppendHintRecord` | src/merge/output_writer.rs:86-93 | The running checksum is that of the whole record stream so far. |
| `MergeWriter.MergeOutputWriter.RotateOrFlush` | src/merge/output_writer.rs:102-134 | Rotates if and only if the file has reached its maximum size, flushes if and only if it rotates or a batch is full, and otherwise leaves everything as it was. |
| `MergeWriter.MergeOutputWriter.CloseCurrent` | src/merge/output_writer.rs:136-167 | Leaves a flushed data file and a flushed hint file with one record per entry and the checksum of all of them. |
| `MergeWriter.MergeOutputWriter.Rotate` | src/merge/output_writer.rs:136-146 | Finishes the current output and starts an empty one with a fresh id. |
| `MergeWriter.MergeOutputWriter.Finish` | src/merge/output_writer.rs:148-153 | Every output is closed and flushed. |
| `MergeCopy.ReadAllEntries` | src/merge/mod.rs:369-405 | Merge's scan finds what recovery's scan finds: the intact entries with their offsets, tombstones included. |
| `MergeCopy.LivenessIsExact` | src/merge/mod.rs:297-310 | Comparing file id and value position picks exactly the entries that are live in the store and have not been copied yet. |
| `MergeCopy.ApplyPendingRepoints` | src/merge/mod.rs:354-367 | Drains the whole queue, one compare-and-swap per item, in order. |
| `MergeCopy.DrainProgress` | src/merge/mod.rs:354-367 | With no other writer every compare-and-swap of a drain succeeds, and every key goes on reading the same value from flushed bytes. |
| `MergeCopy.CopyLiveEntry` | src/merge/mod.rs:312-327 | Between entries the queue holds what was written since the last flush, drained depths and queue add up to the entries copied, and every key reads the same value from flushed bytes. |
| `MergeCopy.CopyForwardLiveFileEntries` | src/merge/mod.rs:284-331 | After a file, exactly the keys that live in it or in an older one have been copied, once each. |
| `MergeRun.CollectInputIds` | src/merge/mod.rs:337-352 | Every data file id below the active one, ascending. |
| `MergeRun.FinishAndApplyPendingRepoints` | src/merge/mod.rs:186-204 | All outputs are closed, the queue is empty, the depths add up to the entries copied, and every copied key points at its copy. |
| `MergeRun.RemoveOldInputFiles` | src/merge/mod.rs:270-281 | Every input is gone, data file and hint file; every other file is as it was; and the directory survived a crash at each removal. |
| `MergeRun.RestoreActiveFile` | src/merge/mod.rs:206-231 | One new empty file is all that is added; it is newer than every merge output, so the store's invariant holds. |
| `MergeRun.Merge` | src/merge/mod.rs:132-181 | The live keydir reads the same before and after; recovery gives it pointer for pointer; every moment in between is crash-safe; the outputs hold exactly one live entry, unchanged, for each key that lay in an input, and the count reported is theirs; the drained depths add up to it; no input is left, nor any hint file of one. |
| `EngineFacts.AppendStore` | src/engine.rs:90-134 | A completed append leaves a store whose keydir and view differ by exactly this put or delete. |
| `EngineFacts.AppendCrash` | src/engine.rs:90-134 | A crash in the middle of an append leaves the store before it or the store after it. |
| `EngineFacts.RotateStore` | src/engine.rs:110-116 | Rotation claims the next id for an empty file and changes neither the keydir nor what any key reads as. |
| `Engine.Engine.Open` | src/engine.rs:193-247 | Any directory opens: the keydir is what recovery finds, and one empty active file is added with the id above everything on disk. The result is a valid store if and only if the trusted hint files are truthful and none bears an id still to be handed out. |
| `Engine.Engine.Get` | src/engine.rs:249-261 | Answers with the value the key reads as, or that there is none; it fails only if the keydir points past a file, which never happens in a valid store. |
| `Engine.Engine.Append` | src/engine.rs:90-134 | For any sizes, writes exactly this entry, flushed, and rotates if and only if the file has reached its maximum size. If the sizes fit, recovery would now yield the keydir with this record applied, and a crash at each step leaves the store before or after. |
| `Engine.Engine.Put` | src/engine.rs:263-285 | Appends exactly one entry, with these fields. Sets this key to this value and timestamp and changes no other, if the sizes fit in an entry; the key has the value both now and after a reopen if and only if they fit. An empty key is refused and changes nothing. |
| `Engine.LosesOversize` | src/format/entry.rs:74-83 | A value too long for its size field is cut when read, and a key too long is never recovered, whatever the directory holds. |
| `Engine.Engine.Delete` | src/engine.rs:287-310 | Removes this key and changes no other, appending exactly one tombstone of it, without a value; deleting an absent key writes nothing; an empty key is refused. |
| `Engine.Engine.ListKeys` | src/engine.rs:312-319 | Every key of the store, once. |
| `Engine.Engine.Fold` | src/engine.rs:321-331 | Folds over every pair of the store, each exactly once. |
| `Engine.Engine.Merge` | src/engine.rs:333-357 | Keeps the view, compacts exactly, is crash-safe throughout, and does nothing when there is no older file. |
| `Engine.Reopenable` | src/engine.rs:193-247 | At any time between operations, recovering what is on disk gives the live keydir and the same view. |
| `Engine.Perform` | src/engine.rs:193-357 | Each operation answers as a plain map does; a get changes nothing, a reopen starts over from what is on disk, a merge compacts. If what is put fits in an entry, a crash at any moment leaves the map before or after; and the store holds the new map, now and after a reopen, if and only if it fits. |
| `Engine.Run` | tests/model.rs:97-158 | Every run of put, delete, get, reopen and merge gives the answers and the contents of a plain map: each get finds the value of the last put of its key that no delete follows, or the one the store started with; a crash at any moment of the i-th operation leaves the map of the first i operations or of the first i + 1. It goes up to the first put that does not fit in an entry, if there is one. |
| `Sessions.CrashKeepsPrefix` | docs/ROADMAP.md:27-29 | After a crash in any state of a run the directory opens, with the map of a prefix of the operations that contains every one complete by then. |
| `Sessions.SessionsKeepPrefixes` | docs/ROADMAP.md:27-29 | Through any number of sessions, each opened on what the crash of the one before has left, the store is the plain map of a prefix of each one's operations, in order. |
| `GroupCommit.GroupCommit.RecordPending` | src/commit.rs:75-86 | Hands out the next generation, which is not durable yet. |
| `GroupCommit.GroupCommit.MarkAllDurable` | src/commit.rs:88-101 | Every generation recorded so far counts as durable, and what was durable stays so. |
| `GroupCommit.GroupCommit.TryCommit` | src/commit.rs:116-122 | With the mutex held a thread is done exactly if its generation is durable, becomes the only leader, of a round that covers what is pending now, or waits for a leader. |
| `GroupCommit.GroupCommit.AfterFsync` | src/commit.rs:124-138 | What was durable stays so; a successful round makes what it covers durable, a failed one changes nothing; there is no leader any more. |
| `GroupCommit.GroupCommit.CommitUndisturbed` | src/commit.rs:107-148 | The loop of a thread nobody disturbs does one fsync if its generation is not durable and none if it is, and fails only if that fsync does. |
| `CommitProtocol.StepInv` | src/commit.rs:107-148 | Every step of every thread keeps the invariant, failed fsyncs and rotations included. |
| `CommitProtocol.OkMeansDurable` | src/commit.rs:103-148 | `commit` returns Ok only if an fsync of the caller's own file, begun after its append, has covered it; so it is for every generation counted durable and everything in files rotated out. |
| `CommitProtocol.NoLostWakeup` | src/commit.rs:133-145 | A thread asleep on the condition variable has a leader at work. |
| `CommitProtocol.TwoRoundsSuffice` | src/commit.rs:116-147 | Two successful rounds after its arrival make any generation durable, even if the one in flight does not cover it. |
| `CommitProtocol.RoundServesExactly` | src/commit.rs:120-139 | A successful round makes a generation durable if and only if it was durable already or had been recorded when the round was decided on. |
| `CommitProtocol.FsyncsAreShared` | src/commit.rs:120-139 | Successive rounds cover strictly more, so there are never more successful fsyncs than durable generations, nor those than writes. |
| `CommitProtocol.CountersGrow` | src/commit.rs:79-101 | No step lowers a counter, and what is durable never exceeds what is pending. |
| `CommitProtocol.NoDeadlock` | src/commit.rs:107-148 | While some thread is at work, some thread can carry on. |
| `CommitOutcome.DecideExactly` | src/commit.rs:116-145 | With the mutex held a call is over with Ok exactly if its generation is durable; it becomes the only leader, of a round that covers all that is pending, exactly if there is none; else it sleeps. |
| `CommitOutcome.AnswerIsExact` | src/commit.rs:103-148 | A call answers Ok if and only if no sync step of its own failed. What it answers for is the write it recorded itself, and after Ok a successful sync of that write's file, begun after the write, has ended. |
| `CommitOutcome.CoveredIsSynced` | src/commit.rs:120-139 | A write is covered if and only if some successful sync of its file that was begun after it has ended. |
| `CommitOutcome.MarkExactly` | src/commit.rs:88-101 | After a rotation every write so far counts as durable and nobody sleeps. |
| `CommitOutcome.SyncExactly` | src/engine.rs:359-370 | A sync made under the lock leaves no write uncovered. |
| `CommitOutcome.NewFileExactly` | src/engine.rs:103-116 | After a rotation nothing has been written to the current file, and the lock is free. |
| `PowerLoss.PowerLossKeepsPrefix` | docs/ROADMAP.md:29-32 | Whatever a power loss leaves in any state of any run, as long as it has the synced bytes, opens to the store after the first so many writes, in the order of the appends; every write answered Ok, and every generation counted durable, is among them. |
| `PowerLoss.OkSurvivesPowerLoss` | docs/ROADMAP.md:29-32 | If a call has answered Ok, then after a power loss the key it wrote reads as that call's own write left it, or as a later write of the key did. |
| `CommitProtocol.InFlightMayNotCover` | src/commit.rs:18-21 | A run in which a thread appends and waits while the leader's fsync, begun before, is running; neither the fsync nor the round covers it. |
| `MergeProtocol.StepInv` | src/merge/mod.rs:284-367 | Every step of puts, deletes, gets and one merge keeps the protocol's invariant, if merges start under the guard. |
| `MergeSession.ScanLast` | src/recovery.rs:34-77 | Scanning files in ascending order leaves each key at the last record there is of it, or absent if that is a tombstone or there is none. |
| `MergeSession.OpenedInv` | src/engine.rs:193-247 | Opening any directory, with the keydir its scan yields, establishes the protocol's invariant. |
| `MergeSession.ReopenedIsOpened` | src/engine.rs:214-226 | What a crash at any moment leaves is again the start of a session. |
| `MergeInterleavings.StepView` | src/merge/mod.rs:284-331 | Only a put's insert and a delete's removal change what any key maps to; no step of a merge does. |
| `MergeInterleavings.NothingDangles` | src/merge/mod.rs:270-281 | In every run of any number of sessions, every pointer leads to a flushed live record of its own key in a file that is still there. |
| `MergeInterleavings.RemovalIsSafe` | src/merge/mod.rs:270-281 | When merge starts removing, neither a pointer nor a put still under way refers to an input. |
| `MergeInterleavings.CasIsExact` | src/keydir.rs:97-114 | A compare-and-swap succeeds if and only if no put or delete has touched the key since merge saw it live. |
| `MergeInterleavings.PublishedOnce` | src/keydir.rs:97-114 | Within a session each location becomes the pointer of a key at most once, and of one key only. |
| `MergeInterleavings.GetIsCorrect` | src/datafile.rs:206-226 | A get that succeeds returns the value that was current at its lookup, whatever is moved, removed or evicted in between. |
| `MergeInterleavings.LookupSeesView` | src/engine.rs:249-261 | What a get sees at its lookup is the key's value at that moment. |
| `MergeInterleavings.BatchesAreSafe` | src/merge/mod.rs:39-60 | Between entries the queue is what was written since the last flush and below a batch; while it drains, everything it publishes is flushed. |
| `MergeInterleavings.ActiveIsNewest` | src/merge/mod.rs:206-231 | When merge returns, the active file is newer than each of its outputs, and than every file in the directory. |
| `MergeInterleavings.IdsAreFresh` | src/engine.rs:110-114 | A step creates at most the file the counter names, which is newer than every file there ever was. |
| `MergeOperations.LookupExactly` | src/engine.rs:249-261 | A lookup finds the key's value if it has one, and otherwise that there is none. |
| `MergeOperations.FetchExactly` | src/datafile.rs:206-226 | Fetching the handle fails if and only if the file is neither cached nor in the directory any more; what is opened is cached. |
| `MergeOperations.ReadExactly` | src/datafile.rs:206-226 | With the handle in hand a get cannot fail, even if its file has been removed since. |
| `MergeOperations.GetSucceeds` | src/engine.rs:249-261 | In every run, a get with no input removed between its lookup and its fetch ends with the value the key had at the lookup. |
| `MergeOperations.PutAppendExactly` | src/engine.rs:90-134 | A put's append adds its record, flushed, and nothing else, and begins a new active file if and only if the record has filled the old one. |
| `MergeOperations.PutIsSeen` | src/engine.rs:263-285 | In every run, once a put has inserted, its key has its value and no other key has changed. |
| `MergeOperations.DelCheckExactly` | src/engine.rs:287-302 | A delete of a key that is not there is over and has changed nothing; of one that is there it goes on. |
| `MergeOperations.DelAppendExactly` | src/engine.rs:303-304 | It adds a tombstone of that key, flushed, and nothing else. |
| `MergeOperations.DeleteIsSeen` | src/engine.rs:287-310 | In every run, a delete that found its key ends with that key gone and no other changed. |
| `MergeOperations.DeleteIsNewest` | src/engine.rs:287-310 | Its tombstone is then the newest record of the key, unless a record of the key was above the active file or one was added in between. |
| `MergeOperations.SettleExactly` | src/merge/output_writer.rs:102-134 | After a copy the output is rotated if and only if it is full, and flushed and drained if and only if it is full or a batch is queued. |
| `MergeOperations.RestoreExactly` | src/merge/mod.rs:206-231 | The last step starts a new active file if and only if some output is newer than the active one, and changes nothing otherwise. |
| `MergeOperations.ScanInOrder` | src/merge/mod.rs:251-267 | Inputs are gone through in the order of the files and of the records in each. |
| `MergeOperations.MergeRemovesInputs` | src/merge/mod.rs:270-281 | In every run, a merge that has ended has removed exactly the files below its bound, and left no handle of them cached. |
| `MergeOperations.FilesStayWithinLimit` | src/engine.rs:103-115 | In every run, no record is ever added to a file that is full. |
| `MergeOperations.GetsGoOn` | src/datafile.rs:200-226 | The next step of a get never waits for anybody. |
| `MergeOperations.WritesGoOn` | src/engine.rs:263-310 | Nor does that of a put or a delete; no merge holds them up between its own steps. |
| `MergeOperations.MergeCanStart` | src/merge/mod.rs:337-352 | A merge can start whenever none is on and some file is older than the active one. |
| `MergeGuard.UnguardedDangles` | src/engine.rs:270-281 | From any reachable state with a put between append and insert in a rotated-out file, whatever the file sizes and their limit, starting a merge has a continuation in which its key points nowhere. |
| `MergeGuard.GuardIsExact` | src/engine.rs:270-281 | Starting a merge is safe if and only if no put is between append and insert with its record in a rotated-out file. |
| `MergeRecovery.StepClean` | src/merge/mod.rs:284-367 | If no write is overtaken, every step keeps the newest record of each key, copies still to be made included, in agreement with the keydir or with the write under way. |
| `MergeRecovery.CrashRecovers` | src/merge/mod.rs:24-37 | A crash at any moment of such a run, at any cut of the unflushed output, brings back each key with no write under way as it was; a write whose record is in the log counts as done. |
| `MergeRecovery.QuietReopensLive` | src/merge/mod.rs:6-24 | With no write between log and keydir, a crash and a reopen give exactly the live map, in the middle of a merge too. |
| `MergeRecovery.QueuedCopiesAreHarmless` | src/merge/mod.rs:354-367 | A copy that waits for its compare-and-swap is no newer than its key's pointer or says the same, so that losing it loses nothing. |
| `MergeExact.UncleanIsLost` | src/merge/mod.rs:24-37 | From any state of such a run, take a put or delete that has a copy of an older value above it, or will if the merge is left alone, outputs rotating just when they are full; or a merge that begins over one. It has a continuation that ends with the merge over, gets seeing the write, and every reopen bringing back something else. |
| `MergeExact.CleanIsExact` | src/merge/mod.rs:24-37 | Writers of one key taking turns, a step keeps every later crash harmless, in every clean continuation, if and only if no write is overtaken by it. |
| `MergeGap.GapIsReal` | src/merge/mod.rs:24-37 | A run of one writer and one merge, with a file size limit of 20 bytes, after which nothing is in flight, gets see the new value, and recovery brings back the old one. |
| `RecordBytes.RecoveredNames` | src/recovery.rs:34-77 | For any bytes in the data files, recovery points each key at the bytes of the record that the scan of the records names, and that record's value is what is read there. |
| `RecordBytes.AppendSpells` | src/datafile.rs:63-102 | Appending an entry's bytes appends its record, and the file grows by the record's size. |
| `RecordBytes.CutSpells` | src/recovery.rs:79-116 | A file cut at any byte holds exactly the records that end, by their sizes, at or before the cut. |
| `RecordBytes.BytesCutRecords` | src/recovery.rs:79-116 | What a process crash leaves of the bytes is what the concurrent model's crash leaves of the records: whole records, and all that were flushed. |
| `RecordBytes.RecordsCutBytes` | src/datafile.rs:78-102 | Conversely, each crash of the concurrent model is one that bytes can suffer. |
| `RecordBytes.CrashReadsBytes` | src/engine.rs:193-247 | Opening what a crash leaves of the bytes answers each get as the concurrent model says. |
| `RecordBytes.QuietReopensBytes` | src/merge/mod.rs:6-24 | In a run in which no write is overtaken, with none between log and keydir, whatever a crash leaves of the bytes reads as the live map did, in the middle of a merge too. |

## Left out

What the main theorems ask for, and why:

- Engine.Run: goes up to the first put that does not fit in an entry; what the store holds from there on is not followed.
- DiskState.RecoveredInBounds: data files are shorter than 2^64-1 bytes; at that length the saturating addition stops telling.
- MergeRecovery.CrashRecovers: writers of one key take turns between log and keydir. Those that overlap can reach the two in different orders, and nothing is claimed of them.
- MergeProtocol.StepInv: works on records; `RecordBytes` says what they are on disk. Sizes beyond what an entry's header can hold are in the sequential model only.
- RecordBytes.QuietReopensBytes: a hint file that is trusted is one that merge has closed. One cut short whose last four bytes match by accident is in the sequential model only (`DiskState.HonestCut`).
- PowerLoss.PowerLossKeepsPrefix: a file that has been created is not lost with its directory entry; the files of a merge and its removals are not part of it, though its rotation of the active file is.
- MergeInterleavings.GetIsCorrect: says nothing of a get that fails; `MergeOperations.FetchExactly` says when one does.
- Recovery.ScanDataFile: the warning about a torn tail in a file that is not the last is not modelled, so whether the file is the last changes nothing.

Not modelled:

- File ids are unbounded; the source's 32-bit counter wraps after 2^32 files.
- The maximum file size is at most 2^63, as file sizes are to the operating system.
- Power loss outside `PowerLoss`: everywhere else a crash is the end of the process, and flushed bytes survive it. Merge removes its inputs before it syncs the old active file, so a power loss between the two is a different question.
- `should_sync_on_put` in the sequential engine; what it promises is proved in `CommitProtocol`.
- Blocking in `commit`: waiting and waking are steps of the protocol; the class has the critical sections.
- I/O errors, and merges or appends that stop halfway with one; a failed fsync in group commit, in rotation and in merge's rotation is modelled.
- A failing `remove_file`, which the source ignores.
- Two merges at a time; nothing in the source prevents them.
- Bit rot after the keydir was built.
- The directory lock, read-only handles and readers in other processes.
- The handle cache in the sequential engine; `MergeProtocol` has it.
- Metrics other than the drained depths and the entries copied, logging, tracing, options and clock reads.
- The internals of the hash map, and how the checksum is computed fast.
- The command line tools, examples and benchmarks.
