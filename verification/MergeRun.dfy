/** A whole merge, from choosing the inputs to restoring the active file. */
module MergeRun {
  import opened Bytes
  import opened Format
  import opened Scan
  import opened Index
  import opened Recovery
  import opened DiskState
  import opened LogFacts
  import opened Files
  import opened MergeFacts
  import opened MergeSteps
  import opened MergeWriter
  import opened MergeCopy

  /** The engine's invariant: recovering what is on disk gives exactly the live
      keydir, and the active file is the newest, whole and hintless. */
  ghost predicate StoreOk(h: Checksum, fs: FileState, kd: Entries, a: nat, next: nat) {
    && fs.AllFlushed()
    && DirOk(h, fs.OnDisk()) && ActiveOk(h, fs.OnDisk(), a)
    && kd == Recovered(h, fs.OnDisk())
    && IdsBelow(fs, next)
  }

  function BaseOf(fs: FileState, kd: Entries, a: nat): Base {
    Base(fs.OnDisk(), a, kd)
  }

  /** The keys whose live entry lay in an input file. */
  function LiveInputs(b: Base): set<Key> {
    set k | k in b.kd && b.kd[k].fileId < b.active
  }

  /** The outputs hold nothing but live copies, each one where its key now points. */
  ghost predicate OnlyLiveCopies(h: Checksum, b: Base, d: Disk, kd: Entries) {
    forall o, it :: o in d.data && o > b.active && it in Parse(h, d.data[o]) ==>
      Copies(b, it.entry) && it.entry.key in LiveInputs(b) && Lookup(kd, it.entry.key) == Some(PtrTo(o, it))
  }

  /** Every key that lived in an input now points at its copy in an output. */
  ghost predicate EachCopied(h: Checksum, b: Base, d: Disk, kd: Entries) {
    forall k :: k in LiveInputs(b) ==> k in kd && kd[k].fileId > b.active && PointsAt(h, d, k, kd[k])
  }

  /** Exact compaction: the files above the old active one hold one live copy for
      each key that lived in an input, and nothing else; the inputs are gone, data files
      and hint files. */
  ghost predicate Compacted(h: Checksum, b: Base, d: Disk, kd: Entries, live: nat) {
    && live == |LiveInputs(b)|
    && (forall id :: id in d.data ==> id >= b.active)
    && (forall id :: id in d.hints && id !in d.data ==> id in b.disk.hints && id !in b.disk.data)
    && OnlyLiveCopies(h, b, d, kd) && EachCopied(h, b, d, kd)
    && (forall k :: k in b.kd && k !in LiveInputs(b) ==> Lookup(kd, k) == Some(b.kd[k]))
  }

  method CollectInputIds(dir: Directory, activeId: nat) returns (inputIds: seq<nat>)
    ensures Ascending(inputIds)
    ensures forall id :: id in inputIds <==> id in dir.fs.data && id < activeId
  {
    var all := Discover(dir.fs.OnDisk());
    inputIds := [];
    var i := 0;
    while i < |all|
      invariant 0 <= i <= |all|
      invariant Ascending(inputIds)
      invariant forall id :: id in inputIds <==> id in all[..i] && id < activeId
    {
      assert all[..i + 1] == all[..i] + [all[i]];
      if all[i] < activeId {
        assert forall j :: 0 <= j < |inputIds| ==> inputIds[j] in inputIds && inputIds[j] in all[..i];
        inputIds := inputIds + [all[i]];
      }
      i := i + 1;
    }
    assert all[..i] == all;
  }

  // --- The start --------------------------------------------------------------

  lemma StoreBase(h: Checksum, fs: FileState, kd: Entries, a: nat, next: nat)
    requires StoreOk(h, fs, kd, a, next)
    ensures BaseOk(h, BaseOf(fs, kd, a)) && Writing(h, BaseOf(fs, kd, a), fs)
    ensures a in fs.data && forall id :: id in fs.data ==> id <= a
    ensures Unchanged(BaseOf(fs, kd, a), fs, kd)
    ensures BaseOf(fs, kd, a).disk.data[a] == fs.data[a].bytes
  {
    hide Recovered, PointsAt, HintSound, Whole;
    var b := BaseOf(fs, kd, a);
    FlushedWritten(fs);
    assert fs.OnDisk().data.Keys == fs.data.Keys && fs.OnDisk().hints.Keys == fs.hints.Keys;
    forall id | id in fs.data
      ensures id <= a
    {
      assert id in fs.OnDisk().data.Keys;
    }
    forall k | k in kd
      ensures ReadAt(fs.OnDisk(), kd[k]).Content?
    {
      RecoveredPoints(h, fs.OnDisk(), k);
    }
  }

  lemma StartProgress(h: Checksum, b: Base, fs: FileState, gs: FileState, kd: Entries, c: nat)
    requires Unchanged(b, fs, kd) && kd == b.kd && c > b.active
    requires (forall id :: id in fs.data ==> id <= b.active) && gs.data == fs.data[c := EMPTY]
    ensures Progress(h, b, gs, kd, map[], []) && TopIs(gs, c)
  {
    EmptyFile(h, b);
    assert Indexed(h, b, gs.Written(), map[]) by {
      assert forall o :: o in gs.Written().data && o > b.active ==> gs.Written().data[o] == [];
    }
    forall k | k in kd
      ensures ReadAt(gs.OnDisk(), kd[k]) == ReadAt(fs.OnDisk(), kd[k])
    {
      assert ReadAt(fs.OnDisk(), kd[k]).Content?;
    }
  }

  // --- Copying ------------------------------------------------------------------

  method CopyForwardAllLiveEntries(w: MergeOutputWriter, keydir: Keydir, pending: PendingQueue, metrics: Metrics,
                                   inputIds: seq<nat>, highest: nat)
    returns (live: nat, highest': nat, ghost copied: Entries)
    requires Running(w, keydir.entries, pending.items, metrics.depths, map[], 0, highest)
    requires Ascending(inputIds) && forall id :: id in inputIds <==> id in w.b.disk.data && id < w.b.active
    modifies w, w.dir, w.counter, w.current, keydir, pending, metrics
    ensures Running(w, keydir.entries, pending.items, metrics.depths, copied, live, highest')
    ensures w.current == old(w.current) || fresh(w.current)
    ensures CopiedBelow(w.b, copied, w.b.active)
  {
    hide Running, CopiedBelow, BaseOk;
    live, highest', copied := 0, highest, map[];
    ghost var n := 0;
    assert CopiedBelow(w.b, copied, 0) by { NoneCopied(w.b); }
    var i := 0;
    while i < |inputIds|
      invariant 0 <= i <= |inputIds|
      invariant n == if i == 0 then 0 else inputIds[i - 1] + 1
      invariant Running(w, keydir.entries, pending.items, metrics.depths, copied, live, highest')
      invariant w.current == old(w.current) || fresh(w.current)
      invariant CopiedBelow(w.b, copied, n)
    {
      var fileId := inputIds[i];
      assert fileId in inputIds;
      GapBelow(inputIds, i, w.b.disk.data.Keys, w.b.active);
      live, highest', copied :=
        CopyForwardLiveFileEntries(w, keydir, pending, metrics, fileId, live, highest', copied, n);
      n := fileId + 1;
      i := i + 1;
    }
    RunningParts(w, keydir.entries, pending.items, metrics.depths, copied, live, highest');
    if |inputIds| > 0 {
      assert inputIds[|inputIds| - 1] in inputIds;
    }
    NothingAbove(inputIds, w.b.disk.data.Keys, w.b.active, n);
    assert n <= w.b.active;
    AllBelow(w.h, w.b, copied, n);
  }

  lemma NoneCopied(b: Base)
    ensures CopiedBelow(b, map[], 0)
  {
  }

  /** No input lies between two consecutive input ids. */
  lemma GapBelow(ids: seq<nat>, i: nat, all: set<nat>, a: nat)
    requires i < |ids| && Ascending(ids) && forall id :: id in ids <==> id in all && id < a
    ensures forall id :: (if i == 0 then 0 else ids[i - 1] + 1) <= id < ids[i] ==> id !in all
  {
    NoneBetween(ids, i);
    assert ids[i] in ids;
  }

  lemma NothingAbove(ids: seq<nat>, all: set<nat>, a: nat, n: nat)
    requires Ascending(ids) && (forall id :: id in ids <==> id in all && id < a)
    requires n == if |ids| == 0 then 0 else ids[|ids| - 1] + 1
    ensures forall id :: n <= id < a ==> id !in all
  {
  }

  lemma AllBelow(h: Checksum, b: Base, copied: Entries, n: nat)
    requires BaseOk(h, b) && CopiedBelow(b, copied, n) && n <= b.active
    requires forall id :: n <= id < b.active ==> id !in b.disk.data
    ensures CopiedBelow(b, copied, b.active)
  {
    hide BaseOk;
    forall k | k in b.kd && b.kd[k].fileId < b.active
      ensures k in copied
    {
      BasePtr(h, b, k);
    }
  }

  // --- Finishing ----------------------------------------------------------------

  lemma FinishProgress(h: Checksum, b: Base, fs: FileState, gs: FileState, kd: Entries, copied: Entries,
                       q: seq<Repoint>, c: nat)
    requires Progress(h, b, fs, kd, copied, q) && c in fs.data && gs.data == fs.FlushData(c).data
    ensures Progress(h, b, gs, kd, copied, q)
  {
    hide ParseFrom, QueueOk, KdIs;
    assert gs.Written().data == fs.Written().data;
    assert Indexed(h, b, gs.Written(), copied) by { IndexedSame(h, b, fs.Written(), gs.Written(), copied); }
    assert Extend(fs.data[c], []) == fs.data[c];
    UnchangedGrows(b, fs, gs, kd, c, [], true, c);
  }

  lemma IndexedSame(h: Checksum, b: Base, w: Disk, v: Disk, copied: Entries)
    requires Indexed(h, b, w, copied) && v.data == w.data
    ensures Indexed(h, b, v, copied)
  {
    hide ParseFrom, PtrTo, IsAt;
    forall k | k in copied
      ensures PointsAt(h, v, k, copied[k])
    {
      assert PointsAt(h, w, k, copied[k]);
    }
  }

  lemma AllClosed(h: Checksum, b: Base, fs: FileState, c: nat)
    requires Writing(h, b, fs) && OthersClosed(h, b, fs, c) && Closed(h, fs, c)
    ensures FlushedCopies(h, b, fs)
    ensures forall o :: o in fs.data && o > b.active ==> OutputOk(h, b, fs.Written(), o) && Closed(h, fs, o)
  {
    hide OnlyCopies;
    forall o | o in fs.data && o > b.active
      ensures OnlyCopies(h, b, fs.data[o].bytes) && fs.data[o].flushed == |fs.data[o].bytes|
      ensures Closed(h, fs, o)
    {
      assert OutputOk(h, b, fs.Written(), o);
      assert Closed(h, fs, o);
    }
  }

  /** Syncs the last output, closes its hint file, and applies what is left in the queue. */
  method FinishAndApplyPendingRepoints(w: MergeOutputWriter, keydir: Keydir, pending: PendingQueue, metrics: Metrics,
                                       ghost copied: Entries, ghost live: nat, ghost highest: nat)
    requires Running(w, keydir.entries, pending.items, metrics.depths, copied, live, highest)
    requires CopiedBelow(w.b, copied, w.b.active)
    modifies w.dir, keydir, pending, metrics
    ensures pending.items == [] && Sum(metrics.depths) == live
    ensures BaseOk(w.h, w.b) && Removing(w.h, w.b, w.dir.fs, copied, 0)
    ensures TraceSafe(w.h, w.b, w.dir.trace, w.start)
    ensures keydir.entries == Repointed(w.b.kd, copied)
    ensures TopIs(w.dir.fs, w.current.fileId) && IdsBelow(w.dir.fs, w.counter.next)
    ensures Unchanged(w.b, w.dir.fs, keydir.entries)
  {
    hide BaseOk, Writing, AtRest, TraceSafe, Closed, Parse, Progress, OthersClosed, FlushedCopies, Removing, Unchanged;
    ghost var fs0 := w.dir.fs;
    w.Finish();
    FinishProgress(w.h, w.b, fs0, w.dir.fs, keydir.entries, copied, pending.items, w.current.fileId);
    if |pending.items| != 0 {
      metrics.RecordPendingQueueDepth(|pending.items|);
    }
    AllClosed(w.h, w.b, w.dir.fs, w.current.fileId);
    DrainProgress(w.h, w.b, w.dir.fs, keydir.entries, copied, pending.items);
    ApplyPendingRepoints(keydir, pending);
    FinishedRemoving(w.h, w.b, w.dir.fs, keydir.entries, copied);
  }

  lemma FinishedRemoving(h: Checksum, b: Base, fs: FileState, kd: Entries, copied: Entries)
    requires Writing(h, b, fs) && Progress(h, b, fs, kd, copied, []) && CopiedBelow(b, copied, b.active)
    requires forall o :: o in fs.data && o > b.active ==> OutputOk(h, b, fs.Written(), o) && Closed(h, fs, o)
    ensures Removing(h, b, fs, copied, 0) && kd == Repointed(b.kd, copied) && Unchanged(b, fs, kd)
  {
    hide OutputOk, Indexed, ParseFrom, KdIs, QueueOk, Unchanged, Closed, OldKept, CopiedBelow;
    assert Indexed(h, b, fs.Written(), copied) && KdIs(b, copied, [], kd);
    DrainedKd(b, copied, kd);
    OldFlushed(b, fs);
    CopiedAll(b, copied);
    forall o | o > b.active
      ensures o in fs.hints ==> fs.hints[o].flushed == |fs.hints[o].bytes|
      ensures o in fs.data ==> fs.data[o].flushed == |fs.data[o].bytes|
    {
      if o in fs.data {
        ClosedFlushed(h, fs, o);
      }
    }
  }

  lemma DrainedKd(b: Base, copied: Entries, kd: Entries)
    requires KdIs(b, copied, [], kd)
    ensures kd == Repointed(b.kd, copied)
  {
  }

  lemma OldFlushed(b: Base, fs: FileState)
    requires OldKept(b, fs)
    ensures forall id :: 0 <= id <= b.active ==> SameFile(b.disk, fs.Written(), id)
    ensures forall id :: id in fs.data && id <= b.active ==> fs.data[id].flushed == |fs.data[id].bytes|
    ensures forall id :: id in fs.hints && id <= b.active ==> fs.hints[id].flushed == |fs.hints[id].bytes|
  {
    hide SameFile;
  }

  lemma CopiedAll(b: Base, copied: Entries)
    requires CopiedBelow(b, copied, b.active)
    ensures AllCopied(b, copied)
  {
  }

  lemma ClosedFlushed(h: Checksum, fs: FileState, o: nat)
    requires Closed(h, fs, o)
    ensures o in fs.data && fs.data[o].flushed == |fs.data[o].bytes|
    ensures o in fs.hints && fs.hints[o].flushed == |fs.hints[o].bytes|
  {
  }

  // --- Removing -----------------------------------------------------------------

  lemma RemoveOne(h: Checksum, b: Base, fs: FileState, copied: Entries, m: nat, id: nat)
    requires BaseOk(h, b) && Removing(h, b, fs, copied, m) && m <= id < b.active
    requires forall x :: m <= x < id ==> x !in b.disk.data
    ensures Removing(h, b, fs.RemoveData(id), copied, id + 1)
    ensures Removing(h, b, fs.RemoveData(id).RemoveHint(id), copied, id + 1)
  {
    hide OutputOk, Closed, Indexed, BaseOk;
    var gs := fs.RemoveData(id);
    var ks := gs.RemoveHint(id);
    forall x | 0 <= x < id + 1
      ensures x !in gs.data
    {
      if m <= x < id {
        assert SameFile(b.disk, fs.Written(), x);
      }
    }
    forall x | id + 1 <= x <= b.active
      ensures SameFile(b.disk, gs.Written(), x) && SameFile(b.disk, ks.Written(), x)
    {
      assert SameFile(b.disk, fs.Written(), x);
    }
    RemovedOutputs(h, b, fs, gs, copied);
    RemovedOutputs(h, b, fs, ks, copied);
  }

  /** Outputs do not notice inputs going away. */
  lemma RemovedOutputs(h: Checksum, b: Base, fs: FileState, gs: FileState, copied: Entries)
    requires forall o :: o > b.active ==>
      Lookup(fs.data, o) == Lookup(gs.data, o) && Lookup(fs.hints, o) == Lookup(gs.hints, o)
    ensures forall o :: o in gs.data && o > b.active && OutputOk(h, b, fs.Written(), o) ==>
      OutputOk(h, b, gs.Written(), o)
    ensures forall o :: o in gs.data && o > b.active && Closed(h, fs, o) ==> Closed(h, gs, o)
    ensures Indexed(h, b, fs.Written(), copied) ==> Indexed(h, b, gs.Written(), copied)
  {
    hide OnlyCopies, HonestWith, ParseFrom;
    var w, v := fs.Written(), gs.Written();
    forall o | o in gs.data && o > b.active
      ensures o in fs.data && w.data[o] == v.data[o] && (o in v.hints <==> o in w.hints)
      ensures (o in v.hints ==> v.hints[o] == w.hints[o])
      ensures OutputOk(h, b, w, o) ==> OutputOk(h, b, v, o)
      ensures Closed(h, fs, o) ==> Closed(h, gs, o)
    {
      assert Lookup(fs.data, o) == Lookup(gs.data, o) && Lookup(fs.hints, o) == Lookup(gs.hints, o);
    }
    if Indexed(h, b, w, copied) {
      forall k | k in copied
        ensures PointsAt(h, v, k, copied[k])
      {
        assert PointsAt(h, w, k, copied[k]);
        var o := copied[k].fileId;
        assert o > b.active;
        assert Lookup(fs.data, o) == Lookup(gs.data, o) && Lookup(fs.hints, o) == Lookup(gs.hints, o);
        assert v.data[o] == w.data[o];
      }
    }
  }

  lemma SkipTo(h: Checksum, b: Base, fs: FileState, copied: Entries, m: nat, n: nat)
    requires BaseOk(h, b) && Removing(h, b, fs, copied, m) && m <= n <= b.active
    requires forall x :: m <= x < n ==> x !in b.disk.data
    ensures Removing(h, b, fs, copied, n)
  {
    hide OutputOk, Closed, Indexed, BaseOk;
    forall x | 0 <= x < n
      ensures x !in fs.data
    {
      if m <= x {
        assert SameFile(b.disk, fs.Written(), x);
      }
    }
  }

  lemma RemovingTrace(h: Checksum, b: Base, trace: seq<FileState>, start: seq<FileState>, fs: FileState,
                      copied: Entries, m: nat)
    requires TraceSafe(h, b, trace, start) && BaseOk(h, b) && Removing(h, b, fs, copied, m)
    ensures TraceSafe(h, b, trace + [fs], start)
  {
    hide CrashSafe, Removing, BaseOk;
    RemovingIsCrashSafe(h, b, fs, copied, m);
  }

  /** What is left when these files are gone, each with its hint file. */
  function Without(fs: FileState, ids: set<nat>): FileState {
    FileState(map id | id in fs.data && id !in ids :: fs.data[id],
              map id | id in fs.hints && id !in ids :: fs.hints[id])
  }

  function IdSet(ids: seq<nat>): set<nat> {
    set id | id in ids
  }

  lemma WithoutNone(fs: FileState, ids: seq<nat>)
    requires ids == []
    ensures Without(fs, IdSet(ids)) == fs
  {
    assert Without(fs, IdSet(ids)).data == fs.data && Without(fs, IdSet(ids)).hints == fs.hints;
  }

  lemma WithoutOneMore(fs: FileState, ids: seq<nat>, i: nat)
    requires i < |ids|
    ensures Without(fs, IdSet(ids[..i])).RemoveData(ids[i]).RemoveHint(ids[i]) == Without(fs, IdSet(ids[..i + 1]))
  {
    assert ids[..i + 1] == ids[..i] + [ids[i]];
    assert forall x :: x in IdSet(ids[..i + 1]) <==> x in IdSet(ids[..i]) || x == ids[i];
    hide IdSet;
    var gs, ks := Without(fs, IdSet(ids[..i])).RemoveData(ids[i]).RemoveHint(ids[i]), Without(fs, IdSet(ids[..i + 1]));
    assert gs.data == ks.data && gs.hints == ks.hints;
  }

  /** Hint files without a data file are the ones there were. */
  ghost predicate NoNewOrphans(b: Base, fs: FileState) {
    forall id :: id in fs.hints && id !in fs.data ==> id in b.disk.hints && id !in b.disk.data
  }

  lemma OrphansStay(h: Checksum, b: Base, fs: FileState, copied: Entries, inputIds: seq<nat>, n: nat)
    requires Removing(h, b, fs, copied, 0)
    ensures NoNewOrphans(b, Without(fs, IdSet(inputIds)).CreateData(n))
  {
    var gs := Without(fs, IdSet(inputIds)).CreateData(n);
    hide OutputOk, Closed, Indexed;
    forall id | id in gs.hints && id !in gs.data
      ensures id in b.disk.hints && id !in b.disk.data
    {
      assert id in fs.hints && id !in fs.data && id < b.active;
      assert SameFile(b.disk, fs.Written(), id);
    }
  }

  /** Removes every input, data file then hint file, lowest id first. */
  method RemoveOldInputFiles(dir: Directory, inputIds: seq<nat>, ghost h: Checksum, ghost b: Base,
                             ghost copied: Entries, ghost start: seq<FileState>)
    requires BaseOk(h, b) && Removing(h, b, dir.fs, copied, 0) && TraceSafe(h, b, dir.trace, start)
    requires Ascending(inputIds) && forall id :: id in inputIds <==> id in b.disk.data && id < b.active
    modifies dir
    ensures Removing(h, b, dir.fs, copied, b.active) && TraceSafe(h, b, dir.trace, start)
    ensures dir.fs == Without(old(dir.fs), IdSet(inputIds))
  {
    hide BaseOk, Removing, TraceSafe, Without, IdSet, FileState.RemoveData, FileState.RemoveHint;
    ghost var m := 0;
    var i := 0;
    WithoutNone(dir.fs, inputIds[..0]);
    while i < |inputIds|
      invariant 0 <= i <= |inputIds|
      invariant m == if i == 0 then 0 else inputIds[i - 1] + 1
      invariant Removing(h, b, dir.fs, copied, m) && TraceSafe(h, b, dir.trace, start)
      invariant dir.fs == Without(old(dir.fs), IdSet(inputIds[..i]))
    {
      var id := inputIds[i];
      assert id in inputIds;
      GapBelow(inputIds, i, b.disk.data.Keys, b.active);
      RemoveOne(h, b, dir.fs, copied, m, id);
      RemovingTrace(h, b, dir.trace, start, dir.fs.RemoveData(id), copied, id + 1);
      dir.Become(dir.fs.RemoveData(id));
      RemovingTrace(h, b, dir.trace, start, dir.fs.RemoveHint(id), copied, id + 1);
      dir.Become(dir.fs.RemoveHint(id));
      WithoutOneMore(old(dir.fs), inputIds, i);
      m := id + 1;
      i := i + 1;
    }
    assert inputIds[..i] == inputIds;
    if |inputIds| > 0 {
      assert inputIds[|inputIds| - 1] in inputIds;
    }
    NothingAbove(inputIds, b.disk.data.Keys, b.active, m);
    SkipTo(h, b, dir.fs, copied, m, b.active);
  }

  // --- Restoring the active file --------------------------------------------------

  /** A fresh active file above every output makes the directory a store again. */
  lemma Restored(h: Checksum, b: Base, fs: FileState, copied: Entries, n: nat)
    requires BaseOk(h, b) && Removing(h, b, fs, copied, b.active) && IdsBelow(fs, n) && n > b.active
    ensures Removing(h, b, fs.CreateData(n), copied, b.active)
    ensures StoreOk(h, fs.CreateData(n), Repointed(b.kd, copied), n, n + 1)
    ensures ViewOf(fs.CreateData(n).OnDisk(), Repointed(b.kd, copied)) == ViewOf(b.disk, b.kd)
  {
    hide BaseOk, Overlay, Recovered, DirOk, ReadAt;
    var gs := fs.CreateData(n);
    RestoredRemoving(h, b, fs, copied, n);
    RemovedRecovers(h, b, gs, copied);
    FlushedCrash(h, b, gs, copied);
    RemovingOverlay(h, b, gs, copied, b.active, gs.OnDisk());
    OverlayView(h, b, gs.OnDisk(), b.active);
    BaseKd(h, b);
    assert gs.OnDisk().data.Keys == gs.data.Keys;
    NextIdIs(gs.OnDisk().data.Keys, n);
    assert gs.OnDisk().data[n] == [] && Whole(h, []);
  }

  lemma RestoredRemoving(h: Checksum, b: Base, fs: FileState, copied: Entries, n: nat)
    requires BaseOk(h, b) && Removing(h, b, fs, copied, b.active) && IdsBelow(fs, n) && n > b.active
    ensures Removing(h, b, fs.CreateData(n), copied, b.active)
  {
    hide OutputOk, Closed, Indexed, BaseOk, ParseFrom;
    var gs := fs.CreateData(n);
    assert SameFile(b.disk, fs.Written(), b.active);
    forall o | o in gs.data && o > b.active
      ensures OutputOk(h, b, gs.Written(), o) && (Closed(h, gs, o) || (gs.data[o].bytes == [] && o !in gs.hints))
    {
      if o == n {
        EmptyOutput(h, b, gs.Written(), n);
      } else {
        SameOutput(h, b, fs, gs, o);
      }
    }
    forall id | b.active <= id <= b.active
      ensures SameFile(b.disk, gs.Written(), id)
    {
    }
    IndexedFresh(h, b, fs.Written(), gs.Written(), copied, n);
  }

  lemma SameOutput(h: Checksum, b: Base, fs: FileState, gs: FileState, o: nat)
    requires o in fs.data && Lookup(fs.data, o) == Lookup(gs.data, o) && Lookup(fs.hints, o) == Lookup(gs.hints, o)
    ensures OutputOk(h, b, fs.Written(), o) ==> OutputOk(h, b, gs.Written(), o)
    ensures Closed(h, fs, o) ==> Closed(h, gs, o)
  {
  }

  lemma IndexedFresh(h: Checksum, b: Base, w: Disk, v: Disk, copied: Entries, n: nat)
    requires Indexed(h, b, w, copied) && n !in w.data && v.data == w.data[n := []]
    ensures Indexed(h, b, v, copied)
  {
    EmptyFile(h, b);
    hide ParseFrom, PtrTo, IsAt;
    forall k | k in copied
      ensures PointsAt(h, v, k, copied[k])
    {
      assert PointsAt(h, w, k, copied[k]);
      assert v.data[copied[k].fileId] == w.data[copied[k].fileId];
    }
    forall o, it | o in v.data && o > b.active && it in Parse(h, v.data[o])
      ensures it.entry.key in copied && copied[it.entry.key] == PtrTo(o, it)
    {
      assert o != n;
    }
  }

  lemma CompactedBy(h: Checksum, b: Base, fs: FileState, copied: Entries)
    requires BaseOk(h, b) && Removing(h, b, fs, copied, b.active) && CopiedBelow(b, copied, b.active)
    requires NoNewOrphans(b, fs)
    ensures Compacted(h, b, fs.OnDisk(), Repointed(b.kd, copied), |copied|)
  {
    hide Parse, Closed, BaseOk, Removing, Copies, Indexed, Repointed, CopiedBelow, Compacted;
    RemovingFlushed(h, b, fs, copied);
    CopiedKeys(b, copied);
    RemovingIndexed(h, b, fs, copied);
    forall o, it | o in fs.OnDisk().data && o > b.active && it in Parse(h, fs.OnDisk().data[o])
      ensures Copies(b, it.entry)
    {
      OutputCopies(h, b, fs, copied, o, it);
    }
    forall id | id in fs.OnDisk().data
      ensures id >= b.active
    {
      RemovedIds(h, b, fs, copied, id);
    }
    CompactFrom(h, b, fs.OnDisk(), copied);
  }

  lemma CompactFrom(h: Checksum, b: Base, d: Disk, copied: Entries)
    requires Indexed(h, b, d, copied) && LiveInputs(b) == copied.Keys
    requires forall id :: id in d.data ==> id >= b.active
    requires forall id :: id in d.hints && id !in d.data ==> id in b.disk.hints && id !in b.disk.data
    requires forall o, it :: o in d.data && o > b.active && it in Parse(h, d.data[o]) ==> Copies(b, it.entry)
    ensures Compacted(h, b, d, Repointed(b.kd, copied), |copied|)
  {
    hide Parse, Copies, PointsAt, LiveInputs, PtrTo, Indexed, Repointed, OnlyLiveCopies, EachCopied;
    assert |copied.Keys| == |copied|;
    CompactOnly(h, b, d, copied);
    CompactEach(h, b, d, copied);
    forall k | k in b.kd && k !in LiveInputs(b)
      ensures Lookup(Repointed(b.kd, copied), k) == Some(b.kd[k])
    {
      RepointedAt(b, copied, k);
    }
  }

  lemma CompactOnly(h: Checksum, b: Base, d: Disk, copied: Entries)
    requires Indexed(h, b, d, copied) && LiveInputs(b) == copied.Keys
    requires forall o, it :: o in d.data && o > b.active && it in Parse(h, d.data[o]) ==> Copies(b, it.entry)
    ensures OnlyLiveCopies(h, b, d, Repointed(b.kd, copied))
  {
    hide Parse, Copies, LiveInputs, PtrTo, Indexed, Repointed;
    forall o, it | o in d.data && o > b.active && it in Parse(h, d.data[o])
      ensures it.entry.key in copied && Lookup(Repointed(b.kd, copied), it.entry.key) == Some(PtrTo(o, it))
    {
      IndexedItem(h, b, d, copied, o, it);
      RepointedAt(b, copied, it.entry.key);
    }
  }

  lemma CompactEach(h: Checksum, b: Base, d: Disk, copied: Entries)
    requires Indexed(h, b, d, copied) && LiveInputs(b) == copied.Keys
    ensures EachCopied(h, b, d, Repointed(b.kd, copied))
  {
    hide PointsAt, LiveInputs, Indexed, Repointed;
    forall k | k in copied
      ensures Lookup(Repointed(b.kd, copied), k) == Some(copied[k]) && copied[k].fileId > b.active
      ensures PointsAt(h, d, k, copied[k])
    {
      IndexedKey(h, b, d, copied, k);
      RepointedAt(b, copied, k);
    }
  }

  lemma RepointedAt(b: Base, copied: Entries, k: Key)
    requires k in b.kd
    ensures Lookup(Repointed(b.kd, copied), k) == Some(if k in copied then copied[k] else b.kd[k])
  {
  }

  lemma IndexedItem(h: Checksum, b: Base, d: Disk, copied: Entries, o: nat, it: Item)
    requires Indexed(h, b, d, copied) && o in d.data && o > b.active && it in Parse(h, d.data[o])
    ensures it.entry.key in copied && it.entry.key in b.kd && copied[it.entry.key] == PtrTo(o, it)
  {
    hide Parse, PointsAt, PtrTo;
  }

  lemma IndexedKey(h: Checksum, b: Base, d: Disk, copied: Entries, k: Key)
    requires Indexed(h, b, d, copied) && k in copied
    ensures k in b.kd && copied[k].fileId > b.active && PointsAt(h, d, k, copied[k])
  {
    hide Parse, PointsAt, PtrTo;
  }

  lemma RemovedIds(h: Checksum, b: Base, fs: FileState, copied: Entries, id: nat)
    requires Removing(h, b, fs, copied, b.active) && id in fs.data
    ensures id >= b.active
  {
  }

  lemma RemovingFlushed(h: Checksum, b: Base, fs: FileState, copied: Entries)
    requires Removing(h, b, fs, copied, b.active)
    ensures fs.OnDisk() == fs.Written()
  {
    FlushedWritten(fs);
  }

  lemma RemovingIndexed(h: Checksum, b: Base, fs: FileState, copied: Entries)
    requires Removing(h, b, fs, copied, b.active)
    ensures Indexed(h, b, fs.Written(), copied)
  {
  }

  lemma OutputCopies(h: Checksum, b: Base, fs: FileState, copied: Entries, o: nat, it: Item)
    requires Removing(h, b, fs, copied, b.active) && o in fs.data && o > b.active
    requires it in Parse(h, fs.Written().data[o])
    ensures Copies(b, it.entry)
  {
    hide ParseFrom, Closed, Indexed;
    assert OutputOk(h, b, fs.Written(), o);
  }

  lemma CopiedKeys(b: Base, copied: Entries)
    requires CopiedBelow(b, copied, b.active)
    ensures LiveInputs(b) == copied.Keys
  {
  }

  /** The old active file stays as it was. */
  lemma ActiveStays(h: Checksum, b: Base, fs: FileState, copied: Entries)
    requires BaseOk(h, b) && Removing(h, b, fs, copied, b.active)
    ensures b.active in fs.data && fs.data[b.active].bytes == b.disk.data[b.active]
  {
    assert SameFile(b.disk, fs.Written(), b.active);
  }

  /** Syncs the old active file and starts a new one above every merge output. */
  method RestoreActiveFile(dir: Directory, active: ActiveFile, counter: IdCounter, highestOutputId: nat,
                           ghost h: Checksum, ghost b: Base, ghost copied: Entries, ghost start: seq<FileState>)
    returns (active': ActiveFile)
    requires active.dir == dir && active.Valid() && active.fileId == b.active < highestOutputId
    requires BaseOk(h, b) && Removing(h, b, dir.fs, copied, b.active) && TraceSafe(h, b, dir.trace, start)
    requires IdsBelow(dir.fs, counter.next) && b.active < counter.next
    modifies dir, counter
    ensures fresh(active') && active'.dir == dir && active'.Valid() && active'.fileId == old(counter.next)
    ensures dir.fs == old(dir.fs).CreateData(active'.fileId)
    ensures Removing(h, b, dir.fs, copied, b.active) && TraceSafe(h, b, dir.trace, start)
    ensures StoreOk(h, dir.fs, Repointed(b.kd, copied), active'.fileId, counter.next)
    ensures ViewOf(dir.fs.OnDisk(), Repointed(b.kd, copied)) == ViewOf(b.disk, b.kd)
  {
    hide BaseOk, Removing, TraceSafe, StoreOk, ViewOf;
    active' := active;
    if active.fileId <= highestOutputId {
      assert dir.fs.FlushData(active.fileId) == dir.fs by { AlreadyFlushed(h, b, dir.fs, copied, active.fileId); }
      RemovingTrace(h, b, dir.trace, start, dir.fs, copied, b.active);
      active.Sync();
      var newId := counter.FetchAdd();
      Restored(h, b, dir.fs, copied, newId);
      RemovingTrace(h, b, dir.trace, start, dir.fs.CreateData(newId), copied, b.active);
      active' := new ActiveFile(dir, newId);
    } else {
      assert false;
    }
  }

  lemma AlreadyFlushed(h: Checksum, b: Base, fs: FileState, copied: Entries, id: nat)
    requires Removing(h, b, fs, copied, b.active) && id in fs.data
    ensures fs.FlushData(id) == fs
  {
    assert fs.data[id := Flushed(fs.data[id])] == fs.data;
  }

  // --- Merge ----------------------------------------------------------------------

  /** Compacts every data file but the active one.

      The live keydir reads the same values before and after; what is on disk
      recovers to the new keydir pointer for pointer; at every moment in between,
      what a crash may leave on disk opens to the same store; and the result is
      exactly compacted. */
  method Merge(h: Checksum, dir: Directory, keydir: Keydir, active: ActiveFile, counter: IdCounter, maxFileSize: nat)
    returns (active': ActiveFile, liveEntriesCopied: nat, depths: seq<nat>)
    requires active.dir == dir && active.Valid() && maxFileSize <= MAX_FILE_SIZE
    requires StoreOk(h, dir.fs, keydir.entries, active.fileId, counter.next)
    modifies dir, keydir, counter
    ensures active'.dir == dir && active'.Valid() && (active' == active || fresh(active'))
    ensures StoreOk(h, dir.fs, keydir.entries, active'.fileId, counter.next)
    ensures ViewOf(dir.fs.OnDisk(), keydir.entries) == old(ViewOf(dir.fs.OnDisk(), keydir.entries))
    ensures TraceSafe(h, BaseOf(old(dir.fs), old(keydir.entries), active.fileId), dir.trace, old(dir.trace))
    ensures Compacted(h, BaseOf(old(dir.fs), old(keydir.entries), active.fileId), dir.fs.OnDisk(), keydir.entries,
                      liveEntriesCopied)
    ensures Sum(depths) == liveEntriesCopied
    ensures (forall id :: id in old(dir.fs.data) ==> id >= active.fileId) ==> dir.fs == old(dir.fs) && active' == active
  {
    hide StoreOk, BaseOk, Writing, Running, Removing, TraceSafe, ViewOf, Compacted, CopiedBelow, Unchanged, Recovered,
         NoNewOrphans, FileState.CreateData, IdSet;
    ghost var b := BaseOf(dir.fs, keydir.entries, active.fileId);
    StoreBase(h, dir.fs, keydir.entries, active.fileId, counter.next);
    assert IdsBelow(dir.fs, counter.next) by { StoreIds(h, dir.fs, keydir.entries, active.fileId, counter.next); }
    var inputIds := CollectInputIds(dir, active.fileId);
    if inputIds == [] {
      NothingToCompact(h, dir.fs, keydir.entries, active.fileId, counter.next, inputIds);
      NoTrace(h, b, dir.trace);
      return active, 0, [];
    }
    assert forall id :: id in inputIds <==> id in b.disk.data && id < b.active;
    assert inputIds[0] in inputIds && inputIds[0] in dir.fs.data;
    ghost var fs0, kd0 := dir.fs, keydir.entries;
    ghost var copied;
    ghost var start := dir.trace;
    var highest;
    var metrics := new Metrics();
    liveEntriesCopied, highest, copied := CopyPhase(h, dir, keydir, counter, maxFileSize, metrics, inputIds, b);
    ghost var copiedFs := dir.fs;
    RemoveOldInputFiles(dir, inputIds, h, b, copied, start);
    ActiveStays(h, b, dir.fs, copied);
    assert IdsBelow(dir.fs, counter.next);
    active' := RestoreActiveFile(dir, active, counter, highest, h, b, copied, start);
    OrphansStay(h, b, copiedFs, copied, inputIds, active'.fileId);
    CompactedBy(h, b, dir.fs, copied);
    depths := metrics.depths;
  }

  /** Copies everything live, closes the outputs and repoints the keydir. */
  method CopyPhase(h: Checksum, dir: Directory, keydir: Keydir, counter: IdCounter, maxFileSize: nat, metrics: Metrics,
                   inputIds: seq<nat>, ghost b: Base)
    returns (live: nat, highest: nat, ghost copied: Entries)
    requires maxFileSize <= MAX_FILE_SIZE && metrics.depths == []
    requires BaseOk(h, b) && Writing(h, b, dir.fs) && IdsBelow(dir.fs, counter.next)
    requires b.active in dir.fs.data && forall id :: id in dir.fs.data ==> id <= b.active
    requires Unchanged(b, dir.fs, keydir.entries) && keydir.entries == b.kd
    requires Ascending(inputIds) && forall id :: id in inputIds <==> id in b.disk.data && id < b.active
    modifies dir, keydir, counter, metrics
    ensures Removing(h, b, dir.fs, copied, 0) && TraceSafe(h, b, dir.trace, old(dir.trace))
    ensures CopiedBelow(b, copied, b.active) && |copied| == live == Sum(metrics.depths)
    ensures keydir.entries == Repointed(b.kd, copied)
    ensures IdsBelow(dir.fs, counter.next) && highest > b.active && b.active < counter.next
  {
    hide BaseOk, Writing, Removing, TraceSafe, CopiedBelow, Unchanged, Progress, AtRest, OthersClosed;
    ghost var fs0 := dir.fs;
    var w := new MergeOutputWriter(h, dir, counter, maxFileSize, b);
    StartProgress(h, b, fs0, dir.fs, keydir.entries, w.current.fileId);
    highest := w.current.fileId;
    var pending := new PendingQueue();
    live, highest, copied := CopyForwardAllLiveEntries(w, keydir, pending, metrics, inputIds, highest);
    FinishAndApplyPendingRepoints(w, keydir, pending, metrics, copied, live, highest);
  }

  lemma StoreIds(h: Checksum, fs: FileState, kd: Entries, a: nat, next: nat)
    requires StoreOk(h, fs, kd, a, next)
    ensures IdsBelow(fs, next)
  {
  }

  lemma NoTrace(h: Checksum, b: Base, trace: seq<FileState>)
    ensures TraceSafe(h, b, trace, trace)
  {
  }

  lemma NothingToCompact(h: Checksum, fs: FileState, kd: Entries, a: nat, next: nat, inputIds: seq<nat>)
    requires StoreOk(h, fs, kd, a, next) && inputIds == []
    requires forall id :: id in inputIds <==> id in fs.data && id < a
    ensures Compacted(h, BaseOf(fs, kd, a), fs.OnDisk(), kd, 0)
  {
    hide ParseFrom, Recovered, HintSound;
    var b := BaseOf(fs, kd, a);
    StoreBase(h, fs, kd, a, next);
    forall k | k in b.kd
      ensures b.kd[k].fileId >= a
    {
      BasePtr(h, b, k);
      assert b.kd[k].fileId in fs.data;
    }
    assert forall id :: id in fs.data ==> id !in inputIds;
    assert LiveInputs(b) == {};
  }
}
