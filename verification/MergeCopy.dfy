/** The copying half of a merge: find what is live in the inputs, copy it forward, repoint the keydir. */
module MergeCopy {
  import opened Bytes
  import opened Format
  import opened EntryFormat
  import opened Scan
  import opened Reader
  import opened Index
  import opened Recovery
  import opened DiskState
  import opened LogFacts
  import opened Files
  import opened MergeFacts
  import opened MergeSteps
  import opened MergeWriter

  // --- The keydir while a merge is under way ------------------------------

  predicate Waiting(q: seq<Repoint>, k: Key) {
    exists i :: 0 <= i < |q| && q[i].key == k
  }

  /** Queued repoints lead from where a copied key was to its copy, one per key. */
  predicate QueueOk(b: Base, copied: Entries, q: seq<Repoint>) {
    && (forall i :: 0 <= i < |q| ==>
         q[i].key in copied && q[i].key in b.kd && q[i].was == b.kd[q[i].key] && q[i].becomes == copied[q[i].key])
    && (forall i, j :: 0 <= i < j < |q| ==> q[i].key != q[j].key)
  }

  /** Copied keys point at their copies, the ones still queued excepted. */
  predicate KdIs(b: Base, copied: Entries, q: seq<Repoint>, kd: Entries) {
    && kd.Keys == b.kd.Keys
    && forall k :: k in kd ==> kd[k] == if k in copied && !Waiting(q, k) then copied[k] else b.kd[k]
  }

  /** Through the live keydir, every key reads from flushed bytes what it read before the merge. */
  predicate Unchanged(b: Base, fs: FileState, kd: Entries) {
    kd.Keys == b.kd.Keys && forall k :: k in kd ==>
      ReadAt(fs.OnDisk(), kd[k]) == ReadAt(b.disk, b.kd[k]) && ReadAt(fs.OnDisk(), kd[k]).Content?
  }

  ghost predicate Progress(h: Checksum, b: Base, fs: FileState, kd: Entries, copied: Entries, q: seq<Repoint>) {
    && Indexed(h, b, fs.Written(), copied)
    && QueueOk(b, copied, q) && KdIs(b, copied, q, kd) && Unchanged(b, fs, kd)
  }

  /** Copying the live entry of one more key. */
  lemma CopyProgress(h: Checksum, b: Base, fs: FileState, gs: FileState, kd: Entries, copied: Entries, q: seq<Repoint>,
                     c: nat, n: nat, flushed: bool, e: Entry)
    requires Progress(h, b, fs, kd, copied, q) && OldKept(b, fs) && OldKept(b, gs)
    requires c in fs.data && c > b.active && (n == c || n !in fs.data)
    requires gs.data == DataAfter(fs.data, c, CopyBytes(h, e), flushed, n)
    requires Parse(h, fs.data[c].bytes + CopyBytes(h, e)) == Parse(h, fs.data[c].bytes) + [Item(|fs.data[c].bytes|, e)]
    requires e.key in b.kd && e.key !in copied && b.kd[e.key].fileId < b.active && !e.header.tombstone
    requires n > b.active
    ensures
      var p := PtrTo(c, Item(|fs.data[c].bytes|, e));
      Progress(h, b, gs, kd, copied[e.key := p], q + [Repoint(e.key, b.kd[e.key], p)])
  {
    hide Indexed, QueueOk, KdIs, Unchanged, OldKept, ParseFrom, CopyBytes;
    IndexedGrows(h, b, fs, gs, copied, c, n, flushed, e);
    QueueGrows(b, kd, copied, q, e.key, PtrTo(c, Item(|fs.data[c].bytes|, e)));
    UnchangedGrows(b, fs, gs, kd, c, CopyBytes(h, e), flushed, n);
  }

  /** A freshly copied key still points at the original until its repoint is drained. */
  lemma QueueGrows(b: Base, kd: Entries, copied: Entries, q: seq<Repoint>, k: Key, p: KeydirEntry)
    requires QueueOk(b, copied, q) && KdIs(b, copied, q, kd) && k in b.kd && k !in copied
    ensures QueueOk(b, copied[k := p], q + [Repoint(k, b.kd[k], p)])
    ensures KdIs(b, copied[k := p], q + [Repoint(k, b.kd[k], p)], kd)
  {
    var q' := q + [Repoint(k, b.kd[k], p)];
    forall x
      ensures Waiting(q', x) <==> Waiting(q, x) || x == k
    {
      assert q'[|q|].key == k;
      if Waiting(q, x) {
        var i :| 0 <= i < |q| && q[i].key == x;
        assert q'[i].key == x;
      }
    }
  }

  lemma IndexedGrows(h: Checksum, b: Base, fs: FileState, gs: FileState, copied: Entries,
                     c: nat, n: nat, flushed: bool, e: Entry)
    requires Indexed(h, b, fs.Written(), copied)
    requires c in fs.data && c > b.active && (n == c || n !in fs.data)
    requires gs.data == DataAfter(fs.data, c, CopyBytes(h, e), flushed, n)
    requires Parse(h, fs.data[c].bytes + CopyBytes(h, e)) == Parse(h, fs.data[c].bytes) + [Item(|fs.data[c].bytes|, e)]
    requires e.key in b.kd && e.key !in copied && b.kd[e.key].fileId < b.active && !e.header.tombstone
    ensures Indexed(h, b, gs.Written(), copied[e.key := PtrTo(c, Item(|fs.data[c].bytes|, e))])
  {
    hide ParseFrom, CopyBytes;
    var it := Item(|fs.data[c].bytes|, e);
    var p := PtrTo(c, it);
    var also := copied[e.key := p];
    var w, v := fs.Written(), gs.Written();
    assert Parse(h, []) == [] by { EmptyFile(h, b); }
    assert v.data[c] == w.data[c] + CopyBytes(h, e);
    forall o, x | o in v.data && o > b.active && x in Parse(h, v.data[o])
      ensures x.entry.key in also && also[x.entry.key] == PtrTo(o, x)
    {
      if o == c {
        assert x in Parse(h, w.data[c]) || x == it;
      } else if o in w.data {
        assert v.data[o] == w.data[o];
      } else {
        assert false;
      }
    }
    forall k | k in also
      ensures k in b.kd && b.kd[k].fileId < b.active && also[k].fileId > b.active && PointsAt(h, v, k, also[k])
    {
      if k == e.key {
        assert it in Parse(h, v.data[c]) && IsAt(it, k, c, p);
      } else {
        assert PointsAt(h, w, k, copied[k]);
        var o := copied[k].fileId;
        var x :| x in Parse(h, w.data[o]) && IsAt(x, k, o, copied[k]);
        assert x in Parse(h, v.data[o]);
      }
    }
  }

  lemma UnchangedGrows(b: Base, fs: FileState, gs: FileState, kd: Entries, c: nat, x: seq<Byte>, flushed: bool, n: nat)
    requires Unchanged(b, fs, kd) && c in fs.data && (n == c || n !in fs.data)
    requires gs.data == DataAfter(fs.data, c, x, flushed, n)
    ensures Unchanged(b, gs, kd)
  {
    var d, e := fs.OnDisk(), gs.OnDisk();
    forall k | k in kd
      ensures ReadAt(e, kd[k]) == ReadAt(d, kd[k])
    {
      assert ReadAt(d, kd[k]).Content?;
      var id := kd[k].fileId;
      assert d.data[id] <= e.data[id];
      ReadGrows(d, e, kd[k]);
    }
  }

  /** Every output is flushed and holds only copies. */
  ghost predicate FlushedCopies(h: Checksum, b: Base, fs: FileState) {
    forall o :: o in fs.data && o > b.active ==>
      OnlyCopies(h, b, fs.data[o].bytes) && fs.data[o].flushed == |fs.data[o].bytes|
  }

  /** Applying one queued repoint whose bytes are flushed. */
  lemma RepointProgress(h: Checksum, b: Base, fs: FileState, kd: Entries, copied: Entries, q: seq<Repoint>)
    requires Progress(h, b, fs, kd, copied, q) && q != []
    requires FlushedCopies(h, b, fs)
    ensures Lookup(kd, q[0].key) == Some(q[0].was)
    ensures Progress(h, b, fs, kd[q[0].key := q[0].becomes], copied, q[1..])
  {
    hide ParseFrom, FlushedCopies, Indexed, QueueOk, KdIs, ReadAt;
    RepointKd(b, kd, copied, q);
    CopyReadable(h, b, fs, copied, q[0].key);
  }

  lemma RepointKd(b: Base, kd: Entries, copied: Entries, q: seq<Repoint>)
    requires QueueOk(b, copied, q) && KdIs(b, copied, q, kd) && q != []
    ensures q[0].key in copied && q[0].becomes == copied[q[0].key] && Lookup(kd, q[0].key) == Some(q[0].was)
    ensures QueueOk(b, copied, q[1..]) && KdIs(b, copied, q[1..], kd[q[0].key := q[0].becomes])
  {
    var k := q[0].key;
    assert Waiting(q, k);
    forall x
      ensures Waiting(q, x) <==> Waiting(q[1..], x) || x == k
    {
      if Waiting(q[1..], x) {
        var i :| 0 <= i < |q[1..]| && q[1..][i].key == x;
        assert q[i + 1].key == x;
      }
      if Waiting(q, x) && x != k {
        var i :| 0 <= i < |q| && q[i].key == x;
        assert q[1..][i - 1].key == x;
      }
    }
    assert !Waiting(q[1..], k);
  }

  lemma CopyReadable(h: Checksum, b: Base, fs: FileState, copied: Entries, k: Key)
    requires Indexed(h, b, fs.Written(), copied) && k in copied
    requires FlushedCopies(h, b, fs)
    ensures k in b.kd && ReadAt(fs.OnDisk(), copied[k]) == ReadAt(b.disk, b.kd[k])
    ensures ReadAt(fs.OnDisk(), copied[k]).Content?
  {
    hide ParseFrom;
    var w, p := fs.Written(), copied[k];
    assert PointsAt(h, w, k, p);
    var it :| it in Parse(h, w.data[p.fileId]) && IsAt(it, k, p.fileId, p);
    PointsAtReads(h, w, k, p, it);
    assert Copies(b, it.entry);
    assert fs.OnDisk().data[p.fileId] == w.data[p.fileId];
  }

  /** What draining the queue does to the keydir. */
  function ApplyRepoints(kd: Entries, q: seq<Repoint>): Entries {
    if q == [] then kd
    else
      var kd' := if Lookup(kd, q[0].key) == Some(q[0].was) then kd[q[0].key := q[0].becomes] else kd;
      ApplyRepoints(kd', q[1..])
  }

  /** With nobody else writing, every compare-and-swap of a drain succeeds. */
  lemma {:induction false} DrainProgress(h: Checksum, b: Base, fs: FileState, kd: Entries, copied: Entries,
                                         q: seq<Repoint>)
    requires Progress(h, b, fs, kd, copied, q)
    requires FlushedCopies(h, b, fs)
    ensures Progress(h, b, fs, ApplyRepoints(kd, q), copied, [])
    decreases |q|
  {
    hide Progress, FlushedCopies;
    if q != [] {
      RepointProgress(h, b, fs, kd, copied, q);
      DrainProgress(h, b, fs, kd[q[0].key := q[0].becomes], copied, q[1..]);
    }
  }

  // --- The loops ------------------------------------------------------------

  method ApplyPendingRepoints(keydir: Keydir, pending: PendingQueue)
    modifies keydir, pending
    ensures pending.items == []
    ensures keydir.entries == ApplyRepoints(old(keydir.entries), old(pending.items))
  {
    var all := pending.Drain();
    var i := 0;
    while i < |all|
      invariant 0 <= i <= |all| && pending.items == []
      invariant ApplyRepoints(keydir.entries, all[i..]) == ApplyRepoints(old(keydir.entries), all)
    {
      assert all[i..][1..] == all[i + 1..];
      var _ := keydir.CasRepoint(all[i].key, all[i].was, all[i].becomes);
      i := i + 1;
    }
  }

  /** Every intact entry of a closed data file with its offset, tombstones included. */
  method ReadAllEntries(h: Checksum, bytes: seq<Byte>) returns (out: seq<Item>)
    ensures out == Parse(h, bytes)
  {
    hide ReadEntry;
    var quotas: seq<nat> := *;
    var f := new ByteSource(bytes, quotas);
    out := [];
    var pos := 0;
    while true
      invariant fresh(f)
      invariant pos <= |bytes| && f.rest == bytes[pos..]
      invariant Parse(h, bytes) == out + ParseFrom(h, f.rest, pos)
      decreases |f.rest|
    {
      var r := ReadEntryFrom(h, f);
      match r {
        case None => break;
        case Some(Truncated) => break;
        case Some(Ok(entry, totalLen)) =>
          out := out + [Item(pos, entry)];
          pos := pos + totalLen;
        case Some(CrcMismatch(totalLen)) =>
          pos := pos + totalLen;
      }
    }
  }

  // --- Which keys have been copied ------------------------------------------

  /** Every key that lives in a file below `n` has been copied, and no other. */
  predicate CopiedBelow(b: Base, copied: Entries, n: nat) {
    && (forall k :: k in b.kd && b.kd[k].fileId < n ==> k in copied)
    && (forall k :: k in copied ==> k in b.kd && b.kd[k].fileId < n)
  }

  predicate LiveAt(b: Base, it: Item, fileId: nat) {
    it.entry.key in b.kd && IsAt(it, it.entry.key, fileId, b.kd[it.entry.key])
  }

  /** The copied keys are those of files below `fileId` and those live at one of its first `i` items. */
  predicate CopiedUpTo(b: Base, copied: Entries, fileId: nat, items: seq<Item>, i: nat) {
    && i <= |items|
    && (forall k :: k in b.kd && b.kd[k].fileId < fileId ==> k in copied)
    && (forall j :: 0 <= j < i && LiveAt(b, items[j], fileId) ==> items[j].entry.key in copied)
    && (forall k :: k in copied ==>
         (k in b.kd
          && (b.kd[k].fileId < fileId
              || exists j :: 0 <= j < i && items[j].entry.key == k && LiveAt(b, items[j], fileId))))
  }

  /** The liveness test of the copy loop. */
  predicate LiveIn(kd: Entries, it: Item, fileId: nat) {
    it.entry.key in kd && kd[it.entry.key].fileId == fileId && kd[it.entry.key].valuePos == it.ValuePos()
  }

  /** The liveness test finds exactly the live entries that are not copied yet. */
  lemma LivenessIsExact(h: Checksum, b: Base, copied: Entries, q: seq<Repoint>, kd: Entries, fileId: nat, i: nat)
    requires BaseOk(h, b) && fileId in b.disk.data && fileId < b.active
    requires KdIs(b, copied, q, kd) && QueueOk(b, copied, q)
    requires forall k :: k in copied ==> copied[k].fileId > b.active
    requires i < |Parse(h, b.disk.data[fileId])| && CopiedUpTo(b, copied, fileId, Parse(h, b.disk.data[fileId]), i)
    ensures
      var it := Parse(h, b.disk.data[fileId])[i];
      && (LiveIn(kd, it, fileId) ==> LiveAt(b, it, fileId) && it.entry.key !in copied)
      && (!LiveIn(kd, it, fileId) && LiveAt(b, it, fileId) ==> it.entry.key in copied)
  {
    hide ParseFrom, BaseOk;
    var data := b.disk.data[fileId];
    var items := Parse(h, data);
    var it := items[i];
    var k := it.entry.key;
    if LiveIn(kd, it, fileId) {
      assert kd[k] == b.kd[k];
      BasePtr(h, b, k);
      var x :| x in Parse(h, data) && IsAt(x, k, fileId, b.kd[k]);
      SamePlace(h, data, x, it);
      if k in copied {
        var j :| 0 <= j < i && items[j].entry.key == k && LiveAt(b, items[j], fileId);
        SamePlace(h, data, items[j], it);
        ParseOrdered(h, data, 0);
      }
    }
  }

  lemma CopiedMore(b: Base, copied: Entries, fileId: nat, items: seq<Item>, i: nat, p: KeydirEntry)
    requires i < |items| && CopiedUpTo(b, copied, fileId, items, i)
    ensures LiveAt(b, items[i], fileId) ==> CopiedUpTo(b, copied[items[i].entry.key := p], fileId, items, i + 1)
    ensures (LiveAt(b, items[i], fileId) ==> items[i].entry.key in copied) ==>
      CopiedUpTo(b, copied, fileId, items, i + 1)
  {
  }

  lemma FileStart(h: Checksum, b: Base, copied: Entries, n: nat, fileId: nat, items: seq<Item>)
    requires BaseOk(h, b) && CopiedBelow(b, copied, n) && n <= fileId
    requires forall id :: n <= id < fileId ==> id !in b.disk.data
    ensures CopiedUpTo(b, copied, fileId, items, 0)
  {
    hide BaseOk;
    forall k | k in b.kd && b.kd[k].fileId < fileId
      ensures k in copied
    {
      BasePtr(h, b, k);
    }
  }

  lemma FileEnd(h: Checksum, b: Base, copied: Entries, fileId: nat)
    requires BaseOk(h, b) && fileId in b.disk.data
    requires CopiedUpTo(b, copied, fileId, Parse(h, b.disk.data[fileId]), |Parse(h, b.disk.data[fileId])|)
    ensures CopiedBelow(b, copied, fileId + 1)
  {
    hide BaseOk, ParseFrom;
    var items := Parse(h, b.disk.data[fileId]);
    forall k | k in b.kd && b.kd[k].fileId == fileId
      ensures k in copied
    {
      BasePtr(h, b, k);
      var it :| it in items && IsAt(it, k, fileId, b.kd[k]);
      var j :| 0 <= j < |items| && items[j] == it;
      assert LiveAt(b, items[j], fileId);
    }
    forall k | k in copied
      ensures k in b.kd && b.kd[k].fileId < fileId + 1
    {
      if b.kd[k].fileId >= fileId {
        var j :| 0 <= j < |items| && items[j].entry.key == k && LiveAt(b, items[j], fileId);
      }
    }
  }

  /** What the copy loop needs to know about a live item. */
  lemma LiveItemCopies(h: Checksum, b: Base, fileId: nat, it: Item)
    requires fileId in b.disk.data && it in Parse(h, b.disk.data[fileId]) && LiveAt(b, it, fileId)
    ensures Copies(b, it.entry) && it.entry.Consistent()
  {
    hide ParseFrom;
    PointsAtReads(h, b.disk, it.entry.key, b.kd[it.entry.key], it);
    ParseBounds(h, b.disk.data[fileId], 0);
    assert Holds(b.disk.data[fileId], 0, it);
  }

  // --- Copying forward ------------------------------------------------------

  function Sum(s: seq<nat>): nat {
    if s == [] then 0 else Sum(s[..|s| - 1]) + s[|s| - 1]
  }

  /** The counts merge reports. */
  class Metrics {
    var depths: seq<nat>

    constructor ()
      ensures depths == []
    {
      depths := [];
    }

    method RecordPendingQueueDepth(n: nat)
      modifies this
      ensures depths == old(depths) + [n]
      ensures Sum(depths) == Sum(old(depths)) + n
    {
      depths := depths + [n];
      assert depths[..|depths| - 1] == old(depths);
    }
  }

  predicate TopIs(fs: FileState, c: nat) {
    forall o :: o in fs.data ==> o <= c
  }

  /** What holds before and after each entry of the copy loop. */
  ghost predicate Running(w: MergeOutputWriter, kd: Entries, q: seq<Repoint>, depths: seq<nat>,
                          copied: Entries, live: nat, highest: nat)
    reads w, w.dir, w.counter, w.current
  {
    && w.Valid()
    && Progress(w.h, w.b, w.dir.fs, kd, copied, q)
    && |q| == w.pendingSinceFlush
    && |copied| == live && Sum(depths) + |q| == live
    && TopIs(w.dir.fs, w.current.fileId) && w.current.fileId == highest
  }

  /** Copies one live entry and queues its repoint. */
  method CopyAndQueue(w: MergeOutputWriter, pending: PendingQueue, fileId: nat, it: Item,
                      ghost kd: Entries, ghost copied: Entries)
    returns (flushed: bool, ghost p: KeydirEntry)
    requires w.Valid() && Progress(w.h, w.b, w.dir.fs, kd, copied, pending.items)
    requires TopIs(w.dir.fs, w.current.fileId)
    requires fileId < w.b.active && LiveAt(w.b, it, fileId) && it.entry.key !in copied
    requires it.entry.Consistent() && Copies(w.b, it.entry)
    modifies w, w.dir, w.counter, w.current, pending
    ensures w.Valid() && Progress(w.h, w.b, w.dir.fs, kd, copied[it.entry.key := p], pending.items)
    ensures TopIs(w.dir.fs, w.current.fileId) && w.current.fileId >= old(w.current.fileId)
    ensures w.current == old(w.current) || fresh(w.current)
    ensures |pending.items| == old(|pending.items|) + 1
    ensures w.pendingSinceFlush == if flushed then 0 else old(w.pendingSinceFlush) + 1
    ensures flushed ==> FlushedCopies(w.h, w.b, w.dir.fs)
  {
    hide BaseOk, Writing, AtRest, TraceSafe, OthersClosed, Copies, Parse, Progress, CopyBytes, DataAfter,
         FlushedCopies, IdsBelow, TopIs;
    ghost var fs0 := w.dir.fs;
    assert OldKept(w.b, fs0) by { WritingOld(w.h, w.b, fs0); }
    var newFileId, newValuePos, done := w.WriteLiveEntry(it.entry);
    flushed := done;
    assert OldKept(w.b, w.dir.fs) by { WritingOld(w.h, w.b, w.dir.fs); }
    pending.Queue(it.entry, fileId, newFileId, it.ValuePos(), newValuePos);
    p := KeydirEntry(newFileId, it.entry.header.valueSize, newValuePos, it.entry.header.timestamp);
    CopyProgress(w.h, w.b, fs0, w.dir.fs, kd, copied, old(pending.items), newFileId, w.current.fileId, flushed,
                 it.entry);
    TopGrows(fs0, w.dir.fs, newFileId, CopyBytes(w.h, it.entry), flushed, w.current.fileId);
    if flushed {
      AllFlushedOutputs(w.h, w.b, fs0, w.dir.fs, newFileId, CopyBytes(w.h, it.entry), w.current.fileId);
    }
  }

  /** Copies one live entry, queues its repoint and drains the queue if the copy was flushed. */
  method CopyLiveEntry(w: MergeOutputWriter, keydir: Keydir, pending: PendingQueue, metrics: Metrics,
                       fileId: nat, it: Item, live: nat, maxOutputId: nat, ghost copied: Entries)
    returns (live': nat, maxOutputId': nat, ghost p: KeydirEntry)
    requires Running(w, keydir.entries, pending.items, metrics.depths, copied, live, maxOutputId)
    requires fileId < w.b.active && LiveAt(w.b, it, fileId) && it.entry.key !in copied
    requires it.entry.Consistent() && Copies(w.b, it.entry)
    modifies w, w.dir, w.counter, w.current, keydir, pending, metrics
    ensures Running(w, keydir.entries, pending.items, metrics.depths, copied[it.entry.key := p], live', maxOutputId')
    ensures w.current == old(w.current) || fresh(w.current)
  {
    hide MergeOutputWriter.Valid, Copies, Progress, LiveAt, TopIs, FlushedCopies;
    var flushed;
    flushed, p := CopyAndQueue(w, pending, fileId, it, keydir.entries, copied);
    maxOutputId' := if w.current.fileId > maxOutputId then w.current.fileId else maxOutputId;
    live' := live + 1;
    if flushed {
      metrics.RecordPendingQueueDepth(|pending.items|);
      DrainProgress(w.h, w.b, w.dir.fs, keydir.entries, copied[it.entry.key := p], pending.items);
      ApplyPendingRepoints(keydir, pending);
    }
  }

  lemma WritingOld(h: Checksum, b: Base, fs: FileState)
    requires Writing(h, b, fs)
    ensures OldKept(b, fs)
  {
  }

  lemma TopGrows(fs: FileState, gs: FileState, c: nat, x: seq<Byte>, flushed: bool, n: nat)
    requires TopIs(fs, c) && c in fs.data && gs.data == DataAfter(fs.data, c, x, flushed, n) && n >= c
    ensures TopIs(gs, n)
  {
  }

  /** After a flush or rotation every output is flushed and holds only copies. */
  lemma AllFlushedOutputs(h: Checksum, b: Base, fs: FileState, gs: FileState, c: nat, x: seq<Byte>, n: nat)
    requires c in fs.data && gs.data == DataAfter(fs.data, c, x, true, n)
    requires Writing(h, b, gs) && OthersClosed(h, b, gs, n)
    ensures FlushedCopies(h, b, gs)
  {
    hide OnlyCopies;
    forall o | o in gs.data && o > b.active
      ensures OnlyCopies(h, b, gs.data[o].bytes) && gs.data[o].flushed == |gs.data[o].bytes|
    {
      assert OutputOk(h, b, gs.Written(), o);
      if o != n {
        assert Closed(h, gs, o);
      }
    }
  }

  /** One turn of the copy loop: skips a dead entry, copies a live one. */
  method ConsiderEntry(w: MergeOutputWriter, keydir: Keydir, pending: PendingQueue, metrics: Metrics,
                       fileId: nat, it: Item, live: nat, maxOutputId: nat, ghost copied: Entries, ghost i: nat)
    returns (live': nat, maxOutputId': nat, ghost copied': Entries)
    requires Running(w, keydir.entries, pending.items, metrics.depths, copied, live, maxOutputId)
    requires fileId < w.b.active && fileId in w.b.disk.data
    requires i < |Parse(w.h, w.b.disk.data[fileId])| && it == Parse(w.h, w.b.disk.data[fileId])[i]
    requires CopiedUpTo(w.b, copied, fileId, Parse(w.h, w.b.disk.data[fileId]), i)
    modifies w, w.dir, w.counter, w.current, keydir, pending, metrics
    ensures Running(w, keydir.entries, pending.items, metrics.depths, copied', live', maxOutputId')
    ensures w.current == old(w.current) || fresh(w.current)
    ensures CopiedUpTo(w.b, copied', fileId, Parse(w.h, w.b.disk.data[fileId]), i + 1)
  {
    hide Running, BaseOk, Copies, Parse, CopiedUpTo, KdIs, QueueOk;
    RunningParts(w, keydir.entries, pending.items, metrics.depths, copied, live, maxOutputId);
    ghost var items := Parse(w.h, w.b.disk.data[fileId]);
    LivenessIsExact(w.h, w.b, copied, pending.items, keydir.entries, fileId, i);
    live', maxOutputId', copied' := live, maxOutputId, copied;
    var isLive := false;
    if !it.entry.header.tombstone {
      var at := keydir.Get(it.entry.key);
      isLive := at.Some? && at.value.fileId == fileId && at.value.valuePos == it.ValuePos();
    }
    if isLive {
      LiveItemCopies(w.h, w.b, fileId, it);
      ghost var p;
      live', maxOutputId', p := CopyLiveEntry(w, keydir, pending, metrics, fileId, it, live, maxOutputId, copied);
      copied' := copied[it.entry.key := p];
      CopiedMore(w.b, copied, fileId, items, i, p);
    } else {
      CopiedMore(w.b, copied, fileId, items, i, KeydirEntry(0, 0, 0, 0));
    }
  }

  /** Copies the live entries of one input file forward. */
  method CopyForwardLiveFileEntries(w: MergeOutputWriter, keydir: Keydir, pending: PendingQueue, metrics: Metrics,
                                    fileId: nat, live: nat, highest: nat, ghost copied: Entries, ghost n: nat)
    returns (live': nat, highest': nat, ghost copied': Entries)
    requires Running(w, keydir.entries, pending.items, metrics.depths, copied, live, highest)
    requires fileId < w.b.active && fileId in w.b.disk.data
    requires n <= fileId && CopiedBelow(w.b, copied, n) && forall id :: n <= id < fileId ==> id !in w.b.disk.data
    modifies w, w.dir, w.counter, w.current, keydir, pending, metrics
    ensures Running(w, keydir.entries, pending.items, metrics.depths, copied', live', highest')
    ensures w.current == old(w.current) || fresh(w.current)
    ensures CopiedBelow(w.b, copied', fileId + 1)
  {
    hide Running, BaseOk, Parse, CopiedUpTo, CopiedBelow;
    RunningParts(w, keydir.entries, pending.items, metrics.depths, copied, live, highest);
    live' := live;
    copied' := copied;
    var maxOutputId := highest;
    var entries := ReadAllEntries(w.h, w.dir.fs.data[fileId].bytes);
    FileStart(w.h, w.b, copied, n, fileId, entries);
    var i := 0;
    while i < |entries|
      invariant 0 <= i <= |entries|
      invariant Running(w, keydir.entries, pending.items, metrics.depths, copied', live', maxOutputId)
      invariant w.current == old(w.current) || fresh(w.current)
      invariant CopiedUpTo(w.b, copied', fileId, entries, i)
    {
      live', maxOutputId, copied' :=
        ConsiderEntry(w, keydir, pending, metrics, fileId, entries[i], live', maxOutputId, copied', i);
      i := i + 1;
    }
    highest' := maxOutputId;
    FileEnd(w.h, w.b, copied', fileId);
  }

  /** What the copy loop uses of `Running`. */
  lemma RunningParts(w: MergeOutputWriter, kd: Entries, q: seq<Repoint>, depths: seq<nat>,
                     copied: Entries, live: nat, highest: nat)
    requires Running(w, kd, q, depths, copied, live, highest)
    ensures BaseOk(w.h, w.b)
    ensures KdIs(w.b, copied, q, kd) && QueueOk(w.b, copied, q) && forall k :: k in copied ==>
      copied[k].fileId > w.b.active
    ensures forall id :: id <= w.b.active && id in w.b.disk.data ==>
      id in w.dir.fs.data && w.dir.fs.data[id].bytes == w.b.disk.data[id]
  {
    hide AtRest, BaseOk, TraceSafe;
    forall id | 0 <= id <= w.b.active && id in w.b.disk.data
      ensures id in w.dir.fs.data && w.dir.fs.data[id].bytes == w.b.disk.data[id]
    {
      InputBytes(w.h, w.b, w.dir.fs, id);
    }
  }

  /** Inputs are untouched while outputs are written. */
  lemma InputBytes(h: Checksum, b: Base, fs: FileState, id: nat)
    requires Writing(h, b, fs) && id <= b.active && id in b.disk.data
    ensures id in fs.data && fs.data[id].bytes == b.disk.data[id]
  {
    assert SameFile(b.disk, fs.Written(), id);
  }
}
