/** Each thing the merge writer does to the directory keeps a crash harmless. */
module MergeSteps {
  import opened Bytes
  import opened Format
  import opened EntryFormat
  import opened HintFormat
  import opened Scan
  import opened Index
  import opened Recovery
  import opened DiskState
  import opened LogFacts
  import opened Files
  import opened MergeFacts

  function CopyBytes(h: Checksum, e: Entry): seq<Byte> {
    EntryBytes(h, e.key, e.value, false, e.header.timestamp)
  }

  function CopyHint(e: Entry, valuePos: U64): HintRec {
    HintRec(e.header, valuePos, e.key)
  }

  /** Nothing but file `c` differs. */
  ghost predicate OnlyChangesFile(fs: FileState, gs: FileState, c: nat) {
    && (forall id :: id != c ==> (id in fs.data <==> id in gs.data) && (id in fs.hints <==> id in gs.hints))
    && (forall id :: id != c && id in fs.data ==> fs.data[id] == gs.data[id])
    && (forall id :: id != c && id in fs.hints ==> fs.hints[id] == gs.hints[id])
  }

  /** Changing one output file keeps the merge crash-safe when that file stays an acceptable output. */
  lemma ChangeOutput(h: Checksum, b: Base, fs: FileState, gs: FileState, c: nat)
    requires Writing(h, b, fs) && c > b.active && OnlyChangesFile(fs, gs, c)
    requires c in gs.data && OutputOk(h, b, gs.Written(), c)
    ensures Writing(h, b, gs)
  {
    hide OnlyCopies, HonestWith;
    var w, v := fs.Written(), gs.Written();
    forall id | 0 <= id <= b.active
      ensures SameFile(b.disk, v, id)
    {
      assert SameFile(b.disk, w, id);
    }
    forall o | o in gs.data && o > b.active
      ensures OutputOk(h, b, v, o)
    {
      if o != c {
        assert OutputOk(h, b, w, o);
        assert v.data[o] == w.data[o] && (o in v.hints ==> v.hints[o] == w.hints[o]);
      }
    }
  }

  lemma BackedGrows(h: Checksum, s: seq<Byte>, x: seq<Byte>, recs: seq<HintRec>)
    requires Whole(h, s) && forall i :: 0 <= i < |recs| ==> Backed(h, s, recs[i])
    ensures forall i :: 0 <= i < |recs| ==> Backed(h, s + x, recs[i])
  {
    hide ParseFrom, Whole;
    ParseAppend(h, s, x, 0);
    forall i | 0 <= i < |recs|
      ensures Backed(h, s + x, recs[i])
    {
      assert Backed(h, s, recs[i]);
      var it :| it in Parse(h, s) && HintFor(it, recs[i]) && !it.entry.header.tombstone;
      assert it in Parse(h, s + x);
    }
  }

  /** What a scan finds after a live entry was copied to the end of a whole file. */
  lemma CopyParses(h: Checksum, s: seq<Byte>, e: Entry)
    requires Whole(h, s) && e.Consistent() && !e.header.tombstone
    ensures Whole(h, s + CopyBytes(h, e)) && |CopyBytes(h, e)| == e.Len()
    ensures Parse(h, s + CopyBytes(h, e)) == Parse(h, s) + [Item(|s|, e)]
  {
    AppendParses(h, s, e.key, e.value, false, e.header.timestamp);
    assert MakeEntry(e.key, e.value, false, e.header.timestamp) == e;
  }

  /** Copying a live entry to an output file. */
  lemma AppendCopy(h: Checksum, b: Base, fs: FileState, c: nat, e: Entry)
    requires Writing(h, b, fs) && c > b.active && c in fs.data
    requires Whole(h, fs.data[c].bytes) && e.Consistent() && Copies(b, e)
    requires |fs.data[c].bytes| + e.Len() < MAX_U64
    ensures Writing(h, b, fs.AppendData(c, CopyBytes(h, e)))
  {
    hide ParseFrom, Whole, EntryBytes, Copies;
    var s := fs.data[c].bytes;
    var x := CopyBytes(h, e);
    var gs := fs.AppendData(c, x);
    assert OutputOk(h, b, fs.Written(), c);
    assert !e.header.tombstone by { assert Copies(b, e); NotTomb(b, e); }
    CopyParses(h, s, e);
    assert OnlyCopies(h, b, s + x);
    if c in fs.hints {
      var recs :| HonestWith(h, s, fs.hints[c].bytes, recs);
      BackedGrows(h, s, x, recs);
      assert HonestWith(h, s + x, gs.Written().hints[c], recs);
    }
    ChangeOutput(h, b, fs, gs, c);
  }

  lemma NotTomb(b: Base, e: Entry)
    requires Copies(b, e)
    ensures !e.header.tombstone
  {
  }

  /** The writer between two entries: a whole data file and one hint record for each entry in it. */
  ghost predicate AtRest(h: Checksum, w: Disk, c: nat, recs: seq<HintRec>) {
    && c in w.data && c in w.hints
    && Whole(h, w.data[c])
    && HintsMatch(Parse(h, w.data[c]), recs)
    && w.hints[c] == HintStream(recs)
  }

  /** A finished output: flushed, its hint file closed over exactly its entries. */
  ghost predicate Closed(h: Checksum, fs: FileState, o: nat) {
    && o in fs.data && o in fs.hints
    && fs.data[o].flushed == |fs.data[o].bytes| && fs.hints[o].flushed == |fs.hints[o].bytes|
    && exists recs :: HintsMatch(Parse(h, fs.data[o].bytes), recs) && fs.hints[o].bytes == ClosedHint(h, recs)
  }

  lemma MatchHonest(h: Checksum, b: Base, data: seq<Byte>, recs: seq<HintRec>, hint: seq<Byte>)
    requires OnlyCopies(h, b, data) && HintsMatch(Parse(h, data), recs)
    requires hint == HintStream(recs) || (|hint| == |HintStream(recs)| + HINT_TRAILER_SIZE && HintStream(recs) <= hint)
    ensures HonestWith(h, data, hint, recs)
  {
    hide ParseFrom;
    ParseBounds(h, data, 0);
    forall i | 0 <= i < |recs|
      ensures recs[i].Consistent() && Backed(h, data, recs[i])
    {
      var it := Parse(h, data)[i];
      assert Holds(data, 0, it) && HintFor(it, recs[i]) && Copies(b, it.entry);
    }
  }

  /** Writing the hint record of the entry just copied. */
  lemma AppendRecord(h: Checksum, b: Base, fs: FileState, c: nat, items: seq<Item>, recs: seq<HintRec>, it: Item,
                     r: HintRec)
    requires Writing(h, b, fs) && c > b.active && c in fs.data && c in fs.hints
    requires Parse(h, fs.data[c].bytes) == items + [it] && HintsMatch(items, recs) && HintFor(it, r)
    requires fs.hints[c].bytes == HintStream(recs)
    ensures Writing(h, b, fs.AppendHint(c, HintBytes(r)))
    ensures HintsMatch(items + [it], recs + [r])
    ensures fs.AppendHint(c, HintBytes(r)).hints[c].bytes == HintStream(recs + [r])
  {
    hide ParseFrom, HintBytes, HintStream;
    var gs := fs.AppendHint(c, HintBytes(r));
    assert OutputOk(h, b, fs.Written(), c);
    HintStreamAppend(recs, r);
    MatchHonest(h, b, fs.data[c].bytes, recs + [r], gs.hints[c].bytes);
    assert gs.Written().data[c] == fs.data[c].bytes;
    ChangeOutput(h, b, fs, gs, c);
  }

  /** Writing the checksum trailer. */
  lemma AppendTrailer(h: Checksum, b: Base, fs: FileState, c: nat, recs: seq<HintRec>)
    requires Writing(h, b, fs) && c > b.active && AtRest(h, fs.Written(), c, recs)
    ensures Writing(h, b, fs.AppendHint(c, Le32(h.Hash(HintStream(recs)))))
  {
    hide ParseFrom, HintStream, Whole;
    var x := Le32(h.Hash(HintStream(recs)));
    var gs := fs.AppendHint(c, x);
    assert OutputOk(h, b, fs.Written(), c);
    MatchHonest(h, b, fs.data[c].bytes, recs, gs.hints[c].bytes);
    assert gs.Written().data[c] == fs.data[c].bytes;
    ChangeOutput(h, b, fs, gs, c);
  }

  /** Flushing an output changes nothing that was written. */
  lemma FlushOutput(h: Checksum, b: Base, fs: FileState, c: nat)
    requires Writing(h, b, fs) && c > b.active
    ensures c in fs.data ==> Writing(h, b, fs.FlushData(c)) && fs.FlushData(c).Written() == fs.Written()
    ensures c in fs.data && c in fs.hints ==>
      Writing(h, b, fs.FlushHint(c)) && fs.FlushHint(c).Written() == fs.Written()
  {
    hide OutputOk;
    if c in fs.data {
      assert fs.FlushData(c).Written() == fs.Written();
      assert OutputOk(h, b, fs.Written(), c);
      ChangeOutput(h, b, fs, fs.FlushData(c), c);
      if c in fs.hints {
        assert fs.FlushHint(c).Written() == fs.Written();
        ChangeOutput(h, b, fs, fs.FlushHint(c), c);
      }
    }
  }

  /** Starting a new output: its data file first, then its hint file. */
  lemma CreateOutput(h: Checksum, b: Base, fs: FileState, n: nat)
    requires Writing(h, b, fs) && n > b.active && n !in fs.data && n !in fs.hints
    ensures Writing(h, b, fs.CreateData(n)) && Writing(h, b, fs.CreateData(n).CreateHint(n))
    ensures AtRest(h, fs.CreateData(n).CreateHint(n).Written(), n, [])
  {
    hide OutputOk, ParseFrom, Whole, HonestWith;
    EmptyFile(h, b);
    var gs := fs.CreateData(n);
    var ks := gs.CreateHint(n);
    assert gs.Written().data[n] == [] && n !in gs.Written().hints;
    EmptyOutput(h, b, gs.Written(), n);
    ChangeOutput(h, b, fs, gs, n);
    assert ks.Written().data[n] == [] && ks.Written().hints[n] == [];
    EmptyOutput(h, b, ks.Written(), n);
    ChangeOutput(h, b, gs, ks, n);
  }

  lemma EmptyFile(h: Checksum, b: Base)
    ensures Parse(h, []) == [] && Whole(h, []) && OnlyCopies(h, b, []) && HonestWith(h, [], [], [])
  {
  }

  lemma EmptyOutput(h: Checksum, b: Base, w: Disk, n: nat)
    requires n in w.data && w.data[n] == [] && (n in w.hints ==> w.hints[n] == [])
    ensures OutputOk(h, b, w, n)
  {
    EmptyFile(h, b);
  }

  // --- Removing inputs --------------------------------------------------

  /** `copied` is where the copy of each key lies, and the outputs hold nothing else. */
  ghost predicate Indexed(h: Checksum, b: Base, w: Disk, copied: Entries) {
    && (forall o, it :: o in w.data && o > b.active && it in Parse(h, w.data[o]) ==>
         it.entry.key in copied && copied[it.entry.key] == PtrTo(o, it))
    && (forall k :: k in copied ==> k in b.kd && b.kd[k].fileId < b.active && copied[k].fileId > b.active
                                    && PointsAt(h, w, k, copied[k]))
  }

  /** Every key that lived in an input has its copy. */
  predicate AllCopied(b: Base, copied: Entries) {
    forall k :: k in b.kd && b.kd[k].fileId < b.active ==> k in copied
  }

  /** The outputs are finished and the inputs below `m` are gone. */
  ghost predicate Removing(h: Checksum, b: Base, fs: FileState, copied: Entries, m: nat) {
    && m <= b.active
    && (forall id :: 0 <= id < m ==> id !in fs.data)
    && (forall id :: m <= id <= b.active ==> SameFile(b.disk, fs.Written(), id))
    && (forall id :: id in fs.data ==> fs.data[id].flushed == |fs.data[id].bytes|)
    && (forall id :: id in fs.hints ==> fs.hints[id].flushed == |fs.hints[id].bytes|)
    && (forall o :: o in fs.data && o > b.active ==>
         OutputOk(h, b, fs.Written(), o) && (Closed(h, fs, o) || (fs.data[o].bytes == [] && o !in fs.hints)))
    && (forall o :: o in fs.hints && o !in fs.data ==> o < b.active)
    && Indexed(h, b, fs.Written(), copied) && AllCopied(b, copied)
  }

  /** A finished output is read the same through its hint file as by a scan. */
  lemma ClosedEffects(h: Checksum, fs: FileState, o: nat)
    requires Closed(h, fs, o) && |fs.data[o].bytes| < MAX_U64
    ensures FileEffects(h, fs.Written(), o) == ItemEffects(o, Parse(h, fs.data[o].bytes))
  {
    hide ParseFrom;
    var recs :| HintsMatch(Parse(h, fs.data[o].bytes), recs) && fs.hints[o].bytes == ClosedHint(h, recs);
    ClosedHintIsScan(h, fs.Written(), o, recs);
  }

  /** The copy of a key is found by recovery. */
  lemma CopyMentioned(h: Checksum, b: Base, fs: FileState, copied: Entries, m: nat, k: Key)
    requires Removing(h, b, fs, copied, m) && k in copied
    ensures copied[k].fileId > b.active && Mentions(h, fs.Written(), copied[k].fileId, k)
  {
    hide ParseFrom, OutputOk, HintsMatch, FileEffects;
    var w, o := fs.Written(), copied[k].fileId;
    assert PointsAt(h, w, k, copied[k]);
    var it :| it in Parse(h, w.data[o]) && IsAt(it, k, o, copied[k]);
    assert w.data[o] == fs.data[o].bytes;
    assert fs.data[o].bytes != [] by { EmptyFile(h, b); }
    assert OutputOk(h, b, w, o) by { }
    assert |fs.data[o].bytes| < MAX_U64 by { OutputSmall(h, b, w, o); }
    ClosedEffects(h, fs, o);
    var items := Parse(h, fs.data[o].bytes);
    var i :| 0 <= i < |items| && items[i] == it;
    NewestIs(ItemEffects(o, items), k);
    assert ItemEffects(o, items)[i].key == k;
  }

  lemma OutputSmall(h: Checksum, b: Base, w: Disk, o: nat)
    requires OutputOk(h, b, w, o)
    ensures |w.data[o]| < MAX_U64
  {
  }

  /** While inputs are being removed the directory is an overlay of the base. */
  lemma RemovingOverlay(h: Checksum, b: Base, fs: FileState, copied: Entries, m: nat, d: Disk)
    requires BaseOk(h, b) && Removing(h, b, fs, copied, m) && MayCrashTo(fs, d)
    ensures d == fs.Written() == fs.OnDisk() && Overlay(h, b, d, m) && DirOk(h, d)
  {
    hide ParseFrom, Closed, OutputOk, OnlyCopies, HintSound, Indexed, Mentions;
    FlushedImage(fs, d);
    FlushedWritten(fs);
    forall o | o in d.data && o > b.active
      ensures OnlyCopies(h, b, d.data[o]) && (o in d.hints ==> HintSound(h, d.data[o], d.hints[o]))
    {
      OutputCrash(h, b, fs, d, o);
    }
    forall k | k in b.kd && b.kd[k].fileId < m
      ensures exists o :: o > b.active && Mentions(h, d, o, k)
    {
      CopyMentioned(h, b, fs, copied, m, k);
    }
    OverlayDirOk(h, b, d, m);
  }

  /** A crash after any number of inputs were removed, lowest id first, loses nothing and resurrects nothing. */
  lemma RemovingIsCrashSafe(h: Checksum, b: Base, fs: FileState, copied: Entries, m: nat)
    requires BaseOk(h, b) && Removing(h, b, fs, copied, m)
    ensures CrashSafe(h, b, fs)
  {
    hide Removing, Overlay;
    forall d | MayCrashTo(fs, d)
      ensures DirOk(h, d) && StoreView(h, d) == StoreView(h, b.disk)
    {
      RemovingOverlay(h, b, fs, copied, m, d);
      OverlayView(h, b, d, m);
    }
  }

  /** The keydir once every pending repoint has been applied. */
  function Repointed(kd: Entries, copied: Entries): Entries {
    map k | k in kd :: if k in copied then copied[k] else kd[k]
  }

  /** Recovering from what merge leaves gives the repointed keydir, pointer for pointer. */
  lemma RemovedRecovers(h: Checksum, b: Base, fs: FileState, copied: Entries)
    requires BaseOk(h, b) && Removing(h, b, fs, copied, b.active)
    ensures Recovered(h, fs.OnDisk()) == Repointed(b.kd, copied)
  {
    hide Removing, Overlay, Recovered, PointsAt, Mentions;
    var d := fs.OnDisk();
    FlushedCrash(h, b, fs, copied);
    RemovingOverlay(h, b, fs, copied, b.active, d);
    var kd := Recovered(h, d);
    forall k
      ensures k in kd <==> k in b.kd
      ensures k in kd ==> kd[k] == Repointed(b.kd, copied)[k]
    {
      OverlayKey(h, b, d, b.active, k);
      if k in b.kd {
        if k in copied {
          CopyMentioned(h, b, fs, copied, b.active, k);
          IndexedPtr(h, b, fs, copied, k, kd[k]);
        } else {
          forall o | o > b.active
            ensures !Mentions(h, d, o, k)
          {
            if Mentions(h, d, o, k) {
              MentionIndexed(h, b, fs, copied, o, k);
            }
          }
        }
      }
    }
  }

  lemma FlushedCrash(h: Checksum, b: Base, fs: FileState, copied: Entries)
    requires Removing(h, b, fs, copied, b.active)
    ensures MayCrashTo(fs, fs.OnDisk())
  {
  }

  lemma IndexedPtr(h: Checksum, b: Base, fs: FileState, copied: Entries, k: Key, p: KeydirEntry)
    requires Removing(h, b, fs, copied, b.active) && p.fileId > b.active && PointsAt(h, fs.Written(), k, p)
    ensures k in copied && copied[k] == p
  {
    hide ParseFrom, OutputOk, Closed;
    var it :| it in Parse(h, fs.Written().data[p.fileId]) && IsAt(it, k, p.fileId, p);
  }

  lemma MentionIndexed(h: Checksum, b: Base, fs: FileState, copied: Entries, o: nat, k: Key)
    requires BaseOk(h, b) && Removing(h, b, fs, copied, b.active) && o > b.active && Mentions(h, fs.Written(), o, k)
    ensures k in copied
  {
    hide ParseFrom, OutputOk, Closed, Overlay, Removing, OnlyCopies, HintSound, FileEffects;
    FlushedCrash(h, b, fs, copied);
    RemovingOverlay(h, b, fs, copied, b.active, fs.OnDisk());
    var d := fs.OnDisk();
    assert OnlyCopies(h, b, d.data[o]) && (o in d.hints ==> HintSound(h, d.data[o], d.hints[o]))
        by { OverlayOutput(h, b, d, o); }
    CopyReads(h, b, d, o, k);
    IndexedPtr(h, b, fs, copied, k, Newest(FileEffects(h, d, o), k).value.value);
  }

  lemma OverlayOutput(h: Checksum, b: Base, d: Disk, o: nat)
    requires Overlay(h, b, d, b.active) && o in d.data && o > b.active
    ensures OnlyCopies(h, b, d.data[o]) && (o in d.hints ==> HintSound(h, d.data[o], d.hints[o]))
  {
  }
}
