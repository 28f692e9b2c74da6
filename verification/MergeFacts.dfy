/** Why merge keeps the store's meaning: outputs only ever repeat what the inputs say. */
module MergeFacts {
  import opened Bytes
  import opened Format
  import opened EntryFormat
  import opened Scan
  import opened Index
  import opened Recovery
  import opened DiskState
  import opened LogFacts
  import opened Files

  /** The store when merge starts: its files, the active file's id and the keydir. */
  datatype Base = Base(disk: Disk, active: nat, kd: Entries)

  ghost predicate BaseOk(h: Checksum, b: Base) {
    DirOk(h, b.disk) && ActiveOk(h, b.disk, b.active) && b.kd == Recovered(h, b.disk)
  }

  /** `e` repeats the live value of its key. */
  predicate Copies(b: Base, e: Entry) {
    && !e.header.tombstone && e.key in b.kd
    && ReadAt(b.disk, b.kd[e.key]) == Content(e.value, e.header.timestamp)
  }

  /** Every entry of the file repeats a live value. */
  ghost predicate OnlyCopies(h: Checksum, b: Base, data: seq<Byte>) {
    forall it :: it in Parse(h, data) ==> Copies(b, it.entry)
  }

  /** Directory `d` is the base with the inputs below `m` gone and files of copies on top. */
  ghost predicate Overlay(h: Checksum, b: Base, d: Disk, m: nat) {
    && m <= b.active
    && (forall id :: 0 <= id < m ==> id !in d.data)
    && (forall id :: m <= id <= b.active ==> SameFile(b.disk, d, id))
    && (forall o :: o in d.data && o > b.active ==>
         OnlyCopies(h, b, d.data[o]) && (o in d.hints ==> HintSound(h, d.data[o], d.hints[o])))
    && (forall k :: k in b.kd && b.kd[k].fileId < m ==> exists o :: o > b.active && Mentions(h, d, o, k))
  }

  predicate SameFile(d: Disk, e: Disk, id: nat) {
    Lookup(d.data, id) == Lookup(e.data, id) && Lookup(d.hints, id) == Lookup(e.hints, id)
  }

  ghost predicate Mentions(h: Checksum, d: Disk, o: nat, k: Key) {
    o in d.data && Newest(FileEffects(h, d, o), k).Some?
  }

  /** Either nothing from `lo` up mentions `k`, or the search ends at one such mention. */
  lemma {:induction false} FindAbove(h: Checksum, d: Disk, lo: nat, n: nat, k: Key) returns (hit: Option<nat>)
    requires lo <= n
    ensures hit == None ==> Find(h, d, n, k) == Find(h, d, lo, k) && forall o :: lo <= o < n ==> !Mentions(h, d, o, k)
    ensures hit.Some? ==> lo <= hit.value < n && Mentions(h, d, hit.value, k)
    ensures hit.Some? ==> Find(h, d, n, k) == Newest(FileEffects(h, d, hit.value), k).value
    decreases n - lo
  {
    hide FileEffects, Newest;
    if lo == n {
      hit := None;
    } else if n - 1 in d.data && Newest(FileEffects(h, d, n - 1), k).Some? {
      assert Mentions(h, d, n - 1, k);
      hit := Some(n - 1);
    } else {
      hit := FindAbove(h, d, lo, n - 1, k);
      assert !Mentions(h, d, n - 1, k);
    }
  }

  lemma {:induction false} FindNothing(h: Checksum, d: Disk, n: nat, k: Key)
    requires forall id :: 0 <= id < n ==> id !in d.data
    ensures Find(h, d, n, k) == None
  {
    if n > 0 {
      FindNothing(h, d, n - 1, k);
    }
  }

  /** Below the outputs the search ends where it did in the base, unless it ended in a removed input. */
  lemma {:induction false} FindKept(h: Checksum, b: Base, d: Disk, m: nat, j: nat, k: Key)
    requires BaseOk(h, b) && Overlay(h, b, d, m) && j <= b.active + 1
    ensures Find(h, d, j, k) == Find(h, b.disk, j, k)
         || (Find(h, d, j, k) == None && Find(h, b.disk, j, k).Some? && Find(h, b.disk, j, k).value.fileId < m)
  {
    hide FileEffects, Newest, OnlyCopies, Recovered, Mentions, PointsAt, HintSound;
    if j > 0 {
      if j <= m {
        FindFrom(h, b.disk, j, k);
        FindNothing(h, d, j, k);
      } else {
        FindKept(h, b, d, m, j - 1, k);
        assert SameFile(b.disk, d, j - 1);
        if j - 1 in d.data {
          FileEffectsSame(h, b.disk, d, j - 1);
        }
      }
    }
  }

  lemma FileEffectsSame(h: Checksum, d: Disk, e: Disk, id: nat)
    requires SameFile(d, e, id) && id in d.data
    ensures id in e.data && FileEffects(h, d, id) == FileEffects(h, e, id)
  {
  }

  /** A mention in a file of copies is a live pointer that reads the base's value. */
  lemma CopyReads(h: Checksum, b: Base, d: Disk, o: nat, k: Key)
    requires o in d.data && OnlyCopies(h, b, d.data[o]) && (o in d.hints ==> HintSound(h, d.data[o], d.hints[o]))
    requires Newest(FileEffects(h, d, o), k).Some?
    ensures
      var p := Newest(FileEffects(h, d, o), k).value;
      p.Some? && p.value.fileId == o && PointsAt(h, d, k, p.value)
      && k in b.kd && ReadAt(d, p.value) == ReadAt(b.disk, b.kd[k])
  {
    hide HintSound, Newest;
    var es := FileEffects(h, d, o);
    NewestIs(es, k);
    var i :| 0 <= i < |es| && es[i] == Effect(k, Newest(es, k).value);
    CopyEffectsLive(h, b, d, o, i);
    EffectsBacked(h, d, o, i);
    var p := es[i].entry.value;
    var it :| it in Parse(h, d.data[o]) && IsAt(it, k, o, p);
    assert Copies(b, it.entry);
    PointsAtReads(h, d, k, p, it);
  }

  /** A file of copies contributes no deletion. */
  lemma CopyEffectsLive(h: Checksum, b: Base, d: Disk, o: nat, i: nat)
    requires o in d.data && OnlyCopies(h, b, d.data[o]) && (o in d.hints ==> HintSound(h, d.data[o], d.hints[o]))
    requires i < |FileEffects(h, d, o)|
    ensures FileEffects(h, d, o)[i].entry.Some?
  {
    var data := d.data[o];
    if o in d.hints && TrustedHints(h, d.hints[o], |data|).Some? {
      assert Backed(h, data, TrustedHints(h, d.hints[o], |data|).value[i]);
    } else {
      assert Copies(b, Parse(h, data)[i].entry);
    }
  }

  /** What one key reads as in the overlay. */
  lemma OverlayKey(h: Checksum, b: Base, d: Disk, m: nat, k: Key)
    requires BaseOk(h, b) && Overlay(h, b, d, m)
    ensures k in Recovered(h, d) <==> k in b.kd
    ensures k in b.kd ==> ReadAt(d, Recovered(h, d)[k]) == ReadAt(b.disk, b.kd[k])
    ensures k in b.kd && (forall o :: o > b.active ==> !Mentions(h, d, o, k)) ==> Recovered(h, d)[k] == b.kd[k]
    ensures k in b.kd && (exists o :: o > b.active && Mentions(h, d, o, k)) ==>
      Recovered(h, d)[k].fileId > b.active && PointsAt(h, d, k, Recovered(h, d)[k])
  {
    hide OnlyCopies, FileEffects, Newest, PointsAt, HintSound, Find, RecoverBelow;
    var n := NextId(d.data.Keys);
    assert SameFile(b.disk, d, b.active);
    assert b.active in d.data.Keys;
    RecoverIsFind(h, d, n, k);
    RecoverIsFind(h, b.disk, b.active + 1, k);
    var hit := FindAbove(h, d, b.active + 1, n, k);
    if hit.Some? {
      CopyReads(h, b, d, hit.value, k);
    } else {
      assert forall o :: o > b.active ==> !Mentions(h, d, o, k);
      FindKept(h, b, d, m, b.active + 1, k);
      if k in b.kd {
        assert b.kd[k].fileId >= m;
        BasePtr(h, b, k);
        assert SameFile(b.disk, d, b.kd[k].fileId);
      }
    }
  }

  /** A pointer of the base leads into one of its files. */
  lemma BasePtr(h: Checksum, b: Base, k: Key)
    requires BaseOk(h, b) && k in b.kd
    ensures b.kd[k].fileId <= b.active && PointsAt(h, b.disk, k, b.kd[k])
  {
    hide PointsAt, HintSound, Find, RecoverBelow;
    RecoverIsFind(h, b.disk, b.active + 1, k);
    FindFrom(h, b.disk, b.active + 1, k);
  }

  /** An overlay presents the same store. */
  lemma OverlayView(h: Checksum, b: Base, d: Disk, m: nat)
    requires BaseOk(h, b) && Overlay(h, b, d, m)
    ensures StoreView(h, d) == StoreView(h, b.disk)
  {
    hide Overlay, Recovered, ReadAt, BaseOk;
    BaseKd(h, b);
    forall k
      ensures k in Recovered(h, d) <==> k in b.kd
      ensures k in b.kd ==> ReadAt(d, Recovered(h, d)[k]) == ReadAt(b.disk, b.kd[k])
    {
      OverlayKey(h, b, d, m, k);
    }
    assert StoreView(h, d).Keys == StoreView(h, b.disk).Keys;
  }

  lemma BaseKd(h: Checksum, b: Base)
    requires BaseOk(h, b)
    ensures b.kd == Recovered(h, b.disk)
  {
  }

  // --- Crashing while outputs are being written ---------------------------

  /** The files merge found, flushed and untouched. */
  predicate OldKept(b: Base, fs: FileState) {
    && (forall id :: 0 <= id <= b.active ==> SameFile(b.disk, fs.Written(), id))
    && (forall id :: id in fs.data && id <= b.active ==> fs.data[id].flushed == |fs.data[id].bytes|)
    && (forall id :: id in fs.hints && id <= b.active ==> fs.hints[id].flushed == |fs.hints[id].bytes|)
  }

  /** An output file: copies only, and a hint file that tells no lies. */
  ghost predicate OutputOk(h: Checksum, b: Base, w: Disk, o: nat) {
    && o in w.data && |w.data[o]| < MAX_U64
    && OnlyCopies(h, b, w.data[o])
    && (o in w.hints ==> exists recs :: HonestWith(h, w.data[o], w.hints[o], recs))
  }

  /** Any moment of a merge before inputs are removed. */
  ghost predicate Writing(h: Checksum, b: Base, fs: FileState) {
    && OldKept(b, fs)
    && (forall o :: o in fs.data && o > b.active ==> OutputOk(h, b, fs.Written(), o))
    && (forall o :: o in fs.hints && o !in fs.data ==> o < b.active)
  }

  /** The directory opens, and to the same store, whatever a crash leaves of it. */
  ghost predicate CrashSafe(h: Checksum, b: Base, fs: FileState) {
    forall d :: MayCrashTo(fs, d) ==> DirOk(h, d) && StoreView(h, d) == StoreView(h, b.disk)
  }

  lemma OutputCrash(h: Checksum, b: Base, fs: FileState, d: Disk, o: nat)
    requires OutputOk(h, b, fs.Written(), o) && MayCrashTo(fs, d)
    ensures OnlyCopies(h, b, d.data[o])
    ensures o in d.hints ==> HintSound(h, d.data[o], d.hints[o])
  {
    hide HonestWith, HintSound, ParseFrom;
    var data := fs.Written().data[o];
    var c := |d.data[o]|;
    assert CutOf(fs.data[o], d.data[o]) && d.data[o] == data[..c];
    forall it | it in Parse(h, d.data[o])
      ensures Copies(b, it.entry)
    {
      CutItems(h, data, it, c);
    }
    if o in d.hints {
      var hint := fs.Written().hints[o];
      assert CutOf(fs.hints[o], d.hints[o]) && d.hints[o] == hint[..|d.hints[o]|];
      var recs :| HonestWith(h, data, hint, recs);
      HonestCut(h, data, hint, recs, c, |d.hints[o]|);
    }
  }

  lemma OldCrash(b: Base, fs: FileState, d: Disk, id: nat)
    requires id <= b.active && SameFile(b.disk, fs.Written(), id) && MayCrashTo(fs, d)
    requires id in fs.data ==> fs.data[id].flushed == |fs.data[id].bytes|
    requires id in fs.hints ==> fs.hints[id].flushed == |fs.hints[id].bytes|
    ensures SameFile(b.disk, d, id)
  {
    if id in d.data {
      CutOfFlushed(fs.data[id], d.data[id]);
    }
    if id in d.hints {
      CutOfFlushed(fs.hints[id], d.hints[id]);
    }
  }

  lemma CutOfFlushed(f: File, s: seq<Byte>)
    requires CutOf(f, s) && f.flushed == |f.bytes|
    ensures s == f.bytes
  {
  }

  /** A crash while outputs are being written, torn data and torn or trailerless hints included, loses nothing. */
  lemma WritingIsCrashSafe(h: Checksum, b: Base, fs: FileState)
    requires BaseOk(h, b) && Writing(h, b, fs)
    ensures CrashSafe(h, b, fs)
  {
    hide OutputOk, OnlyCopies, HintSound, Recovered;
    forall d | MayCrashTo(fs, d)
      ensures DirOk(h, d) && StoreView(h, d) == StoreView(h, b.disk)
    {
      forall id | 0 <= id <= b.active
        ensures SameFile(b.disk, d, id)
      {
        OldCrash(b, fs, d, id);
      }
      forall o | o in d.data && o > b.active
        ensures OnlyCopies(h, b, d.data[o]) && (o in d.hints ==> HintSound(h, d.data[o], d.hints[o]))
      {
        OutputCrash(h, b, fs, d, o);
      }
      OverlayDirOk(h, b, d, 0);
      OverlayView(h, b, d, 0);
    }
  }

  lemma OverlayDirOk(h: Checksum, b: Base, d: Disk, m: nat)
    requires BaseOk(h, b) && Overlay(h, b, d, m)
    requires forall o :: o in d.hints && o !in d.data ==> o < b.active
    ensures DirOk(h, d)
  {
    hide OnlyCopies, HintSound, Recovered, Mentions;
    assert SameFile(b.disk, d, b.active);
    assert b.active in d.data.Keys;
    forall id | id in d.data && id in d.hints
      ensures HintSound(h, d.data[id], d.hints[id])
    {
      if id <= b.active {
        assert SameFile(b.disk, d, id);
      }
    }
  }
}
