/** What one append, with or without rotation, does to a store. */
module EngineFacts {
  import opened Bytes
  import opened Format
  import opened EntryFormat
  import opened HintFormat
  import opened Scan
  import opened Index
  import opened Recovery
  import opened DiskState
  import opened LogFacts
  import opened Files
  import opened MergeRun
  import opened MergeWriter

  /** Whatever a crash leaves opens, to the store before the operation or to the one after it. */
  ghost predicate OldOrNew(h: Checksum, fs: FileState, before: map<Key, Reading>, after: map<Key, Reading>) {
    forall d :: MayCrashTo(fs, d) ==> DirOk(h, d) && (StoreView(h, d) == before || StoreView(h, d) == after)
  }

  ghost predicate TraceOldOrNew(h: Checksum, trace: seq<FileState>, start: seq<FileState>,
                                before: map<Key, Reading>, after: map<Key, Reading>) {
    start <= trace && forall i :: |start| <= i < |trace| ==> OldOrNew(h, trace[i], before, after)
  }

  lemma TraceSnoc(h: Checksum, trace: seq<FileState>, start: seq<FileState>, fs: FileState,
                  before: map<Key, Reading>, after: map<Key, Reading>)
    requires TraceOldOrNew(h, trace, start, before, after) && OldOrNew(h, fs, before, after)
    ensures TraceOldOrNew(h, trace + [fs], start, before, after)
  {
    hide OldOrNew;
  }

  /** What the record does to the view. */
  function ViewAfter(view: map<Key, Reading>, key: Key, value: Value, tombstone: bool, timestamp: U32): map<Key,
                     Reading> {
    if tombstone then view - {key} else view[key := Content(value, timestamp)]
  }

  /** Between operations what is on disk opens to the live store. */
  lemma QuietCrash(h: Checksum, fs: FileState, kd: Entries, a: nat, next: nat, before: map<Key, Reading>)
    requires StoreOk(h, fs, kd, a, next)
    ensures OldOrNew(h, fs, before, ViewOf(fs.OnDisk(), kd))
  {
    hide Recovered, DirOk, ActiveOk;
    forall d | MayCrashTo(fs, d)
      ensures d == fs.OnDisk()
    {
      FlushedImage(fs, d);
    }
  }

  lemma FlushNothing(fs: FileState, a: nat)
    requires fs.AllFlushed() && a in fs.data
    ensures fs.FlushData(a) == fs
  {
    assert fs.data[a := Flushed(fs.data[a])] == fs.data;
  }

  lemma AppendedDisk(fs: FileState, a: nat, x: seq<Byte>)
    requires fs.AllFlushed() && a in fs.data
    ensures
      var gs := fs.AppendData(a, x).FlushData(a);
      gs.AllFlushed() && gs.OnDisk() == WithData(fs.OnDisk(), a, fs.OnDisk().data[a] + x)
  {
    var gs := fs.AppendData(a, x).FlushData(a);
    var d := WithData(fs.OnDisk(), a, fs.OnDisk().data[a] + x);
    assert fs.OnDisk().data[a] == fs.data[a].bytes;
    assert gs.OnDisk().data[a] == gs.data[a].bytes;
    assert gs.OnDisk().data == d.data;
    assert gs.OnDisk().hints == d.hints;
  }

  /** A completed append: the disk recovers to the keydir with this one change, which reads as the value just
      written. */
  lemma AppendStore(h: Checksum, fs: FileState, kd: Entries, a: nat, next: nat,
                    key: Key, value: Value, tombstone: bool, timestamp: U32)
    requires StoreOk(h, fs, kd, a, next) && Encodable(key, value)
    ensures a in fs.data
    ensures
      var gs := fs.AppendData(a, EntryBytes(h, key, value, tombstone, timestamp)).FlushData(a);
      var kd' := Apply(kd, AppendEffect(a, |fs.data[a].bytes|, key, value, tombstone, timestamp));
      && StoreOk(h, gs, kd', a, next)
      && ViewOf(gs.OnDisk(), kd') == ViewAfter(ViewOf(fs.OnDisk(), kd), key, value, tombstone, timestamp)
  {
    hide EntryBytes, HintSound, Recovered, Whole;
    var x := EntryBytes(h, key, value, tombstone, timestamp);
    var d := fs.OnDisk();
    var s := d.data[a];
    assert s == fs.data[a].bytes;
    AppendedDisk(fs, a, x);
    AppendRecovers(h, d, a, key, value, tombstone, timestamp);
    DirOkWithActive(h, d, a, s + x);
    AppendView(h, d, kd, a, key, value, tombstone, timestamp);
  }

  lemma AppendView(h: Checksum, d: Disk, kd: Entries, a: nat, key: Key, value: Value, tombstone: bool, timestamp: U32)
    requires DirOk(h, d) && a in d.data && kd == Recovered(h, d) && Encodable(key, value)
    ensures
      var s := d.data[a];
      var e := WithData(d, a, s + EntryBytes(h, key, value, tombstone, timestamp));
      ViewOf(e, Apply(kd, AppendEffect(a, |s|, key, value, tombstone, timestamp)))
        == ViewAfter(ViewOf(d, kd), key, value, tombstone, timestamp)
  {
    hide HintSound, Recovered, EntryTail, EntryBytes, ReadAt;
    var s := d.data[a];
    var x := EntryBytes(h, key, value, tombstone, timestamp);
    var e := WithData(d, a, s + x);
    var kd' := Apply(kd, AppendEffect(a, |s|, key, value, tombstone, timestamp));
    forall k | k in kd' && (k != key || tombstone)
      ensures ReadAt(e, kd'[k]) == ReadAt(d, kd[k])
    {
      GrownRead(h, d, e, kd, k);
    }
    if !tombstone {
      NewRead(h, d, a, key, value, timestamp);
    }
  }

  /** The pointer to an entry just appended reads its value. */
  lemma NewRead(h: Checksum, d: Disk, a: nat, key: Key, value: Value, timestamp: U32)
    requires a in d.data && Encodable(key, value)
    ensures
      var s := d.data[a];
      ReadAt(WithData(d, a, s + EntryBytes(h, key, value, false, timestamp)),
             KeydirEntry(a, |value|, |s| + HEADER_SIZE + |key|, timestamp)) == Content(value, timestamp)
  {
    hide EntryTail;
    var s, x := d.data[a], EntryBytes(h, key, value, false, timestamp);
    TailIsValue(h, key, value, timestamp);
    assert (s + x)[|s| + HEADER_SIZE + |key|..|s| + HEADER_SIZE + |key| + |value|] == x[HEADER_SIZE + |key|..] == value;
  }

  lemma TailIsValue(h: Checksum, key: Key, value: Value, timestamp: U32)
    ensures EntryBytes(h, key, value, false, timestamp)[HEADER_SIZE + |key|..] == value
  {
    var x := EntryBytes(h, key, value, false, timestamp);
    var t := EntryTail(key, value, false, timestamp);
    assert t[12 + |key|..] == value;
    assert x[HEADER_SIZE + |key|..] == t[12 + |key|..];
  }

  /** Live reads keep their answers when files only grow. */
  lemma GrownRead(h: Checksum, d: Disk, e: Disk, kd: Entries, k: Key)
    requires DirOk(h, d) && kd == Recovered(h, d) && k in kd
    requires forall id :: id in d.data ==> id in e.data && d.data[id] <= e.data[id]
    ensures ReadAt(e, kd[k]) == ReadAt(d, kd[k])
  {
    hide HintSound, Recovered;
    RecoveredPoints(h, d, k);
    ReadGrows(d, e, kd[k]);
  }

  /** A crash in the middle of an append: all of the entry is there, or it never happened. */
  lemma AppendCrash(h: Checksum, fs: FileState, kd: Entries, a: nat, next: nat,
                    key: Key, value: Value, tombstone: bool, timestamp: U32)
    requires StoreOk(h, fs, kd, a, next) && Encodable(key, value) && a in fs.data
    ensures
      var view := ViewOf(fs.OnDisk(), kd);
      OldOrNew(h, fs.AppendData(a, EntryBytes(h, key, value, tombstone, timestamp)),
               view, ViewAfter(view, key, value, tombstone, timestamp))
  {
    hide EntryBytes, Recovered, StoreOk, DirOk, ActiveOk, ViewAfter, ViewOf;
    var x := EntryBytes(h, key, value, tombstone, timestamp);
    var ms := fs.AppendData(a, x);
    forall d | MayCrashTo(ms, d)
      ensures DirOk(h, d)
      ensures StoreView(h, d) == ViewOf(fs.OnDisk(), kd)
           || StoreView(h, d) == ViewAfter(ViewOf(fs.OnDisk(), kd), key, value, tombstone, timestamp)
    {
      StoreParts(h, fs, kd, a, next);
      var c := TornImage(fs, a, x, d);
      var s := fs.OnDisk().data[a];
      DirOkWithActive(h, fs.OnDisk(), a, s + x[..c]);
      if c == |x| {
        assert x[..c] == x;
        AppendStore(h, fs, kd, a, next, key, value, tombstone, timestamp);
        AppendedDisk(fs, a, x);
        var effect := AppendEffect(a, |fs.data[a].bytes|, key, value, tombstone, timestamp);
        StoreParts(h, ms.FlushData(a), Apply(kd, effect), a, next);
      } else {
        TornAppend(h, fs.OnDisk(), a, key, value, tombstone, timestamp, c);
        SameView(h, fs.OnDisk(), d, kd);
      }
    }
  }

  /** The two states an append goes through. */
  lemma AppendTrace(h: Checksum, fs: FileState, trace: seq<FileState>, kd: Entries, a: nat, next: nat,
                    key: Key, value: Value, tombstone: bool, timestamp: U32)
    requires StoreOk(h, fs, kd, a, next) && Encodable(key, value) && a in fs.data
    ensures
      var view := ViewOf(fs.OnDisk(), kd);
      var fs1 := fs.AppendData(a, EntryBytes(h, key, value, tombstone, timestamp));
      TraceOldOrNew(h, trace + [fs1, fs1.FlushData(a)], trace, view, ViewAfter(view, key, value, tombstone, timestamp))
  {
    hide StoreOk, EntryBytes, ViewAfter, ViewOf, OldOrNew, Apply, AppendEffect;
    var view := ViewOf(fs.OnDisk(), kd);
    var fs1 := fs.AppendData(a, EntryBytes(h, key, value, tombstone, timestamp));
    AppendCrash(h, fs, kd, a, next, key, value, tombstone, timestamp);
    AppendStore(h, fs, kd, a, next, key, value, tombstone, timestamp);
    QuietCrash(h, fs1.FlushData(a), Apply(kd, AppendEffect(a, |fs.data[a].bytes|, key, value, tombstone, timestamp)),
               a, next, view);
  }

  lemma StoreParts(h: Checksum, fs: FileState, kd: Entries, a: nat, next: nat)
    requires StoreOk(h, fs, kd, a, next)
    ensures fs.AllFlushed() && DirOk(h, fs.OnDisk()) && ActiveOk(h, fs.OnDisk(), a) && kd == Recovered(h, fs.OnDisk())
    ensures IdsBelow(fs, next) && a in fs.data && a !in fs.hints && a < next
  {
    hide Recovered, DirOk;
    assert a in fs.OnDisk().data && a !in fs.OnDisk().hints;
  }

  lemma SameView(h: Checksum, d: Disk, e: Disk, kd: Entries)
    requires DirOk(h, d) && kd == Recovered(h, d) && Recovered(h, e) == kd
    requires forall id :: id in d.data ==> id in e.data && d.data[id] <= e.data[id]
    ensures StoreView(h, e) == ViewOf(d, kd)
  {
    hide DirOk, Recovered;
    forall k | k in kd
      ensures ReadAt(e, kd[k]) == ReadAt(d, kd[k])
    {
      GrownRead(h, d, e, kd, k);
    }
  }

  /** With one file unflushed, a crash image is a cut of that file. */
  lemma TornImage(fs: FileState, a: nat, x: seq<Byte>, d: Disk) returns (c: nat)
    requires fs.AllFlushed() && a in fs.data && MayCrashTo(fs.AppendData(a, x), d)
    ensures c <= |x| && d == WithData(fs.OnDisk(), a, fs.OnDisk().data[a] + x[..c])
  {
    var ms := fs.AppendData(a, x);
    var s := fs.data[a].bytes;
    assert CutOf(ms.data[a], d.data[a]);
    c := |d.data[a]| - |s|;
    assert d.data[a] == (s + x)[..|s| + c] == s + x[..c];
    var e := WithData(fs.OnDisk(), a, fs.OnDisk().data[a] + x[..c]);
    forall id | id in d.data
      ensures d.data[id] == e.data[id]
    {
      assert CutOf(ms.data[id], d.data[id]);
    }
    forall id | id in d.hints
      ensures d.hints[id] == e.hints[id]
    {
      assert CutOf(ms.hints[id], d.hints[id]);
    }
    assert d.data == e.data && d.hints == e.hints;
  }

  /** Rotation: a fresh active file changes neither the keydir nor the view. */
  lemma RotateStore(h: Checksum, fs: FileState, kd: Entries, a: nat, next: nat)
    requires StoreOk(h, fs, kd, a, next)
    ensures StoreOk(h, fs.CreateData(next), kd, next, next + 1)
    ensures ViewOf(fs.CreateData(next).OnDisk(), kd) == ViewOf(fs.OnDisk(), kd)
  {
    hide Recovered, ActiveOk, DirOk;
    StoreParts(h, fs, kd, a, next);
    OpenFresh(h, fs, kd, next);
  }

  /** Creating a new, highest file on an acceptable flushed directory makes it a store. */
  lemma OpenFresh(h: Checksum, fs: FileState, kd: Entries, n: nat)
    requires fs.AllFlushed() && DirOk(h, fs.OnDisk()) && kd == Recovered(h, fs.OnDisk())
    requires n >= NextId(fs.OnDisk().data.Keys)
    ensures StoreOk(h, fs.CreateData(n), kd, n, n + 1)
    ensures ViewOf(fs.CreateData(n).OnDisk(), kd) == ViewOf(fs.OnDisk(), kd)
  {
    hide Recovered, Whole, HintSound;
    var d := fs.OnDisk();
    var gs := fs.CreateData(n);
    assert n !in fs.OnDisk().data.Keys;
    assert gs.data == fs.data[n := EMPTY];
    assert gs.OnDisk().data == WithData(d, n, []).data && gs.OnDisk().hints == d.hints;
    FreshActive(h, d, n);
    forall id | id in fs.hints
      ensures id < n
    {
      assert id in d.hints;
    }
    forall id | id in fs.data
      ensures id < n
    {
      assert id in d.data.Keys;
    }
    forall k | k in kd
      ensures ReadAt(gs.OnDisk(), kd[k]) == ReadAt(d, kd[k])
    {
      GrownRead(h, d, gs.OnDisk(), kd, k);
    }
  }

  /** The two states a rotation goes through. */
  lemma RotateTrace(h: Checksum, fs: FileState, kd: Entries, a: nat, next: nat, trace: seq<FileState>,
                    start: seq<FileState>, before: map<Key, Reading>)
    requires StoreOk(h, fs, kd, a, next) && TraceOldOrNew(h, trace, start, before, ViewOf(fs.OnDisk(), kd))
    ensures StoreOk(h, fs.CreateData(next), kd, next, next + 1)
    ensures ViewOf(fs.CreateData(next).OnDisk(), kd) == ViewOf(fs.OnDisk(), kd)
    ensures TraceOldOrNew(h, trace + [fs] + [fs.CreateData(next)], start, before, ViewOf(fs.OnDisk(), kd))
  {
    hide StoreOk, ViewOf, OldOrNew, TraceOldOrNew;
    var view := ViewOf(fs.OnDisk(), kd);
    QuietCrash(h, fs, kd, a, next, before);
    TraceSnoc(h, trace, start, fs, before, view);
    RotateStore(h, fs, kd, a, next);
    QuietCrash(h, fs.CreateData(next), kd, next, next + 1, before);
    TraceSnoc(h, trace + [fs], start, fs.CreateData(next), before, view);
  }

  /** Opening any flushed directory: a fresh file changes nothing that is read, and the result
      is a valid store exactly if the directory was acceptable. */
  lemma OpenAny(h: Checksum, fs: FileState, kd: Entries, n: nat)
    requires fs.AllFlushed() && kd == Recovered(h, fs.OnDisk()) && n == NextId(fs.OnDisk().data.Keys)
    ensures StoreOk(h, fs.CreateData(n), kd, n, n + 1) <==> DirOk(h, fs.OnDisk())
    ensures ViewOf(fs.CreateData(n).OnDisk(), kd) == ViewOf(fs.OnDisk(), kd)
  {
    hide Recovered, Whole, HintSound, ReadAt;
    var d := fs.OnDisk();
    var gs := fs.CreateData(n);
    assert n !in d.data.Keys;
    assert gs.data == fs.data[n := EMPTY];
    var e := gs.OnDisk();
    assert e.data == WithData(d, n, []).data && e.hints == d.hints;
    forall k | k in kd
      ensures ReadAt(e, kd[k]) == ReadAt(d, kd[k])
    {
      OldRead(h, d, kd, k, n);
      SameRead(d, e, kd[k]);
    }
    if DirOk(h, d) {
      OpenFresh(h, fs, kd, n);
    } else {
      NextIdIs(e.data.Keys, n);
      assert !(DirOk(h, e) && ActiveOk(h, e, n)) by { StillBad(h, d, e, n); }
    }
  }

  lemma SameRead(d: Disk, e: Disk, p: KeydirEntry)
    requires Lookup(d.data, p.fileId) == Lookup(e.data, p.fileId)
    ensures ReadAt(d, p) == ReadAt(e, p)
  {
  }

  /** Whatever a directory holds, its pointers lead into its own files. */
  lemma OldRead(h: Checksum, d: Disk, kd: Entries, k: Key, n: nat)
    requires kd == Recovered(h, d) && k in kd && n == NextId(d.data.Keys)
    ensures kd[k].fileId < n
  {
    hide RecoverBelow;
    RecoverIsFind(h, d, n, k);
    FindIsOld(h, d, n, k);
  }

  lemma {:induction false} FindIsOld(h: Checksum, d: Disk, n: nat, k: Key)
    ensures Find(h, d, n, k).Some? ==> Find(h, d, n, k).value.fileId < n && |k| <= MAX_KEY_LEN
  {
    hide FileEffects, Newest;
    if n > 0 {
      FindIsOld(h, d, n - 1, k);
      if n - 1 in d.data && Newest(FileEffects(h, d, n - 1), k).Some? {
        var es := FileEffects(h, d, n - 1);
        NewestIs(es, k);
        var i :| 0 <= i < |es| && es[i] == Effect(k, Newest(es, k).value);
        EffectIsOld(h, d, n - 1, i);
      }
    }
  }

  lemma EffectIsOld(h: Checksum, d: Disk, id: nat, i: nat)
    requires id in d.data && i < |FileEffects(h, d, id)|
    ensures |FileEffects(h, d, id)[i].key| <= MAX_KEY_LEN
    ensures FileEffects(h, d, id)[i].entry.Some? ==> FileEffects(h, d, id)[i].entry.value.fileId == id
  {
    var data := d.data[id];
    if id in d.hints && TrustedHints(h, d.hints[id], |data|).Some? {
      hide ReadHint;
      ParsedConsistent(VerifyHintFile(h, d.hints[id]).value);
      assert TrustedHints(h, d.hints[id], |data|).value[i].Consistent();
    } else {
      ParseBounds(h, data, 0);
      assert Holds(data, 0, Parse(h, data)[i]);
    }
  }

  /** No record a hint file can hold has a key too long. */
  lemma {:induction false} ParsedConsistent(s: seq<Byte>)
    ensures ParseHints(s).Some? ==> AllConsistent(ParseHints(s).value)
    decreases |s|
  {
    hide ReadHint;
    if ReadHint(s).Some? && ReadHint(s).value.HintOk? {
      ParsedConsistent(s[ReadHint(s).value.rec.Len()..]);
    }
  }

  /** No key of a recovered keydir is too long for an entry. */
  lemma RecoveredKeyFits(h: Checksum, d: Disk, k: Key)
    requires k in Recovered(h, d)
    ensures |k| <= MAX_KEY_LEN
  {
    hide RecoverBelow;
    var n := NextId(d.data.Keys);
    RecoverIsFind(h, d, n, k);
    FindIsOld(h, d, n, k);
  }

  lemma StoreKeyFits(h: Checksum, fs: FileState, kd: Entries, a: nat, next: nat, k: Key)
    requires StoreOk(h, fs, kd, a, next) && k in kd
    ensures |k| <= MAX_KEY_LEN
  {
    hide Recovered, DirOk, ActiveOk;
    RecoveredKeyFits(h, fs.OnDisk(), k);
  }

  /** A lying hint file stays one, and a stale one now lies at or above the active file. */
  lemma StillBad(h: Checksum, d: Disk, e: Disk, n: nat)
    requires !DirOk(h, d) && n == NextId(d.data.Keys) && e.data == WithData(d, n, []).data && e.hints == d.hints
    requires NextId(e.data.Keys) == n + 1
    ensures !(DirOk(h, e) && ActiveOk(h, e, n))
  {
    hide HintSound, Whole;
    assert n !in d.data.Keys;
    if DirOk(h, e) && n !in e.hints {
      forall id | id in d.data && id in d.hints
        ensures HintSound(h, d.data[id], d.hints[id])
      {
        assert id in e.data && e.data[id] == d.data[id];
      }
      forall id | id in d.hints
        ensures id < n
      {
        assert id in e.hints;
      }
    }
  }
}
