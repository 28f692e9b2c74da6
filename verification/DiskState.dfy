/** What a directory means: reads, the key-to-value view, and the facts recovery rests on. */
module DiskState {
  import opened Bytes
  import opened Format
  import opened HintFormat
  import opened Scan
  import opened Index
  import opened Recovery

  /** The outcome of a positioned read through a keydir entry. */
  datatype Reading = Unreadable | Content(value: Value, timestamp: U32)

  function ReadAt(d: Disk, p: KeydirEntry): Reading {
    if p.fileId in d.data && p.valuePos + p.valueSize <= |d.data[p.fileId]|
    then Content(d.data[p.fileId][p.valuePos..p.valuePos + p.valueSize], p.timestamp)
    else Unreadable
  }

  /** What every key reads as through keydir `kd`. */
  function ViewOf(d: Disk, kd: Entries): map<Key, Reading> {
    map k | k in kd :: ReadAt(d, kd[k])
  }

  /** The store a fresh `open` of this directory presents. */
  ghost function StoreView(h: Checksum, d: Disk): map<Key, Reading> {
    ViewOf(d, Recovered(h, d))
  }

  /** The entry is at the place the keydir says, and it is that key's. */
  predicate IsAt(it: Item, k: Key, id: nat, p: KeydirEntry) {
    it.entry.key == k && !it.entry.header.tombstone && p == PtrTo(id, it)
  }

  /** Following `p` leads to an intact live entry of `k`. */
  ghost predicate PointsAt(h: Checksum, d: Disk, k: Key, p: KeydirEntry) {
    p.fileId in d.data && exists it :: it in Parse(h, d.data[p.fileId]) && IsAt(it, k, p.fileId, p)
  }

  predicate HintFor(it: Item, r: HintRec) {
    r.header == it.entry.header && r.key == it.entry.key && r.valuePos == it.ValuePos()
  }

  /** The record describes a live entry that really is in the data file. */
  ghost predicate Backed(h: Checksum, data: seq<Byte>, r: HintRec) {
    exists it :: it in Parse(h, data) && HintFor(it, r) && !it.entry.header.tombstone
  }

  /** Every record of a hint file that recovery would trust is backed by the data file. */
  ghost predicate HintSound(h: Checksum, data: seq<Byte>, hint: seq<Byte>) {
    TrustedHints(h, hint, |data|).Some? ==>
      forall i :: 0 <= i < |TrustedHints(h, hint, |data|).value| ==>
        Backed(h, data, TrustedHints(h, hint, |data|).value[i])
  }

  /** A directory a store may be opened on: trusted hints are truthful, and no
      hint file bears an id the store might still hand out. */
  ghost predicate DirOk(h: Checksum, d: Disk) {
    && (forall id :: id in d.data && id in d.hints ==> HintSound(h, d.data[id], d.hints[id]))
    && (forall id :: id in d.hints ==> id < NextId(d.data.Keys))
  }

  // --- Following pointers -----------------------------------------------

  /** A pointer to an entry reads that entry's value. */
  lemma PointsAtReads(h: Checksum, d: Disk, k: Key, p: KeydirEntry, it: Item)
    requires p.fileId in d.data && it in Parse(h, d.data[p.fileId]) && IsAt(it, k, p.fileId, p)
    ensures ReadAt(d, p) == Content(it.entry.value, it.entry.header.timestamp)
  {
    var s := d.data[p.fileId];
    ParseBounds(h, s, 0);
    assert Holds(s, 0, it);
  }

  /** One offset holds at most one entry of a key. */
  lemma SamePlace(h: Checksum, s: seq<Byte>, a: Item, b: Item)
    requires a in Parse(h, s) && b in Parse(h, s)
    requires a.entry.key == b.entry.key && a.ValuePos() == b.ValuePos()
    ensures a == b
  {
    ParseBounds(h, s, 0);
    ParseOrdered(h, s, 0);
    assert Holds(s, 0, a) && Holds(s, 0, b);
    var i :| 0 <= i < |Parse(h, s)| && Parse(h, s)[i] == a;
    var j :| 0 <= j < |Parse(h, s)| && Parse(h, s)[j] == b;
    assert i == j;
  }

  lemma {:induction false} NewestIs(es: seq<Effect>, k: Key)
    ensures Newest(es, k).Some? ==> exists i :: 0 <= i < |es| && es[i] == Effect(k, Newest(es, k).value)
    ensures Newest(es, k) == None ==> forall i :: 0 <= i < |es| ==> es[i].key != k
    decreases |es|
  {
    if es != [] && es[|es| - 1].key != k {
      var init := es[..|es| - 1];
      NewestIs(init, k);
      if Newest(init, k).Some? {
        var i :| 0 <= i < |init| && init[i] == Effect(k, Newest(init, k).value);
        assert es[i] == init[i];
      } else {
        assert forall i :: 0 <= i < |init| ==> es[i] == init[i];
      }
    } else if es != [] {
      assert es[|es| - 1] == Effect(k, Newest(es, k).value);
    }
  }

  /** Every pointer a file contributes leads to an entry of that file. */
  lemma EffectsBacked(h: Checksum, d: Disk, id: nat, i: nat)
    requires id in d.data && i < |FileEffects(h, d, id)| && FileEffects(h, d, id)[i].entry.Some?
    requires id in d.hints ==> HintSound(h, d.data[id], d.hints[id])
    ensures
      var e := FileEffects(h, d, id)[i];
      e.entry.value.fileId == id && PointsAt(h, d, e.key, e.entry.value)
  {
    var data := d.data[id];
    var e := FileEffects(h, d, id)[i];
    if id in d.hints && TrustedHints(h, d.hints[id], |data|).Some? {
      var r := TrustedHints(h, d.hints[id], |data|).value[i];
      assert Backed(h, data, r);
      var it :| it in Parse(h, data) && HintFor(it, r) && !it.entry.header.tombstone;
      assert IsAt(it, e.key, id, e.entry.value);
    } else {
      assert IsAt(Parse(h, data)[i], e.key, id, e.entry.value);
    }
  }

  /** A search result comes from some file below `n`. */
  lemma {:induction false} FindFrom(h: Checksum, d: Disk, n: nat, k: Key)
    requires forall id :: id in d.data && id in d.hints ==> HintSound(h, d.data[id], d.hints[id])
    ensures Find(h, d, n, k).Some? ==>
      Find(h, d, n, k).value.fileId < n && PointsAt(h, d, k, Find(h, d, n, k).value)
  {
    hide FileEffects, Newest, HintSound, PointsAt;
    if n > 0 {
      FindFrom(h, d, n - 1, k);
      if n - 1 in d.data && Newest(FileEffects(h, d, n - 1), k).Some? {
        var es := FileEffects(h, d, n - 1);
        NewestIs(es, k);
        var i :| 0 <= i < |es| && es[i] == Effect(k, Newest(es, k).value);
        if es[i].entry.Some? {
          EffectsBacked(h, d, n - 1, i);
        }
      }
    }
  }

  /** After opening an acceptable directory, every pointer decodes to its key's entry. */
  lemma RecoveredPoints(h: Checksum, d: Disk, k: Key)
    requires DirOk(h, d) && k in Recovered(h, d)
    ensures PointsAt(h, d, k, Recovered(h, d)[k]) && ReadAt(d, Recovered(h, d)[k]).Content?
  {
    hide PointsAt, HintSound, Find, RecoverBelow;
    var n := NextId(d.data.Keys);
    RecoverIsFind(h, d, n, k);
    FindFrom(h, d, n, k);
    PointsAtContent(h, d, k, Recovered(h, d)[k]);
  }

  lemma PointsAtContent(h: Checksum, d: Disk, k: Key, p: KeydirEntry)
    requires PointsAt(h, d, k, p)
    ensures ReadAt(d, p).Content?
  {
    var it :| it in Parse(h, d.data[p.fileId]) && IsAt(it, k, p.fileId, p);
    PointsAtReads(h, d, k, p, it);
  }

  // --- Arbitrary directories --------------------------------------------

  /** Whatever bytes the files hold, no recovered pointer reaches past its data file. */
  lemma RecoveredInBounds(h: Checksum, d: Disk, k: Key)
    requires forall id :: id in d.data ==> |d.data[id]| < MAX_U64
    requires k in Recovered(h, d)
    ensures ReadAt(d, Recovered(h, d)[k]).Content?
  {
    var n := NextId(d.data.Keys);
    RecoverIsFind(h, d, n, k);
    FindInBounds(h, d, n, k);
  }

  lemma {:induction false} FindInBounds(h: Checksum, d: Disk, n: nat, k: Key)
    requires forall id :: id in d.data ==> |d.data[id]| < MAX_U64
    ensures Find(h, d, n, k).Some? ==> ReadAt(d, Find(h, d, n, k).value).Content?
  {
    hide FileEffects, Newest;
    if n > 0 {
      FindInBounds(h, d, n - 1, k);
      if n - 1 in d.data && Newest(FileEffects(h, d, n - 1), k).Some? {
        var es := FileEffects(h, d, n - 1);
        NewestIs(es, k);
        var i :| 0 <= i < |es| && es[i] == Effect(k, Newest(es, k).value);
        if es[i].entry.Some? {
          EffectsInBounds(h, d, n - 1, i);
        }
      }
    }
  }

  lemma EffectsInBounds(h: Checksum, d: Disk, id: nat, i: nat)
    requires id in d.data && |d.data[id]| < MAX_U64
    requires i < |FileEffects(h, d, id)| && FileEffects(h, d, id)[i].entry.Some?
    ensures ReadAt(d, FileEffects(h, d, id)[i].entry.value).Content?
  {
    var data := d.data[id];
    if id in d.hints && TrustedHints(h, d.hints[id], |data|).Some? {
      assert InBounds(TrustedHints(h, d.hints[id], |data|).value[i], |data|);
    } else {
      ParseBounds(h, data, 0);
      assert Holds(data, 0, Parse(h, data)[i]);
    }
  }

  // --- Hint files -------------------------------------------------------

  /** `hint` without a would-be trailer is part of the stream of `recs`, all of which the data file backs. */
  ghost predicate HonestWith(h: Checksum, data: seq<Byte>, hint: seq<Byte>, recs: seq<HintRec>) {
    && AllConsistent(recs)
    && (forall i :: 0 <= i < |recs| ==> Backed(h, data, recs[i]))
    && (|hint| >= HINT_TRAILER_SIZE ==> hint[..|hint| - HINT_TRAILER_SIZE] <= HintStream(recs))
  }

  /** Cutting both files at any bytes leaves a hint file that is truthful if it is trusted at all,
      even should its last four bytes match by accident. */
  lemma HonestCut(h: Checksum, data: seq<Byte>, hint: seq<Byte>, recs: seq<HintRec>, c: nat, m: nat)
    requires HonestWith(h, data, hint, recs) && |data| < MAX_U64 && c <= |data| && m <= |hint|
    ensures HintSound(h, data[..c], hint[..m])
  {
    hide Backed, ParseHints;
    var cut := hint[..m];
    if TrustedHints(h, cut, c).Some? {
      var rs := TrustedHints(h, cut, c).value;
      var content := cut[..m - HINT_TRAILER_SIZE];
      assert content == hint[..|hint| - HINT_TRAILER_SIZE][..m - HINT_TRAILER_SIZE] == HintStream(recs)[..|content|];
      ParseCutStream(recs, |content|);
      assert rs <= recs;
      forall i | 0 <= i < |rs|
        ensures Backed(h, data[..c], rs[i])
      {
        assert rs[i] == recs[i] && InBounds(rs[i], c);
        BackedCut(h, data, rs[i], c);
      }
    }
  }

  lemma BackedCut(h: Checksum, data: seq<Byte>, r: HintRec, c: nat)
    requires c <= |data| < MAX_U64 && Backed(h, data, r) && InBounds(r, c)
    ensures Backed(h, data[..c], r)
  {
    var it :| it in Parse(h, data) && HintFor(it, r) && !it.entry.header.tombstone;
    ItemSurvivesCut(h, data, it, c);
  }

  lemma ItemSurvivesCut(h: Checksum, data: seq<Byte>, it: Item, c: nat)
    requires c <= |data| && it in Parse(h, data) && it.End() <= c
    ensures it in Parse(h, data[..c])
  {
    var i :| 0 <= i < |Parse(h, data)| && Parse(h, data)[i] == it;
    var m := ParseCut(h, data, 0, c);
    assert Parse(h, data[..c])[i] == it;
  }

  /** A cut file holds nothing the whole file does not. */
  lemma CutItems(h: Checksum, data: seq<Byte>, it: Item, c: nat)
    requires c <= |data| && it in Parse(h, data[..c])
    ensures it in Parse(h, data)
  {
    var m := ParseCut(h, data, 0, c);
  }

  predicate HintsMatch(items: seq<Item>, recs: seq<HintRec>) {
    |recs| == |items| && forall i :: 0 <= i < |items| ==> HintFor(items[i], recs[i])
  }

  /** The bytes of a hint file that was closed after `recs`. */
  function ClosedHint(h: Checksum, recs: seq<HintRec>): seq<Byte> {
    HintStream(recs) + Le32(h.Hash(HintStream(recs)))
  }

  /** A hint file closed by the merge writer is always trusted, and stands for exactly the scan of its data file. */
  lemma ClosedHintIsScan(h: Checksum, d: Disk, id: nat, recs: seq<HintRec>)
    requires id in d.data && id in d.hints && |d.data[id]| < MAX_U64
    requires HintsMatch(Parse(h, d.data[id]), recs) && d.hints[id] == ClosedHint(h, recs)
    ensures TrustedHints(h, d.hints[id], |d.data[id]|) == Some(recs)
    ensures FileEffects(h, d, id) == ItemEffects(id, Parse(h, d.data[id]))
  {
    hide ParseHints, VerifyHintFile;
    var data := d.data[id];
    var items := Parse(h, data);
    ParseBounds(h, data, 0);
    forall i | 0 <= i < |recs|
      ensures recs[i].Consistent() && InBounds(recs[i], |data|) && HintEffect(id, recs[i]) == ItemEffect(id, items[i])
    {
      assert Holds(data, 0, items[i]) && HintFor(items[i], recs[i]);
    }
    ClosedHintVerifies(h, HintStream(recs));
    ParseStream(recs);
    assert HintEffects(id, recs) == ItemEffects(id, items);
  }

  /** A trusted hint file stands in for its data file, whose bytes are not looked at: whatever they are, at the
      same length, recovery yields the same. */
  lemma HintSparesScan(h: Checksum, d: Disk, id: nat, bytes: seq<Byte>)
    requires id in d.data && id in d.hints && |bytes| == |d.data[id]|
    requires TrustedHints(h, d.hints[id], |d.data[id]|).Some?
    ensures Recovered(h, Disk(d.data[id := bytes], d.hints)) == Recovered(h, d)
  {
    hide TrustedHints, Parse;
    var e := Disk(d.data[id := bytes], d.hints);
    assert e.data.Keys == d.data.Keys;
    forall x | x in d.data
      ensures FileEffects(h, e, x) == FileEffects(h, d, x)
    {
    }
    SameEffects(h, d, e, NextId(d.data.Keys));
  }

  lemma {:induction false} SameEffects(h: Checksum, d: Disk, e: Disk, n: nat)
    requires e.data.Keys == d.data.Keys && forall id :: id in d.data ==> FileEffects(h, e, id) == FileEffects(h, d, id)
    ensures RecoverBelow(h, e, n) == RecoverBelow(h, d, n)
  {
    hide FileEffects;
    if n > 0 {
      SameEffects(h, d, e, n - 1);
      assert n - 1 in d.data.Keys <==> n - 1 in e.data.Keys;
    }
  }
}
