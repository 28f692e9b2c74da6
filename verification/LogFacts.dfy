/** What appending to the newest file, and crashing while doing so, does to recovery. */
module LogFacts {
  import opened Bytes
  import opened Format
  import opened EntryFormat
  import opened Scan
  import opened Index
  import opened Recovery
  import opened DiskState

  /** `a` is the newest data file, has no hint file, and has no torn tail. */
  ghost predicate ActiveOk(h: Checksum, d: Disk, a: nat) {
    && a in d.data && a !in d.hints && NextId(d.data.Keys) == a + 1
    && Whole(h, d.data[a])
  }

  function WithData(d: Disk, id: nat, s: seq<Byte>): Disk {
    d.(data := d.data[id := s])
  }

  lemma NextIdIs(ids: set<nat>, a: nat)
    requires a in ids && forall id :: id in ids ==> id <= a
    ensures NextId(ids) == a + 1
  {
    var n := NextId(ids);
    assert a < n && n - 1 in ids;
  }

  /** With `a` newest and hintless, recovery is everything older followed by a scan of `a`. */
  lemma RecoveredSplit(h: Checksum, d: Disk, a: nat, s: seq<Byte>)
    requires a in d.data && a !in d.hints && NextId(d.data.Keys) == a + 1
    ensures Recovered(h, WithData(d, a, s)) == ApplyAll(RecoverBelow(h, d, a), ItemEffects(a, Parse(h, s)))
  {
    hide ApplyAll;
    var e := WithData(d, a, s);
    assert e.data.Keys == d.data.Keys;
    RecoverDepends(h, d, e, a);
  }

  /** The change one appended entry makes. */
  function AppendEffect(a: nat, offset: nat, key: Key, value: Value, tombstone: bool, timestamp: U32): Effect
    requires Encodable(key, value)
  {
    Effect(key, if tombstone then None else Some(KeydirEntry(a, |value|, offset + HEADER_SIZE + |key|, timestamp)))
  }

  /** Appending a whole entry to the active file makes exactly that change to what recovery yields. */
  lemma AppendRecovers(h: Checksum, d: Disk, a: nat, key: Key, value: Value, tombstone: bool, timestamp: U32)
    requires ActiveOk(h, d, a) && Encodable(key, value)
    ensures
      var s := d.data[a];
      var e := WithData(d, a, s + EntryBytes(h, key, value, tombstone, timestamp));
      && ActiveOk(h, e, a)
      && Recovered(h, e) == Apply(Recovered(h, d), AppendEffect(a, |s|, key, value, tombstone, timestamp))
  {
    hide EntryBytes, ApplyAll, Parse, Apply, AppendEffect, ItemEffect, Whole;
    var s := d.data[a];
    var b := EntryBytes(h, key, value, tombstone, timestamp);
    var it := Item(|s|, MakeEntry(key, value, tombstone, timestamp));
    assert WithData(d, a, s + b).data.Keys == d.data.Keys;
    assert WithData(d, a, s) == d;
    RecoveredSplit(h, d, a, s);
    RecoveredSplit(h, d, a, s + b);
    AppendParses(h, s, key, value, tombstone, timestamp);
    SnocEffects(RecoverBelow(h, d, a), a, Parse(h, s), it);
    assert ItemEffect(a, it) == AppendEffect(a, |s|, key, value, tombstone, timestamp) by {
      MadeEffect(a, |s|, key, value, tombstone, timestamp);
    }
  }

  lemma MadeEffect(a: nat, offset: nat, key: Key, value: Value, tombstone: bool, timestamp: U32)
    requires Encodable(key, value)
    ensures ItemEffect(a, Item(offset, MakeEntry(key, value, tombstone, timestamp)))
         == AppendEffect(a, offset, key, value, tombstone, timestamp)
  {
  }

  /** Appending one encoded entry to a whole log adds exactly that item. */
  lemma AppendParses(h: Checksum, s: seq<Byte>, key: Key, value: Value, tombstone: bool, timestamp: U32)
    requires Whole(h, s) && Encodable(key, value)
    ensures
      var t := s + EntryBytes(h, key, value, tombstone, timestamp);
      && Parse(h, t) == Parse(h, s) + [Item(|s|, MakeEntry(key, value, tombstone, timestamp))]
      && Whole(h, t)
  {
    hide EntryBytes, ParseFrom, Whole;
    ParseAppend(h, s, EntryBytes(h, key, value, tombstone, timestamp), 0);
    ParseOne(h, key, value, tombstone, timestamp, |s|);
  }

  /** A torn append is as if it had never begun. */
  lemma TornAppend(h: Checksum, d: Disk, a: nat, key: Key, value: Value, tombstone: bool, timestamp: U32, c: nat)
    requires ActiveOk(h, d, a) && Encodable(key, value)
    requires c < |EntryBytes(h, key, value, tombstone, timestamp)|
    ensures
      var torn := d.data[a] + EntryBytes(h, key, value, tombstone, timestamp)[..c];
      Recovered(h, WithData(d, a, torn)) == Recovered(h, d)
  {
    hide EntryBytes, ApplyAll, ReadEntry;
    var s := d.data[a];
    var b := EntryBytes(h, key, value, tombstone, timestamp);
    assert WithData(d, a, s) == d;
    RecoveredSplit(h, d, a, s);
    RecoveredSplit(h, d, a, s + b[..c]);
    ParseAppend(h, s, b[..c], 0);
    EntryRoundTrip(h, key, value, tombstone, timestamp, []);
    assert b + [] == b;
    ReadEntryCut(h, b, c);
    assert ParseFrom(h, b[..c], |s|) == [];
    assert Parse(h, s + b[..c]) == Parse(h, s);
  }

  /** Crash recovery is prefix-consistent: cutting the newest file at any byte leaves the
      state after its first `m` records, which include every record that ends before the cut. */
  lemma CrashIsPrefix(h: Checksum, d: Disk, a: nat, c: nat) returns (m: nat)
    requires a in d.data && a !in d.hints && NextId(d.data.Keys) == a + 1
    requires c <= |d.data[a]|
    ensures KeepsUpTo(Parse(h, d.data[a]), m, c)
    ensures Recovered(h, d) == ApplyAll(RecoverBelow(h, d, a), ItemEffects(a, Parse(h, d.data[a])))
    ensures Recovered(h, WithData(d, a, d.data[a][..c]))
         == ApplyAll(RecoverBelow(h, d, a), ItemEffects(a, Parse(h, d.data[a])[..m]))
  {
    hide ApplyAll, ParseFrom;
    m := ParseCut(h, d.data[a], 0, c);
    RecoveredSplit(h, d, a, d.data[a]);
    assert WithData(d, a, d.data[a]) == d;
    RecoveredSplit(h, d, a, d.data[a][..c]);
  }

  /** Starting a fresh active file changes nothing that recovery sees. */
  lemma FreshActive(h: Checksum, d: Disk, n: nat)
    requires DirOk(h, d) && n >= NextId(d.data.Keys)
    ensures
      var e := WithData(d, n, []);
      DirOk(h, e) && ActiveOk(h, e, n) && Recovered(h, e) == Recovered(h, d)
  {
    hide HintSound;
    var e := WithData(d, n, []);
    NextIdIs(e.data.Keys, n);
    RecoverSkip(h, d, NextId(d.data.Keys), n);
    RecoverDepends(h, d, e, n);
    assert FileEffects(h, e, n) == [];
  }

  /** Changing the active file leaves the rest of the directory acceptable. */
  lemma DirOkWithActive(h: Checksum, d: Disk, a: nat, s: seq<Byte>)
    requires DirOk(h, d) && a in d.data && a !in d.hints
    ensures DirOk(h, WithData(d, a, s))
  {
    hide HintSound;
    assert WithData(d, a, s).data.Keys == d.data.Keys;
  }

  /** Reads keep their answers as files grow. */
  lemma ReadGrows(d: Disk, e: Disk, p: KeydirEntry)
    requires ReadAt(d, p).Content? && p.fileId in e.data && d.data[p.fileId] <= e.data[p.fileId]
    ensures ReadAt(e, p) == ReadAt(d, p)
  {
    var s, t := d.data[p.fileId], e.data[p.fileId];
    assert t[..|s|] == s;
    assert t[p.valuePos..p.valuePos + p.valueSize] == t[..|s|][p.valuePos..p.valuePos + p.valueSize];
  }
}
