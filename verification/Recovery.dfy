/** Rebuilding the keydir from the files on disk. */
module Recovery {
  import opened Bytes
  import opened Format
  import opened EntryFormat
  import opened HintFormat
  import opened Scan
  import opened Reader
  import opened Index

  /** The contents of a store directory: data files and hint files by id. */
  datatype Disk = Disk(data: map<nat, seq<Byte>>, hints: map<nat, seq<Byte>>)

  /** What one log record does to the keydir. */
  datatype Effect = Effect(key: Key, entry: Option<KeydirEntry>)

  function Apply(kd: Entries, e: Effect): Entries {
    match e.entry
    case None => kd - {e.key}
    case Some(p) => kd[e.key := p]
  }

  function ApplyAll(kd: Entries, es: seq<Effect>): Entries {
    if es == [] then kd else Apply(ApplyAll(kd, es[..|es| - 1]), es[|es| - 1])
  }

  /** The last word of `es` on `k`, if it has one. */
  function Newest(es: seq<Effect>, k: Key): Option<Option<KeydirEntry>> {
    if es == [] then None
    else if es[|es| - 1].key == k then Some(es[|es| - 1].entry)
    else Newest(es[..|es| - 1], k)
  }

  function PtrTo(id: nat, it: Item): KeydirEntry {
    KeydirEntry(id, it.entry.header.valueSize, it.ValuePos(), it.entry.header.timestamp)
  }

  function ItemEffect(id: nat, it: Item): Effect {
    Effect(it.entry.key, if it.entry.header.tombstone then None else Some(PtrTo(id, it)))
  }

  function ItemEffects(id: nat, items: seq<Item>): (es: seq<Effect>)
    ensures |es| == |items| && forall i :: 0 <= i < |es| ==> es[i] == ItemEffect(id, items[i])
  {
    seq(|items|, i requires 0 <= i < |items| => ItemEffect(id, items[i]))
  }

  function HintEffect(id: nat, r: HintRec): Effect {
    Effect(r.key, if r.header.tombstone then None
                  else Some(KeydirEntry(id, r.header.valueSize, r.valuePos, r.header.timestamp)))
  }

  function HintEffects(id: nat, recs: seq<HintRec>): (es: seq<Effect>)
    ensures |es| == |recs| && forall i :: 0 <= i < |es| ==> es[i] == HintEffect(id, recs[i])
  {
    seq(|recs|, i requires 0 <= i < |recs| => HintEffect(id, recs[i]))
  }

  const MAX_U64: nat := 0xFFFF_FFFF_FFFF_FFFF

  /** `value_pos.saturating_add(value_size) <= data_file_len`. */
  predicate InBounds(r: HintRec, dataLen: nat) {
    (if r.valuePos + r.header.valueSize > MAX_U64 then MAX_U64 else r.valuePos + r.header.valueSize) <= dataLen
  }

  /** The records of a hint file that passes every check, against a data file of `dataLen` bytes. */
  function TrustedHints(h: Checksum, hint: seq<Byte>, dataLen: nat): Option<seq<HintRec>> {
    match VerifyHintFile(h, hint)
    case None => None
    case Some(content) =>
      match ParseHints(content)
      case None => None
      case Some(recs) => if AllInBounds(recs, dataLen) then Some(recs) else None
  }

  /** What file `id` contributes: its hint file if trusted, else a scan of its data file. */
  function FileEffects(h: Checksum, d: Disk, id: nat): seq<Effect>
    requires id in d.data
  {
    if id in d.hints && TrustedHints(h, d.hints[id], |d.data[id]|).Some?
    then HintEffects(id, TrustedHints(h, d.hints[id], |d.data[id]|).value)
    else ItemEffects(id, Parse(h, d.data[id]))
  }

  /** Applying every file with id below `n`, in ascending order. */
  function RecoverBelow(h: Checksum, d: Disk, n: nat): Entries {
    if n == 0 then map[]
    else
      var kd := RecoverBelow(h, d, n - 1);
      if n - 1 in d.data then ApplyAll(kd, FileEffects(h, d, n - 1)) else kd
  }

  predicate IsMax(m: nat, ids: set<nat>) {
    m in ids && forall x :: x in ids ==> x <= m
  }

  predicate IsMin(m: nat, ids: set<nat>) {
    m in ids && forall x :: x in ids ==> m <= x
  }

  lemma {:induction false} MaxExists(ids: set<nat>) returns (m: nat)
    requires ids != {}
    ensures IsMax(m, ids)
  {
    m :| m in ids;
    assert forall x :: x in ids ==> x == m || x in ids - {m};
    if ids - {m} != {} {
      var n := MaxExists(ids - {m});
      m := if m > n then m else n;
    }
  }

  lemma {:induction false} MinExists(ids: set<nat>) returns (m: nat)
    requires ids != {}
    ensures IsMin(m, ids)
  {
    m :| m in ids;
    assert forall x :: x in ids ==> x == m || x in ids - {m};
    if ids - {m} != {} {
      var n := MinExists(ids - {m});
      m := if m < n then m else n;
    }
  }

  /** One above the largest id, or 0. */
  ghost function NextId(ids: set<nat>): (n: nat)
    ensures forall id :: id in ids ==> id < n
    ensures ids != {} ==> n > 0 && n - 1 in ids
    ensures ids == {} ==> n == 0
  {
    if ids == {} then 0 else
      assert exists m :: IsMax(m, ids) by { var m := MaxExists(ids); }
      var m: nat :| m in ids && IsMax(m, ids);
      m + 1
  }

  /** The keydir a fresh `open` builds. */
  ghost function Recovered(h: Checksum, d: Disk): Entries {
    RecoverBelow(h, d, NextId(d.data.Keys))
  }

  // --- Newest file wins -------------------------------------------------

  lemma {:induction false} ApplyAllLookup(kd: Entries, es: seq<Effect>, k: Key)
    ensures Lookup(ApplyAll(kd, es), k) == match Newest(es, k) case None => Lookup(kd, k) case Some(p) => p
    decreases |es|
  {
    if es != [] {
      ApplyAllLookup(kd, es[..|es| - 1], k);
    }
  }

  lemma ApplyAllSnoc(kd: Entries, es: seq<Effect>, e: Effect)
    ensures ApplyAll(kd, es + [e]) == Apply(ApplyAll(kd, es), e)
  {
    assert (es + [e])[..|es|] == es;
  }

  /** Searching from the newest file down for the first that mentions `k`. */
  function Find(h: Checksum, d: Disk, n: nat, k: Key): Option<KeydirEntry> {
    if n == 0 then None
    else if n - 1 in d.data && Newest(FileEffects(h, d, n - 1), k).Some?
    then Newest(FileEffects(h, d, n - 1), k).value
    else Find(h, d, n - 1, k)
  }

  /** Scanning upwards with overwrite-or-remove is the same as searching downwards: last write wins. */
  lemma {:induction false} RecoverIsFind(h: Checksum, d: Disk, n: nat, k: Key)
    ensures Lookup(RecoverBelow(h, d, n), k) == Find(h, d, n, k)
  {
    hide FileEffects, Newest, ApplyAll;
    if n != 0 {
      RecoverIsFind(h, d, n - 1, k);
      if n - 1 in d.data {
        ApplyAllLookup(RecoverBelow(h, d, n - 1), FileEffects(h, d, n - 1), k);
      }
    }
  }

  /** Ids that name no file do not matter. */
  lemma {:induction false} RecoverSkip(h: Checksum, d: Disk, lo: nat, hi: nat)
    requires lo <= hi && forall id :: lo <= id < hi ==> id !in d.data
    ensures RecoverBelow(h, d, hi) == RecoverBelow(h, d, lo)
    decreases hi - lo
  {
    if lo < hi {
      RecoverSkip(h, d, lo, hi - 1);
    }
  }

  /** Only the files below `n` matter. */
  lemma {:induction false} RecoverDepends(h: Checksum, d: Disk, e: Disk, n: nat)
    requires forall id :: 0 <= id < n ==> Lookup(d.data, id) == Lookup(e.data, id)
    requires forall id :: 0 <= id < n && id in d.data ==> Lookup(d.hints, id) == Lookup(e.hints, id)
    ensures RecoverBelow(h, d, n) == RecoverBelow(h, e, n)
  {
    if n > 0 {
      RecoverDepends(h, d, e, n - 1);
      assert Lookup(d.data, n - 1) == Lookup(e.data, n - 1);
      if n - 1 in d.data {
        assert Lookup(d.hints, n - 1) == Lookup(e.hints, n - 1);
      }
    }
  }

  // --- The loops --------------------------------------------------------

  lemma NoEffects(kd: Entries, es: seq<Effect>)
    requires es == []
    ensures ApplyAll(kd, es) == kd
  {
  }

  /** One more item is one more effect. */
  lemma SnocEffects(kd: Entries, id: nat, items: seq<Item>, it: Item)
    ensures
      ApplyAll(kd, ItemEffects(id, items + [it])) == Apply(ApplyAll(kd, ItemEffects(id, items)), ItemEffect(id, it))
  {
    hide Apply, ApplyAll, ItemEffect;
    assert ItemEffects(id, items + [it]) == ItemEffects(id, items) + [ItemEffect(id, it)];
    ApplyAllSnoc(kd, ItemEffects(id, items), ItemEffect(id, it));
  }

  lemma ScanStep(h: Checksum, bytes: seq<Byte>, done: seq<Item>, rest: seq<Byte>, pos: nat, kd: Entries, id: nat)
    requires Parse(h, bytes) == done + ParseFrom(h, rest, pos)
    requires ReadEntry(h, rest).Some? && ReadEntry(h, rest).value.Ok?
    ensures
      var r := ReadEntry(h, rest).value;
      var it := Item(pos, r.entry);
      && Parse(h, bytes) == (done + [it]) + ParseFrom(h, rest[r.len..], pos + r.len)
      && ApplyAll(kd, ItemEffects(id, done + [it])) == Apply(ApplyAll(kd, ItemEffects(id, done)), ItemEffect(id, it))
  {
    hide ReadEntry, Apply, ApplyAll;
    SnocEffects(kd, id, done, Item(pos, ReadEntry(h, rest).value.entry));
  }

  /** Full scan of one data file; `isLast` only decides whether a torn tail is worth a warning. */
  method ScanDataFile(h: Checksum, bytes: seq<Byte>, fileId: nat, isLast: bool, keydir: Keydir)
    modifies keydir
    ensures keydir.entries == ApplyAll(old(keydir.entries), ItemEffects(fileId, Parse(h, bytes)))
  {
    hide ReadEntry, Apply, ApplyAll, ItemEffect;
    var quotas: seq<nat> := *;
    var f := new ByteSource(bytes, quotas);
    var pos := 0;
    ghost var done: seq<Item> := [];
    assert ApplyAll(keydir.entries, ItemEffects(fileId, done)) == keydir.entries
        by { NoEffects(keydir.entries, ItemEffects(fileId, done)); }
    while true
      invariant pos <= |bytes| && f.rest == bytes[pos..]
      invariant Parse(h, bytes) == done + ParseFrom(h, f.rest, pos)
      invariant keydir.entries == ApplyAll(old(keydir.entries), ItemEffects(fileId, done))
      invariant fresh(f)
      decreases |f.rest|
    {
      ghost var rest := f.rest;
      var r := ReadEntryFrom(h, f);
      match r {
        case None => break;
        case Some(Truncated) => break;
        case Some(Ok(entry, totalLen)) =>
          ScanStep(h, bytes, done, rest, pos, old(keydir.entries), fileId);
          ApplyEntry(keydir, fileId, pos, entry);
          done := done + [Item(pos, entry)];
          pos := pos + totalLen;
        case Some(CrcMismatch(totalLen)) =>
          pos := pos + totalLen;
      }
    }
    assert Parse(h, bytes) == done;
  }

  method ApplyEntry(keydir: Keydir, fileId: nat, entryStartPos: nat, entry: Entry)
    modifies keydir
    ensures keydir.entries == Apply(old(keydir.entries), ItemEffect(fileId, Item(entryStartPos, entry)))
  {
    var valuePos := entryStartPos + HEADER_SIZE + entry.header.keySize;
    if entry.header.tombstone {
      var _ := keydir.Remove(entry.key);
    } else {
      keydir.Insert(entry.key, KeydirEntry(fileId, entry.header.valueSize, valuePos, entry.header.timestamp));
    }
  }

  predicate AllInBounds(recs: seq<HintRec>, dataLen: nat) {
    forall i :: 0 <= i < |recs| ==> InBounds(recs[i], dataLen)
  }

  function Prepend(recs: seq<HintRec>, more: Option<seq<HintRec>>): Option<seq<HintRec>> {
    match more case None => None case Some(rest) => Some(recs + rest)
  }

  lemma HintStep(content: seq<Byte>, recs: seq<HintRec>, rest: seq<Byte>)
    requires ParseHints(content) == Prepend(recs, ParseHints(rest))
    requires ReadHint(rest).Some? && ReadHint(rest).value.HintOk?
    ensures
      var rec := ReadHint(rest).value.rec;
      && ParseHints(content) == Prepend(recs + [rec], ParseHints(rest[rec.Len()..]))
      && (ParseHints(content).Some? ==>
           |ParseHints(content).value| > |recs| && ParseHints(content).value[|recs|] == rec)
  {
    hide ReadHint;
    var rec := ReadHint(rest).value.rec;
    var next := ParseHints(rest[rec.Len()..]);
    if next.Some? {
      assert recs + ([rec] + next.value) == recs + [rec] + next.value;
    }
  }

  /** The records of an already verified hint file, or `None` at the first torn or out-of-bounds one. */
  method CollectHints(content: seq<Byte>, dataLen: nat) returns (records: Option<seq<HintRec>>)
    ensures records ==
      match ParseHints(content)
      case None => None
      case Some(recs) => if AllInBounds(recs, dataLen) then Some(recs) else None
  {
    var quotas: seq<nat> := *;
    var cursor := new ByteSource(content, quotas);
    var recs: seq<HintRec> := [];
    assert forall more: seq<HintRec> :: [] + more == more;
    while true
      invariant fresh(cursor)
      invariant AllInBounds(recs, dataLen)
      invariant ParseHints(content) == Prepend(recs, ParseHints(cursor.rest))
      decreases |cursor.rest|
    {
      hide ReadHint;
      ghost var rest := cursor.rest;
      var r := ReadHintFrom(cursor);
      match r {
        case None => break;
        case Some(HintTruncated) => return None;
        case Some(HintOk(rec)) =>
          HintStep(content, recs, rest);
          if !InBounds(rec, dataLen) {
            return None;
          }
          recs := recs + [rec];
      }
    }
    assert recs + [] == recs;
    return Some(recs);
  }

  /** Applies a hint file wholly if it passes every check, and not at all otherwise. */
  method TryScanHintFile(h: Checksum, hint: seq<Byte>, fileId: nat, dataLen: nat, keydir: Keydir) returns (used: bool)
    modifies keydir
    ensures used <==> TrustedHints(h, hint, dataLen).Some?
    ensures keydir.entries ==
      if used then ApplyAll(old(keydir.entries), HintEffects(fileId, TrustedHints(h, hint, dataLen).value))
      else old(keydir.entries)
  {
    hide VerifyHintFile, ParseHints;
    var content := VerifyHintFile(h, hint);
    if content == None {
      return false;
    }
    var records := CollectHints(content.value, dataLen);
    if records == None {
      return false;
    }
    ApplyHints(records.value, fileId, keydir);
    return true;
  }

  method ApplyHints(recs: seq<HintRec>, fileId: nat, keydir: Keydir)
    modifies keydir
    ensures keydir.entries == ApplyAll(old(keydir.entries), HintEffects(fileId, recs))
  {
    var i := 0;
    while i < |recs|
      invariant 0 <= i <= |recs|
      invariant keydir.entries == ApplyAll(old(keydir.entries), HintEffects(fileId, recs[..i]))
    {
      hide ApplyAll;
      var r := recs[i];
      ApplyAllSnoc(old(keydir.entries), HintEffects(fileId, recs[..i]), HintEffect(fileId, r));
      assert HintEffects(fileId, recs[..i + 1]) == HintEffects(fileId, recs[..i]) + [HintEffect(fileId, r)];
      if r.header.tombstone {
        var _ := keydir.Remove(r.key);
      } else {
        keydir.Insert(r.key, KeydirEntry(fileId, r.header.valueSize, r.valuePos, r.header.timestamp));
      }
      i := i + 1;
    }
    assert recs[..i] == recs;
  }

  predicate Ascending(ids: seq<nat>) {
    forall i, j :: 0 <= i < j < |ids| ==> ids[i] < ids[j]
  }

  /** Every data file id, ascending. */
  method Discover(d: Disk) returns (ids: seq<nat>)
    ensures Ascending(ids)
    ensures forall id :: id in ids <==> id in d.data
  {
    ids := [];
    var left := d.data.Keys;
    while left != {}
      invariant left <= d.data.Keys
      invariant Ascending(ids)
      invariant forall id :: id in d.data <==> id in ids || id in left
      invariant forall i, x :: 0 <= i < |ids| && x in left ==> ids[i] < x
      decreases left
    {
      assert exists m :: IsMin(m, left) by { var m := MinExists(left); }
      var m :| m in left && IsMin(m, left);
      ids := ids + [m];
      left := left - {m};
    }
  }

  /** The last discovered id is the largest. */
  lemma LastId(d: Disk, ids: seq<nat>)
    requires Ascending(ids) && forall id :: id in ids <==> id in d.data
    ensures NextId(d.data.Keys) == if ids == [] then 0 else ids[|ids| - 1] + 1
  {
    var n := NextId(d.data.Keys);
    if ids != [] {
      assert ids[|ids| - 1] in d.data.Keys;
      assert n - 1 in ids;
    } else {
      assert d.data.Keys == {};
    }
  }

  /** Rebuilds `keydir` from all files in ascending id order. */
  method Recover(h: Checksum, d: Disk, fileIds: seq<nat>, keydir: Keydir)
    requires Ascending(fileIds) && forall id :: id in fileIds <==> id in d.data
    requires keydir.entries == map[]
    modifies keydir
    ensures keydir.entries == Recovered(h, d)
  {
    hide FileEffects, ApplyAll;
    var i := 0;
    ghost var n := 0;
    while i < |fileIds|
      invariant 0 <= i <= |fileIds|
      invariant n == if i == 0 then 0 else fileIds[i - 1] + 1
      invariant keydir.entries == RecoverBelow(h, d, n)
    {
      var fileId := fileIds[i];
      var isLast := i + 1 == |fileIds|;
      assert fileId in d.data;
      NoneBetween(fileIds, i);
      RecoverSkip(h, d, n, fileId);
      var usedHint := false;
      if fileId in d.hints {
        usedHint := TryScanHintFile(h, d.hints[fileId], fileId, |d.data[fileId]|, keydir);
      }
      if !usedHint {
        ScanDataFile(h, d.data[fileId], fileId, isLast, keydir);
      }
      assert keydir.entries == ApplyAll(RecoverBelow(h, d, fileId), FileEffects(h, d, fileId)) by {
        FileEffectsCases(h, d, fileId);
      }
      n := fileId + 1;
      i := i + 1;
    }
    LastId(d, fileIds);
  }

  lemma FileEffectsCases(h: Checksum, d: Disk, id: nat)
    requires id in d.data
    ensures FileEffects(h, d, id) ==
      if id in d.hints && TrustedHints(h, d.hints[id], |d.data[id]|).Some?
      then HintEffects(id, TrustedHints(h, d.hints[id], |d.data[id]|).value)
      else ItemEffects(id, Parse(h, d.data[id]))
  {
  }

  /** Nothing of an ascending list lies between two neighbours. */
  lemma NoneBetween(ids: seq<nat>, i: nat)
    requires i < |ids| && Ascending(ids)
    ensures forall id :: (if i == 0 then 0 else ids[i - 1] + 1) <= id < ids[i] ==> id !in ids
  {
    forall id | (if i == 0 then 0 else ids[i - 1] + 1) <= id < ids[i]
      ensures id !in ids
    {
      forall j | 0 <= j < |ids|
        ensures ids[j] != id
      {
        assert j == i || j == i - 1 || j < i - 1 || i < j;
      }
    }
  }
}
