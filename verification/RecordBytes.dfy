/** What the records of the concurrent model are on disk: files of encoded entries, and the bytes a crash leaves. */
module RecordBytes {
  import opened Bytes
  import opened Format
  import opened EntryFormat
  import opened Scan
  import opened Index
  import opened Recovery
  import opened DiskState
  import opened LogFacts
  import opened MergeProtocol
  import opened MergeSession
  import opened MergeInterleavings
  import opened MergeRecovery

  // --- From bytes to records -------------------------------------------------------------

  /** The record an intact entry stands for. */
  function RecOf(e: Entry): Rec {
    Rec(e.key, if e.header.tombstone then None else Some(e.value))
  }

  function RecsOf(items: seq<Item>): (recs: seq<Rec>)
    ensures |recs| == |items| && forall i :: 0 <= i < |recs| ==> recs[i] == RecOf(items[i].entry)
  {
    seq(|items|, i requires 0 <= i < |items| => RecOf(items[i].entry))
  }

  /** The records a scan of each data file finds. */
  function RecordsOf(h: Checksum, d: Disk): map<nat, seq<Rec>> {
    map f | f in d.data :: RecsOf(Parse(h, d.data[f]))
  }

  /** Where the value of a record lies. */
  function PtrAt(h: Checksum, d: Disk, l: Loc): KeydirEntry
    requires InFiles(RecordsOf(h, d), l)
  {
    PtrTo(l.file, Parse(h, d.data[l.file])[l.idx])
  }

  /** The two keydirs have the same keys, at the same places. */
  ghost predicate SamePlaces(h: Checksum, d: Disk, kd: map<Key, Loc>, entries: Entries) {
    && kd.Keys == entries.Keys
    && forall k :: k in kd ==> InFiles(RecordsOf(h, d), kd[k]) && entries[k] == PtrAt(h, d, kd[k])
  }

  /** Every file contributes what a scan of it finds. */
  predicate Scanned(h: Checksum, d: Disk) {
    forall f :: f in d.data ==> FileEffects(h, d, f) == ItemEffects(f, Parse(h, d.data[f]))
  }

  /** The hint file of `f`, if there is one, is one that merge has closed over the file, or is not trusted. */
  ghost predicate HintClosed(h: Checksum, d: Disk, f: nat)
    requires f in d.data
  {
    f in d.hints && TrustedHints(h, d.hints[f], |d.data[f]|).Some? ==>
      |d.data[f]| < MAX_U64
      && exists recs :: HintsMatch(Parse(h, d.data[f]), recs) && d.hints[f] == ClosedHint(h, recs)
  }

  lemma ClosedScanned(h: Checksum, d: Disk)
    requires forall f :: f in d.data ==> HintClosed(h, d, f)
    ensures Scanned(h, d)
  {
    hide ParseFrom, TrustedHints, ClosedHint, ItemEffects, HintsMatch;
    forall f | f in d.data
      ensures FileEffects(h, d, f) == ItemEffects(f, Parse(h, d.data[f]))
    {
      assert HintClosed(h, d, f);
      if f in d.hints && TrustedHints(h, d.hints[f], |d.data[f]|).Some? {
        var recs :| HintsMatch(Parse(h, d.data[f]), recs) && d.hints[f] == ClosedHint(h, recs);
        ClosedHintIsScan(h, d, f, recs);
      }
    }
  }

  /** What one record does to the keydir. */
  function ScanOne(kd: map<Key, Loc>, r: Rec, l: Loc): map<Key, Loc> {
    if r.value.Some? then kd[r.key := l] else kd - {r.key}
  }

  lemma ScanSnoc(kd: map<Key, Loc>, f: nat, recs: seq<Rec>, n: nat)
    requires n < |recs|
    ensures ScanLog(kd, f, recs[..n + 1]) == ScanOne(ScanLog(kd, f, recs[..n]), recs[n], Loc(f, n))
  {
    assert recs[..n + 1][..n] == recs[..n];
  }

  lemma OnePlace(h: Checksum, d: Disk, f: nat, i: nat, kd: map<Key, Loc>, entries: Entries)
    requires f in d.data && i < |Parse(h, d.data[f])| && SamePlaces(h, d, kd, entries)
    ensures
      var it := Parse(h, d.data[f])[i];
      SamePlaces(h, d, ScanOne(kd, RecOf(it.entry), Loc(f, i)), Apply(entries, ItemEffect(f, it)))
  {
    hide ParseFrom, RecordsOf;
    assert InFiles(RecordsOf(h, d), Loc(f, i)) by { RecordAt(h, d, f, i); }
  }

  lemma RecordAt(h: Checksum, d: Disk, f: nat, i: nat)
    requires f in d.data && i < |Parse(h, d.data[f])|
    ensures InFiles(RecordsOf(h, d), Loc(f, i))
  {
  }

  lemma {:induction false} LogPlaces(h: Checksum, d: Disk, f: nat, n: nat, kd: map<Key, Loc>, entries: Entries)
    requires f in d.data && n <= |Parse(h, d.data[f])| && SamePlaces(h, d, kd, entries)
    ensures
      var items := Parse(h, d.data[f]);
      SamePlaces(h, d, ScanLog(kd, f, RecsOf(items)[..n]), ApplyAll(entries, ItemEffects(f, items[..n])))
  {
    var items := Parse(h, d.data[f]);
    if n == 0 {
      NoEffects(entries, ItemEffects(f, items[..n]));
    } else {
      hide ParseFrom, SamePlaces, ScanLog, ApplyAll, Apply, ItemEffect, ScanOne;
      LogPlaces(h, d, f, n - 1, kd, entries);
      assert items[..n] == items[..n - 1] + [items[n - 1]];
      SnocEffects(entries, f, items[..n - 1], items[n - 1]);
      ScanSnoc(kd, f, RecsOf(items), n - 1);
      var there := ApplyAll(entries, ItemEffects(f, items[..n - 1]));
      OnePlace(h, d, f, n - 1, ScanLog(kd, f, RecsOf(items)[..n - 1]), there);
    }
  }

  /** Recovery by bytes and the scan by records go to the same places, file after file. */
  lemma {:induction false} ScanPlaces(h: Checksum, d: Disk, n: nat)
    requires Scanned(h, d)
    ensures SamePlaces(h, d, ScanFiles(RecordsOf(h, d), n), RecoverBelow(h, d, n))
  {
    hide ParseFrom, ApplyAll, ScanLog, FileEffects, SamePlaces;
    if n == 0 {
      assert SamePlaces(h, d, map[], map[]) by { Nowhere(h, d); }
    } else {
      ScanPlaces(h, d, n - 1);
      if n - 1 in d.data {
        var items := Parse(h, d.data[n - 1]);
        LogPlaces(h, d, n - 1, |items|, ScanFiles(RecordsOf(h, d), n - 1), RecoverBelow(h, d, n - 1));
        assert items[..|items|] == items && RecsOf(items)[..|items|] == RecsOf(items);
      }
    }
  }

  lemma Nowhere(h: Checksum, d: Disk)
    ensures SamePlaces(h, d, map[], map[])
  {
  }

  /** What a get of `k` answers on a store opened on this directory. */
  ghost function ReadsAs(h: Checksum, d: Disk, k: Key): Option<Value> {
    if k in Recovered(h, d) && ReadAt(d, Recovered(h, d)[k]).Content?
    then Some(ReadAt(d, Recovered(h, d)[k]).value) else None
  }

  /** Recovery points each key at the bytes of the record the scan by records names, and reads its value there. */
  lemma RecoveredNames(h: Checksum, d: Disk, k: Key)
    requires Scanned(h, d)
    ensures
      var kd := ScanFiles(RecordsOf(h, d), NextId(d.data.Keys));
      && (k in Recovered(h, d) <==> k in kd)
      && (k in kd ==> InFiles(RecordsOf(h, d), kd[k]) && Recovered(h, d)[k] == PtrAt(h, d, kd[k]))
      && (k in kd ==> RecordsOf(h, d)[kd[k].file][kd[k].idx] == Rec(k, ReadsAs(h, d, k)) && ReadsAs(h, d, k).Some?)
      && (k !in kd ==> ReadsAs(h, d, k) == None)
  {
    hide ParseFrom, ScanFiles, RecoverBelow, FileEffects;
    var n := NextId(d.data.Keys);
    var kd := ScanFiles(RecordsOf(h, d), n);
    ScanPlaces(h, d, n);
    if k in kd {
      var l := ScanLast(RecordsOf(h, d), n, k);
      PlaceReads(h, d, kd[k], k);
    }
  }

  lemma PlaceReads(h: Checksum, d: Disk, l: Loc, k: Key)
    requires InFiles(RecordsOf(h, d), l)
    requires RecordsOf(h, d)[l.file][l.idx].key == k && RecordsOf(h, d)[l.file][l.idx].value.Some?
    ensures ReadAt(d, PtrAt(h, d, l)).Content?
    ensures RecordsOf(h, d)[l.file][l.idx].value == Some(ReadAt(d, PtrAt(h, d, l)).value)
  {
    hide ParseFrom;
    var it := Parse(h, d.data[l.file])[l.idx];
    assert IsAt(it, k, l.file, PtrAt(h, d, l));
    PointsAtReads(h, d, k, PtrAt(h, d, l), it);
  }

  // --- From records to bytes -------------------------------------------------------------

  /** A put carries its value, a tombstone none. */
  function ValueOf(r: Rec): Value {
    if r.value.Some? then r.value.value else []
  }

  /** The sizes of every record fit in an entry's header. */
  predicate Fit(recs: seq<Rec>) {
    forall i :: 0 <= i < |recs| ==> Encodable(recs[i].key, ValueOf(recs[i]))
  }

  /** The file with these records, written at these times. */
  function LogBytes(h: Checksum, recs: seq<Rec>, stamps: seq<U32>): seq<Byte>
    requires |stamps| == |recs|
  {
    if recs == [] then []
    else
      var i := |recs| - 1;
      var r := recs[i];
      LogBytes(h, recs[..i], stamps[..i]) + EntryBytes(h, r.key, ValueOf(r), r.value.None?, stamps[i])
  }

  /** Its bytes are as many as the sizes say, and a scan finds the records where the sizes put them. */
  ghost predicate Spells(h: Checksum, bytes: seq<Byte>, recs: seq<Rec>) {
    && Whole(h, bytes) && |bytes| == FileSize(recs) && RecsOf(Parse(h, bytes)) == recs
    && forall i :: 0 <= i < |recs| ==> Parse(h, bytes)[i].End() == FileSize(recs[..i + 1])
  }

  /** Appending the entry appends the record. */
  lemma AppendSpells(h: Checksum, bytes: seq<Byte>, recs: seq<Rec>, r: Rec, stamp: U32)
    requires Spells(h, bytes, recs) && Encodable(r.key, ValueOf(r))
    ensures Spells(h, bytes + EntryBytes(h, r.key, ValueOf(r), r.value.None?, stamp), recs + [r])
  {
    hide ParseFrom, EntryBytes, Whole, FileSize;
    var more := recs + [r];
    AppendParses(h, bytes, r.key, ValueOf(r), r.value.None?, stamp);
    SizeSnoc(recs, r);
    var items := Parse(h, bytes + EntryBytes(h, r.key, ValueOf(r), r.value.None?, stamp));
    assert RecOf(items[|recs|].entry) == r;
    forall i | 0 <= i < |more|
      ensures items[i].End() == FileSize(more[..i + 1])
    {
      if i < |recs| {
        assert more[..i + 1] == recs[..i + 1];
      } else {
        assert more[..i + 1] == more;
      }
    }
  }

  lemma NothingSpells(h: Checksum)
    ensures Spells(h, [], [])
  {
  }

  lemma {:induction false} LogSpells(h: Checksum, recs: seq<Rec>, stamps: seq<U32>)
    requires |stamps| == |recs| && Fit(recs)
    ensures Spells(h, LogBytes(h, recs, stamps), recs)
  {
    hide Spells, EntryBytes;
    if recs == [] {
      NothingSpells(h);
    } else {
      var i := |recs| - 1;
      var r := recs[i];
      LogSpells(h, recs[..i], stamps[..i]);
      AppendSpells(h, LogBytes(h, recs[..i], stamps[..i]), recs[..i], r, stamps[i]);
      assert recs[..i] + [r] == recs;
    }
  }

  /** A file starts with what it held before. */
  lemma {:induction false} LogPrefix(h: Checksum, recs: seq<Rec>, stamps: seq<U32>, n: nat)
    requires |stamps| == |recs| && n <= |recs|
    ensures LogBytes(h, recs[..n], stamps[..n]) <= LogBytes(h, recs, stamps)
  {
    hide EntryBytes;
    var i := |recs| - 1;
    if n <= i {
      LogPrefix(h, recs[..i], stamps[..i], n);
      assert recs[..i][..n] == recs[..n] && stamps[..i][..n] == stamps[..n];
    } else {
      assert recs[..n] == recs && stamps[..n] == stamps;
    }
  }

  lemma {:induction false} SizesGrow(recs: seq<Rec>, i: nat, j: nat)
    requires i <= j <= |recs|
    ensures FileSize(recs[..i]) <= FileSize(recs[..j])
  {
    if i < j {
      SizesGrow(recs, i, j - 1);
      assert recs[..j] == recs[..j - 1] + [recs[j - 1]];
      SizeSnoc(recs[..j - 1], recs[j - 1]);
    }
  }

  /** A file cut at any byte holds exactly the records that end at or before the cut. */
  lemma CutSpells(h: Checksum, bytes: seq<Byte>, recs: seq<Rec>, c: nat)
    requires Spells(h, bytes, recs) && c <= |bytes|
    ensures
      var n := |Parse(h, bytes[..c])|;
      && n <= |recs| && RecsOf(Parse(h, bytes[..c])) == recs[..n]
      && forall i :: 0 <= i <= |recs| ==> (i <= n <==> FileSize(recs[..i]) <= c)
  {
    hide ParseFrom, Whole, FileSize;
    var m := ParseCut(h, bytes, 0, c);
    var items := Parse(h, bytes);
    assert RecsOf(items[..m]) == RecsOf(items)[..m];
    forall i | 0 <= i <= |recs|
      ensures i <= m <==> FileSize(recs[..i]) <= c
    {
      if i > 0 {
        assert items[i - 1].End() == FileSize(recs[..i]);
      } else {
        assert FileSize(recs[..0]) == 0 by { EmptySize(recs); }
      }
    }
  }

  lemma EmptySize(recs: seq<Rec>)
    ensures FileSize(recs[..0]) == 0
  {
  }

  // --- What a crash leaves -----------------------------------------------------------------

  /** The directory a process crash may leave: of each file at least the flushed records, and at most
      what was written, cut at any byte; every hint file is closed or not trusted. */
  ghost predicate CrashDisk(h: Checksum, s: State, stamps: map<nat, seq<U32>>, d: Disk) {
    && d.data.Keys == s.linked && Scanned(h, d)
    && forall f :: f in s.linked && f in s.files && f in s.visible ==>
         && f in stamps && |stamps[f]| == |s.files[f]| && Fit(s.files[f]) && s.visible[f] <= |s.files[f]|
         && FileSize(s.files[f][..s.visible[f]]) <= |d.data[f]|
         && d.data[f] <= LogBytes(h, s.files[f], stamps[f])
  }

  /** How many records of each file are left. */
  function CutOf(h: Checksum, s: State, d: Disk): map<nat, nat> {
    map f | f in s.files :: if f in d.data then |Parse(h, d.data[f])| else |s.files[f]|
  }

  lemma FileCut(h: Checksum, s: State, stamps: map<nat, seq<U32>>, d: Disk, f: nat)
    requires FilesOk(s) && CrashDisk(h, s, stamps, d) && f in s.linked
    ensures
      var n := |Parse(h, d.data[f])|;
      s.visible[f] <= n <= |s.files[f]| && RecsOf(Parse(h, d.data[f])) == s.files[f][..n]
  {
    hide ParseFrom, LogBytes, FileSize, Scanned, Spells;
    var recs, all := s.files[f], LogBytes(h, s.files[f], stamps[f]);
    LogSpells(h, recs, stamps[f]);
    assert all[..|d.data[f]|] == d.data[f];
    CutSpells(h, all, recs, |d.data[f]|);
  }

  lemma DiskShape(h: Checksum, s: State, stamps: map<nat, seq<U32>>, d: Disk)
    requires FilesOk(s) && CrashDisk(h, s, stamps, d)
    ensures d.data.Keys == s.linked <= s.files.Keys && s.visible.Keys == s.files.Keys && Scanned(h, d)
    ensures forall f :: f in s.files ==> s.visible[f] <= |s.files[f]|
  {
    hide Scanned;
  }

  /** Cutting bytes is cutting records: never within one, and never below what was flushed. */
  lemma BytesCutRecords(h: Checksum, s: State, stamps: map<nat, seq<U32>>, d: Disk)
    requires FilesOk(s) && CrashDisk(h, s, stamps, d)
    ensures CrashCut(s, CutOf(h, s, d)) && RecordsOf(h, d) == CutFiles(s, CutOf(h, s, d))
  {
    hide ParseFrom, FilesOk, CrashDisk, Scanned, RecsOf;
    DiskShape(h, s, stamps, d);
    var cut := CutOf(h, s, d);
    forall f | f in s.linked
      ensures f in s.files && s.visible[f] <= cut[f] <= |s.files[f]| && RecordsOf(h, d)[f] == s.files[f][..cut[f]]
    {
      FileCut(h, s, stamps, d, f);
    }
    assert CrashCut(s, cut);
  }

  /** These records written out, with no hint file. */
  function Spelled(h: Checksum, s: State, stamps: map<nat, seq<U32>>, cut: map<nat, nat>): Disk {
    Disk(map f | f in s.linked && f in s.files && f in cut && f in stamps
                 && cut[f] <= |s.files[f]| == |stamps[f]| :: LogBytes(h, s.files[f][..cut[f]], stamps[f][..cut[f]]),
         map[])
  }

  /** And every cut of the records is a cut of the bytes. */
  lemma RecordsCutBytes(h: Checksum, s: State, stamps: map<nat, seq<U32>>, cut: map<nat, nat>) returns (d: Disk)
    requires FilesOk(s) && CrashCut(s, cut)
    requires forall f :: f in s.linked ==> f in stamps && |stamps[f]| == |s.files[f]| && Fit(s.files[f])
    ensures CrashDisk(h, s, stamps, d) && RecordsOf(h, d) == CutFiles(s, cut)
  {
    hide ParseFrom, LogBytes, Spells, FileSize, RecsOf;
    d := Spelled(h, s, stamps, cut);
    forall f | f in s.linked
      ensures RecsOf(Parse(h, d.data[f])) == s.files[f][..cut[f]]
      ensures FileSize(s.files[f][..s.visible[f]]) <= |d.data[f]| && d.data[f] <= LogBytes(h, s.files[f], stamps[f])
    {
      LogPrefix(h, s.files[f], stamps[f], cut[f]);
      SpelledFile(h, s.files[f], stamps[f], s.visible[f], cut[f]);
    }
    hide FilesOk, CrashCut, Fit;
  }

  lemma SpelledFile(h: Checksum, recs: seq<Rec>, stamps: seq<U32>, v: nat, n: nat)
    requires v <= n <= |recs| == |stamps| && Fit(recs)
    ensures
      var bytes := LogBytes(h, recs[..n], stamps[..n]);
      RecsOf(Parse(h, bytes)) == recs[..n] && FileSize(recs[..v]) <= |bytes|
  {
    hide LogBytes, ParseFrom, Whole, FileSize, RecsOf;
    LogSpells(h, recs[..n], stamps[..n]);
    SizesGrow(recs, v, n);
  }

  lemma {:induction false} ScanDepends(a: map<nat, seq<Rec>>, b: map<nat, seq<Rec>>, n: nat)
    requires forall f: nat :: f < n ==> (f in a <==> f in b) && (f in a ==> a[f] == b[f])
    ensures ScanFiles(a, n) == ScanFiles(b, n)
  {
    hide ScanLog;
    if n > 0 {
      ScanDepends(a, b, n - 1);
    }
  }

  /** The fresh active file adds nothing to the scan. */
  lemma FreshScan(left: map<nat, seq<Rec>>, n: nat)
    requires n !in left
    ensures ScanFiles(left[n := []], n + 1) == ScanFiles(left, n)
  {
    ScanDepends(left[n := []], left, n);
  }

  /** Opening these records answers with the record the scan names. */
  lemma ReopenedReads(s: State, cut: map<nat, nat>, k: Key)
    ensures
      var left := CutFiles(s, cut);
      var kd := ScanFiles(left, NextId(left.Keys));
      && (k !in kd ==> AfterCrash(s, cut, k) == None)
      && (k in kd && InFiles(left, kd[k]) ==> AfterCrash(s, cut, k) == left[kd[k].file][kd[k].idx].value)
  {
    hide ScanFiles, CutFiles;
    var left := CutFiles(s, cut);
    var n := NextId(left.Keys);
    FreshScan(left, n);
    var q := Reopened(s, cut);
    var kd := ScanFiles(left, n);
    assert q.keydir == kd;
    if k in kd && InFiles(left, kd[k]) {
      assert HasRec(q, kd[k]) && At(q, kd[k]) == left[kd[k].file][kd[k].idx];
    }
  }

  /** Opening these bytes answers as the concurrent model says opening these records does. */
  lemma CrashReadsBytes(h: Checksum, s: State, stamps: map<nat, seq<U32>>, d: Disk, k: Key)
    requires FilesOk(s) && CrashDisk(h, s, stamps, d)
    ensures CrashCut(s, CutOf(h, s, d)) && AfterCrash(s, CutOf(h, s, d), k) == ReadsAs(h, d, k)
  {
    hide CrashDisk, CrashCut, CutOf, CutFiles, ScanFiles, ReadsAs, AfterCrash, FilesOk, PtrAt, Recovered, Scanned,
         InFiles;
    BytesCutRecords(h, s, stamps, d);
    DiskShape(h, s, stamps, d);
    assert RecordsOf(h, d).Keys == d.data.Keys;
    hide RecordsOf;
    RecoveredNames(h, d, k);
    ReopenedReads(s, CutOf(h, s, d), k);
  }

  /** Down to the bytes: whatever a process crash leaves of the files in a clean run, with no write
      between log and keydir, a store opened on it answers every get as the store did before. */
  lemma QuietReopensBytes(h: Checksum, states: seq<State>, events: seq<Event>, i: nat, stamps: map<nat, seq<U32>>,
                          d: Disk, k: Key)
    requires IsCleanRun(states, events) && i < |states| && CrashDisk(h, states[i], stamps, d)
    requires forall t :: t in states[i].writers ==> !Pushed(states[i].writers[t])
    ensures ReadsAs(h, d, k) == Lookup(LiveMap(states[i]), k)
  {
    hide IsCleanRun, CrashDisk, ReadsAs, LiveMap, Inv, CleanInv, CutOf, CrashCut;
    CleanRunInv(states, events, i);
    InvFiles(states[i]);
    CrashReadsBytes(h, states[i], stamps, d, k);
    QuietReopensLive(states, events, i, CutOf(h, states[i], d));
  }
}
