/** A session of the store, from the scan that opens it to the crash that ends it. */
module MergeSession {
  import opened Bytes
  import opened Format
  import opened Index
  import opened Recovery
  import opened MergeProtocol

  // --- What recovery makes of the files -------------------------------------------

  /** Scanning one file: puts overwrite, tombstones remove. */
  function ScanLog(kd: map<Key, Loc>, f: nat, recs: seq<Rec>): map<Key, Loc> {
    if recs == [] then kd
    else
      var i := |recs| - 1;
      var before := ScanLog(kd, f, recs[..i]);
      if recs[i].value.Some? then before[recs[i].key := Loc(f, i)] else before - {recs[i].key}
  }

  /** Scanning the files with ids below `n`, in ascending order. */
  function ScanFiles(files: map<nat, seq<Rec>>, n: nat): map<Key, Loc> {
    if n == 0 then map[]
    else if n - 1 in files then ScanLog(ScanFiles(files, n - 1), n - 1, files[n - 1])
    else ScanFiles(files, n - 1)
  }

  predicate Before(a: Loc, b: Loc) {
    a.file < b.file || (a.file == b.file && a.idx < b.idx)
  }

  /** The file has a record there. */
  predicate InFiles(files: map<nat, seq<Rec>>, l: Loc) {
    l.file in files && l.idx < |files[l.file]|
  }

  /** The last record of `k` below file `n` is at `l`. */
  ghost predicate LastOf(files: map<nat, seq<Rec>>, n: nat, k: Key, l: Loc) {
    && InFiles(files, l) && l.file < n && files[l.file][l.idx].key == k
    && forall d :: InFiles(files, d) && d.file < n && files[d.file][d.idx].key == k ==> !Before(l, d)
  }

  lemma {:induction false} LogLast(kd: map<Key, Loc>, f: nat, recs: seq<Rec>, k: Key) returns (i: Option<nat>)
    ensures i == None ==> Lookup(ScanLog(kd, f, recs), k) == Lookup(kd, k)
    ensures i == None ==> forall j :: 0 <= j < |recs| ==> recs[j].key != k
    ensures i.Some? ==> i.value < |recs| && recs[i.value].key == k
    ensures i.Some? ==> forall j :: i.value < j < |recs| ==> recs[j].key != k
    ensures i.Some? ==>
      Lookup(ScanLog(kd, f, recs), k) == if recs[i.value].value.Some? then Some(Loc(f, i.value)) else None
  {
    if recs == [] {
      i := None;
    } else {
      var init := recs[..|recs| - 1];
      if recs[|recs| - 1].key == k {
        i := Some(|recs| - 1);
      } else {
        i := LogLast(kd, f, init, k);
        assert forall j :: 0 <= j < |init| ==> recs[j] == init[j];
      }
    }
  }

  /** Last write wins: a scan leaves each key at its last record, or absent if that is a
      tombstone or there is none. */
  lemma {:induction false} ScanLast(files: map<nat, seq<Rec>>, n: nat, k: Key) returns (l: Option<Loc>)
    ensures l == None ==> k !in ScanFiles(files, n)
    ensures l == None ==> forall d :: InFiles(files, d) && d.file < n ==> files[d.file][d.idx].key != k
    ensures l.Some? ==> LastOf(files, n, k, l.value)
    ensures l.Some? ==>
      Lookup(ScanFiles(files, n), k) == if files[l.value.file][l.value.idx].value.Some? then l else None
  {
    if n == 0 {
      l := None;
    } else {
      var f := n - 1;
      l := ScanLast(files, f, k);
      if f in files {
        var i := LogLast(ScanFiles(files, f), f, files[f], k);
        if i.Some? {
          l := Some(Loc(f, i.value));
        }
      }
    }
  }

  // --- Opening ----------------------------------------------------------------------

  /** The state `open` leaves on any directory: the keydir is what the scan finds, and a fresh
      empty active file lies above everything. */
  ghost predicate Opened(s: State) {
    && s.linked == s.files.Keys && s.visible.Keys == s.files.Keys && s.handles == {}
    && (forall f :: f in s.files ==> s.visible[f] == |s.files[f]| && f <= s.active)
    && s.active in s.files && s.files[s.active] == [] && s.nextId == s.active + 1
    && s.keydir == ScanFiles(s.files, s.nextId)
    && (forall t :: t in s.writers ==> s.writers[t] == WIdle)
    && (forall t :: t in s.readers ==> s.readers[t] == RIdle)
    && s.merge == Off && s.published == s.keydir.Values && s.versions == map[]
  }

  lemma OpenedKey(s: State, k: Key)
    requires Opened(s) && k in s.keydir
    ensures Good(s, k, s.keydir[k]) && s.keydir[k] in s.published && LastOf(s.files, s.nextId, k, s.keydir[k])
  {
    var l := ScanLast(s.files, s.nextId, k);
  }

  /** Every session starts in the protocol's invariant. */
  lemma OpenedInv(s: State)
    requires Opened(s)
    ensures Inv(s)
  {
    hide ScanFiles, LastOf;
    forall k | k in s.keydir
      ensures Good(s, k, s.keydir[k]) && s.keydir[k] in s.published
    {
      OpenedKey(s, k);
    }
    forall l | l in s.published
      ensures HasRec(s, l)
    {
      var k :| k in s.keydir && s.keydir[k] == l;
    }
  }

  // --- Crashing and opening again -----------------------------------------------------

  /** What a process crash may leave: of each file, at least the flushed records. */
  predicate CrashCut(s: State, cut: map<nat, nat>) {
    && cut.Keys == s.files.Keys
    && forall f :: f in cut && f in s.visible ==> s.visible[f] <= cut[f] <= |s.files[f]|
  }

  /** The files of the directory, cut. */
  function CutFiles(s: State, cut: map<nat, nat>): map<nat, seq<Rec>> {
    map f | f in s.linked && f in s.files && f in cut && cut[f] <= |s.files[f]| :: s.files[f][..cut[f]]
  }

  /** Opening what a crash left. Nothing but the files survives. */
  ghost function Reopened(s: State, cut: map<nat, nat>): State {
    var left := CutFiles(s, cut);
    var n := NextId(left.Keys);
    var files := left[n := []];
    var kd := ScanFiles(files, n + 1);
    State(files, map f | f in files :: |files[f]|, files.Keys, {}, kd, n, n + 1,
          map t | t in s.writers :: WIdle, map t | t in s.readers :: RIdle, Off, kd.Values, map[], s.limit)
  }

  /** A crash at any moment of any session leaves the start of another one, under any size limit. */
  lemma ReopenedIsOpened(s: State, cut: map<nat, nat>, limit: nat)
    ensures Opened(Reopened(s, cut).(limit := limit))
  {
    hide ScanFiles;
    var left := CutFiles(s, cut);
    var n := NextId(left.Keys);
    assert n !in left;
    forall f | f in Reopened(s, cut).files
      ensures f <= n
    {
      assert f == n || f in left.Keys;
    }
  }
}
