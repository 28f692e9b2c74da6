/** Many sessions of one caller, each ended by a crash at any moment. */
module Sessions {
  import opened Bytes
  import opened Format
  import opened Recovery
  import opened DiskState
  import opened Files
  import opened Engine

  /** After a crash in state `t` of a run the directory opens, with the map of the operations that
      were complete by then, and perhaps of the one in progress. */
  lemma CrashKeepsPrefix(h: Checksum, start: seq<FileState>, trace: seq<FileState>, marks: seq<nat>,
                         m: map<Key, Value>, ops: seq<Op>, t: nat, d: Disk)
    returns (n: nat)
    requires CrashConsistent(h, start, trace, marks, m, ops)
    requires |start| <= t < |trace| && MayCrashTo(trace[t], d)
    ensures DirOk(h, d) && n <= |ops| && PlainMap(StoreView(h, d)) == ModelRun(m, ops[..n])
    ensures forall i :: 0 <= i <= |ops| && marks[i] <= t ==> i <= n
  {
    hide DirOk, PlainMap, StoreView, MayCrashTo, ModelRun, SpanCrashesTo, CrashesTo;
    var i := SpanOf(h, start, trace, marks, m, ops, t, |ops|);
    assert SpanCrashesTo(h, trace, marks[i], marks[i + 1], ModelRun(m, ops[..i]), ModelRun(m, ops[..i + 1]));
    n := InSpan(h, trace, marks[i], marks[i + 1], m, ops, i, t, d);
    forall j | 0 <= j <= |ops| && marks[j] <= t
      ensures j <= i
    {
      if j > i {
        MarksGrow(h, start, trace, marks, m, ops, i + 1, j);
      }
    }
  }

  /** The operation in progress in state `t`. */
  lemma {:induction false} SpanOf(h: Checksum, start: seq<FileState>, trace: seq<FileState>, marks: seq<nat>,
                                  m: map<Key, Value>, ops: seq<Op>, t: nat, n: nat)
    returns (i: nat)
    requires CrashConsistent(h, start, trace, marks, m, ops) && |start| <= t && n <= |ops| && t < marks[n]
    ensures i < n && marks[i] <= t < marks[i + 1]
  {
    hide SpanCrashesTo, ModelRun;
    if n > 0 {
      if marks[n - 1] <= t {
        i := n - 1;
      } else {
        i := SpanOf(h, start, trace, marks, m, ops, t, n - 1);
      }
    }
  }

  lemma {:induction false} MarksGrow(h: Checksum, start: seq<FileState>, trace: seq<FileState>, marks: seq<nat>,
                                     m: map<Key, Value>, ops: seq<Op>, i: nat, j: nat)
    requires CrashConsistent(h, start, trace, marks, m, ops) && i <= j <= |ops|
    ensures marks[i] <= marks[j]
  {
    hide ModelRun, CrashesTo;
    if i < j {
      MarksGrow(h, start, trace, marks, m, ops, i, j - 1);
      var l := j - 1;
      assert SpanCrashesTo(h, trace, marks[l], marks[l + 1], ModelRun(m, ops[..l]), ModelRun(m, ops[..l + 1]));
    }
  }

  lemma InSpan(h: Checksum, trace: seq<FileState>, from: nat, to: nat, m: map<Key, Value>, ops: seq<Op>, i: nat,
               t: nat, d: Disk)
    returns (n: nat)
    requires i < |ops| && SpanCrashesTo(h, trace, from, to, ModelRun(m, ops[..i]), ModelRun(m, ops[..i + 1]))
    requires from <= t < to && t < |trace| && MayCrashTo(trace[t], d)
    ensures DirOk(h, d) && i <= n <= i + 1 && PlainMap(StoreView(h, d)) == ModelRun(m, ops[..n])
  {
    hide DirOk, PlainMap, StoreView, MayCrashTo, ModelRun;
    assert CrashesTo(h, trace[t], ModelRun(m, ops[..i]), ModelRun(m, ops[..i + 1]));
    n := if PlainMap(StoreView(h, d)) == ModelRun(m, ops[..i]) then i else i + 1;
  }

  /** A session over `m` that is given `ops` may end, by a crash, with directory `d`. */
  ghost predicate MayEndIn(h: Checksum, m: map<Key, Value>, ops: seq<Op>, d: Disk) {
    exists start, trace, marks, t: nat ::
      CrashConsistent(h, start, trace, marks, m, ops) && |start| <= t < |trace| && MayCrashTo(trace[t], d)
  }

  /** What the store holds when session `j` begins. */
  ghost function ContentsAt(h: Checksum, m: map<Key, Value>, disks: seq<Disk>, j: nat): map<Key, Value>
    requires j <= |disks|
  {
    if j == 0 then m else PlainMap(StoreView(h, disks[j - 1]))
  }

  /** Sessions one after the other, each opened on what the crash of the one before has left. */
  ghost predicate IsHistory(h: Checksum, m: map<Key, Value>, sessions: seq<seq<Op>>, disks: seq<Disk>) {
    && |disks| == |sessions|
    && forall j :: 0 <= j < |sessions| ==> MayEndIn(h, ContentsAt(h, m, disks, j), sessions[j], disks[j])
  }

  function Concat(kept: seq<seq<Op>>): seq<Op> {
    if kept == [] then [] else Concat(kept[..|kept| - 1]) + kept[|kept| - 1]
  }

  lemma {:induction false} ModelRunConcat(m: map<Key, Value>, a: seq<Op>, b: seq<Op>)
    ensures ModelRun(m, a + b) == ModelRun(ModelRun(m, a), b)
    decreases |b|
  {
    hide ModelStep;
    if b == [] {
      assert a + b == a;
    } else {
      ModelRunConcat(m, a, b[..|b| - 1]);
      assert (a + b)[..|a + b| - 1] == a + b[..|b| - 1];
    }
  }

  lemma EndKeepsPrefix(h: Checksum, m: map<Key, Value>, ops: seq<Op>, d: Disk) returns (kept: seq<Op>)
    requires MayEndIn(h, m, ops, d)
    ensures DirOk(h, d) && kept <= ops && PlainMap(StoreView(h, d)) == ModelRun(m, kept)
  {
    hide DirOk, PlainMap, StoreView, MayCrashTo, ModelRun, CrashConsistent;
    var start, trace, marks, t: nat :|
      CrashConsistent(h, start, trace, marks, m, ops) && |start| <= t < |trace| && MayCrashTo(trace[t], d);
    var n := CrashKeepsPrefix(h, start, trace, marks, m, ops, t, d);
    kept := ops[..n];
  }

  /** Through any number of sessions and crashes the store is the plain map of a prefix of each
      session's operations, one after the other, and can be opened again. */
  lemma {:induction false} SessionsKeepPrefixes(h: Checksum, m: map<Key, Value>, sessions: seq<seq<Op>>,
                                                disks: seq<Disk>)
    returns (kept: seq<seq<Op>>)
    requires IsHistory(h, m, sessions, disks)
    ensures |kept| == |sessions| && forall j :: 0 <= j < |kept| ==> kept[j] <= sessions[j] && DirOk(h, disks[j])
    ensures ContentsAt(h, m, disks, |disks|) == ModelRun(m, Concat(kept))
    decreases |sessions|
  {
    hide DirOk, StoreView, MayEndIn, ModelRun, Concat, PlainMap;
    if sessions == [] {
      kept := [];
      NothingKept(m, kept);
    } else {
      hide ContentsAt;
      var n := |sessions| - 1;
      ShorterHistory(h, m, sessions, disks);
      var before := SessionsKeepPrefixes(h, m, sessions[..n], disks[..n]);
      var last := LastSession(h, m, sessions, disks);
      kept := before + [last];
      ConcatMore(m, before, last);
    }
  }

  lemma NothingKept(m: map<Key, Value>, kept: seq<seq<Op>>)
    requires kept == []
    ensures ModelRun(m, Concat(kept)) == m
  {
  }

  lemma ConcatMore(m: map<Key, Value>, before: seq<seq<Op>>, last: seq<Op>)
    ensures ModelRun(m, Concat(before + [last])) == ModelRun(ModelRun(m, Concat(before)), last)
  {
    assert (before + [last])[..|before|] == before;
    ModelRunConcat(m, Concat(before), last);
  }

  lemma LastSession(h: Checksum, m: map<Key, Value>, sessions: seq<seq<Op>>, disks: seq<Disk>) returns (last: seq<Op>)
    requires IsHistory(h, m, sessions, disks) && sessions != []
    ensures last <= sessions[|sessions| - 1] && DirOk(h, disks[|disks| - 1])
    ensures ContentsAt(h, m, disks, |disks|) == ModelRun(ContentsAt(h, m, disks[..|disks| - 1], |disks| - 1), last)
  {
    hide DirOk, PlainMap, StoreView, MayEndIn, ModelRun;
    var n := |sessions| - 1;
    assert ContentsAt(h, m, disks[..n], n) == ContentsAt(h, m, disks, n);
    last := EndKeepsPrefix(h, ContentsAt(h, m, disks, n), sessions[n], disks[n]);
  }

  lemma ShorterHistory(h: Checksum, m: map<Key, Value>, sessions: seq<seq<Op>>, disks: seq<Disk>)
    requires IsHistory(h, m, sessions, disks) && sessions != []
    ensures IsHistory(h, m, sessions[..|sessions| - 1], disks[..|disks| - 1])
  {
    hide DirOk, PlainMap, StoreView, MayEndIn;
    var n := |sessions| - 1;
    forall j | 0 <= j < n
      ensures MayEndIn(h, ContentsAt(h, m, disks[..n], j), sessions[..n][j], disks[..n][j])
    {
      assert ContentsAt(h, m, disks[..n], j) == ContentsAt(h, m, disks, j);
    }
  }
}
