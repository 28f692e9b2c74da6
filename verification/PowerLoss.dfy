/** What group commit is for: a write that was answered Ok survives a power loss that keeps only what was synced. */
module PowerLoss {
  import opened Bytes
  import opened Format
  import opened Scan
  import opened Index
  import opened Recovery
  import opened LogFacts
  import opened CommitProtocol
  import opened CommitOutcome
  import opened MergeSession
  import opened RecordBytes
  import MergeProtocol

  type Rec = MergeProtocol.Rec

  // --- Which write went to which file ------------------------------------------------------

  /** Files follow each other. */
  predicate Ordered(fileOf: seq<nat>) {
    forall i, j :: 0 <= i < j < |fileOf| ==> fileOf[i] <= fileOf[j]
  }

  lemma StepOrdered(s: State, a: Action, s': State)
    requires Inv(s) && Ordered(s.fileOf) && IsStep(s, a, s')
    ensures Ordered(s'.fileOf)
  {
    hide Rounds, Arrivals, ThreadOk, CoveredUpTo, WrittenTo, NotifyAll;
    assert forall i :: 0 <= i < |s.fileOf| ==> s.fileOf[i] == Nth(s.fileOf, i + 1) <= s.current;
    assert s'.fileOf == s.fileOf || s'.fileOf == s.fileOf + [s.current];
  }

  lemma {:induction false} RunOrdered(states: seq<State>, actions: seq<Action>, i: nat)
    requires IsRun(states, actions) && i < |states|
    ensures Ordered(states[i].fileOf)
  {
    hide Inv, Step, Enabled, Ordered;
    if i == 0 {
      assert Ordered([]) by { NoneOrdered(); }
    } else {
      RunOrdered(states, actions, i - 1);
      RunInv(states, actions, i - 1);
      assert IsStep(states[i - 1], actions[i - 1], states[i]);
      StepOrdered(states[i - 1], actions[i - 1], states[i]);
    }
  }

  lemma NoneOrdered()
    ensures Ordered([])
  {
  }

  /** The file of every write so far, one that has no generation yet included. */
  function Writes(s: State): seq<nat> {
    if s.lock.Some? && At(s, s.lock.value, Wrote) then s.fileOf + [s.current] else s.fileOf
  }

  /** How many writes went to files before `f`. */
  function Below(fileOf: seq<nat>, f: nat): (n: nat)
    ensures n <= |fileOf|
  {
    if fileOf == [] then 0
    else if fileOf[|fileOf| - 1] < f then |fileOf|
    else Below(fileOf[..|fileOf| - 1], f)
  }

  lemma {:induction false} BelowSplits(fileOf: seq<nat>, f: nat)
    requires Ordered(fileOf)
    ensures forall i :: 0 <= i < |fileOf| ==> (i < Below(fileOf, f) <==> fileOf[i] < f)
  {
    if fileOf != [] {
      var init := fileOf[..|fileOf| - 1];
      BelowSplits(init, f);
      assert forall i :: 0 <= i < |init| ==> init[i] == fileOf[i];
    }
  }

  lemma BelowGrows(fileOf: seq<nat>, f: nat, g: nat)
    requires Ordered(fileOf) && f <= g
    ensures Below(fileOf, f) <= Below(fileOf, g)
  {
    hide Below;
    BelowSplits(fileOf, f);
    BelowSplits(fileOf, g);
    if Below(fileOf, f) > 0 {
      assert fileOf[Below(fileOf, f) - 1] < g;
    }
  }

  /** What was written to file `f`. */
  function Part<T>(log: seq<T>, fileOf: seq<nat>, f: nat): seq<T>
    requires |log| == |fileOf|
  {
    if Below(fileOf, f) <= Below(fileOf, f + 1) then log[Below(fileOf, f)..Below(fileOf, f + 1)] else []
  }

  // --- What is left ------------------------------------------------------------------------

  /** The records written so far and when, in the order they were appended. */
  datatype Log = Log(recs: seq<Rec>, stamps: seq<U32>) {
    predicate Of(fileOf: seq<nat>) {
      |recs| == |stamps| == |fileOf| && Fit(recs)
    }
  }

  /** The bytes that went to file `f`. */
  function BytesOf(h: Checksum, log: Log, fileOf: seq<nat>, f: nat): seq<Byte>
    requires log.Of(fileOf)
  {
    LogBytes(h, Part(log.recs, fileOf, f), Part(log.stamps, fileOf, f))
  }

  /** The bytes of the first `n` records. */
  function SizeUpTo(recs: seq<Rec>, n: int): nat {
    MergeProtocol.FileSize(if 0 <= n <= |recs| then recs[..n] else recs)
  }

  /** Everything a successful fsync covered in file `f` lies within the first `c` bytes of it. */
  ghost predicate Synced(s: State, log: Log, f: nat, c: nat)
    requires log.Of(Writes(s))
  {
    forall g: nat :: 1 <= g <= |s.fileOf| && g in s.covered && Nth(s.fileOf, g) == f ==>
      SizeUpTo(Part(log.recs, Writes(s), f), g - Below(Writes(s), f)) <= c
  }

  /** The directory a power loss may leave. `base` is what the session began with, `first` its first file
      id; of each file of the session any prefix is left that has the synced bytes. */
  ghost predicate LeftByPowerLoss(h: Checksum, s: State, base: Disk, first: nat, log: Log, d: Disk) {
    && log.Of(Writes(s)) && Scanned(h, base) && (forall f :: f in base.data || f in base.hints ==> f < first)
    && d.hints == base.hints
    && (forall f :: f in d.data <==> f in base.data || first <= f <= first + s.current)
    && (forall f :: f in base.data ==> d.data[f] == base.data[f])
    && forall f :: 0 <= f <= s.current ==>
         d.data[first + f] <= BytesOf(h, log, Writes(s), f) && Synced(s, log, f, |d.data[first + f]|)
  }

  lemma WritesOrdered(s: State)
    requires Inv(s) && Ordered(s.fileOf)
    ensures Ordered(Writes(s)) && s.fileOf <= Writes(s)
    ensures forall i :: 0 <= i < |Writes(s)| ==> Writes(s)[i] <= s.current
    ensures forall i :: |s.fileOf| <= i < |Writes(s)| ==> Writes(s)[i] == s.current
    ensures forall i :: 0 <= i < |s.fileOf| && Writes(s)[i] < s.current ==> i + 1 in s.covered
  {
    hide Rounds, Arrivals, ThreadOk, CoveredUpTo;
    forall i | 0 <= i < |s.fileOf|
      ensures s.fileOf[i] <= s.current && (s.fileOf[i] < s.current ==> i + 1 in s.covered)
    {
      assert Nth(s.fileOf, i + 1) == s.fileOf[i];
    }
  }

  /** Of each file the first records are left, down to the last that is synced. */
  lemma PartLeft(h: Checksum, s: State, base: Disk, first: nat, log: Log, d: Disk, f: nat) returns (n: nat)
    requires LeftByPowerLoss(h, s, base, first, log, d) && f <= s.current && Inv(s) && Ordered(s.fileOf)
    ensures
      var part := Part(log.recs, Writes(s), f);
      && n <= |part| && RecsOf(Parse(h, d.data[first + f])) == part[..n]
      && forall g: nat :: 1 <= g <= |s.fileOf| && g in s.covered && Nth(s.fileOf, g) == f ==>
           g <= Below(Writes(s), f) + n
  {
    hide ParseFrom, LogBytes, MergeProtocol.FileSize, Scanned, Spells, Below, Part, Writes, Inv;
    var part, stamps := Part(log.recs, Writes(s), f), Part(log.stamps, Writes(s), f);
    assert Fit(part) && |part| == |stamps| by { PartFits(log, Writes(s), f); }
    var all, left := LogBytes(h, part, stamps), d.data[first + f];
    assert left <= BytesOf(h, log, Writes(s), f) && Synced(s, log, f, |left|);
    LogSpells(h, part, stamps);
    assert left == all[..|left|];
    CutSpells(h, all, part, |left|);
    n := |Parse(h, left)|;
    forall g: nat | 1 <= g <= |s.fileOf| && g in s.covered && Nth(s.fileOf, g) == f
      ensures g <= Below(Writes(s), f) + n
    {
      WhichPart(s, log.recs, f, g);
    }
  }

  lemma WhichPart(s: State, recs: seq<Rec>, f: nat, g: nat)
    requires Inv(s) && Ordered(s.fileOf) && |recs| == |Writes(s)| && 1 <= g <= |s.fileOf| && Nth(s.fileOf, g) == f
    ensures Below(Writes(s), f) < g <= Below(Writes(s), f) + |Part(recs, Writes(s), f)|
  {
    hide Inv, Below, Writes;
    WritesOrdered(s);
    BelowSplits(Writes(s), f);
    BelowSplits(Writes(s), f + 1);
    BelowGrows(Writes(s), f, f + 1);
    assert Writes(s)[g - 1] == f;
  }

  lemma PartFits(log: Log, fileOf: seq<nat>, f: nat)
    requires log.Of(fileOf)
    ensures Fit(Part(log.recs, fileOf, f)) && |Part(log.recs, fileOf, f)| == |Part(log.stamps, fileOf, f)|
  {
    hide Below;
  }

  // --- What opening it answers ---------------------------------------------------------------

  /** The last word of the records on `k`, if there is one. */
  function LastWord(recs: seq<Rec>, k: Key): Option<Option<Value>> {
    if recs == [] then None
    else if recs[|recs| - 1].key == k then Some(recs[|recs| - 1].value)
    else LastWord(recs[..|recs| - 1], k)
  }

  lemma {:induction false} LastWordAppends(a: seq<Rec>, b: seq<Rec>, k: Key)
    ensures LastWord(a + b, k) == if LastWord(b, k).Some? then LastWord(b, k) else LastWord(a, k)
  {
    if b == [] {
      assert a + b == a;
    } else {
      var init := b[..|b| - 1];
      assert (a + b)[..|a + b| - 1] == a + init;
      LastWordAppends(a, init, k);
    }
  }

  lemma {:induction false} LastWordIs(recs: seq<Rec>, k: Key, i: nat)
    requires i <= |recs| && forall j :: i <= j < |recs| ==> recs[j].key != k
    ensures i == 0 ==> LastWord(recs, k) == None
    ensures i > 0 && recs[i - 1].key == k ==> LastWord(recs, k) == Some(recs[i - 1].value)
  {
    if i < |recs| {
      LastWordIs(recs[..|recs| - 1], k, i);
    }
  }

  /** What a key maps to after a word on it, if there is one. */
  function After(word: Option<Option<Value>>, was: Option<Value>): Option<Value> {
    match word case None => was case Some(v) => v
  }

  /** What a scan of the files below `n` says `k` maps to. */
  function Said(files: map<nat, seq<Rec>>, n: nat, k: Key): Option<Value> {
    var kd := ScanFiles(files, n);
    if k in kd && InFiles(files, kd[k]) then files[kd[k].file][kd[k].idx].value else None
  }

  lemma SaidNext(files: map<nat, seq<Rec>>, f: nat, k: Key)
    requires f in files
    ensures Said(files, f + 1, k) == After(LastWord(files[f], k), Said(files, f, k))
  {
    hide ScanLog, LastWord;
    var i := LogLast(ScanFiles(files, f), f, files[f], k);
    LastWordIs(files[f], k, if i.Some? then i.value + 1 else 0);
    assert Lookup(ScanFiles(files, f + 1), k) == Lookup(ScanLog(ScanFiles(files, f), f, files[f]), k);
  }

  lemma {:induction false} SaidSkips(files: map<nat, seq<Rec>>, n: nat, m: nat)
    requires n <= m && forall f :: f in files ==> f < n || f >= m
    ensures ScanFiles(files, m) == ScanFiles(files, n)
    decreases m - n
  {
    if n < m {
      SaidSkips(files, n, m - 1);
    }
  }

  /** A get answers what the scan says. */
  lemma SaidIsRead(h: Checksum, d: Disk, n: nat, k: Key)
    requires Scanned(h, d) && NextId(d.data.Keys) <= n
    ensures Said(RecordsOf(h, d), n, k) == ReadsAs(h, d, k)
  {
    hide ScanFiles, Scanned, ReadsAs, PtrAt;
    RecoveredNames(h, d, k);
    SaidSkips(RecordsOf(h, d), NextId(d.data.Keys), n);
  }

  /** The first files of the session hold what was written first. */
  lemma PartsFollow(recs: seq<Rec>, fileOf: seq<nat>, f: nat, n: nat)
    requires Ordered(fileOf) && |recs| == |fileOf| && n <= |Part(recs, fileOf, f)|
    ensures Below(fileOf, f) + n <= |recs|
    ensures recs[..Below(fileOf, f) + n] == recs[..Below(fileOf, f)] + Part(recs, fileOf, f)[..n]
    ensures n == |Part(recs, fileOf, f)| ==> Below(fileOf, f) + n == Below(fileOf, f + 1)
  {
    hide Below;
    BelowGrows(fileOf, f, f + 1);
  }

  /** Files that were rotated out are left whole. */
  lemma RotatedWhole(h: Checksum, s: State, base: Disk, first: nat, log: Log, d: Disk, f: nat, n: nat)
    requires LeftByPowerLoss(h, s, base, first, log, d) && f < s.current && Inv(s) && Ordered(s.fileOf)
    requires n <= |Part(log.recs, Writes(s), f)|
    requires forall g: nat :: 1 <= g <= |s.fileOf| && g in s.covered && Nth(s.fileOf, g) == f ==>
      g <= Below(Writes(s), f) + n
    ensures n == |Part(log.recs, Writes(s), f)|
  {
    hide Inv, Below, Writes, LeftByPowerLoss;
    assert |log.recs| == |Writes(s)| by { LogFits(h, s, base, first, log, d); }
    WritesOrdered(s);
    BelowSplits(Writes(s), f);
    BelowSplits(Writes(s), f + 1);
    BelowGrows(Writes(s), f, f + 1);
    var last := Below(Writes(s), f + 1);
    if last > Below(Writes(s), f) {
      assert Writes(s)[last - 1] == f;
      assert Nth(s.fileOf, last) == f && last in s.covered;
    }
  }

  lemma LogFits(h: Checksum, s: State, base: Disk, first: nat, log: Log, d: Disk)
    requires LeftByPowerLoss(h, s, base, first, log, d)
    ensures log.Of(Writes(s))
  {
  }

  /** The session's first `f` files say what was written to them, and otherwise what was there before. */
  lemma {:induction false} SessionSays(h: Checksum, s: State, base: Disk, first: nat, log: Log, d: Disk, f: nat, k: Key)
    requires LeftByPowerLoss(h, s, base, first, log, d) && f <= s.current && Inv(s) && Ordered(s.fileOf)
    ensures Said(RecordsOf(h, d), first + f, k) ==
      After(LastWord(log.recs[..Below(Writes(s), f)], k), ReadsAs(h, base, k))
  {
    hide Inv, Below, Writes, Part, LastWord, Said, ReadsAs, ParseFrom;
    if f == 0 {
      BaseSays(h, s, base, first, log, d, k);
    } else {
      SessionSays(h, s, base, first, log, d, f - 1, k);
      WritesOrdered(s);
      var n := PartLeft(h, s, base, first, log, d, f - 1);
      RotatedWhole(h, s, base, first, log, d, f - 1, n);
      FileSays(h, d, first + f - 1, log.recs, Writes(s), f - 1, n, k, ReadsAs(h, base, k));
    }
  }

  lemma FileSays(h: Checksum, d: Disk, id: nat, recs: seq<Rec>, fileOf: seq<nat>, f: nat, n: nat, k: Key,
                 was: Option<Value>)
    requires Ordered(fileOf) && |recs| == |fileOf| && n <= |Part(recs, fileOf, f)| && id in d.data
    requires RecsOf(Parse(h, d.data[id])) == Part(recs, fileOf, f)[..n]
    requires Said(RecordsOf(h, d), id, k) == After(LastWord(recs[..Below(fileOf, f)], k), was)
    ensures Below(fileOf, f) + n <= |recs|
    ensures n == |Part(recs, fileOf, f)| ==> Below(fileOf, f) + n == Below(fileOf, f + 1)
    ensures Said(RecordsOf(h, d), id + 1, k) == After(LastWord(recs[..Below(fileOf, f) + n], k), was)
  {
    hide Below, Part, LastWord, Said, ParseFrom;
    PartsFollow(recs, fileOf, f, n);
    SaidNext(RecordsOf(h, d), id, k);
    LastWordAppends(recs[..Below(fileOf, f)], Part(recs, fileOf, f)[..n], k);
  }

  lemma {:induction false} NothingBelow(fileOf: seq<nat>)
    ensures Below(fileOf, 0) == 0
  {
    if fileOf != [] {
      NothingBelow(fileOf[..|fileOf| - 1]);
    }
  }

  /** The scan below `n` asks only the files below `n`. */
  lemma SaidDepends(a: map<nat, seq<Rec>>, b: map<nat, seq<Rec>>, n: nat, k: Key)
    requires forall f: nat :: f < n ==> (f in a <==> f in b) && (f in a ==> a[f] == b[f])
    ensures Said(a, n, k) == Said(b, n, k)
  {
    hide ScanFiles;
    ScanDepends(a, b, n);
    var l := ScanLast(a, n, k);
  }

  /** Below the session's first file nothing has changed. */
  lemma BaseSays(h: Checksum, s: State, base: Disk, first: nat, log: Log, d: Disk, k: Key)
    requires LeftByPowerLoss(h, s, base, first, log, d)
    ensures Said(RecordsOf(h, d), first, k) ==
      After(LastWord(log.recs[..Below(Writes(s), 0)], k), ReadsAs(h, base, k))
  {
    hide Below, Writes, ReadsAs, ParseFrom, Said, BytesOf, Synced, Scanned;
    NothingBelow(Writes(s));
    SaidDepends(RecordsOf(h, d), RecordsOf(h, base), first, k);
    SaidIsRead(h, base, first, k);
  }

  /** Whatever a power loss leaves in any state of any run, opening it gives the store after the first
      `m` writes, in the order they were appended; among them is every write that was answered Ok. */
  lemma PowerLossKeepsPrefix(h: Checksum, states: seq<State>, actions: seq<Action>, i: nat,
                             base: Disk, first: nat, log: Log, d: Disk) returns (m: nat)
    requires IsRun(states, actions) && i < |states| && LeftByPowerLoss(h, states[i], base, first, log, d)
    ensures m <= |log.recs|
    ensures forall t :: t in states[i].pcs && states[i].pcs[t].Returned? && states[i].pcs[t].ok ==>
      1 <= states[i].pcs[t].gen <= m
    ensures states[i].coord.durable <= m
    ensures forall k :: ReadsAs(h, d, k) == After(LastWord(log.recs[..m], k), ReadsAs(h, base, k))
  {
    hide IsRun, Inv, Below, Writes, Part, LastWord, Said, ReadsAs, LeftByPowerLoss, ParseFrom;
    var s := states[i];
    RunInv(states, actions, i);
    RunOrdered(states, actions, i);
    WritesOrdered(s);
    LogFits(h, s, base, first, log, d);
    var n := PartLeft(h, s, base, first, log, d, s.current);
    m := Below(Writes(s), s.current) + n;
    PartsFollow(log.recs, Writes(s), s.current, n);
    CoveredLeft(s, n, m);
    forall t | t in s.pcs && s.pcs[t].Returned? && s.pcs[t].ok
      ensures 1 <= s.pcs[t].gen <= m
    {
      AnsweredCovered(s, t);
    }
    DurableCovered(s);
    forall k
      ensures ReadsAs(h, d, k) == After(LastWord(log.recs[..m], k), ReadsAs(h, base, k))
    {
      SessionSays(h, s, base, first, log, d, s.current, k);
      LastFile(h, s, base, first, log, d);
      FileSays(h, d, first + s.current, log.recs, Writes(s), s.current, n, k, ReadsAs(h, base, k));
      SaidIsRead(h, d, first + s.current + 1, k);
    }
  }

  /** Every covered generation is among the first `m`. */
  lemma CoveredLeft(s: State, n: nat, m: nat)
    requires Inv(s) && Ordered(s.fileOf) && m == Below(Writes(s), s.current) + n
    requires forall g: nat :: 1 <= g <= |s.fileOf| && g in s.covered && Nth(s.fileOf, g) == s.current ==> g <= m
    ensures forall g: nat :: 1 <= g <= |s.fileOf| && g in s.covered ==> g <= m
  {
    hide Inv, Below, Writes;
    WritesOrdered(s);
    BelowSplits(Writes(s), s.current);
    forall g: nat | 1 <= g <= |s.fileOf| && Nth(s.fileOf, g) != s.current
      ensures g <= m
    {
      assert Writes(s)[g - 1] < s.current;
    }
  }

  lemma AnsweredCovered(s: State, t: Tid)
    requires Inv(s) && t in s.pcs && s.pcs[t].Returned? && s.pcs[t].ok
    ensures 1 <= s.pcs[t].gen <= |s.fileOf| && s.pcs[t].gen in s.covered
  {
    hide Rounds, Arrivals, Durability;
    assert ThreadOk(s, t);
  }

  lemma DurableCovered(s: State)
    requires Inv(s)
    ensures s.coord.durable <= |s.fileOf| && (s.coord.durable > 0 ==> s.coord.durable in s.covered)
  {
    hide Rounds, Arrivals, ThreadOk;
  }

  /** The current file is the last one. */
  lemma LastFile(h: Checksum, s: State, base: Disk, first: nat, log: Log, d: Disk)
    requires LeftByPowerLoss(h, s, base, first, log, d)
    ensures Scanned(h, d) && NextId(d.data.Keys) == first + s.current + 1 && first + s.current in d.data
  {
    hide Synced, BytesOf, Writes, ParseFrom;
    NextIdIs(d.data.Keys, first + s.current);
    forall f | f in d.data
      ensures FileEffects(h, d, f) == ItemEffects(f, Parse(h, d.data[f]))
    {
      if f in base.data {
        assert FileEffects(h, base, f) == ItemEffects(f, Parse(h, base.data[f]));
      }
    }
  }

  /** A call that has answered Ok: after a power loss the key of the write it made reads as that write left
      it, or as a later write of the key did. */
  lemma OkSurvivesPowerLoss(h: Checksum, states: seq<State>, actions: seq<Action>, b: nat, i: nat, t: Tid,
                            base: Disk, first: nat, log: Log, d: Disk) returns (r: nat, w: nat)
    requires IsRun(states, actions) && i < |states| && LeftByPowerLoss(h, states[i], base, first, log, d)
    requires InCall(actions, b, i, t) && t in states[i].pcs && states[i].pcs[t].Returned? && states[i].pcs[t].ok
    ensures b < r < i && actions[r] == RecordPending(t) && |states[r].fileOf| <= w < |log.recs|
    ensures log.recs[w].key == log.recs[|states[r].fileOf|].key
    ensures ReadsAs(h, d, log.recs[w].key) == log.recs[w].value
  {
    hide IsRun, LastWord, ReadsAs, LeftByPowerLoss, OwnFailure, InCall, SyncedBy;
    r := AnswerIsExact(states, actions, b, i, t);
    var m := PowerLossKeepsPrefix(h, states, actions, i, base, first, log, d);
    var g := LastOfKey(log.recs[..m], states[i].pcs[t].gen);
    LastWordIs(log.recs[..m], log.recs[g - 1].key, g);
    w := g - 1;
  }

  lemma {:induction false} LastOfKey(recs: seq<Rec>, w: nat) returns (g: nat)
    requires 1 <= w <= |recs|
    ensures w <= g <= |recs| && recs[g - 1].key == recs[w - 1].key
    ensures forall j :: g <= j < |recs| ==> recs[j].key != recs[w - 1].key
  {
    if recs[|recs| - 1].key == recs[w - 1].key {
      g := |recs|;
    } else {
      g := LastOfKey(recs[..|recs| - 1], w);
    }
  }
}
