/** What a call of `commit` comes to: which write it stands for, when it answers Ok and when not, and what an
    fsync has covered. */
module CommitOutcome {
  import opened Bytes
  import opened CommitProtocol

  // --- One step -----------------------------------------------------------------------------

  /** A thread does not move on another's step; at most it is woken. */
  lemma OthersStay(s: State, a: Action, s': State, t: Tid)
    requires Inv(s) && IsStep(s, a, s') && t in s.pcs && t != a.t
    ensures t in s'.pcs && (s'.pcs[t] == s.pcs[t] || (s.pcs[t].Waiting? && s'.pcs[t] == Committing(s.pcs[t].gen)))
  {
    hide Inv, Step;
    StepUntouched(s, a, t);
  }

  lemma KeysStay(s: State, a: Action, s': State)
    requires IsStep(s, a, s')
    ensures s'.pcs.Keys == s.pcs.Keys && a.t in s.pcs && s.coord.pending == |s.fileOf|
  {
    hide Step;
    StepKeys(s, a);
  }

  /** One turn of the commit loop: done if the generation is durable, else the only leader, of a round
      that covers all that is pending, or asleep behind one. */
  lemma DecideExactly(s: State, t: Tid)
    requires Inv(s) && Enabled(s, Decide(t))
    ensures s.coord.pending == |s.fileOf|
    ensures
      var s', g := Step(s, Decide(t)), s.pcs[t].gen;
      && t in s'.pcs
      && (s'.pcs[t] == Returned(g, true) <==> g <= s.coord.durable)
      && (s'.pcs[t] == Leading(g, s.coord.pending) <==> g > s.coord.durable && s.leader == None)
      && (s'.pcs[t] == Waiting(g) <==> g > s.coord.durable && s.leader != None)
      && (s'.leader == if s'.pcs[t].Leading? then Some(t) else s.leader)
  {
    hide Durability, Rounds, Arrivals, ThreadOk;
  }

  /** After a rotation every write so far counts as durable, and nobody sleeps. */
  lemma MarkExactly(s: State, a: Action)
    requires Inv(s) && Enabled(s, a) && (a.RotateMark? || a.MergeMark?)
    ensures s.coord.pending == |s.fileOf|
    ensures Step(s, a).coord.durable == Step(s, a).coord.pending == s.coord.pending
    ensures forall t :: t in Step(s, a).pcs ==> !Step(s, a).pcs[t].Waiting?
  {
    hide Durability, Rounds, Arrivals, ThreadOk;
  }

  /** A sync under the lock leaves nothing uncovered. */
  lemma SyncExactly(s: State, a: Action)
    requires Inv(s) && Enabled(s, a)
    requires a.ExplicitSync? || (a.RotateSync? && a.ok) || (a.MergeSync? && a.ok)
    ensures s.coord.pending == |s.fileOf|
    ensures CoveredUpTo(Step(s, a), |s.fileOf|) && Step(s, a).fileOf == s.fileOf
  {
    hide Rounds, Arrivals, ThreadOk;
    forall g | 1 <= g <= |s.fileOf|
      ensures g in Step(s, a).covered
    {
      assert Nth(s.fileOf, g) <= s.current;
    }
  }

  /** A rotation goes on to a file nothing was written to, and gives up the lock. */
  lemma NewFileExactly(s: State, a: Action)
    requires Inv(s) && Enabled(s, a) && (a.RotateNewFile? || a.MergeNewFile?)
    ensures s.coord.pending == |s.fileOf|
    ensures forall g :: 1 <= g <= |Step(s, a).fileOf| ==> Nth(Step(s, a).fileOf, g) < Step(s, a).current
    ensures Step(s, a).lock == None && Step(s, a).current == s.current + 1
  {
    hide Rounds, Arrivals, ThreadOk;
  }

  /** A thread that is not at work can begin whenever the lock is free. */
  lemma CallsCanBegin(s: State, t: Tid)
    requires t in s.pcs && !Busy(s.pcs[t]) && s.lock == None
    ensures Enabled(s, BeginAppend(t)) && Enabled(s, MergeLock(t)) && Enabled(s, ExplicitSync(t))
  {
  }

  // --- One call -----------------------------------------------------------------------------

  /** A step of the caller's own that failed. */
  predicate Failed(a: Action) {
    (a.RotateSync? || a.TakeHandle? || a.FsyncEnds?) && !a.ok
  }

  /** Thread `t` began an append by step `b` and has begun nothing else up to state `i`. */
  predicate InCall(actions: seq<Action>, b: nat, i: nat, t: Tid) {
    && b < i <= |actions| && actions[b] == BeginAppend(t)
    && forall m :: b < m < i ==> actions[m] != BeginAppend(t) && actions[m] != MergeLock(t)
  }

  /** The call has its generation. */
  predicate HasGen(pc: Pc) {
    pc.Recorded? || pc.RotSynced? || pc.RotMarked? || pc.Committing? || pc.Leading? || pc.Fsyncing? || pc.FsyncDone?
    || pc.Waiting? || pc.Returned?
  }

  /** Its answer is, or is going to be, an error. */
  predicate Failing(pc: Pc) {
    (pc.FsyncDone? || pc.Returned?) && !pc.ok
  }

  ghost predicate OwnFailure(actions: seq<Action>, b: nat, i: nat, t: Tid)
    requires i <= |actions|
  {
    exists m :: b < m < i && actions[m].t == t && Failed(actions[m])
  }

  /** What the call has come to in state `s`: its write is generation `g` of file `f`, if it has been recorded. */
  predicate CallIs(s: State, t: Tid, g: Option<nat>, f: nat, failed: bool) {
    && t in s.pcs
    && (s.pcs[t].Wrote? <==> g == None)
    && (g.Some? ==> HasGen(s.pcs[t]) && s.pcs[t].gen == g.value)
    && (g.Some? ==> 1 <= g.value <= |s.fileOf| && Nth(s.fileOf, g.value) == f)
    && (Failing(s.pcs[t]) <==> failed)
  }

  lemma CallOther(s: State, a: Action, s': State, t: Tid, g: Option<nat>, f: nat, failed: bool)
    requires Inv(s) && IsStep(s, a, s') && CallIs(s, t, g, f, failed) && a.t != t
    ensures CallIs(s', t, g, f, failed)
  {
    hide Inv, Step;
    OthersStay(s, a, s', t);
    StepGrows(s, a);
  }

  lemma CallRecorded(s: State, s': State, t: Tid, g: Option<nat>, f: nat, failed: bool)
    requires Inv(s) && IsStep(s, RecordPending(t), s') && CallIs(s, t, g, f, failed)
    ensures g == None && CallIs(s', t, Some(|s.fileOf| + 1), s.current, failed)
  {
    hide Durability, Rounds, Arrivals, ThreadOk;
    NthGrows(s.fileOf, s.current);
  }

  lemma CallMoves(s: State, a: Action, s': State, g: Option<nat>, f: nat, failed: bool)
    requires Inv(s) && IsStep(s, a, s') && CallIs(s, a.t, g, f, failed)
    requires !a.BeginAppend? && !a.MergeLock? && !a.RecordPending?
    ensures CallIs(s', a.t, g, f, failed || Failed(a))
  {
    hide Inv, Step;
    StepGrows(s, a);
    KeysStay(s, a, s');
    if CommitStep(a) {
      CommitMoves(s, a, s');
    } else {
      AppendMoves(s, a, s');
    }
  }

  /** What a step makes of the call's generation and of its answer. */
  predicate Moves(pc: Pc, a: Action, pc': Pc) {
    HasGen(pc) ==> HasGen(pc') && pc'.gen == pc.gen && (Failing(pc') <==> Failing(pc) || Failed(a))
  }

  lemma CommitMoves(s: State, a: Action, s': State)
    requires IsStep(s, a, s') && CommitStep(a) && a.t in s'.pcs
    ensures HasGen(s.pcs[a.t]) && Moves(s.pcs[a.t], a, s'.pcs[a.t])
  {
    hide WrittenTo;
  }

  lemma AppendMoves(s: State, a: Action, s': State)
    requires IsStep(s, a, s') && a.t in s'.pcs && !CommitStep(a)
    requires !a.BeginAppend? && !a.MergeLock? && !a.RecordPending?
    ensures !s.pcs[a.t].Wrote? && !s'.pcs[a.t].Wrote? && Moves(s.pcs[a.t], a, s'.pcs[a.t])
  {
    hide WrittenTo;
  }

  lemma NoFailureYet(actions: seq<Action>, b: nat, i: nat, t: Tid)
    requires i == b + 1 <= |actions|
    ensures !OwnFailure(actions, b, i, t)
  {
  }

  lemma FailureGrows(actions: seq<Action>, b: nat, i: nat, t: Tid)
    requires b < i < |actions|
    ensures OwnFailure(actions, b, i + 1, t) <==>
      (OwnFailure(actions, b, i, t) || (actions[i].t == t && Failed(actions[i])))
  {
  }

  lemma CallBegun(s: State, s': State, t: Tid)
    requires IsStep(s, BeginAppend(t), s')
    ensures CallIs(s', t, None, 0, false)
  {
  }

  /** In any state of a call, its write is the one its own recording step made, and it fails exactly
      if a step of its own has. */
  lemma {:induction false} CallSoFar(states: seq<State>, actions: seq<Action>, b: nat, i: nat, t: Tid)
    returns (r: Option<nat>)
    requires IsRun(states, actions) && InCall(actions, b, i, t)
    ensures r == None ==> CallIs(states[i], t, None, 0, OwnFailure(actions, b, i, t))
    ensures r.Some? ==> b < r.value < i && actions[r.value] == RecordPending(t)
    ensures r.Some? ==> CallIs(states[i], t, Some(|states[r.value].fileOf| + 1), states[r.value].current,
                               OwnFailure(actions, b, i, t))
  {
    hide Inv, Step, Enabled, CallIs, OwnFailure;
    assert IsStep(states[i - 1], actions[i - 1], states[i]);
    if i == b + 1 {
      r := None;
      CallBegun(states[i - 1], states[i], t);
      NoFailureYet(actions, b, i, t);
    } else {
      var a, s, s' := actions[i - 1], states[i - 1], states[i];
      r := CallSoFar(states, actions, b, i - 1, t);
      RunInv(states, actions, i - 1);
      FailureGrows(actions, b, i - 1, t);
      var g := if r.Some? then Some(|states[r.value].fileOf| + 1) else None;
      var f := if r.Some? then states[r.value].current else 0;
      var failed := OwnFailure(actions, b, i - 1, t);
      if a.t != t {
        CallOther(s, a, s', t, g, f, failed);
      } else if a.RecordPending? {
        CallRecorded(s, s', t, g, f, failed);
        r := Some(i - 1);
      } else {
        assert a != BeginAppend(t) && a != MergeLock(t);
        CallMoves(s, a, s', g, f, failed);
      }
    }
  }

  // --- What is covered ----------------------------------------------------------------------

  /** A sync made under the lock. */
  predicate LockedSync(a: Action) {
    a.ExplicitSync? || (a.RotateSync? && a.ok) || (a.MergeSync? && a.ok)
  }

  /** Generation `g` had been written to the current file by state `m`. */
  predicate InCurrent(s: State, g: nat) {
    1 <= g <= |s.fileOf| && Nth(s.fileOf, g) == s.current
  }

  /** The fsync that ends with step `m` has the handle its thread took by step `h`. */
  ghost predicate FsyncOf(actions: seq<Action>, h: nat, m: nat) {
    && h < m < |actions| && actions[m].FsyncEnds? && actions[h] == TakeHandle(actions[m].t, true)
    && forall x :: h < x < m ==> actions[x].t != actions[m].t
  }

  /** Step `m` ends a successful sync of `g`'s file that was begun after `g` was written. */
  ghost predicate SyncedBy(states: seq<State>, actions: seq<Action>, m: nat, g: nat)
    requires |states| == |actions| + 1 && m < |actions|
  {
    || (LockedSync(actions[m]) && InCurrent(states[m], g))
    || (actions[m].FsyncEnds? && actions[m].ok && exists h: nat :: FsyncOf(actions, h, m) && InCurrent(states[h], g))
  }

  lemma {:induction false} HandleTaken(states: seq<State>, actions: seq<Action>, m: nat, t: Tid) returns (h: nat)
    requires IsRun(states, actions) && m < |states| && t in states[m].pcs && states[m].pcs[t].Fsyncing?
    ensures h < m && actions[h] == TakeHandle(t, true) && forall x :: h < x < m ==> actions[x].t != t
    ensures states[m].pcs[t].file == states[h].current && states[m].pcs[t].upTo == |states[h].fileOf|
  {
    hide Inv, Step, Enabled;
    assert Init(states[0]);
    assert IsStep(states[m - 1], actions[m - 1], states[m]);
    var a := actions[m - 1];
    KeysStay(states[m - 1], a, states[m]);
    if a.t == t {
      h := m - 1;
      FsyncBegins(states[m - 1], a, states[m]);
    } else {
      RunInv(states, actions, m - 1);
      OthersStay(states[m - 1], a, states[m], t);
      h := HandleTaken(states, actions, m - 1, t);
    }
  }

  lemma FsyncBegins(s: State, a: Action, s': State)
    requires IsStep(s, a, s') && a.t in s'.pcs && s'.pcs[a.t].Fsyncing?
    ensures a == TakeHandle(a.t, true) && s'.pcs[a.t].file == s.current && s'.pcs[a.t].upTo == |s.fileOf|
  {
    hide WrittenTo;
  }

  lemma HandleUnique(actions: seq<Action>, h: nat, k: nat, m: nat)
    requires FsyncOf(actions, h, m) && k < m && actions[k] == TakeHandle(actions[m].t, true)
    requires forall x :: k < x < m ==> actions[x].t != actions[m].t
    ensures h == k
  {
  }

  /** What a step covers. */
  lemma CoversExactly(s: State, a: Action, s': State, g: nat)
    requires Inv(s) && IsStep(s, a, s')
    ensures g in s'.covered <==>
      (g in s.covered || (LockedSync(a) && InCurrent(s, g)) ||
       (a.FsyncEnds? && a.ok && 1 <= g <= s.pcs[a.t].upTo && Nth(s.fileOf, g) == s.pcs[a.t].file))
  {
    hide Durability, Rounds, Arrivals, ThreadOk, NotifyAll;
  }

  lemma CoveredAtFirst(states: seq<State>, actions: seq<Action>)
    requires IsRun(states, actions)
    ensures states[0].covered == {}
  {
  }

  /** The history of an fsync's file goes on as it was. */
  lemma {:induction false} HistoryStays(states: seq<State>, actions: seq<Action>, h: nat, m: nat)
    requires IsRun(states, actions) && h <= m < |states|
    ensures states[h].fileOf <= states[m].fileOf
  {
    hide Step, Enabled, Init;
    if h < m {
      HistoryStays(states, actions, h, m - 1);
      assert IsStep(states[m - 1], actions[m - 1], states[m]);
      FilesAppended(states[m - 1], actions[m - 1], states[m]);
    }
  }

  lemma FilesAppended(s: State, a: Action, s': State)
    requires IsStep(s, a, s')
    ensures s.fileOf <= s'.fileOf
  {
    hide WrittenTo, NotifyAll;
  }

  /** What a step covers, told by the syncs themselves. */
  lemma StepSyncs(states: seq<State>, actions: seq<Action>, m: nat, g: nat)
    requires IsRun(states, actions) && m < |actions|
    ensures g in states[m + 1].covered <==> g in states[m].covered || SyncedBy(states, actions, m, g)
  {
    hide Inv, Step, Enabled, Init;
    var s, a := states[m], actions[m];
    assert IsStep(s, a, states[m + 1]);
    RunInv(states, actions, m);
    CoversExactly(s, a, states[m + 1], g);
    if a.FsyncEnds? {
      assert a.t in s.pcs && s.pcs[a.t].Fsyncing? by { FsyncRuns(s, a, states[m + 1]); }
      var h := HandleTaken(states, actions, m, a.t);
      HistoryStays(states, actions, h, m);
      assert FsyncOf(actions, h, m);
      forall k: nat | FsyncOf(actions, k, m)
        ensures k == h
      {
        HandleUnique(actions, h, k, m);
      }
    }
  }

  lemma FsyncRuns(s: State, a: Action, s': State)
    requires IsStep(s, a, s') && a.FsyncEnds?
    ensures a.t in s.pcs && s.pcs[a.t].Fsyncing?
  {
  }

  /** A generation is covered if and only if some successful sync of its file, begun after it was written, has
      ended. */
  lemma {:induction false} CoveredIsSynced(states: seq<State>, actions: seq<Action>, i: nat, g: nat)
    requires IsRun(states, actions) && i < |states|
    ensures g in states[i].covered <==> exists m :: 0 <= m < i && SyncedBy(states, actions, m, g)
  {
    hide Step, Enabled, SyncedBy, IsStep;
    if i == 0 {
      CoveredAtFirst(states, actions);
    } else {
      CoveredIsSynced(states, actions, i - 1, g);
      StepSyncs(states, actions, i - 1, g);
    }
  }

  /** The answer: Ok if and only if no step of the call's own failed. The generation it has waited for is the
      one its own write was given, and if the answer is Ok a successful sync of its file, begun after it was
      written, has ended. */
  lemma AnswerIsExact(states: seq<State>, actions: seq<Action>, b: nat, i: nat, t: Tid) returns (r: nat)
    requires IsRun(states, actions) && InCall(actions, b, i, t)
    requires t in states[i].pcs && states[i].pcs[t].Returned?
    ensures b < r < i && actions[r] == RecordPending(t)
    ensures
      var g := states[i].pcs[t].gen;
      && g == |states[r].fileOf| + 1 <= |states[i].fileOf| && Nth(states[i].fileOf, g) == states[r].current
      && (states[i].pcs[t].ok ==> g in states[i].covered)
    ensures states[i].pcs[t].ok <==> !OwnFailure(actions, b, i, t)
    ensures states[i].pcs[t].ok ==> exists m :: 0 <= m < i && SyncedBy(states, actions, m, states[i].pcs[t].gen)
  {
    hide Init, IsStep, OwnFailure, SyncedBy;
    var rec := CallSoFar(states, actions, b, i, t);
    OkMeansDurable(states, actions, i, t);
    r := rec.value;
    if states[i].pcs[t].ok {
      CoveredIsSynced(states, actions, i, states[i].pcs[t].gen);
    }
  }
}
