/** Every interleaving of writers, fsync leaders, rotations and merge's forced rotation. */
module CommitProtocol {
  import opened Bytes
  import opened GroupCommit

  type Tid = nat

  /** Where a thread is. The states up to `MergeMarked` hold the active-file lock. */
  datatype Pc =
    | Idle
    | Wrote
    | Recorded(gen: nat)
    | RotSynced(gen: nat)
    | RotMarked(gen: nat)
    | MergeLocked
    | MergeSynced
    | MergeMarked
    | Committing(gen: nat)
    | Leading(gen: nat, covers: nat)
    | Fsyncing(gen: nat, covers: nat, file: nat, upTo: nat)
    | FsyncDone(gen: nat, covers: nat, ok: bool)
    | Waiting(gen: nat)
    | Returned(gen: nat, ok: bool)

  predicate HoldsLock(pc: Pc) {
    pc.Wrote? || pc.Recorded? || pc.RotSynced? || pc.RotMarked? || pc.MergeLocked? || pc.MergeSynced? || pc.MergeMarked?
  }

  predicate Leads(pc: Pc) {
    pc.Leading? || pc.Fsyncing? || pc.FsyncDone?
  }

  /** `fileOf[g - 1]` is the file generation `g` was written to; `covered` are the
      generations some successful fsync covers that targeted their file and began
      after their append. `arrived` and `rounds` only record history: how many
      successful rounds there had been when a generation was recorded, and what
      each successful round covered. */
  datatype State = State(
    coord: Coord,
    pcs: map<Tid, Pc>,
    lock: Option<Tid>,
    leader: Option<Tid>,
    current: nat,
    fileOf: seq<nat>,
    covered: set<nat>,
    arrived: seq<nat>,
    rounds: seq<nat>)

  datatype Action =
    | BeginAppend(t: Tid)
    | RecordPending(t: Tid)
    | FinishAppend(t: Tid)
    | RotateSync(t: Tid, ok: bool)
    | RotateMark(t: Tid)
    | RotateNewFile(t: Tid)
    | MergeLock(t: Tid)
    | MergeSync(t: Tid, ok: bool)
    | MergeMark(t: Tid)
    | MergeNewFile(t: Tid)
    | Decide(t: Tid)
    | TakeHandle(t: Tid, ok: bool)
    | FsyncEnds(t: Tid, ok: bool)
    | FinishSync(t: Tid)
    | Wake(t: Tid)
    | ExplicitSync(t: Tid)

  predicate Init(s: State) {
    && s.coord == Coord(0, 0, false)
    && (forall t :: t in s.pcs ==> s.pcs[t] == Idle)
    && s.lock == None && s.leader == None
    && s.fileOf == [] && s.covered == {} && s.arrived == [] && s.rounds == []
  }

  predicate At(s: State, t: Tid, pc: Pc) {
    t in s.pcs && s.pcs[t] == pc
  }

  predicate Free(s: State) {
    s.lock == None
  }

  predicate Enabled(s: State, a: Action) {
    a.t in s.pcs &&
    var pc := s.pcs[a.t];
    match a
    case BeginAppend(_) => Free(s) && (pc.Idle? || pc.Returned?)
    case RecordPending(_) => pc.Wrote?
    case FinishAppend(_) => pc.Recorded?
    case RotateSync(_, _) => pc.Recorded?
    case RotateMark(_) => pc.RotSynced?
    case RotateNewFile(_) => pc.RotMarked?
    case MergeLock(_) => Free(s) && (pc.Idle? || pc.Returned?)
    case MergeSync(_, _) => pc.MergeLocked?
    case MergeMark(_) => pc.MergeSynced?
    case MergeNewFile(_) => pc.MergeMarked?
    case Decide(_) => pc.Committing?
    case TakeHandle(_, _) => Free(s) && pc.Leading?
    case FsyncEnds(_, _) => pc.Fsyncing?
    case FinishSync(_) => pc.FsyncDone?
    case Wake(_) => pc.Waiting?
    case ExplicitSync(_) => Free(s) && (pc.Idle? || pc.Returned?)
  }

  /** What history says of generation `g`; generations count from 1. */
  function Nth(history: seq<nat>, g: nat): nat
    requires 1 <= g <= |history|
  {
    history[g - 1]
  }

  /** The generations up to `upTo` written to `file`. */
  function WrittenTo(fileOf: seq<nat>, file: nat, upTo: nat): set<nat>
    requires upTo <= |fileOf|
  {
    set g: nat | 1 <= g <= upTo && Nth(fileOf, g) == file
  }

  function Goto(s: State, t: Tid, pc: Pc): State {
    s.(pcs := s.pcs[t := pc])
  }

  /** Wakes every thread asleep on the condition variable. */
  function NotifyAll(pcs: map<Tid, Pc>): map<Tid, Pc> {
    map t | t in pcs :: if pcs[t].Waiting? then Committing(pcs[t].gen) else pcs[t]
  }

  /** A sync of the current file made while holding its lock. */
  function SyncCurrent(s: State): State
    requires s.coord.pending == |s.fileOf|
  {
    s.(covered := s.covered + WrittenTo(s.fileOf, s.current, |s.fileOf|))
  }

  function Step(s: State, a: Action): State
    requires Enabled(s, a) && s.coord.pending == |s.fileOf|
    requires a.FsyncEnds? ==> s.pcs[a.t].upTo <= |s.fileOf|
  {
    var t := a.t;
    var pc := s.pcs[t];
    match a
    case BeginAppend(_) => Goto(s, t, Wrote).(lock := Some(t))
    case RecordPending(_) =>
      Goto(s, t, Recorded(s.coord.pending + 1)).(
        coord := s.coord.Record(), fileOf := s.fileOf + [s.current], arrived := s.arrived + [|s.rounds|])
    case FinishAppend(_) => Goto(s, t, Committing(pc.gen)).(lock := None)
    case RotateSync(_, ok) =>
      if ok then Goto(SyncCurrent(s), t, RotSynced(pc.gen)) else Goto(s, t, Returned(pc.gen, false)).(lock := None)
    case RotateMark(_) => Goto(s, t, RotMarked(pc.gen)).(coord := s.coord.MarkAll(),
                                                         pcs := NotifyAll(s.pcs[t := RotMarked(pc.gen)]))
    case RotateNewFile(_) => Goto(s, t, Committing(pc.gen)).(lock := None, current := s.current + 1)
    case MergeLock(_) => Goto(s, t, MergeLocked).(lock := Some(t))
    case MergeSync(_, ok) =>
      if ok then Goto(SyncCurrent(s), t, MergeSynced) else Goto(s, t, Idle).(lock := None)
    case MergeMark(_) => s.(coord := s.coord.MarkAll(), pcs := NotifyAll(s.pcs[t := MergeMarked]))
    case MergeNewFile(_) => Goto(s, t, Idle).(lock := None, current := s.current + 1)
    case Decide(_) =>
      (match s.coord.Decide(pc.gen)
       case Finished => Goto(s, t, Returned(pc.gen, true))
       case Lead(covers) => Goto(s, t, Leading(pc.gen, covers)).(coord := s.coord.Decided(pc.gen), leader := Some(t))
       case Wait => Goto(s, t, Waiting(pc.gen)))
    case TakeHandle(_, ok) =>
      if ok then Goto(s, t, Fsyncing(pc.gen, pc.covers, s.current, |s.fileOf|))
      else Goto(s, t, FsyncDone(pc.gen, pc.covers, false))
    case FsyncEnds(_, ok) =>
      if ok
      then Goto(s, t, FsyncDone(pc.gen, pc.covers, true)).(covered := s.covered + WrittenTo(s.fileOf, pc.file, pc.upTo))
      else Goto(s, t, FsyncDone(pc.gen, pc.covers, false))
    case FinishSync(_) =>
      s.(coord := s.coord.FinishSync(pc.covers, pc.ok),
         pcs := NotifyAll(s.pcs[t := if pc.ok then Committing(pc.gen) else Returned(pc.gen, false)]),
         leader := None,
         rounds := if pc.ok then s.rounds + [pc.covers] else s.rounds)
    case Wake(_) => Goto(s, t, Committing(pc.gen))
    case ExplicitSync(_) => SyncCurrent(s)
  }

  // --- The invariant ------------------------------------------------------------

  predicate GenOk(s: State, pc: Pc) {
    match pc
    case Recorded(g) => 1 <= g <= |s.fileOf|
    case RotSynced(g) => 1 <= g <= |s.fileOf|
    case RotMarked(g) => 1 <= g <= |s.fileOf|
    case Committing(g) => 1 <= g <= |s.fileOf|
    case Leading(g, c) => 1 <= g <= c <= |s.fileOf|
    case Fsyncing(g, c, _, u) => 1 <= g <= c <= u <= |s.fileOf|
    case FsyncDone(g, c, _) => 1 <= g <= c <= |s.fileOf|
    case Waiting(g) => 1 <= g <= |s.fileOf|
    case Returned(g, _) => 1 <= g <= |s.fileOf|
    case _ => true
  }

  /** Every generation up to `n` is on disk. */
  predicate CoveredUpTo(s: State, n: nat) {
    forall g :: 1 <= g <= n ==> g in s.covered
  }

  /** Every generation up to `n` is on disk or was written to `file`. */
  predicate CoveredOrIn(s: State, n: nat, file: nat) {
    n <= |s.fileOf| && forall g :: 1 <= g <= n ==> g in s.covered || Nth(s.fileOf, g) == file
  }

  /** What one thread may rely on. */
  predicate ThreadOk(s: State, t: Tid)
    requires t in s.pcs
  {
    var pc := s.pcs[t];
    && GenOk(s, pc)
    && (HoldsLock(pc) <==> s.lock == Some(t))
    && (Leads(pc) <==> s.leader == Some(t))
    && (pc.RotSynced? || pc.RotMarked? || pc.MergeSynced? || pc.MergeMarked? ==> CoveredUpTo(s, |s.fileOf|))
    && (pc.Fsyncing? ==> CoveredOrIn(s, pc.upTo, pc.file))
    && (pc.FsyncDone? && pc.ok ==> CoveredUpTo(s, pc.covers))
    && (pc.Waiting? ==> s.coord.syncing)
    && (pc.Returned? && pc.ok ==> pc.gen in s.covered)
  }

  predicate Shape(s: State) {
    && |s.fileOf| == s.coord.pending == |s.arrived| && s.coord.durable <= s.coord.pending
    && (s.lock.Some? ==> s.lock.value in s.pcs)
    && (s.coord.syncing <==> s.leader.Some?)
    && (s.leader.Some? ==> s.leader.value in s.pcs && Leads(s.pcs[s.leader.value]))
  }

  /** Generations known durable, and generations in rotated-out files, are on disk. */
  predicate Durability(s: State) {
    && CoveredUpTo(s, s.coord.durable)
    && (forall g :: 1 <= g <= |s.fileOf| ==> Nth(s.fileOf, g) <= s.current)
    && (forall g :: 1 <= g <= |s.fileOf| && Nth(s.fileOf, g) < s.current ==> g in s.covered)
  }

  function Covers(pc: Pc): nat
    requires Leads(pc)
  {
    match pc case Leading(_, c) => c case Fsyncing(_, c, _, _) => c case FsyncDone(_, c, _) => c
  }

  predicate Increasing(s: seq<nat>) {
    forall i, j :: 0 <= i < j < |s| ==> s[i] < s[j]
  }

  /** Successful rounds cover strictly more each time. */
  predicate Rounds(s: State)
    requires Shape(s)
  {
    && Increasing(s.rounds)
    && (forall i :: 0 <= i < |s.rounds| ==> 1 <= s.rounds[i] <= s.coord.durable)
    && (s.leader.Some? ==> forall i :: 0 <= i < |s.rounds| ==> s.rounds[i] < Covers(s.pcs[s.leader.value]))
  }

  /** One successful round after its arrival leaves a generation durable or covered by
      the round in flight, if any; two leave it durable. */
  predicate Arrivals(s: State)
    requires Shape(s)
  {
    forall g :: 1 <= g <= |s.arrived| ==>
      && Nth(s.arrived, g) <= |s.rounds|
      && (|s.rounds| >= Nth(s.arrived, g) + 2 ==> s.coord.durable >= g)
      && (|s.rounds| > Nth(s.arrived, g) && s.leader.Some? ==>
            (s.coord.durable >= g || Covers(s.pcs[s.leader.value]) >= g))
  }

  predicate Inv(s: State) {
    && Shape(s) && Durability(s) && Rounds(s) && Arrivals(s)
    && forall t :: t in s.pcs ==> ThreadOk(s, t)
  }

  lemma InitInv(s: State)
    requires Init(s)
    ensures Inv(s)
  {
  }

  /** Recording leaves what is known of older generations alone. */
  lemma NthGrows(history: seq<nat>, x: nat)
    ensures forall g :: 1 <= g <= |history| ==> Nth(history + [x], g) == Nth(history, g)
    ensures Nth(history + [x], |history| + 1) == x
  {
  }

  lemma StepShape(s: State, a: Action)
    requires Inv(s) && Enabled(s, a)
    ensures ThreadOk(s, a.t) && (a.FsyncEnds? ==> s.pcs[a.t].upTo <= |s.fileOf|)
    ensures Shape(Step(s, a))
  {
    hide Durability, Rounds, Arrivals, CoveredUpTo;
    assert ThreadOk(s, a.t);
  }

  lemma StepDurability(s: State, a: Action)
    requires Inv(s) && Enabled(s, a)
    requires a.FsyncEnds? ==> s.pcs[a.t].upTo <= |s.fileOf|
    ensures Durability(Step(s, a))
  {
    hide Rounds, Arrivals;
    assert ThreadOk(s, a.t);
    NthGrows(s.fileOf, s.current);
  }

  /** The steps that touch neither the history of rounds nor what the round in flight covers. */
  predicate Quiet(a: Action) {
    !a.Decide? && !a.FinishSync?
  }

  lemma StepQuiet(s: State, a: Action)
    requires Inv(s) && Enabled(s, a) && Quiet(a)
    requires a.FsyncEnds? ==> s.pcs[a.t].upTo <= |s.fileOf|
    requires Shape(Step(s, a))
    ensures Step(s, a).rounds == s.rounds && Step(s, a).leader == s.leader
    ensures Step(s, a).coord.durable >= s.coord.durable
    ensures s.leader.Some? ==> Covers(Step(s, a).pcs[s.leader.value]) == Covers(s.pcs[s.leader.value])
  {
    hide Durability, Arrivals, Rounds, CoveredUpTo, CoveredOrIn, WrittenTo, GenOk;
    assert ThreadOk(s, a.t);
    if s.leader.Some? {
      assert ThreadOk(s, s.leader.value);
    }
  }

  lemma StepRounds(s: State, a: Action)
    requires Inv(s) && Enabled(s, a)
    requires a.FsyncEnds? ==> s.pcs[a.t].upTo <= |s.fileOf|
    requires Shape(Step(s, a))
    ensures Rounds(Step(s, a))
  {
    if Quiet(a) {
      hide Step, Durability, Arrivals, ThreadOk;
      StepQuiet(s, a);
    } else {
      StepRoundsCommit(s, a);
    }
  }

  lemma StepRoundsCommit(s: State, a: Action)
    requires Inv(s) && Enabled(s, a) && !Quiet(a)
    requires Shape(Step(s, a))
    ensures Rounds(Step(s, a))
  {
    hide Durability, Arrivals, CoveredUpTo, CoveredOrIn, WrittenTo;
    assert ThreadOk(s, a.t);
  }

  lemma StepArrivals(s: State, a: Action)
    requires Inv(s) && Enabled(s, a)
    requires a.FsyncEnds? ==> s.pcs[a.t].upTo <= |s.fileOf|
    requires Shape(Step(s, a))
    ensures Arrivals(Step(s, a))
  {
    if Quiet(a) {
      StepQuiet(s, a);
      ArrivalsQuiet(s, a);
    } else {
      StepArrivalsCommit(s, a);
    }
  }

  lemma ArrivalsQuiet(s: State, a: Action)
    requires Inv(s) && Enabled(s, a) && Quiet(a) && s.coord.pending == |s.fileOf|
    requires a.FsyncEnds? ==> s.pcs[a.t].upTo <= |s.fileOf|
    requires Shape(Step(s, a)) && Step(s, a).rounds == s.rounds && Step(s, a).leader == s.leader
    requires Step(s, a).coord.durable >= s.coord.durable
    requires s.leader.Some? ==> Covers(Step(s, a).pcs[s.leader.value]) == Covers(s.pcs[s.leader.value])
    ensures Arrivals(Step(s, a))
  {
    hide Durability, Rounds, ThreadOk, WrittenTo, NotifyAll;
    NthGrows(s.arrived, |s.rounds|);
    assert Step(s, a).arrived == s.arrived || Step(s, a).arrived == s.arrived + [|s.rounds|];
  }

  lemma StepArrivalsCommit(s: State, a: Action)
    requires Inv(s) && Enabled(s, a) && !Quiet(a)
    requires Shape(Step(s, a))
    ensures Arrivals(Step(s, a))
  {
    hide Durability, Rounds, CoveredUpTo, CoveredOrIn, WrittenTo;
    assert ThreadOk(s, a.t);
  }

  /** The commit loop's own steps. */
  predicate CommitStep(a: Action) {
    a.Decide? || a.TakeHandle? || a.FsyncEnds? || a.FinishSync? || a.Wake?
  }

  lemma StepSelfCommit(s: State, a: Action)
    requires Inv(s) && Enabled(s, a) && CommitStep(a)
    requires a.FsyncEnds? ==> s.pcs[a.t].upTo <= |s.fileOf|
    ensures a.t in Step(s, a).pcs && ThreadOk(Step(s, a), a.t)
  {
    hide Rounds, Arrivals;
    assert ThreadOk(s, a.t);
  }

  lemma StepSelfAppend(s: State, a: Action)
    requires Inv(s) && Enabled(s, a) && !CommitStep(a)
    ensures a.t in Step(s, a).pcs && ThreadOk(Step(s, a), a.t)
  {
    hide Rounds, Arrivals;
    assert ThreadOk(s, a.t);
  }

  /** What a step does to a thread that does not move: at most it is woken. */
  predicate Untouched(s: State, s': State, t: Tid)
    requires t in s.pcs
  {
    && t in s'.pcs
    && (s'.pcs[t] == s.pcs[t] || (s.pcs[t].Waiting? && s'.pcs[t] == Committing(s.pcs[t].gen)))
    && (s'.lock == Some(t) <==> s.lock == Some(t))
    && (s'.leader == Some(t) <==> s.leader == Some(t))
    && (s.lock == Some(t) ==> |s'.fileOf| == |s.fileOf|)
    && (s'.pcs[t].Waiting? && s.coord.syncing ==> s'.coord.syncing)
  }

  predicate Grows(s: State, s': State) {
    && |s.fileOf| <= |s'.fileOf| && s.covered <= s'.covered
    && forall g :: 1 <= g <= |s.fileOf| ==> Nth(s'.fileOf, g) == Nth(s.fileOf, g)
  }

  lemma StepGrows(s: State, a: Action)
    requires Enabled(s, a) && s.coord.pending == |s.fileOf|
    requires a.FsyncEnds? ==> s.pcs[a.t].upTo <= |s.fileOf|
    ensures Grows(s, Step(s, a))
  {
    hide WrittenTo;
    NthGrows(s.fileOf, s.current);
  }

  lemma StepUntouched(s: State, a: Action, t: Tid)
    requires Inv(s) && Enabled(s, a) && t in s.pcs && t != a.t
    requires a.FsyncEnds? ==> s.pcs[a.t].upTo <= |s.fileOf|
    ensures Untouched(s, Step(s, a), t)
  {
    hide Rounds, Arrivals, Durability, CoveredUpTo, CoveredOrIn, WrittenTo, GenOk;
    assert ThreadOk(s, a.t) && ThreadOk(s, t);
  }

  /** The threads that do not move keep what they rely on. */
  lemma StepOther(s: State, a: Action, t: Tid)
    requires Inv(s) && Enabled(s, a) && t in s.pcs && t != a.t
    requires a.FsyncEnds? ==> s.pcs[a.t].upTo <= |s.fileOf|
    ensures t in Step(s, a).pcs && ThreadOk(Step(s, a), t)
  {
    hide Rounds, Arrivals, Durability, Step, Shape, Enabled;
    assert ThreadOk(s, t);
    PendingCount(s);
    StepUntouched(s, a, t);
    StepGrows(s, a);
  }

  lemma PendingCount(s: State)
    requires Inv(s)
    ensures s.coord.pending == |s.fileOf|
  {
  }

  /** Every step keeps the invariant. */
  lemma StepInv(s: State, a: Action)
    requires Inv(s) && Enabled(s, a)
    ensures s.coord.pending == |s.fileOf| && (a.FsyncEnds? ==> s.pcs[a.t].upTo <= |s.fileOf|)
    ensures Inv(Step(s, a))
  {
    hide Rounds, Arrivals, Durability, ThreadOk, Shape, Step;
    PendingCount(s);
    StepShape(s, a);
    StepDurability(s, a);
    StepRounds(s, a);
    StepArrivals(s, a);
    var s' := Step(s, a);
    StepKeys(s, a);
    forall t | t in s'.pcs
      ensures ThreadOk(s', t)
    {
      if t != a.t {
        StepOther(s, a, t);
      } else if CommitStep(a) {
        StepSelfCommit(s, a);
      } else {
        StepSelfAppend(s, a);
      }
    }
  }

  lemma StepKeys(s: State, a: Action)
    requires Enabled(s, a) && s.coord.pending == |s.fileOf|
    requires a.FsyncEnds? ==> s.pcs[a.t].upTo <= |s.fileOf|
    ensures Step(s, a).pcs.Keys == s.pcs.Keys
  {
  }

  // --- Runs -----------------------------------------------------------------------

  /** A run: states from an initial one, each reached from the one before by the given action. */
  ghost predicate IsRun(states: seq<State>, actions: seq<Action>) {
    && |states| == |actions| + 1 && Init(states[0])
    && forall i :: 0 <= i < |actions| ==> IsStep(states[i], actions[i], states[i + 1])
  }

  ghost predicate IsStep(s: State, a: Action, s': State) {
    && Enabled(s, a) && s.coord.pending == |s.fileOf|
    && (a.FsyncEnds? ==> s.pcs[a.t].upTo <= |s.fileOf|)
    && s' == Step(s, a)
  }

  lemma {:induction false} RunInv(states: seq<State>, actions: seq<Action>, i: nat)
    requires IsRun(states, actions) && i < |states|
    ensures Inv(states[i])
  {
    hide Inv, Step, Enabled;
    if i == 0 {
      InitInv(states[0]);
    } else {
      RunInv(states, actions, i - 1);
      assert IsStep(states[i - 1], actions[i - 1], states[i]);
      StepInv(states[i - 1], actions[i - 1]);
    }
  }

  /** In every interleaving, `commit` returns Ok only when an fsync of the right file, begun
      after the append, has covered the caller's generation; so are all generations up to
      `max_durable_generation` and everything in files that were rotated out. */
  lemma OkMeansDurable(states: seq<State>, actions: seq<Action>, i: nat, t: Tid)
    requires IsRun(states, actions) && i < |states| && t in states[i].pcs
    ensures states[i].pcs[t].Returned? && states[i].pcs[t].ok ==> states[i].pcs[t].gen in states[i].covered
    ensures |states[i].fileOf| == states[i].coord.pending
    ensures forall g :: 1 <= g <= states[i].coord.durable ==> g in states[i].covered
    ensures forall g :: 1 <= g <= |states[i].fileOf| && Nth(states[i].fileOf, g) < states[i].current ==>
      g in states[i].covered
  {
    hide Rounds, Arrivals;
    RunInv(states, actions, i);
    assert ThreadOk(states[i], t);
  }

  /** No lost wakeup: a thread asleep on the condition variable has a leader at work. */
  lemma NoLostWakeup(states: seq<State>, actions: seq<Action>, i: nat, t: Tid)
    requires IsRun(states, actions) && i < |states|
    requires t in states[i].pcs && states[i].pcs[t].Waiting?
    ensures states[i].coord.syncing && states[i].leader.Some?
    ensures states[i].leader.value in states[i].pcs && Leads(states[i].pcs[states[i].leader.value])
  {
    hide Rounds, Arrivals, Durability;
    RunInv(states, actions, i);
    assert ThreadOk(states[i], t);
  }

  /** Two successful rounds after its arrival make any generation durable, whatever was in flight. */
  lemma TwoRoundsSuffice(states: seq<State>, actions: seq<Action>, i: nat, g: nat)
    requires IsRun(states, actions) && i < |states| && 1 <= g <= |states[i].arrived|
    requires |states[i].rounds| >= Nth(states[i].arrived, g) + 2
    ensures states[i].coord.durable >= g && g in states[i].covered
  {
    hide Rounds, ThreadOk;
    RunInv(states, actions, i);
  }

  /** Between states `i + 1` and `j` thread `t` leads the round it decided on in state `i`. */
  ghost predicate InRound(states: seq<State>, actions: seq<Action>, i: nat, j: nat, t: Tid) {
    && IsRun(states, actions) && i < j < |states| && actions[i] == Decide(t) && states[i].leader == None
    && forall m :: i < m <= j ==> states[m].leader == Some(t)
  }

  /** While a thread leads, what its round covers is fixed. */
  lemma CoversKept(s: State, a: Action, t: Tid)
    requires Inv(s) && Enabled(s, a) && s.coord.pending == |s.fileOf|
    requires a.FsyncEnds? ==> s.pcs[a.t].upTo <= |s.fileOf|
    requires s.leader == Some(t) && Step(s, a).leader == Some(t)
    ensures t in s.pcs && t in Step(s, a).pcs && Leads(s.pcs[t])
    ensures Leads(Step(s, a).pcs[t]) && Covers(Step(s, a).pcs[t]) == Covers(s.pcs[t])
  {
    hide Durability, Arrivals, Rounds, CoveredUpTo, CoveredOrIn, WrittenTo, GenOk;
    assert ThreadOk(s, a.t) && ThreadOk(s, t);
  }

  /** A round covers exactly what was recorded when it was decided on. */
  lemma {:induction false} RoundCovers(states: seq<State>, actions: seq<Action>, i: nat, j: nat, t: Tid)
    requires InRound(states, actions, i, j, t)
    ensures t in states[j].pcs && Leads(states[j].pcs[t]) && Covers(states[j].pcs[t]) == states[i].coord.pending
  {
    hide Inv, Step, Enabled;
    RunInv(states, actions, j - 1);
    assert IsStep(states[j - 1], actions[j - 1], states[j]);
    if j == i + 1 {
      Decided(states[i], t);
    } else {
      RoundCovers(states, actions, i, j - 1, t);
      CoversKept(states[j - 1], actions[j - 1], t);
    }
  }

  lemma Decided(s: State, t: Tid)
    requires Enabled(s, Decide(t)) && s.coord.pending == |s.fileOf| && s.leader == None
    requires Step(s, Decide(t)).leader == Some(t)
    ensures t in Step(s, Decide(t)).pcs && Step(s, Decide(t)).pcs[t] == Leading(s.pcs[t].gen, s.coord.pending)
  {
  }

  /** A successful round makes a generation durable if and only if the generation was durable
      already or had been recorded before the round was decided on. */
  lemma RoundServesExactly(states: seq<State>, actions: seq<Action>, i: nat, j: nat, t: Tid, g: nat)
    requires InRound(states, actions, i, j, t) && j + 1 < |states| && actions[j] == FinishSync(t)
    requires t in states[j].pcs && states[j].pcs[t].FsyncDone? && states[j].pcs[t].ok
    ensures states[j + 1].coord.durable >= g <==> states[j].coord.durable >= g || g <= states[i].coord.pending
  {
    hide InRound, Inv;
    RoundCovers(states, actions, i, j, t);
    RoundStep(states, actions, i, j, t);
    assert IsStep(states[j], actions[j], states[j + 1]);
    hide NotifyAll;
  }

  lemma RoundStep(states: seq<State>, actions: seq<Action>, i: nat, j: nat, t: Tid)
    requires InRound(states, actions, i, j, t) && j + 1 < |states|
    ensures |states| == |actions| + 1 && IsStep(states[j], actions[j], states[j + 1])
  {
    hide IsStep;
  }

  /** The rounds' coverage grows strictly, so there are never more successful fsyncs than writes. */
  lemma FsyncsAreShared(states: seq<State>, actions: seq<Action>, i: nat)
    requires IsRun(states, actions) && i < |states|
    ensures Increasing(states[i].rounds)
    ensures |states[i].rounds| <= states[i].coord.durable <= states[i].coord.pending
  {
    hide Arrivals, ThreadOk, Durability;
    RunInv(states, actions, i);
    IncreasingCount(states[i].rounds, states[i].coord.durable);
  }

  lemma {:induction false} IncreasingCount(s: seq<nat>, bound: nat)
    requires Increasing(s) && forall i :: 0 <= i < |s| ==> 1 <= s[i] <= bound
    ensures |s| <= bound
  {
    if s != [] {
      IncreasingCount(s[..|s| - 1], s[|s| - 1] - 1);
    }
  }

  /** The counters only go up. */
  lemma CountersGrow(s: State, a: Action)
    requires Inv(s) && Enabled(s, a)
    ensures s.coord.pending == |s.fileOf| && (a.FsyncEnds? ==> s.pcs[a.t].upTo <= |s.fileOf|)
    ensures s.coord.durable <= Step(s, a).coord.durable <= Step(s, a).coord.pending
    ensures s.coord.pending <= Step(s, a).coord.pending && s.rounds <= Step(s, a).rounds
  {
    hide Arrivals, Rounds, Durability, WrittenTo, CoveredUpTo, CoveredOrIn;
    StepShape(s, a);
  }

  // --- Progress ---------------------------------------------------------------------

  /** The threads that are inside `append`, or inside merge's rotation. */
  predicate Busy(pc: Pc) {
    !pc.Idle? && !pc.Returned?
  }

  /** The steps that carry on work already begun, spurious wakeups excluded. */
  predicate CarriesOn(a: Action) {
    !a.BeginAppend? && !a.MergeLock? && !a.ExplicitSync? && !a.Wake?
  }

  /** What a thread that is awake and need not wait for the lock does next. */
  function NextOf(pc: Pc, t: Tid): Action
    requires Busy(pc) && !pc.Waiting?
  {
    match pc
    case Wrote => RecordPending(t)
    case Recorded(_) => FinishAppend(t)
    case RotSynced(_) => RotateMark(t)
    case RotMarked(_) => RotateNewFile(t)
    case MergeLocked => MergeSync(t, true)
    case MergeSynced => MergeMark(t)
    case MergeMarked => MergeNewFile(t)
    case Committing(_) => Decide(t)
    case Leading(_, _) => TakeHandle(t, true)
    case Fsyncing(_, _, _, _) => FsyncEnds(t, true)
    case FsyncDone(_, _, _) => FinishSync(t)
  }

  /** No deadlock: as long as some thread is at work, some thread can carry on. */
  lemma NoDeadlock(s: State, t: Tid) returns (a: Action)
    requires Inv(s) && t in s.pcs && Busy(s.pcs[t])
    ensures Enabled(s, a) && CarriesOn(a)
  {
    hide Rounds, Arrivals, Durability;
    assert ThreadOk(s, t);
    if s.lock.Some? {
      assert ThreadOk(s, s.lock.value);
      a := NextOf(s.pcs[s.lock.value], s.lock.value);
    } else if s.pcs[t].Waiting? {
      a := NextOf(s.pcs[s.leader.value], s.leader.value);
    } else {
      a := NextOf(s.pcs[t], t);
    }
  }

  // --- What the module's documentation says and the code does not do --------------------

  /** Thread 0 has appended and recorded its generation. */
  lemma FirstRecorded() returns (states: seq<State>, actions: seq<Action>)
    ensures IsRun(states, actions) && |states| > 0
    ensures states[|states| - 1] ==
      State(Coord(1, 0, false), map[0 := Recorded(1), 1 := Idle], Some(0), None, 0, [0], {}, [0], [])
  {
    hide IsRun, WrittenTo, NotifyAll, SyncCurrent;
    var s0 := State(Coord(0, 0, false), map[0 := Idle, 1 := Idle], None, None, 0, [], {}, [], []);
    var s1 := s0.(pcs := map[0 := Wrote, 1 := Idle], lock := Some(0));
    var s2 := s1.(coord := Coord(1, 0, false), pcs := map[0 := Recorded(1), 1 := Idle], fileOf := [0], arrived := [0]);
    states, actions := RunStart(s0);
    states, actions := RunMore(states, actions, BeginAppend(0), s1);
    states, actions := RunMore(states, actions, RecordPending(0), s2);
  }

  /** Thread 0's fsync is running; thread 1 has done nothing yet. */
  lemma FsyncInFlight() returns (states: seq<State>, actions: seq<Action>)
    ensures IsRun(states, actions) && |states| > 0
    ensures states[|states| - 1] ==
      State(Coord(1, 0, true), map[0 := Fsyncing(1, 1, 0, 1), 1 := Idle], None, Some(0), 0, [0], {}, [0], [])
  {
    hide IsRun, WrittenTo, NotifyAll, SyncCurrent;
    states, actions := FirstRecorded();
    var s2 := states[|states| - 1];
    var s3 := s2.(pcs := map[0 := Committing(1), 1 := Idle], lock := None);
    var s4 := s3.(coord := Coord(1, 0, true), pcs := map[0 := Leading(1, 1), 1 := Idle], leader := Some(0));
    var s5 := s4.(pcs := map[0 := Fsyncing(1, 1, 0, 1), 1 := Idle]);
    states, actions := RunMore(states, actions, FinishAppend(0), s3);
    states, actions := RunMore(states, actions, Decide(0), s4);
    states, actions := RunMore(states, actions, TakeHandle(0, true), s5);
  }

  /** An fsync already in flight need not cover a thread that finds it and waits: here thread 1
      appends after thread 0's fsync has begun. The loop, not the round, makes this safe. */
  lemma InFlightMayNotCover() returns (states: seq<State>, actions: seq<Action>)
    ensures IsRun(states, actions) && |states| > 0
    ensures
      var s := states[|states| - 1];
      && 1 in s.pcs && s.pcs[1].Waiting? && s.leader == Some(0) && 0 in s.pcs && s.pcs[0].Fsyncing?
      && s.pcs[0].upTo < s.pcs[1].gen && Covers(s.pcs[0]) < s.pcs[1].gen
  {
    hide IsRun, WrittenTo, NotifyAll, SyncCurrent;
    states, actions := FsyncInFlight();
    var leader := Fsyncing(1, 1, 0, 1);
    var s5 := states[|states| - 1];
    var s6 := s5.(pcs := map[0 := leader, 1 := Wrote], lock := Some(1));
    var s7 := s6.(coord := Coord(2, 0, true), pcs := map[0 := leader, 1 := Recorded(2)], fileOf := [0, 0],
                  arrived := [0, 0]);
    var s8 := s7.(pcs := map[0 := leader, 1 := Committing(2)], lock := None);
    var s9 := s8.(pcs := map[0 := leader, 1 := Waiting(2)]);
    states, actions := RunMore(states, actions, BeginAppend(1), s6);
    states, actions := RunMore(states, actions, RecordPending(1), s7);
    states, actions := RunMore(states, actions, FinishAppend(1), s8);
    states, actions := RunMore(states, actions, Decide(1), s9);
  }

  lemma RunStart(s: State) returns (states: seq<State>, actions: seq<Action>)
    requires Init(s)
    ensures IsRun(states, actions) && states == [s]
  {
    states, actions := [s], [];
  }

  /** A run, one step longer. */
  lemma RunMore(states: seq<State>, actions: seq<Action>, a: Action, s': State)
    returns (more: seq<State>, acts: seq<Action>)
    requires IsRun(states, actions) && |states| > 0 && IsStep(states[|states| - 1], a, s')
    ensures IsRun(more, acts) && more == states + [s'] && acts == actions + [a]
  {
    hide IsStep, Init;
    more, acts := states + [s'], actions + [a];
    forall i | 0 <= i < |acts|
      ensures IsStep(more[i], acts[i], more[i + 1])
    {
      if i < |actions| {
        assert IsStep(states[i], actions[i], states[i + 1]);
      }
    }
  }
}
