/** Why a merge must not start while a put is between its append and its insert in a rotated-out file. */
module MergeGuard {
  import opened Format
  import opened MergeProtocol
  import opened MergeInterleavings

  /** Some key points into a file that is no longer in the directory. */
  ghost predicate Dangles(s: State) {
    exists k :: k in s.keydir && s.keydir[k].file !in s.linked
  }

  /** The merge may start here: nothing ever dangles afterwards. */
  ghost predicate SafeStart(s: State, ids: seq<nat>, bound: nat)
    requires Enabled(s, MergeStart(ids, bound))
  {
    forall states, events ::
      IsPath(states, events) && states[0] == Step(s, MergeStart(ids, bound)) ==> !Dangles(states[|states| - 1])
  }

  /** The guard suffices. */
  lemma InvNoDangle(s: State)
    requires Inv(s)
    ensures !Dangles(s)
  {
    hide FilesOk, WritersOk, ReadersOk, InputsOk, PendingOk, BatchOk, CoverOk;
    forall k | k in s.keydir
      ensures s.keydir[k].file in s.linked
    {
      assert Good(s, k, s.keydir[k]);
    }
  }

  // --- Without the guard ------------------------------------------------------------

  /** A merge under way with a put stuck at location `l` of an input file. */
  ghost predicate Stuck(s: State, t: Tid, k: Key, l: Loc) {
    && s.merge.On? && t in s.writers && s.writers[t] == PutAppended(k, l)
    && l.file in s.files && l.file < s.nextId
    && (l.file in s.linked ==> l.file in s.merge.left)
    && (s.merge.phase.Forget? ==> s.merge.left != [] && s.merge.left[0] !in s.linked)
    && (s.merge.phase.Writing? ==> s.merge.todo != [])
    && (forall x :: x in s.merge.todo ==> HasRec(s, x))
    && s.merge.cur in s.files && (forall f :: f in s.files ==> f < s.nextId)
    && (s.merge.phase.Unlink? || s.merge.phase.Forget? || (s.merge.phase.Drain? && s.merge.phase.final) ==>
        s.merge.todo == [])
  }

  function Rank(p: Phase): nat {
    match p
    case Scan => 5
    case Writing(_) => 4
    case Settling => 8
    case Drain(final) => if final then 4 else 7
    case Unlink => 1
    case Forget => 0
  }

  /** How much of the merge is still to do. */
  function ToDo(m: Merge): nat
    requires m.On?
  {
    10 * |m.todo| + 2 * |m.pending| + 3 * |m.left| + Rank(m.phase)
  }

  /** The step a merge takes when left alone. */
  function NextOf(m: Merge): Action
    requires m.On?
  {
    match m.phase
    case Scan => if m.todo == [] then MergeFinish else MergeCheck
    case Writing(_) => MergeWrite
    case Settling => MergeSettle
    case Drain(_) => if m.pending == [] then MergeDrained else MergeCas
    case Unlink => if m.left == [] then MergeRestore else MergeUnlink
    case Forget => MergeForget
  }

  /** Left alone, a merge gets on with its work and leaves the put where it was. */
  lemma StuckStep(s: State, t: Tid, k: Key, l: Loc)
    requires Stuck(s, t, k, l) && !(s.merge.phase.Unlink? && s.merge.left == [])
    ensures Enabled(s, NextOf(s.merge))
    ensures
      var s' := Step(s, NextOf(s.merge));
      Stuck(s', t, k, l) && ToDo(s'.merge) < ToDo(s.merge)
  {
    match s.merge.phase
    case Scan => StuckScan(s, t, k, l);
    case Writing(_) => StuckWrite(s, t, k, l);
    case Settling => StuckSettle(s, t, k, l);
    case Drain(_) => StuckDrain(s, t, k, l);
    case Unlink => StuckUnlink(s, t, k, l);
    case Forget => StuckUnlink(s, t, k, l);
  }

  lemma StuckScan(s: State, t: Tid, k: Key, l: Loc)
    requires Stuck(s, t, k, l) && s.merge.phase.Scan?
    ensures Enabled(s, NextOf(s.merge))
    ensures var s' := Step(s, NextOf(s.merge)); Stuck(s', t, k, l) && ToDo(s'.merge) < ToDo(s.merge)
  {
    hide CallerStep, Started, Copied, Settled, Swapped, Restored;
    var s' := Step(s, NextOf(s.merge));
    forall x | x in s'.merge.todo
      ensures HasRec(s', x)
    {
      assert x in s.merge.todo && HasRec(s, x);
    }
  }

  lemma StuckWrite(s: State, t: Tid, k: Key, l: Loc)
    requires Stuck(s, t, k, l) && s.merge.phase.Writing?
    ensures Enabled(s, NextOf(s.merge))
    ensures var s' := Step(s, NextOf(s.merge)); Stuck(s', t, k, l) && ToDo(s'.merge) < ToDo(s.merge)
  {
    hide CallerStep, Started, Checked, Settled, Swapped, Restored;
    var s' := Step(s, MergeWrite);
    forall x | x in s'.merge.todo
      ensures HasRec(s', x)
    {
      assert x in s.merge.todo && HasRec(s, x);
    }
  }

  lemma StuckSettle(s: State, t: Tid, k: Key, l: Loc)
    requires Stuck(s, t, k, l) && s.merge.phase.Settling?
    ensures Enabled(s, NextOf(s.merge))
    ensures var s' := Step(s, NextOf(s.merge)); Stuck(s', t, k, l) && ToDo(s'.merge) < ToDo(s.merge)
  {
    hide CallerStep, Started, Checked, Copied, Settled, Swapped, Restored, OutputFull, Stuck, ToDo;
    assert s.merge.On? && s.merge.cur in s.files by { StuckOn(s, t, k, l); }
    SettledStuck(s, t, k, l, OutputFull(s));
  }

  lemma StuckOn(s: State, t: Tid, k: Key, l: Loc)
    requires Stuck(s, t, k, l)
    ensures s.merge.On? && s.merge.cur in s.files
  {
  }

  lemma SettledStuck(s: State, t: Tid, k: Key, l: Loc, rotate: bool)
    requires Stuck(s, t, k, l) && s.merge.phase.Settling?
    ensures var s' := Settled(s, s.merge, rotate); Stuck(s', t, k, l) && ToDo(s'.merge) < ToDo(s.merge)
  {
    var s' := Settled(s, s.merge, rotate);
    forall x | x in s'.merge.todo
      ensures HasRec(s', x)
    {
      assert x in s.merge.todo && HasRec(s, x);
    }
  }

  lemma StuckDrain(s: State, t: Tid, k: Key, l: Loc)
    requires Stuck(s, t, k, l) && s.merge.phase.Drain?
    ensures Enabled(s, NextOf(s.merge))
    ensures var s' := Step(s, NextOf(s.merge)); Stuck(s', t, k, l) && ToDo(s'.merge) < ToDo(s.merge)
  {
    hide CallerStep, Started, Checked, Copied, Settled, Swapped, Restored, OutputFull, HasRec;
    if s.merge.pending != [] {
      SwapLeaves(s);
    }
    var s' := Step(s, NextOf(s.merge));
    assert s'.files == s.files && s'.linked == s.linked && s'.writers == s.writers && s'.nextId == s.nextId;
    SameRecs(s, s');
  }

  /** What a compare-and-swap does not touch. */
  lemma SwapLeaves(s: State)
    requires s.merge.On? && s.merge.pending != []
    ensures
      var s' := Swapped(s, s.merge);
      s' == s.(merge := s.merge.(pending := s.merge.pending[1..]), keydir := s'.keydir, published := s'.published)
  {
  }

  lemma SameRecs(s: State, s': State)
    requires s'.files == s.files
    ensures forall x :: HasRec(s', x) <==> HasRec(s, x)
  {
  }

  lemma StuckUnlink(s: State, t: Tid, k: Key, l: Loc)
    requires Stuck(s, t, k, l) && (s.merge.phase.Unlink? || s.merge.phase.Forget?)
    requires !(s.merge.phase.Unlink? && s.merge.left == [])
    ensures Enabled(s, NextOf(s.merge))
    ensures var s' := Step(s, NextOf(s.merge)); Stuck(s', t, k, l) && ToDo(s'.merge) < ToDo(s.merge)
  {
    hide CallerStep, Started, Checked, Copied, Settled, Swapped, Restored;
  }

  /** The merge runs to the point where every input is gone. */
  lemma {:induction false} StuckRuns(s: State, t: Tid, k: Key, l: Loc) returns (states: seq<State>, events: seq<Event>)
    requires Stuck(s, t, k, l)
    ensures IsPath(states, events) && states[0] == s
    ensures Stuck(states[|states| - 1], t, k, l) && l.file !in states[|states| - 1].linked
    decreases ToDo(s.merge)
  {
    if s.merge.phase.Unlink? && s.merge.left == [] {
      states, events := [s], [];
    } else {
      hide Stuck, Step, Enabled, ToDo;
      StuckStep(s, t, k, l);
      var a := NextOf(s.merge);
      var rest, after := StuckRuns(Step(s, a), t, k, l);
      states, events := PathCons(s, Work(a), rest, after);
    }
  }

  /** A put caught in an input file ends up pointing into nowhere. */
  lemma UnguardedDangles(s: State, ids: seq<nat>, bound: nat, t: Tid) returns (states: seq<State>, events: seq<Event>)
    requires Inv(s) && Enabled(s, MergeStart(ids, bound))
    requires t in s.writers && s.writers[t].PutAppended? && s.writers[t].loc.file < bound
    ensures IsPath(states, events) && states[0] == Step(s, MergeStart(ids, bound)) && Dangles(states[|states| - 1])
  {
    var k, l := s.writers[t].key, s.writers[t].loc;
    StartStuck(s, ids, bound, t, k, l);
    hide Inv, Step, Enabled;
    states, events := StuckRuns(Step(s, MergeStart(ids, bound)), t, k, l);
    var last := states[|states| - 1];
    var s' := LastInsert(last, t, k, l);
    states, events := PathSnoc(states, events, Work(PutInsert(t)), s');
  }

  lemma LastInsert(s: State, t: Tid, k: Key, l: Loc) returns (s': State)
    requires Stuck(s, t, k, l) && l.file !in s.linked
    ensures IsStep(s, Work(PutInsert(t)), s') && Dangles(s')
  {
    hide MergeNext;
    s' := Step(s, PutInsert(t));
    assert k in s'.keydir && s'.keydir[k].file !in s'.linked;
  }

  lemma StartStuck(s: State, ids: seq<nat>, bound: nat, t: Tid, k: Key, l: Loc)
    requires Inv(s) && Enabled(s, MergeStart(ids, bound))
    requires t in s.writers && s.writers[t] == PutAppended(k, l) && l.file < bound
    ensures Stuck(Step(s, MergeStart(ids, bound)), t, k, l)
  {
    hide KeydirOk, ReadersOk, PendingOk, CoverOk, CallerStep, Checked, Copied, Settled, Swapped, Restored, LocsOf;
    LocsOfFacts(ids, s.files);
    assert Good(s, k, l);
    assert l.file in InputsOf(s, bound);
    assert l.file in set f | f in ids;
  }

  /** In any state a run can reach, starting a merge is safe exactly when the guard holds. */
  lemma GuardIsExact(s: State, ids: seq<nat>, bound: nat)
    requires Inv(s) && Enabled(s, MergeStart(ids, bound))
    ensures SafeStart(s, ids, bound) <==> StartGuard(s, bound)
  {
    hide Inv, Step, Enabled, Dangles;
    if StartGuard(s, bound) {
      StepInv(s, MergeStart(ids, bound));
      forall states, events | IsPath(states, events) && states[0] == Step(s, MergeStart(ids, bound))
        ensures !Dangles(states[|states| - 1])
      {
        PathInv(states, events, |states| - 1);
        InvNoDangle(states[|states| - 1]);
      }
    } else {
      var t :| t in s.writers && s.writers[t].PutAppended? && s.writers[t].loc.file < bound;
      var states, events := UnguardedDangles(s, ids, bound, t);
    }
  }
}
