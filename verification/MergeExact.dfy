/** The condition on writes that race a merge is exact: a write that is not clean can be lost. */
module MergeExact {
  import opened Bytes
  import opened Index
  import opened MergeProtocol
  import opened MergeSession
  import opened MergeInterleavings
  import opened MergeGuard
  import opened MergeRecovery

  /** A crash now brings every key back right. */
  ghost predicate Recoverable(s: State) {
    forall cut, k :: CrashCut(s, cut) ==> Survives(s, cut, k)
  }

  /** So does a crash at any moment of any clean continuation. */
  ghost predicate StaysRecoverable(s: State) {
    forall states, events :: IsCleanPath(states, events) && states[0] == s ==> Recoverable(states[|states| - 1])
  }

  /** The condition suffices. */
  lemma CleanStays(s: State)
    requires Inv(s) && CleanInv(s)
    ensures StaysRecoverable(s)
  {
    hide Inv, CleanInv, CrashCut, Survives, IsStep, IsCleanStep;
    forall states, events | IsCleanPath(states, events) && states[0] == s
      ensures Recoverable(states[|states| - 1])
    {
      var q := states[|states| - 1];
      CleanPathInv(states, events, |states| - 1);
      forall cut, k | CrashCut(q, cut)
        ensures Survives(q, cut, k)
      {
        CleanSurvives(q, cut, k);
      }
    }
  }

  // --- Leaving a merge alone -----------------------------------------------------------

  /** The merge has removed every input. */
  predicate Finished(s: State)
    requires s.merge.On?
  {
    s.merge.phase.Unlink? && s.merge.left == []
  }

  /** There is something for the next step to work on. */
  predicate Ready(s: State) {
    && s.merge.On?
    && var m := s.merge;
       match m.phase
       case Scan => if m.todo == [] then m.cur in s.files else HasRec(s, m.todo[0])
       case Writing(_) => m.todo != [] && HasRec(s, m.todo[0]) && m.cur in s.files
       case Settling => m.cur in s.files
       case Drain(_) => true
       case Unlink => m.left != []
       case Forget => m.left != []
  }

  /** What the next step of a merge under way does. */
  predicate Advances(s: State, s': State)
    requires Ready(s)
  {
    var m := s.merge;
    match m.phase
    case Scan =>
      if m.todo == [] then s' == FlushFile(s, m.cur).(merge := m.(phase := Drain(true), since := 0))
      else s' == s.(merge := Checked(s, m, m.todo[0]))
    case Writing(version) => s' == Copied(s, m, m.todo[0], version)
    case Settling => s' == Settled(s, m, OutputFull(s))
    case Drain(final) =>
      if m.pending == [] then s' == s.(merge := m.(phase := if final then Unlink else Scan)) else s' == Swapped(s, m)
    case Unlink => s' == s.(linked := s.linked - {m.left[0]}, merge := m.(phase := Forget))
    case Forget => s' == s.(handles := s.handles - {m.left[0]}, merge := m.(phase := Unlink, left := m.left[1..]))
  }

  lemma NextAdvances(s: State)
    requires s.merge.On? && !Finished(s) && Enabled(s, NextOf(s.merge))
    ensures Ready(s) && Advances(s, Step(s, NextOf(s.merge)))
  {
    hide CallerStep, Started, Checked, Copied, Settled, Swapped, Restored, FlushFile, HasRec, OutputFull;
  }

  /** Everything but the last step of a merge can be done, and brings it nearer to that. */
  lemma GoesOn(s: State)
    requires Inv(s) && s.merge.On? && !Finished(s)
    ensures Enabled(s, NextOf(s.merge))
    ensures
      var s' := Step(s, NextOf(s.merge));
      s'.merge.On? && ToDo(s'.merge) < ToDo(s.merge)
  {
    hide Inv;
    NextEnabled(s);
    NextAdvances(s);
    hide Step, Enabled, Advances;
    Nearer(s, Step(s, NextOf(s.merge)));
  }

  lemma CheckNearer(s: State, m: Merge, l: Loc)
    requires m.On? && m.phase.Scan? && m.todo != [] && HasRec(s, l)
    ensures Checked(s, m, l).On? && Checked(s, m, l).outputs == m.outputs && ToDo(Checked(s, m, l)) < ToDo(m)
  {
  }

  lemma WriteNearer(s: State, m: Merge, l: Loc, version: nat)
    requires m.On? && m.phase.Writing? && m.todo != [] && m.cur in s.files && HasRec(s, l)
    ensures Copied(s, m, l, version).merge.On? && ToDo(Copied(s, m, l, version).merge) < ToDo(m)
  {
  }

  lemma SettleNearer(s: State, m: Merge, rotate: bool)
    requires m.On? && m.phase.Settling? && m.cur in s.files
    ensures Settled(s, m, rotate).merge.On? && ToDo(Settled(s, m, rotate).merge) < ToDo(m)
  {
  }

  lemma SwapNearer(s: State)
    requires s.merge.On? && s.merge.phase.Drain? && s.merge.pending != []
    ensures Swapped(s, s.merge).merge.On? && ToDo(Swapped(s, s.merge).merge) < ToDo(s.merge)
  {
    SwapLeaves(s);
  }

  lemma RestNearer(m: Merge, phase: Phase, since: nat)
    requires m.On? && Rank(phase) < Rank(m.phase)
    ensures ToDo(m.(phase := phase, since := since)) < ToDo(m)
  {
  }

  lemma ForgetNearer(m: Merge)
    requires m.On? && m.phase.Forget? && m.left != []
    ensures ToDo(m.(phase := Unlink, left := m.left[1..])) < ToDo(m)
  {
  }

  lemma Nearer(s: State, s': State)
    requires Ready(s) && Advances(s, s')
    ensures s'.merge.On? && ToDo(s'.merge) < ToDo(s.merge)
  {
    hide Checked, Copied, Settled, Swapped, OutputFull, HasRec, FlushFile, ToDo;
    var m := s.merge;
    match m.phase
    case Scan =>
      if m.todo != [] {
        CheckNearer(s, m, m.todo[0]);
      } else {
        RestNearer(m, Drain(true), 0);
      }
    case Writing(version) => WriteNearer(s, m, m.todo[0], version);
    case Settling => SettleNearer(s, m, OutputFull(s));
    case Drain(final) =>
      if m.pending != [] {
        SwapNearer(s);
      } else {
        RestNearer(m, if final then Unlink else Scan, m.since);
      }
    case Unlink => RestNearer(m, Forget, m.since);
    case Forget => ForgetNearer(m);
  }

  lemma NextEnabled(s: State)
    requires Inv(s) && s.merge.On? && !Finished(s)
    ensures Enabled(s, NextOf(s.merge))
  {
    hide FilesOk, KeydirOk, WritersOk, ReadersOk, PublishedOk, CoverOk;
    if s.merge.todo != [] {
      assert s.merge.todo[0] in s.merge.todo;
    }
    assert s.merge.cur in s.files;
  }

  /** What a step of a merge other than its first and its last leaves alone. */
  ghost predicate LeavesAlone(s: State, s': State)
    requires s.merge.On?
  {
    && s'.writers == s.writers && s'.merge.On? && s.nextId <= s'.nextId
    && (forall l :: HasRec(s, l) ==> HasRec(s', l) && At(s', l) == At(s, l))
    && (forall l :: Listed(s', l) ==> Listed(s, l) || InOutput(s', l))
    && (forall l :: InOutput(s, l) ==> InOutput(s', l))
    && s'.merge.outputs <= s.merge.outputs + {s.nextId}
  }

  /** Steps that leave the files as they are. */
  lemma SameFilesAlone(s: State, s': State)
    requires s.merge.On? && s'.merge.On? && s'.files == s.files && s'.linked <= s.linked
    requires s'.writers == s.writers && s'.nextId == s.nextId && s'.merge.outputs == s.merge.outputs
    ensures LeavesAlone(s, s')
  {
  }

  lemma WriteAlone(s: State)
    requires Inv(s) && Enabled(s, MergeWrite)
    ensures LeavesAlone(s, Copied(s, s.merge, s.merge.todo[0], s.merge.phase.version))
  {
    hide KeydirOk, WritersOk, ReadersOk, PublishedOk, CoverOk, PendingOk, BatchOk, FilesOk;
  }

  lemma RotateAlone(s: State)
    requires Inv(s) && Enabled(s, MergeSettle)
    ensures LeavesAlone(s, RotatedOutput(s, s.merge))
  {
    hide KeydirOk, WritersOk, ReadersOk, PublishedOk, CoverOk, PendingOk, BatchOk, InputsOk;
    assert s.nextId !in s.files;
  }

  lemma NextLeavesAlone(s: State)
    requires Inv(s) && s.merge.On? && !Finished(s) && Enabled(s, NextOf(s.merge))
    ensures LeavesAlone(s, Step(s, NextOf(s.merge)))
  {
    NextAdvances(s);
    hide Inv, LeavesAlone, Step, Enabled, OutputFull;
    var s' := Step(s, NextOf(s.merge));
    if s.merge.phase.Writing? {
      WriteAlone(s);
    } else if s.merge.phase.Settling? && OutputFull(s) {
      RotateAlone(s);
    } else {
      RestShape(s, s');
      SameFilesAlone(s, s');
    }
  }

  /** The steps that neither write nor rotate an output. */
  lemma RestShape(s: State, s': State)
    requires Ready(s) && Advances(s, s')
    requires !s.merge.phase.Writing? && !(s.merge.phase.Settling? && OutputFull(s))
    ensures s'.files == s.files && s'.linked <= s.linked && s'.writers == s.writers && s'.nextId == s.nextId
    ensures s'.merge.On? && s'.merge.outputs == s.merge.outputs
  {
    hide HasRec, Checked, Swapped, OutputFull, Settled;
    var m := s.merge;
    match m.phase
    case Scan =>
      if m.todo != [] {
        CheckNearer(s, m, m.todo[0]);
      }
    case Settling => SettleShape(s);
    case Drain(_) =>
      if m.pending != [] {
        SwapLeaves(s);
      }
    case Unlink =>
    case Forget =>
  }

  lemma SettleShape(s: State)
    requires s.merge.On? && s.merge.cur in s.files
    ensures
      var s' := Settled(s, s.merge, false);
      && s' == s.(visible := s'.visible, merge := s.merge.(phase := s'.merge.phase, since := s'.merge.since))
      && !s'.merge.phase.Writing? && !s'.merge.phase.Settling?
  {
    hide RotatedOutput;
  }

  // --- A key is copied once -------------------------------------------------------------

  /** Every step of a merge under way keeps that. */
  lemma NextOnce(s: State)
    requires Inv(s) && Once(s) && s.merge.On? && !Finished(s) && Enabled(s, NextOf(s.merge))
    ensures Once(Step(s, NextOf(s.merge)))
  {
    NextAdvances(s);
    hide Inv, Once, Step, CopiesAbove, Enabled, OutputFull;
    var s' := Step(s, NextOf(s.merge));
    if s.merge.phase.Writing? {
      WriteKeepsOnce(s);
    } else if s.merge.phase.Settling? && OutputFull(s) {
      RotateKeepsOnce(s);
    } else {
      RestKeepsOnce(s, s');
    }
  }

  lemma WriteKeepsOnce(s: State)
    requires Inv(s) && Once(s) && Enabled(s, MergeWrite)
    ensures Once(Copied(s, s.merge, s.merge.todo[0], s.merge.phase.version))
  {
    hide KeydirOk, WritersOk, ReadersOk, CoverOk, BatchOk, PendingOk, Once;
    var s' := Copied(s, s.merge, s.merge.todo[0], s.merge.phase.version);
    var n := Loc(s.merge.cur, |s.files[s.merge.cur]|);
    assert Extended(s, s', n) && At(s', n) == At(s, s.merge.todo[0]);
    WriteCopies(s, s');
    hide FilesOk, InputsOk, Extended, FewerCopies;
    WriteOnce(s, s', n);
  }

  lemma RotateKeepsOnce(s: State)
    requires Inv(s) && Once(s) && Enabled(s, MergeSettle) && OutputFull(s)
    ensures Once(RotatedOutput(s, s.merge))
  {
    hide KeydirOk, WritersOk, ReadersOk, PendingOk, BatchOk, CoverOk, Once;
    var s' := RotatedOutput(s, s.merge);
    assert s.nextId !in s.files;
    assert forall l :: HasRec(s, l) <==> HasRec(s', l);
    assert forall l :: InOutput(s', l) ==> InOutput(s, l);
    PhaseCopies(s, s');
    hide FewerCopies, FilesOk, InputsOk;
    OnceKeeps(s, s', 0);
  }

  lemma RestKeepsOnce(s: State, s': State)
    requires Inv(s) && Once(s) && Ready(s) && Advances(s, s')
    requires !s.merge.phase.Writing? && !(s.merge.phase.Settling? && OutputFull(s))
    ensures Once(s')
  {
    RestShape(s, s');
    var n := RestCopies(s, s');
    hide Inv, Once, Advances, Enabled, FewerCopies, CopiesAbove, WasLive, OutputFull;
    assert forall l :: InOutput(s', l) ==> InOutput(s, l);
    OnceKeeps(s, s', n);
  }

  lemma RestCopies(s: State, s': State) returns (n: nat)
    requires Inv(s) && Ready(s) && Advances(s, s')
    requires !s.merge.phase.Writing? && !(s.merge.phase.Settling? && OutputFull(s))
    ensures FewerCopies(s, s', n) && s'.merge.On? && (s'.merge.phase.Writing? ==> WasLive(s'))
  {
    hide Inv, FewerCopies, CopiesAbove, WasLive, Checked, Swapped, FlushFile, Settled, OutputFull;
    n := 0;
    if s.merge.phase.Scan? && s.merge.todo != [] {
      n := CheckCopies(s, s');
    } else if s.merge.phase.Drain? {
      DrainCopies(s, s');
    } else if s.merge.phase.Settling? {
      SettleShape(s);
      PhaseCopies(s, s');
    } else {
      if s.merge.todo != [] {
        NothingTodo(s);
      }
      NoCopies(s, s');
    }
  }

  lemma DrainCopies(s: State, s': State)
    requires Inv(s) && Ready(s) && Advances(s, s') && s.merge.phase.Drain?
    ensures FewerCopies(s, s', 0) && s'.merge.On? && !s'.merge.phase.Writing?
  {
    hide Inv, FewerCopies, Swapped;
    if s.merge.pending != [] {
      SwapLeaves(s);
      CasCopies(s, s');
    } else {
      PhaseCopies(s, s');
    }
  }

  lemma CheckCopies(s: State, s': State) returns (n: nat)
    requires Enabled(s, MergeCheck) && s' == s.(merge := Checked(s, s.merge, s.merge.todo[0]))
    ensures FewerCopies(s, s', n) && s'.merge.On? && (s'.merge.phase.Writing? ==> WasLive(s'))
  {
    hide FewerCopies, CopiesAbove, WasLive;
    if LiveLoc(s, s.merge.todo[0]) {
      n := 0;
      CheckLiveCopies(s, s');
    } else {
      n := 1;
      CheckDeadCopies(s, s');
    }
  }

  lemma NothingTodo(s: State)
    requires Inv(s) && s.merge.On? && (s.merge.phase.Unlink? || s.merge.phase.Forget?)
    ensures s.merge.todo == []
  {
    hide KeydirOk, WritersOk, ReadersOk, PendingOk, CoverOk, FilesOk, InputsOk;
  }

  // --- A write that is overtaken ----------------------------------------------------------

  /** The writer's record is in the log, not yet in the keydir, and says `r`. */
  predicate Says(s: State, t: Tid, r: Rec) {
    && t in s.writers && Pushed(s.writers[t]) && s.writers[t].key == r.key
    && (s.writers[t].PutAppended? ==> HasRec(s, s.writers[t].loc) && At(s, s.writers[t].loc) == r)
    && (s.writers[t].DelAppended? ==> r.value.None?)
  }

  /** A write races a merge: it is alone on its key, and any newer record of the key, in a file
      above `a`, is a copy the merge has made. */
  ghost predicate Racing(s: State, t: Tid, r: Rec, a: nat) {
    && Inv(s) && Once(s) && s.merge.On? && Says(s, t, r)
    && (forall u :: u in s.writers && u != t && Pushed(s.writers[u]) ==> s.writers[u].key != r.key)
    && a < s.nextId && a !in s.merge.outputs
    && forall l :: Listed(s, l) && l.file > a && At(s, l).key == r.key ==> InOutput(s, l)
  }

  /** The `i`-th record still to be scanned may overtake it. */
  predicate Threatened(s: State, r: Rec, a: nat, i: nat) {
    CopiesAbove(s, i, a) && At(s, s.merge.todo[i]).key == r.key && At(s, s.merge.todo[i]) != r
  }

  /** The copy at `c` has. */
  predicate Passed(s: State, r: Rec, a: nat, c: Loc) {
    InOutput(s, c) && c.file > a && At(s, c).key == r.key && At(s, c) != r
  }

  lemma RacingStep(s: State, t: Tid, r: Rec, a: nat)
    requires Racing(s, t, r, a) && !Finished(s)
    ensures Enabled(s, NextOf(s.merge)) && IsStep(s, Work(NextOf(s.merge)), Step(s, NextOf(s.merge)))
    ensures IsCleanStep(s, Work(NextOf(s.merge)))
    ensures Racing(Step(s, NextOf(s.merge)), t, r, a) && ToDo(Step(s, NextOf(s.merge)).merge) < ToDo(s.merge)
    ensures forall c :: Passed(s, r, a, c) ==> Passed(Step(s, NextOf(s.merge)), r, a, c)
  {
    hide Inv, Once, Step, Enabled, ToDo;
    GoesOn(s);
    StepInv(s, NextOf(s.merge));
    NextLeavesAlone(s);
    NextOnce(s);
  }

  /** The first `n` records are passed, and of the next `i` no less is copied than before. */
  predicate NoLess(s: State, s': State, n: nat, i: nat) {
    && s.merge.On? && s'.merge.On? && |s.merge.todo| == |s'.merge.todo| + n && i <= |s'.merge.todo|
    && forall j: nat :: j < i ==>
         && s'.merge.todo[j] == s.merge.todo[j + n]
         && (ToBeCopied(s, j + n) ==> ToBeCopied(s', j) && At(s', s'.merge.todo[j]) == At(s, s'.merge.todo[j]))
  }

  lemma {:induction false} NoLessSize(s: State, s': State, n: nat, i: nat)
    requires NoLess(s, s', n, i)
    ensures CopySize(s', i) + CopySize(s, n) >= CopySize(s, i + n)
  {
    hide LiveLoc;
    if i > 0 {
      NoLessSize(s, s', n, i - 1);
      assert s'.merge.todo[i - 1] == s.merge.todo[i - 1 + n];
    }
  }

  /** A step that keeps the current output, and adds to it at least what was to be copied there, keeps a threat. */
  lemma ThreatStays(s: State, s': State, r: Rec, a: nat, n: nat, i: nat)
    requires Threatened(s, r, a, i + n) && NoLess(s, s', n, i + 1)
    requires s'.merge.cur == s.merge.cur && s'.limit == s.limit
    requires SizeOf(s', s.merge.cur) >= SizeOf(s, s.merge.cur) + CopySize(s, n)
    requires s.merge.phase.Settling? ==> s'.merge.phase.Settling? || !OutputFull(s)
    requires CopySize(s, n) > 0 ==> s'.merge.phase.Settling?
    ensures Threatened(s', r, a, i)
  {
    hide LiveLoc, CopySize, SizeOf;
    assert s'.merge.todo[i] == s.merge.todo[i + n];
    NoLessSize(s, s', n, i);
  }

  lemma ThreatScan(s: State, r: Rec, a: nat, i: nat) returns (i': nat)
    requires Threatened(s, r, a, i) && Enabled(s, MergeCheck)
    ensures Threatened(s.(merge := Checked(s, s.merge, s.merge.todo[0])), r, a, i')
  {
    var s' := s.(merge := Checked(s, s.merge, s.merge.todo[0]));
    assert forall x :: LiveLoc(s', x) <==> LiveLoc(s, x);
    if LiveLoc(s, s.merge.todo[0]) {
      i' := i;
      hide Threatened;
      ThreatStays(s, s', r, a, 0, i);
    } else {
      i' := i - 1;
      hide Threatened;
      ThreatStays(s, s', r, a, 1, i');
    }
  }

  lemma ThreatWrite(s: State, r: Rec, a: nat, i: nat) returns (i': nat, c: Loc)
    requires Threatened(s, r, a, i) && Inv(s) && Enabled(s, MergeWrite) && a !in s.merge.outputs
    ensures
      var s' := Copied(s, s.merge, s.merge.todo[0], s.merge.phase.version);
      Threatened(s', r, a, i') || Passed(s', r, a, c)
  {
    hide KeydirOk, WritersOk, ReadersOk, CoverOk, BatchOk, PendingOk, FilesOk;
    var s' := Copied(s, s.merge, s.merge.todo[0], s.merge.phase.version);
    c := Loc(s.merge.cur, |s.files[s.merge.cur]|);
    if i > 0 {
      i' := i - 1;
      SizeSnoc(s.files[s.merge.cur], At(s, s.merge.todo[0]));
      assert CopySize(s, 1) == RecSize(At(s, s.merge.todo[0]));
      hide Threatened;
      ThreatStays(s, s', r, a, 1, i');
    } else {
      i' := 0;
      assert At(s', c) == At(s, s.merge.todo[0]);
    }
  }

  lemma ThreatSettle(s: State, r: Rec, a: nat, i: nat)
    requires Threatened(s, r, a, i) && FilesOk(s) && Enabled(s, MergeSettle) && a < s.nextId
    ensures Threatened(Settled(s, s.merge, OutputFull(s)), r, a, i)
  {
    hide OutputFull;
    var s' := Settled(s, s.merge, OutputFull(s));
    if OutputFull(s) {
      ThreatRotate(s, r, a, i);
    } else {
      SettleShape(s);
      SameLive(s, s');
      hide Threatened, Settled;
      ThreatStays(s, s', r, a, 0, i);
    }
  }

  lemma ThreatRotate(s: State, r: Rec, a: nat, i: nat)
    requires Threatened(s, r, a, i) && FilesOk(s) && Enabled(s, MergeSettle) && a < s.nextId
    ensures Threatened(RotatedOutput(s, s.merge), r, a, i)
  {
    var s' := RotatedOutput(s, s.merge);
    assert s.nextId !in s.files;
    assert forall x :: HasRec(s, x) ==> HasRec(s', x) && At(s', x) == At(s, x);
  }

  lemma ThreatDrain(s: State, r: Rec, a: nat, i: nat, s': State)
    requires Threatened(s, r, a, i) && Inv(s) && s.merge.phase.Drain?
    requires Ready(s) && Advances(s, s')
    ensures Threatened(s', r, a, i)
  {
    hide KeydirOk, WritersOk, ReadersOk, CoverOk, PendingOk, FilesOk, InputsOk, LiveLoc;
    if s.merge.pending != [] {
      CasLive(s, s');
    } else {
      assert !s.merge.phase.final;
      SameLive(s, s');
    }
    hide Threatened;
    ThreatStays(s, s', r, a, 0, i);
  }

  lemma SameLive(s: State, s': State)
    requires s'.files == s.files && s'.keydir == s.keydir
    ensures forall x :: LiveLoc(s', x) <==> LiveLoc(s, x)
  {
  }

  /** A threat stays until it has come true. */
  lemma ThreatStep(s: State, t: Tid, r: Rec, a: nat, i: nat) returns (i': nat, c: Loc)
    requires Racing(s, t, r, a) && Threatened(s, r, a, i) && Enabled(s, NextOf(s.merge))
    ensures !Finished(s)
    ensures Threatened(Step(s, NextOf(s.merge)), r, a, i') || Passed(Step(s, NextOf(s.merge)), r, a, c)
  {
    i', c := i, Loc(0, 0);
    ThreatTodo(s, r, a, i);
    NextAdvances(s);
    hide Inv, Once, Step, Threatened, Passed;
    var s' := Step(s, NextOf(s.merge));
    match s.merge.phase
    case Scan => i' := ThreatScan(s, r, a, i);
    case Writing(_) => i', c := ThreatWrite(s, r, a, i);
    case Settling =>
      InvFiles(s);
      ThreatSettle(s, r, a, i);
    case Drain(_) => ThreatDrain(s, r, a, i, s');
  }

  lemma ThreatTodo(s: State, r: Rec, a: nat, i: nat)
    requires Inv(s) && Threatened(s, r, a, i)
    ensures s.merge.On? && s.merge.todo != [] && !s.merge.phase.Unlink? && !s.merge.phase.Forget?
  {
    if s.merge.phase.Unlink? || s.merge.phase.Forget? {
      NothingTodo(s);
    }
  }

  /** Left alone, a merge that threatens a write overtakes it and runs to its last step. */
  lemma {:induction false} RacingRuns(s: State, t: Tid, r: Rec, a: nat, i: Option<nat>, c: Loc)
    returns (states: seq<State>, events: seq<Event>, c': Loc)
    requires Racing(s, t, r, a)
    requires if i.Some? then Threatened(s, r, a, i.value) else Passed(s, r, a, c)
    ensures IsCleanPath(states, events) && states[0] == s
    ensures
      var q := states[|states| - 1];
      Racing(q, t, r, a) && Finished(q) && Passed(q, r, a, c')
    decreases ToDo(s.merge)
  {
    hide Racing, Threatened, Passed, Step, Enabled, ToDo, IsStep, IsCleanStep, Finished;
    RacingOn(s, t, r, a);
    if Finished(s) {
      if i.Some? {
        NotFinished(s, t, r, a, i.value);
      }
      states, events, c' := [s], [], c;
    } else {
      RacingStep(s, t, r, a);
      var q := Step(s, NextOf(s.merge));
      var next, copy := RacingNext(s, t, r, a, i, c);
      var rest, after;
      rest, after, c' := RacingRuns(q, t, r, a, next, copy);
      states, events := CleanCons(s, Work(NextOf(s.merge)), rest, after);
    }
  }

  lemma RacingOn(s: State, t: Tid, r: Rec, a: nat)
    requires Racing(s, t, r, a)
    ensures s.merge.On?
  {
  }

  lemma NotFinished(s: State, t: Tid, r: Rec, a: nat, i: nat)
    requires Racing(s, t, r, a) && Threatened(s, r, a, i)
    ensures s.merge.On? && !Finished(s)
  {
    hide Inv, Once, Threatened;
    ThreatTodo(s, r, a, i);
  }

  lemma RacingNext(s: State, t: Tid, r: Rec, a: nat, i: Option<nat>, c: Loc) returns (next: Option<nat>, copy: Loc)
    requires Racing(s, t, r, a) && s.merge.On? && !Finished(s) && Enabled(s, NextOf(s.merge))
    requires if i.Some? then Threatened(s, r, a, i.value) else Passed(s, r, a, c)
    ensures
      var q := Step(s, NextOf(s.merge));
      if next.Some? then Threatened(q, r, a, next.value) else Passed(q, r, a, copy)
  {
    hide Racing, Threatened, Passed, Step, Enabled, ToDo, IsStep, IsCleanStep, Finished;
    next, copy := None, c;
    if i.Some? {
      var j;
      j, copy := ThreatStep(s, t, r, a, i.value);
      next := if Threatened(Step(s, NextOf(s.merge)), r, a, j) then Some(j) else None;
    } else {
      RacingStep(s, t, r, a);
    }
  }

  lemma CleanCons(s: State, e: Event, rest: seq<State>, after: seq<Event>)
    returns (states: seq<State>, events: seq<Event>)
    requires IsCleanPath(rest, after) && IsStep(s, e, rest[0]) && IsCleanStep(s, e)
    ensures states == [s] + rest && events == [e] + after && IsCleanPath(states, events)
  {
    hide IsStep, IsCleanStep;
    states, events := PathCons(s, e, rest, after);
    forall i | 0 <= i < |events|
      ensures IsCleanStep(states[i], events[i])
    {
      if i > 0 {
        assert IsCleanStep(rest[i - 1], after[i - 1]);
      }
    }
  }

  lemma CleanSnoc(states: seq<State>, events: seq<Event>, e: Event, s': State)
    returns (more: seq<State>, upTo: seq<Event>)
    requires IsCleanPath(states, events) && IsStep(states[|states| - 1], e, s') && IsCleanStep(states[|states| - 1], e)
    ensures more == states + [s'] && upTo == events + [e] && IsCleanPath(more, upTo)
  {
    hide IsStep, IsCleanStep;
    more, upTo := PathSnoc(states, events, e, s');
    forall i | 0 <= i < |upTo|
      ensures IsCleanStep(more[i], upTo[i])
    {
      if i < |events| {
        assert IsCleanStep(states[i], events[i]);
      }
    }
  }

  // --- The end of the race ----------------------------------------------------------------

  /** The merge is over and the writer done; gets see `r`, and recovery brings back something else. */
  ghost predicate Lost(s: State, t: Tid, r: Rec) {
    && s.merge.Off? && t in s.writers && s.writers[t].WIdle? && !Busy(s, r.key)
    && Lookup(LiveMap(s), r.key) == r.value
    && CrashCut(s, s.visible) && forall cut :: CrashCut(s, cut) ==> AfterCrash(s, cut, r.key) != r.value
  }

  /** The step by which writer `t` publishes. */
  function Publish(s: State, t: Tid): Action
    requires t in s.writers && Pushed(s.writers[t])
  {
    if s.writers[t].PutAppended? then PutInsert(t) else DelRemove(t)
  }

  /** Among the files, the only record of the key above `a` is the copy. */
  ghost predicate OnlyAbove(s: State, r: Rec, a: nat, c: Loc) {
    && Listed(s, c) && c.file > a && At(s, c).key == r.key && At(s, c) != r
    && forall l :: Listed(s, l) && l.file > a && At(s, l).key == r.key ==> l == c
  }

  lemma PassedOnly(s: State, t: Tid, r: Rec, a: nat, c: Loc)
    requires Racing(s, t, r, a) && Passed(s, r, a, c)
    ensures OnlyAbove(s, r, a, c)
  {
    hide KeydirOk, WritersOk, ReadersOk, CoverOk, BatchOk, PendingOk, FilesOk, CopiesAbove;
  }

  lemma RestoreKeeps(s: State, r: Rec, a: nat, c: Loc)
    requires FilesOk(s) && Enabled(s, MergeRestore) && OnlyAbove(s, r, a, c)
    ensures
      var s' := Step(s, MergeRestore);
      && OnlyAbove(s', r, a, c) && s'.writers == s.writers && s'.merge.Off?
      && forall l :: HasRec(s, l) ==> HasRec(s', l) && At(s', l) == At(s, l)
  {
    hide CallerStep, Started, Checked, Copied, Settled, Swapped;
    assert s.nextId !in s.files;
    var s' := Step(s, MergeRestore);
    assert forall l :: HasRec(s', l) ==> HasRec(s, l) && At(s', l) == At(s, l);
    assert forall l :: Listed(s', l) ==> Listed(s, l);
  }

  lemma PublishKeeps(s: State, t: Tid, r: Rec, a: nat, c: Loc)
    requires Inv(s) && s.merge.Off? && Says(s, t, r) && OnlyAbove(s, r, a, c)
    requires forall u :: u in s.writers && u != t && Pushed(s.writers[u]) ==> s.writers[u].key != r.key
    ensures Enabled(s, Publish(s, t))
    ensures
      var s' := Step(s, Publish(s, t));
      && OnlyAbove(s', r, a, c) && s'.merge.Off? && s'.writers == s.writers[t := WIdle] && !Busy(s', r.key)
      && Lookup(LiveMap(s'), r.key) == r.value
  {
    hide Inv, MergeNext, LookedUp, ReadBack;
    var s' := Step(s, Publish(s, t));
    assert s'.files == s.files && s'.linked == s.linked;
    if s.writers[t].PutAppended? {
      assert s'.keydir == s.keydir[r.key := s.writers[t].loc];
      WriterGood(s, t);
    }
  }

  /** Off a merge everything is flushed, so that the copy survives any crash and is read last. */
  lemma OnlyAboveReopens(s: State, r: Rec, a: nat, c: Loc, cut: map<nat, nat>)
    requires FilesOk(s) && s.merge.Off? && OnlyAbove(s, r, a, c) && CrashCut(s, cut)
    ensures AfterCrash(s, cut, r.key) == At(s, c).value
  {
    assert s.visible[c.file] == |s.files[c.file]|;
    assert Met(s, cut, c);
    hide FilesOk, AfterCrash, CrashCut;
    var l := ReopenedLast(s, cut, r.key);
    assert l.Some? && Listed(s, l.value);
    assert l.value == c;
  }

  lemma EndsLost(s: State, t: Tid, r: Rec, a: nat, c: Loc) returns (q: State, q': State)
    requires Racing(s, t, r, a) && Finished(s) && Passed(s, r, a, c)
    ensures IsStep(s, Work(MergeRestore), q) && IsCleanStep(s, Work(MergeRestore)) && t in q.writers
    ensures Pushed(q.writers[t])
    ensures IsStep(q, Work(Publish(q, t)), q') && IsCleanStep(q, Work(Publish(q, t))) && Lost(q', t, r)
  {
    hide Inv, Once, Step, OnlyAbove, Passed, Publish, Lost, Enabled;
    q := RaceRestored(s, t, r, a, c);
    q' := RacePublished(q, t, r, a, c);
  }

  lemma RaceRestored(s: State, t: Tid, r: Rec, a: nat, c: Loc) returns (q: State)
    requires Racing(s, t, r, a) && Finished(s) && Passed(s, r, a, c)
    ensures IsStep(s, Work(MergeRestore), q) && IsCleanStep(s, Work(MergeRestore))
    ensures Inv(q) && q.merge.Off? && Says(q, t, r) && OnlyAbove(q, r, a, c)
    ensures forall u :: u in q.writers && u != t && Pushed(q.writers[u]) ==> q.writers[u].key != r.key
  {
    hide Inv, Once, Step, OnlyAbove, Passed;
    PassedOnly(s, t, r, a, c);
    InvFiles(s);
    RestoreKeeps(s, r, a, c);
    StepInv(s, MergeRestore);
    q := Step(s, MergeRestore);
  }

  lemma RacePublished(q: State, t: Tid, r: Rec, a: nat, c: Loc) returns (q': State)
    requires Inv(q) && q.merge.Off? && Says(q, t, r) && OnlyAbove(q, r, a, c)
    requires forall u :: u in q.writers && u != t && Pushed(q.writers[u]) ==> q.writers[u].key != r.key
    ensures IsStep(q, Work(Publish(q, t)), q') && IsCleanStep(q, Work(Publish(q, t))) && Lost(q', t, r)
  {
    hide Inv, Step, OnlyAbove, Lost, Enabled, Overtaken;
    PublishKeeps(q, t, r, a, c);
    StepInv(q, Publish(q, t));
    q' := Step(q, Publish(q, t));
    LostAtLast(q', t, r, a, c);
  }

  lemma LostAtLast(s: State, t: Tid, r: Rec, a: nat, c: Loc)
    requires Inv(s) && s.merge.Off? && t in s.writers && s.writers[t].WIdle? && !Busy(s, r.key)
    requires OnlyAbove(s, r, a, c) && Lookup(LiveMap(s), r.key) == r.value
    ensures Lost(s, t, r)
  {
    hide Inv, AfterCrash, LiveMap, Busy;
    InvFiles(s);
    forall cut | CrashCut(s, cut)
      ensures AfterCrash(s, cut, r.key) != r.value
    {
      OnlyAboveReopens(s, r, a, c, cut);
    }
  }

  /** A merge left to itself, and then the writer: the write is lost for good. */
  lemma RaceIsLost(s: State, t: Tid, r: Rec, a: nat, i: Option<nat>, c: Loc)
    returns (states: seq<State>, events: seq<Event>)
    requires Racing(s, t, r, a)
    requires if i.Some? then Threatened(s, r, a, i.value) else Passed(s, r, a, c)
    ensures IsCleanPath(states, events) && |states| > 0 && states[0] == s && Lost(states[|states| - 1], t, r)
  {
    hide Racing, Threatened, Passed, Lost, IsStep, IsCleanStep, Publish;
    var c';
    states, events, c' := RacingRuns(s, t, r, a, i, c);
    var q, q' := EndsLost(states[|states| - 1], t, r, a, c');
    states, events := CleanSnoc(states, events, Work(MergeRestore), q);
    states, events := CleanSnoc(states, events, Work(Publish(q, t)), q');
  }

  // --- What is not clean ------------------------------------------------------------------

  /** An append that is overtaken. */
  lemma AppendRaces(s: State, t: Tid, r: Rec, w: Writer, s': State)
    requires Inv(s) && Once(s) && Inv(s') && t in s.writers && !Busy(s, r.key) && Overtaken(s, r, s.active)
    requires s' == Appended(s, r, false).(writers := s.writers[t := w])
    requires (w == DelAppended(r.key) && r.value.None?) ||
      (w == PutAppended(r.key, Loc(s.active, |s.files[s.active]|)) && r.value.Some?)
    ensures Racing(s', t, r, s.active)
    ensures (exists i: nat :: Threatened(s', r, s.active, i)) || exists c :: Passed(s', r, s.active, c)
  {
    hide KeydirOk, WritersOk, ReadersOk, CoverOk, BatchOk, PendingOk, Once, Overtaken;
    var n := Loc(s.active, |s.files[s.active]|);
    assert Extended(s, s', n) && At(s', n) == r;
    ExtendCopies(s, s', n);
    OvertakenOn(s, r);
    AppendOnce(s, s', n);
    assert Says(s', t, r);
    forall l | Listed(s', l) && l.file > s.active
      ensures InOutput(s', l)
    {
      assert Listed(s, l);
    }
    AppendThreat(s, r, s', n);
  }

  lemma OvertakenOn(s: State, r: Rec)
    requires FilesOk(s) && Overtaken(s, r, s.active)
    ensures s.merge.On?
  {
  }

  lemma AppendThreat(s: State, r: Rec, s': State, n: Loc)
    requires Inv(s) && Extended(s, s', n) && s'.keydir == s.keydir && s'.merge == s.merge && Overtaken(s, r, s.active)
    requires s.merge.On? && n !in s.merge.todo && s'.limit == s.limit
    requires SizeOf(s', s.merge.cur) == SizeOf(s, s.merge.cur)
    ensures (exists i: nat :: Threatened(s', r, s.active, i)) || exists c :: Passed(s', r, s.active, c)
  {
    hide KeydirOk, WritersOk, ReadersOk, CoverOk, BatchOk, PendingOk, InputsOk;
    if l :| Listed(s, l) && l.file > s.active && At(s, l).key == r.key && At(s, l) != r {
      assert Passed(s', r, s.active, l);
    } else {
      var i: nat :| CopiesAbove(s, i, s.active) && At(s, s.merge.todo[i]).key == r.key && At(s, s.merge.todo[i]) != r;
      forall j | 0 <= j < |s.merge.todo|
        ensures LiveLoc(s', s.merge.todo[j]) <==> LiveLoc(s, s.merge.todo[j])
      {
        assert s.merge.todo[j] != n;
      }
      ThreatStays(s, s', r, s.active, 0, i);
    }
  }

  /** Rotating the active file changes nothing about the race. */
  lemma RotatedRaces(s: State, t: Tid, r: Rec, a: nat, s': State)
    requires Racing(s, t, r, a) && Inv(s') && s' == NewFile(s).(active := s.nextId)
    ensures Racing(s', t, r, a)
    ensures forall i: nat :: Threatened(s, r, a, i) ==> Threatened(s', r, a, i)
    ensures forall c :: Passed(s, r, a, c) ==> Passed(s', r, a, c)
  {
    hide KeydirOk, WritersOk, ReadersOk, CoverOk, BatchOk, PendingOk, InputsOk, Once;
    NewFileSame(s, s');
    assert s.nextId !in s.files;
    NewFileCopies(s, s');
    hide FilesOk;
    NewFileOnce(s, s');
    SameRecords(s, s');
    ListedBack(s, s');
    hide SameLog, FewerCopies;
    OnceKeeps(s, s', 0);
    assert forall x :: LiveLoc(s', x) <==> LiveLoc(s, x);
    forall i: nat | Threatened(s, r, a, i)
      ensures Threatened(s', r, a, i)
    {
      ThreatStays(s, s', r, a, 0, i);
    }
  }

  lemma ListedBack(s: State, s': State)
    requires SameLog(s, s')
    ensures forall l :: Listed(s', l) ==> Listed(s, l)
  {
  }

  /** A merge that begins while a write to a key of its inputs is in the log. */
  lemma StartRaces(s: State, ids: seq<nat>, bound: nat, t: Tid, r: Rec)
    requires Inv(s) && CleanInv(s) && Enabled(s, MergeStart(ids, bound)) && StartGuard(s, bound) && Says(s, t, r)
    requires r.key in s.keydir && s.keydir[r.key].file in InputsOf(s, bound)
    requires HasRec(s, s.keydir[r.key]) && At(s, s.keydir[r.key]) != r
    ensures Racing(Started(s, ids, bound), t, r, s.active)
    ensures exists i: nat :: Threatened(Started(s, ids, bound), r, s.active, i)
  {
    hide KeydirOk, WritersOk, ReadersOk, CoverOk, BatchOk, PendingOk, LocsOf, Truths, CopiesAbove, InputsOldest, Once;
    var s' := Started(s, ids, bound);
    StepInv(s, MergeStart(ids, bound));
    assert s.nextId !in s.files;
    NewFileSame(s, s');
    SameRecords(s, s');
    ListedBack(s, s');
    hide SameLog, Inv;
    assert forall l :: !InOutput(s', l);
    assert Once(s') by { NoneCopied(s'); }
    StartThreat(s, ids, bound, r, s');
  }

  lemma NoneCopied(s: State)
    requires s.merge.On? && s.merge.phase.Scan? && forall l :: !InOutput(s, l)
    ensures Once(s)
  {
  }

  lemma StartThreat(s: State, ids: seq<nat>, bound: nat, r: Rec, s': State)
    requires Inv(s) && Enabled(s, MergeStart(ids, bound)) && s' == Started(s, ids, bound)
    requires r.key in s.keydir && s.keydir[r.key].file in InputsOf(s, bound) && At(s', s.keydir[r.key]) != r
    requires forall l :: HasRec(s', l) <==> HasRec(s, l)
    requires forall l :: HasRec(s, l) ==> At(s', l) == At(s, l)
    requires HasRec(s, s.keydir[r.key])
    ensures exists i: nat :: Threatened(s', r, s.active, i)
  {
    hide WritersOk, ReadersOk, CoverOk, BatchOk, PendingOk, LocsOf, InputsOk;
    LocsOfFacts(ids, s.files);
    var l := s.keydir[r.key];
    assert Good(s, r.key, l);
    assert l.file in set f | f in ids;
    assert l in s'.merge.todo;
    var i :| 0 <= i < |s'.merge.todo| && s'.merge.todo[i] == l;
    assert s'.merge.cur >= s.active;
    assert Threatened(s', r, s.active, i);
  }

  /** An append or a start of a merge that is not clean, with the record it puts at risk. */
  lemma UncleanRaces(s: State, a: Action) returns (t: Tid, r: Rec, i: Option<nat>, c: Loc)
    requires Inv(s) && CleanInv(s) && Enabled(s, a) && (a.MergeStart? ==> StartGuard(s, a.bound))
    requires TakesTurns(s, a) && !Clean(s, a)
    ensures Racing(Step(s, a), t, r, s.active)
    ensures if i.Some? then Threatened(Step(s, a), r, s.active, i.value) else Passed(Step(s, a), r, s.active, c)
  {
    hide Inv, CleanInv, Overtaken, Racing, Threatened, Passed, Busy;
    match a
    case PutAppend(u, k, v) =>
      t, r := u, Rec(k, Some(v));
      i, c := UncleanAppend(s, t, r, PutAppended(k, Loc(s.active, |s.files[s.active]|)), Fills(s, r), Step(s, a));
    case DelAppend(u) =>
      t, r := u, Rec(s.writers[u].key, None);
      i, c := UncleanAppend(s, t, r, DelAppended(r.key), Fills(s, r), Step(s, a));
    case MergeStart(ids, bound) =>
      t, r := UncleanStart(s, ids, bound);
      var j: nat :| Threatened(Step(s, a), r, s.active, j);
      i, c := Some(j), Loc(0, 0);
  }

  lemma UncleanAppend(s: State, t: Tid, r: Rec, w: Writer, rotate: bool, s': State) returns (i: Option<nat>, c: Loc)
    requires Inv(s) && CleanInv(s) && t in s.writers && !Pushed(s.writers[t]) && !Busy(s, r.key)
    requires s.active in s.files && s.active in s.visible && Overtaken(s, r, s.active)
    requires s' == Appended(s, r, rotate).(writers := s.writers[t := w])
    requires (w == DelAppended(r.key) && r.value.None?) ||
      (w == PutAppended(r.key, Loc(s.active, |s.files[s.active]|)) && r.value.Some?)
    ensures Racing(s', t, r, s.active)
    ensures if i.Some? then Threatened(s', r, s.active, i.value) else Passed(s', r, s.active, c)
  {
    hide Inv, Once, Truths, Serial, InputsOldest, Overtaken, Racing, Threatened, Passed, Busy;
    var s1 := Appended(s, r, false).(writers := s.writers[t := w]);
    AppendInv(s, t, r, w, s1);
    AppendRaces(s, t, r, w, s1);
    if rotate {
      NewActiveInv(s1, s');
      RotatedRaces(s1, t, r, s.active, s');
    }
    i, c := None, Loc(0, 0);
    if j: nat :| Threatened(s', r, s.active, j) {
      i := Some(j);
    } else {
      c :| Passed(s', r, s.active, c);
    }
  }

  lemma UncleanStart(s: State, ids: seq<nat>, bound: nat) returns (t: Tid, r: Rec)
    requires Inv(s) && CleanInv(s) && Enabled(s, MergeStart(ids, bound)) && StartGuard(s, bound)
    requires !Clean(s, MergeStart(ids, bound))
    ensures Racing(Step(s, MergeStart(ids, bound)), t, r, s.active)
    ensures exists i: nat :: Threatened(Step(s, MergeStart(ids, bound)), r, s.active, i)
  {
    hide CleanInv, Racing, Threatened, FilesOk, ReadersOk, InputsOk, CoverOk, BatchOk, PendingOk, LocsOf;
    t :| t in s.writers && Pushed(s.writers[t]) && s.writers[t].key in s.keydir
         && s.keydir[s.writers[t].key].file in InputsOf(s, bound)
             && !Repeats(s, s.writers[t], s.keydir[s.writers[t].key]);
    var k := s.writers[t].key;
    assert Good(s, k, s.keydir[k]);
    if s.writers[t].PutAppended? {
      assert Good(s, k, s.writers[t].loc);
      r := At(s, s.writers[t].loc);
    } else {
      r := Rec(k, None);
    }
    hide Inv, Enabled;
    StartRaces(s, ids, bound, t, r);
  }

  /** A write that is not clean is lost for good if the merge is left alone: a put, a delete, or
      either of them found under way by a merge that begins. */
  lemma UncleanIsLost(s: State, a: Action) returns (t: Tid, r: Rec, states: seq<State>, events: seq<Event>)
    requires Inv(s) && CleanInv(s) && Enabled(s, a) && (a.MergeStart? ==> StartGuard(s, a.bound))
    requires TakesTurns(s, a) && !Clean(s, a)
    ensures IsCleanPath(states, events) && |states| > 0 && states[0] == Step(s, a) && Lost(states[|states| - 1], t, r)
  {
    hide Inv, CleanInv, Clean, TakesTurns, Step, Enabled, Racing, Threatened, Passed, Lost, IsCleanPath;
    var i, c;
    t, r, i, c := UncleanRaces(s, a);
    states, events := RaceIsLost(Step(s, a), t, r, s.active, i, c);
  }

  lemma LostIsNotRecoverable(s: State, t: Tid, r: Rec)
    requires Lost(s, t, r)
    ensures !Recoverable(s)
  {
    hide AfterCrash, LiveMap, CrashCut;
    assert !Survives(s, s.visible, r.key);
  }

  /** Writers of one key taking turns, a step keeps every crash to come harmless if and only if it is clean. */
  lemma CleanIsExact(s: State, a: Action)
    requires Inv(s) && CleanInv(s) && Enabled(s, a) && (a.MergeStart? ==> StartGuard(s, a.bound)) && TakesTurns(s, a)
    ensures Clean(s, a) <==> StaysRecoverable(Step(s, a))
  {
    hide Inv, CleanInv, Clean, TakesTurns, Step, Enabled, Lost, IsCleanPath, Recoverable;
    if Clean(s, a) {
      StepClean(s, a);
      CleanStays(Step(s, a));
    } else {
      var t, r, states, events := UncleanIsLost(s, a);
      LostIsNotRecoverable(states[|states| - 1], t, r);
    }
  }
}
