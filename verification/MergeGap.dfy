/** Where a write that races a merge for its key does get lost at the next recovery. */
module MergeGap {
  import opened Bytes
  import opened Format
  import opened Index
  import opened MergeProtocol
  import opened MergeSession
  import opened MergeInterleavings
  import opened MergeRecovery

  // --- The documented gap, step by step ---------------------------------------------------

  const KEY: Key := [1]
  const OLD: Value := [1, 1, 1]
  const NEW: Value := [2]

  /** The old value's record fills a file, the new one's does not. */
  const LIMIT: nat := 20

  lemma Sizes()
    ensures RecSize(Rec(KEY, Some(OLD))) == LIMIT && RecSize(Rec(KEY, Some(NEW))) == LIMIT - 2
  {
  }

  /** A store just opened on an empty directory. */
  function WhenOpened(): State {
    State(map[0 := []], map[0 := 0], {0}, {}, map[], 0, 1, map[0 := WIdle], map[], Off, {}, map[], LIMIT)
  }

  /** A path from there. */
  ghost predicate FromNothing(states: seq<State>, events: seq<Event>) {
    IsPath(states, events) && |states| > 0 && states[0] == WhenOpened()
  }

  /** File 0, full with the old value, has been rotated out; the put has not reached the keydir. */
  function WhenAppended(): State {
    State(map[0 := [Rec(KEY, Some(OLD))], 1 := []], map[0 := 1, 1 := 0], {0, 1}, {}, map[], 1, 2,
          map[0 := PutAppended(KEY, Loc(0, 0))], map[], Off, {}, map[], LIMIT)
  }

  /** It has. */
  function WhenStored(): State {
    State(map[0 := [Rec(KEY, Some(OLD))], 1 := []], map[0 := 1, 1 := 0], {0, 1}, {}, map[KEY := Loc(0, 0)], 1, 2,
          map[0 := WIdle], map[], Off, {Loc(0, 0)}, map[KEY := 1], LIMIT)
  }

  /** A merge of file 0 has begun. */
  function WhenStarted(): State {
    WhenStored().(files := WhenStored().files[2 := []], visible := WhenStored().visible[2 := 0], linked := {0, 1, 2},
                  nextId := 3, merge := On({0}, Scan, [Loc(0, 0)], 2, {2}, 2, [], 0, [0]))
  }

  /** A merge of file 0 has begun, and the new value has been appended to file 1. */
  function WhenRacing(): State {
    State(map[0 := [Rec(KEY, Some(OLD))], 1 := [Rec(KEY, Some(NEW))], 2 := []], map[0 := 1, 1 := 1, 2 := 0],
          {0, 1, 2}, {}, map[KEY := Loc(0, 0)], 1, 3, map[0 := PutAppended(KEY, Loc(1, 0))], map[],
          On({0}, Scan, [Loc(0, 0)], 2, {2}, 2, [], 0, [0]), {Loc(0, 0)}, map[KEY := 1], LIMIT)
  }

  /** The merge has found the old value live. */
  function WhenChecked(): State {
    WhenRacing().(merge := WhenRacing().merge.(phase := Writing(1)))
  }

  /** It has copied it to file 2; the put has not gone on. */
  function WhenWritten(): State {
    WhenRacing().(files := map[0 := [Rec(KEY, Some(OLD))], 1 := [Rec(KEY, Some(NEW))], 2 := [Rec(KEY, Some(OLD))]],
                  merge := On({0}, Settling, [], 2, {2}, 2, [Pend(KEY, Loc(0, 0), Loc(2, 0), 1)], 1, [0]))
  }

  /** The put has reached the keydir. */
  function WhenCopied(): State {
    WhenWritten().(keydir := map[KEY := Loc(1, 0)], writers := map[0 := WIdle], published := {Loc(0, 0), Loc(1, 0)},
                   versions := map[KEY := 2])
  }

  /** The copy filled file 2, which is flushed and followed by file 3. */
  function WhenRotated(): State {
    var c := WhenCopied();
    c.(files := c.files[3 := []], visible := map[0 := 1, 1 := 1, 2 := 1, 3 := 0], linked := {0, 1, 2, 3}, nextId := 4,
       merge := On({0}, Drain(false), [], 3, {2, 3}, 3, c.merge.pending, 0, [0]))
  }

  /** The repoint has lost its compare-and-swap. */
  function WhenSwapped(): State {
    WhenRotated().(merge := WhenRotated().merge.(pending := []))
  }

  /** The inputs may go. */
  function WhenDrained(): State {
    WhenSwapped().(merge := WhenSwapped().merge.(phase := Unlink))
  }

  /** The merge is over. */
  function WhenOver(): State {
    var d := WhenDrained();
    d.(files := d.files[4 := []], visible := d.visible[4 := 0], linked := {1, 2, 3, 4}, active := 4, nextId := 5,
       merge := Off)
  }

  lemma ToStored() returns (states: seq<State>, events: seq<Event>)
    ensures FromNothing(states, events) && states[|states| - 1] == WhenStored()
  {
    hide IsPath, IsStep;
    states, events := [WhenOpened()], [];
    OneState(WhenOpened());
    FirstPut();
    FirstInsert();
    states, events := PathSnoc(states, events, Work(PutAppend(0, KEY, OLD)), WhenAppended());
    states, events := PathSnoc(states, events, Work(PutInsert(0)), WhenStored());
  }

  lemma OneState(s: State)
    ensures IsPath([s], [])
  {
  }

  lemma FirstPut()
    ensures IsStep(WhenOpened(), Work(PutAppend(0, KEY, OLD)), WhenAppended())
  {
    var s, s' := WhenOpened(), WhenAppended();
    var r := Rec(KEY, Some(OLD));
    Sizes();
    assert Fills(s, r);
    assert s.files[0] + [r] == [r];
    var n := Appended(s, r, true);
    assert n.files == s'.files && n.visible == s'.visible && n.linked == s'.linked;
  }

  lemma FirstInsert()
    ensures IsStep(WhenAppended(), Work(PutInsert(0)), WhenStored())
  {
    hide MergeNext;
  }

  lemma ToRacing() returns (states: seq<State>, events: seq<Event>)
    ensures FromNothing(states, events) && states[|states| - 1] == WhenRacing()
  {
    hide IsPath, IsStep;
    states, events := ToStored();
    StartStep();
    RacingPut();
    states, events := PathSnoc(states, events, Work(MergeStart([0], 1)), WhenStarted());
    states, events := PathSnoc(states, events, Work(PutAppend(0, KEY, NEW)), WhenRacing());
  }

  lemma StartStep()
    ensures IsStep(WhenStored(), Work(MergeStart([0], 1)), WhenStarted())
  {
    var g := WhenStored();
    assert [0][1..] == [];
    assert LocsOf([], g.files) == [];
    assert LocsOf([0], g.files) == [Loc(0, 0)];
    assert InputsOf(g, 1) == {0};
    assert (set f | f in [0]) == {0};
    assert g.linked + {2} == WhenStarted().linked;
  }

  lemma RacingPut()
    ensures IsStep(WhenStarted(), Work(PutAppend(0, KEY, NEW)), WhenRacing())
  {
    var s := WhenStarted();
    var r := Rec(KEY, Some(NEW));
    Sizes();
    assert !Fills(s, r);
    assert s.files[1] + [r] == [r];
    var n := Appended(s, r, false);
    assert n.files == WhenRacing().files && n.visible == WhenRacing().visible;
  }

  lemma CopySteps()
    ensures IsStep(WhenRacing(), Work(MergeCheck), WhenChecked())
    ensures IsStep(WhenChecked(), Work(MergeWrite), WhenWritten())
  {
    var s := WhenChecked();
    var p := Pend(KEY, Loc(0, 0), Loc(2, 0), 1);
    assert s.files[2] + [Rec(KEY, Some(OLD))] == [Rec(KEY, Some(OLD))];
    assert s.merge.todo[1..] == [] && s.merge.pending + [p] == [p];
  }

  lemma ToCopied() returns (states: seq<State>, events: seq<Event>)
    ensures FromNothing(states, events) && states[|states| - 1] == WhenCopied()
  {
    hide IsPath, IsStep;
    states, events := ToRacing();
    CopySteps();
    LateInsert();
    states, events := PathSnoc(states, events, Work(MergeCheck), WhenChecked());
    states, events := PathSnoc(states, events, Work(MergeWrite), WhenWritten());
    states, events := PathSnoc(states, events, Work(PutInsert(0)), WhenCopied());
  }

  lemma LateInsert()
    ensures IsStep(WhenWritten(), Work(PutInsert(0)), WhenCopied())
  {
    hide MergeNext;
  }

  lemma SettleStep()
    ensures IsStep(WhenCopied(), Work(MergeSettle), WhenRotated())
  {
    var s := WhenCopied();
    Sizes();
    SizeSnoc([], Rec(KEY, Some(OLD)));
    assert [] + [Rec(KEY, Some(OLD))] == s.files[2];
    assert OutputFull(s);
    assert s.linked + {3} == WhenRotated().linked && s.merge.outputs + {3} == {2, 3};
  }

  /** Nothing is left to scan; what was queued is settled. */
  function WhenScanned(phase: Phase): State {
    WhenSwapped().(merge := WhenSwapped().merge.(phase := phase))
  }

  lemma SwapStep()
    ensures IsStep(WhenRotated(), Work(MergeCas), WhenSwapped())
  {
    hide CallerStep;
    assert WhenRotated().merge.pending[1..] == [];
  }

  lemma DrainSteps()
    ensures IsStep(WhenSwapped(), Work(MergeDrained), WhenScanned(Scan))
    ensures IsStep(WhenScanned(Drain(true)), Work(MergeDrained), WhenDrained())
  {
    hide CallerStep;
  }

  lemma FinishStep()
    ensures IsStep(WhenScanned(Scan), Work(MergeFinish), WhenScanned(Drain(true)))
  {
    hide CallerStep;
    var s := WhenScanned(Scan);
    assert s.visible[3 := 0] == s.visible;
  }

  lemma ToDrained() returns (states: seq<State>, events: seq<Event>)
    ensures FromNothing(states, events) && states[|states| - 1] == WhenDrained()
  {
    hide IsPath, IsStep;
    states, events := ToCopied();
    SettleStep();
    SwapStep();
    DrainSteps();
    FinishStep();
    states, events := PathSnoc(states, events, Work(MergeSettle), WhenRotated());
    states, events := PathSnoc(states, events, Work(MergeCas), WhenSwapped());
    states, events := PathSnoc(states, events, Work(MergeDrained), WhenScanned(Scan));
    states, events := PathSnoc(states, events, Work(MergeFinish), WhenScanned(Drain(true)));
    states, events := PathSnoc(states, events, Work(MergeDrained), WhenDrained());
  }

  /** File 0 is gone from the directory. */
  function WhenUnlinked(): State {
    WhenDrained().(linked := {1, 2, 3}, merge := WhenDrained().merge.(phase := Forget))
  }

  function WhenForgotten(): State {
    WhenUnlinked().(merge := WhenUnlinked().merge.(phase := Unlink, left := []))
  }

  lemma RemoveSteps()
    ensures IsStep(WhenDrained(), Work(MergeUnlink), WhenUnlinked())
    ensures IsStep(WhenUnlinked(), Work(MergeForget), WhenForgotten())
  {
    hide CallerStep;
    assert WhenDrained().linked - {0} == {1, 2, 3} && WhenUnlinked().merge.left[1..] == [];
  }

  lemma RestoreStep()
    ensures IsStep(WhenForgotten(), Work(MergeRestore), WhenOver())
  {
    hide CallerStep;
    assert WhenForgotten().linked + {4} == WhenOver().linked;
  }

  lemma ToOver() returns (states: seq<State>, events: seq<Event>)
    ensures FromNothing(states, events) && states[|states| - 1] == WhenOver()
  {
    hide IsPath, IsStep;
    states, events := ToDrained();
    RemoveSteps();
    RestoreStep();
    states, events := PathSnoc(states, events, Work(MergeUnlink), WhenUnlinked());
    states, events := PathSnoc(states, events, Work(MergeForget), WhenForgotten());
    states, events := PathSnoc(states, events, Work(MergeRestore), WhenOver());
  }

  /** The documented gap is real: a put that reaches the active file while a merge is copying its
      key's old value survives in the keydir and is undone by the next recovery, with nothing
      left in flight and no crash needed: it is one instance of what `MergeExact` says of all such writes. */
  lemma GapIsReal() returns (states: seq<State>, events: seq<Event>)
    ensures IsRun(states, events) && |states| > 0
    ensures
      var s := states[|states| - 1];
      && s.merge.Off? && (forall t :: t in s.writers ==> s.writers[t].WIdle?)
      && Lookup(LiveMap(s), KEY) == Some(NEW)
      && CrashCut(s, s.visible) && AfterCrash(s, s.visible, KEY) == Some(OLD)
  {
    hide IsPath, AfterCrash, LiveMap, CrashCut, WhenOver, Inv, Opened;
    states, events := ToOver();
    NothingOpened();
    RunInv(states, events, |states| - 1);
    OverIsQuiet();
    OverReopens();
  }

  lemma NothingOpened()
    ensures Opened(WhenOpened())
  {
    assert ScanFiles(map[0 := []], 0) == map[];
  }

  lemma OverIsQuiet()
    ensures WhenOver().merge.Off? && forall t :: t in WhenOver().writers ==> WhenOver().writers[t].WIdle?
    ensures CrashCut(WhenOver(), WhenOver().visible)
  {
  }

  lemma OverReopens()
    requires Inv(WhenOver())
    ensures AfterCrash(WhenOver(), WhenOver().visible, KEY) == Some(OLD)
    ensures Lookup(LiveMap(WhenOver()), KEY) == Some(NEW)
  {
    hide AfterCrash, Inv;
    var s := WhenOver();
    assert At(s, Loc(2, 0)) == Rec(KEY, Some(OLD)) && At(s, Loc(1, 0)) == Rec(KEY, Some(NEW)) && OLD != NEW;
    assert Tops(s, KEY, Loc(2, 0));
    InvFiles(s);
    ToppedReopens(s, s.visible, KEY, Loc(2, 0));
  }
}
