/** What one put, delete, get or merge comes to, whatever is interleaved with it. */
module MergeOperations {
  import opened Bytes
  import opened Format
  import opened Index
  import opened Recovery
  import opened MergeWriter
  import opened MergeProtocol
  import opened MergeSession
  import opened MergeInterleavings

  /** No crash between states `i` and `j`. */
  ghost predicate Within(states: seq<State>, events: seq<Event>, i: nat, j: nat) {
    IsRun(states, events) && i <= j < |states| && forall m :: i <= m < j ==> events[m].Work?
  }

  lemma WithinStep(states: seq<State>, events: seq<Event>, i: nat, j: nat)
    requires Within(states, events, i, j) && i < j
    ensures j <= |events| && Inv(states[j - 1]) && events[j - 1].Work? && Enabled(states[j - 1], events[j - 1].action)
    ensures states[j] == Step(states[j - 1], events[j - 1].action) && Within(states, events, i, j - 1)
  {
    hide Inv, Step, Enabled;
    RunInv(states, events, j - 1);
    assert IsStep(states[j - 1], events[j - 1], states[j]);
  }

  /** The step is a get's of thread `t`. */
  predicate GetsBy(a: Action, t: Tid) {
    (a.GetLookup? || a.GetFetch? || a.GetRead?) && a.t == t
  }

  /** The step is a put's or a delete's of thread `t`. */
  predicate WritesBy(a: Action, t: Tid) {
    (a.PutAppend? || a.PutInsert? || a.DelCheck? || a.DelAppend? || a.DelRemove?) && a.t == t
  }

  /** Only its own steps move a get, and only its own steps move a put or a delete. */
  lemma OthersWait(s: State, a: Action, t: Tid)
    requires Enabled(s, a)
    ensures t in s.readers && !GetsBy(a, t) ==> t in Step(s, a).readers && Step(s, a).readers[t] == s.readers[t]
    ensures t in s.writers && !WritesBy(a, t) ==> t in Step(s, a).writers && Step(s, a).writers[t] == s.writers[t]
  {
    if MergeStep(a) {
      MergeLeaves(s, a);
    } else {
      CallerWaits(s, a, t);
    }
  }

  /** The merge is on, with the same inputs. */
  predicate SameInputs(s: State, s': State) {
    s'.merge.On? && s.merge.On? && s'.merge.inputs == s.merge.inputs
  }

  /** What a step of a merge has no business with. */
  predicate CallersLeft(s: State, s': State) {
    s'.writers == s.writers && s'.readers == s.readers && s'.limit == s.limit
  }

  lemma StartLeaves(s: State, ids: seq<nat>, bound: nat)
    ensures CallersLeft(s, Started(s, ids, bound)) && s.linked <= Started(s, ids, bound).linked
  {
    hide LocsOf, InputsOf;
  }

  lemma CopyLeaves(s: State)
    requires Enabled(s, MergeWrite)
    ensures
      var s' := Copied(s, s.merge, s.merge.todo[0], s.merge.phase.version);
      CallersLeft(s, s') && s'.linked == s.linked && SameInputs(s, s')
  {
    hide At, HasRec;
  }

  lemma SettleLeaves(s: State, rotate: bool)
    requires s.merge.On? && s.merge.cur in s.files
    ensures CallersLeft(s, Settled(s, s.merge, rotate)) && s.linked <= Settled(s, s.merge, rotate).linked
    ensures SameInputs(s, Settled(s, s.merge, rotate))
  {
  }

  lemma SwappedLeaves(s: State)
    requires s.merge.On? && s.merge.pending != []
    ensures CallersLeft(s, Swapped(s, s.merge)) && Swapped(s, s.merge).linked == s.linked
    ensures SameInputs(s, Swapped(s, s.merge))
  {
  }

  lemma RestoreLeaves(s: State, highest: nat)
    ensures CallersLeft(s, Restored(s, highest)) && s.linked <= Restored(s, highest).linked
  {
  }

  lemma MergeLeaves(s: State, a: Action)
    requires Enabled(s, a) && MergeStep(a)
    ensures CallersLeft(s, Step(s, a)) && (a != MergeUnlink ==> s.linked <= Step(s, a).linked)
  {
    hide Checked, CallerStep, At, Started, Copied, Settled, Swapped, Restored, OutputFull;
    match a
    case MergeStart(ids, bound) => StartLeaves(s, ids, bound);
    case MergeWrite => CopyLeaves(s);
    case MergeSettle => SettleLeaves(s, OutputFull(s));
    case MergeCas => SwappedLeaves(s);
    case MergeRestore => RestoreLeaves(s, s.merge.highest);
    case _ =>
  }

  lemma AppendLeaves(s: State, r: Rec, rotate: bool)
    requires s.active in s.files && s.active in s.visible
    ensures
      var s' := Appended(s, r, rotate);
      && s'.readers == s.readers && s'.writers == s.writers && s'.merge == s.merge && s'.limit == s.limit
      && s.linked <= s'.linked
  {
  }

  /** A step of a put, a delete or a get moves its own thread only, and has nothing to do with the merge. */
  lemma CallerLeaves(s: State, a: Action)
    requires Enabled(s, a) && !MergeStep(a)
    ensures s.linked <= Step(s, a).linked && Step(s, a).merge == s.merge && Step(s, a).limit == s.limit
  {
    hide LookedUp, ReadBack, Fills, MergeNext, Appended;
    if a.PutAppend? {
      var r := Rec(a.key, Some(a.value));
      AppendLeaves(s, r, Fills(s, r));
    } else if a.DelAppend? {
      var r := Rec(s.writers[a.t].key, None);
      AppendLeaves(s, r, Fills(s, r));
    }
  }

  lemma CallerWaits(s: State, a: Action, t: Tid)
    requires Enabled(s, a) && !MergeStep(a)
    ensures t in s.readers && !GetsBy(a, t) ==> t in Step(s, a).readers && Step(s, a).readers[t] == s.readers[t]
    ensures t in s.writers && !WritesBy(a, t) ==> t in Step(s, a).writers && Step(s, a).writers[t] == s.writers[t]
  {
    hide LookedUp, ReadBack, Fills, MergeNext, Appended;
    if a.PutAppend? {
      var r := Rec(a.key, Some(a.value));
      AppendLeaves(s, r, Fills(s, r));
    } else if a.DelAppend? {
      var r := Rec(s.writers[a.t].key, None);
      AppendLeaves(s, r, Fills(s, r));
    }
  }

  // --- Nobody waits -----------------------------------------------------------------------------

  /** The next step of a get can be taken at once, whatever others are doing. */
  lemma GetsGoOn(s: State, t: Tid, k: Key)
    requires t in s.readers
    ensures s.readers[t].Looked? ==> Enabled(s, GetFetch(t))
    ensures s.readers[t].Holding? ==> Enabled(s, GetRead(t))
    ensures !s.readers[t].Looked? && !s.readers[t].Holding? ==> Enabled(s, GetLookup(t, k))
  {
  }

  /** So can that of a put and of a delete. */
  lemma WritesGoOn(s: State, t: Tid, k: Key, v: Value)
    requires Inv(s) && t in s.writers
    ensures s.writers[t].WIdle? ==> Enabled(s, PutAppend(t, k, v)) && Enabled(s, DelCheck(t, k))
    ensures s.writers[t].PutAppended? ==> Enabled(s, PutInsert(t))
    ensures s.writers[t].DelChecked? ==> Enabled(s, DelAppend(t))
    ensures s.writers[t].DelAppended? ==> Enabled(s, DelRemove(t))
  {
    hide Inv, FilesOk;
    FilesFacts(s);
    ActiveThere(s);
  }

  lemma ActiveThere(s: State)
    requires FilesOk(s)
    ensures s.active in s.files && s.active in s.visible
  {
  }

  /** The elements, smallest first. */
  lemma {:induction false} Sorted(ids: set<nat>) returns (s: seq<nat>)
    ensures Ascending(s) && forall id :: id in s <==> id in ids
    decreases ids
  {
    if ids == {} {
      s := [];
    } else {
      var m := MinExists(ids);
      var rest := Sorted(ids - {m});
      s := [m] + rest;
      forall i, j | 0 <= i < j < |s|
        ensures s[i] < s[j]
      {
        assert s[j] in rest;
        if i > 0 {
          assert rest[i - 1] < rest[j - 1];
        }
      }
    }
  }

  /** A merge can start whenever none is on and some file is older than the active one. */
  lemma MergeCanStart(s: State, f: nat) returns (ids: seq<nat>)
    requires s.merge.Off? && f in s.linked && f < s.active
    ensures Enabled(s, MergeStart(ids, s.active))
  {
    ids := Sorted(InputsOf(s, s.active));
    assert f in InputsOf(s, s.active);
    assert (set x | x in ids) == InputsOf(s, s.active);
  }

  // --- Gets -----------------------------------------------------------------------------------

  /** A lookup finds the key's value, or that there is none. */
  lemma LookupExactly(s: State, t: Tid, k: Key)
    requires Inv(s) && Enabled(s, GetLookup(t, k))
    ensures t in Step(s, GetLookup(t, k)).readers
    ensures
      var r := Step(s, GetLookup(t, k)).readers[t];
      && (k in View(s) <==> r.Looked?) && (k !in View(s) <==> r.Missed?)
      && (r.Looked? ==> r.loc == s.keydir[k] && r.loc.file in s.linked && View(s)[k] == Some(r.seen))
  {
    hide Inv, MergeNext, Appended, ReadBack;
    if k in s.keydir {
      PointerGood(s, k);
    }
  }

  /** A fetch fails if and only if the file is neither cached nor in the directory any more; what is opened is
      cached, and nothing else changes. */
  lemma FetchExactly(s: State, t: Tid)
    requires Inv(s) && Enabled(s, GetFetch(t))
    ensures t in s.readers && s.readers[t].Looked?
    ensures
      var s', f, r := Step(s, GetFetch(t)), s.readers[t].loc.file, s.readers[t];
      && t in s'.readers
      && (s'.readers[t] == Holding(r.loc, r.seen) <==> f in s.handles || f in s.linked)
      && (s'.readers[t] == IoFailed <==> f !in s.handles && f !in s.linked)
      && (f in s'.handles <==> f in s.handles || f in s.linked)
      && s' == s.(readers := s'.readers, handles := s'.handles)
  {
    hide Inv, MergeNext, Appended, ReadBack;
  }

  /** Once it has the handle a get cannot fail, even if the file has been removed. */
  lemma ReadExactly(s: State, t: Tid)
    requires Inv(s) && Enabled(s, GetRead(t))
    ensures t in Step(s, GetRead(t)).readers
    ensures Step(s, GetRead(t)).readers[t] == Answered(s.readers[t].seen, s.readers[t].seen)
  {
    hide Inv, MergeNext, Appended, LookedUp;
    GetFacts(s, t);
  }

  /** No removal of an input between states `i` and `j`. */
  predicate NoUnlink(events: seq<Event>, i: nat, j: nat) {
    j <= |events| && forall m :: i <= m < j ==> events[m] != Work(MergeUnlink)
  }

  /** No step of a get of thread `t` between. */
  predicate NoGet(events: seq<Event>, i: nat, j: nat, t: Tid) {
    j <= |events| && forall m :: i <= m < j ==> events[m].Work? ==> !GetsBy(events[m].action, t)
  }

  lemma LinkedStays(s: State, a: Action)
    requires Enabled(s, a) && a != MergeUnlink
    ensures s.linked <= Step(s, a).linked
  {
    if MergeStep(a) {
      MergeLeaves(s, a);
    } else {
      CallerLeaves(s, a);
    }
  }

  lemma {:induction false} GetWaits(states: seq<State>, events: seq<Event>, i: nat, j: nat, t: Tid)
    requires Within(states, events, i, j) && NoGet(events, i, j, t) && t in states[i].readers
    ensures t in states[j].readers && states[j].readers[t] == states[i].readers[t]
  {
    hide Step, Enabled, Inv, IsRun;
    if i < j {
      WithinStep(states, events, i, j);
      GetWaits(states, events, i, j - 1, t);
      OthersWait(states[j - 1], events[j - 1].action, t);
    }
  }

  lemma {:induction false} LinkedWithin(states: seq<State>, events: seq<Event>, i: nat, j: nat)
    requires Within(states, events, i, j) && NoUnlink(events, i, j)
    ensures states[i].linked <= states[j].linked
  {
    hide Step, Enabled, Inv, IsRun;
    if i < j {
      WithinStep(states, events, i, j);
      LinkedWithin(states, events, i, j - 1);
      LinkedStays(states[j - 1], events[j - 1].action);
    }
  }

  /** A get that looks a key up by step `i`, fetches the handle by step `j` and reads by step `m`, with no input
      removed between the first two, answers with the value the key had at the lookup. */
  lemma GetSucceeds(states: seq<State>, events: seq<Event>, i: nat, j: nat, m: nat, t: Tid, k: Key)
    requires Within(states, events, i, m + 1) && i < j < m
    requires events[i] == Work(GetLookup(t, k)) && events[j] == Work(GetFetch(t)) && events[m] == Work(GetRead(t))
    requires NoGet(events, i + 1, j, t) && NoGet(events, j + 1, m, t) && NoUnlink(events, i, j)
    ensures t in states[m + 1].readers && states[m + 1].readers[t].Answered?
    ensures k in View(states[i]) && View(states[i])[k] == Some(states[m + 1].readers[t].got)
  {
    hide Step, Enabled, Inv, IsRun, View;
    WithinStep(states, events, i, i + 1);
    LookupExactly(states[i], t, k);
    GetWaits(states, events, i + 1, j, t);
    LinkedWithin(states, events, i, j);
    WithinStep(states, events, i, j + 1);
    FetchExactly(states[j], t);
    GetWaits(states, events, j + 1, m, t);
    WithinStep(states, events, i, m + 1);
    ReadExactly(states[m], t);
  }

  // --- Puts and deletes -------------------------------------------------------------------------

  /** The record is at the end of the active file, flushed; a new active file is begun exactly if that one is full. */
  predicate AppendedRec(s: State, s': State, r: Rec) {
    && s.active in s.files && s.active in s'.files && s'.files[s.active] == s.files[s.active] + [r]
    && s.active in s'.visible && s'.visible[s.active] == |s'.files[s.active]|
    && (forall f :: f in s.files && f != s.active ==> f in s'.files && s'.files[f] == s.files[f])
    && (s'.active != s.active <==> SizeOf(s', s.active) >= s.limit)
    && s'.files.Keys == s.files.Keys + (if s'.active != s.active then {s'.active} else {})
    && s'.linked == s.linked + (if s'.active != s.active then {s'.active} else {})
    && (s'.active != s.active ==> s'.active == s.nextId && s'.files[s'.active] == [])
    && s'.keydir == s.keydir && s'.merge == s.merge
  }

  lemma AppendExactly(s: State, r: Rec)
    requires FilesOk(s)
    ensures s.active in s.files && s.active in s.visible && AppendedRec(s, Appended(s, r, Fills(s, r)), r)
  {
    SizeSnoc(s.files[s.active], r);
    assert s.active != s.nextId && s.nextId !in s.files;
  }

  /** A put's append: its record and nothing else. */
  lemma PutAppendExactly(s: State, t: Tid, k: Key, v: Value)
    requires Inv(s) && Enabled(s, PutAppend(t, k, v))
    ensures
      var s' := Step(s, PutAppend(t, k, v));
      && AppendedRec(s, s', Rec(k, Some(v))) && t in s'.writers
      && s'.writers[t] == PutAppended(k, Loc(s.active, |s.files[s.active]|))
  {
    hide Inv, MergeNext, Appended, FilesOk, Fills;
    FilesFacts(s);
    AppendExactly(s, Rec(k, Some(v)));
  }

  /** A delete finds out first whether the key is there: if not, it is over and has changed nothing. */
  lemma DelCheckExactly(s: State, t: Tid, k: Key)
    requires Inv(s) && Enabled(s, DelCheck(t, k))
    ensures
      var s' := Step(s, DelCheck(t, k));
      && t in s'.writers && s' == s.(writers := s'.writers)
      && (k !in View(s) <==> s'.writers[t] == WIdle) && (k in View(s) <==> s'.writers[t] == DelChecked(k))
  {
    hide Inv, MergeNext, Appended;
  }

  /** If it is, a tombstone of it is appended, and nothing else. */
  lemma DelAppendExactly(s: State, t: Tid)
    requires Inv(s) && Enabled(s, DelAppend(t))
    ensures t in s.writers && s.writers[t].DelChecked?
    ensures
      var s', k := Step(s, DelAppend(t)), s.writers[t].key;
      AppendedRec(s, s', Rec(k, None)) && t in s'.writers && s'.writers[t] == DelAppended(k)
  {
    hide Inv, MergeNext, Appended, FilesOk, Fills;
    FilesFacts(s);
    AppendExactly(s, Rec(s.writers[t].key, None));
  }

  /** No step of a put or a delete of thread `t` between. */
  predicate NoWrite(events: seq<Event>, i: nat, j: nat, t: Tid) {
    j <= |events| && forall m :: i <= m < j ==> events[m].Work? ==> !WritesBy(events[m].action, t)
  }

  lemma {:induction false} WriteWaits(states: seq<State>, events: seq<Event>, i: nat, j: nat, t: Tid)
    requires Within(states, events, i, j) && NoWrite(events, i, j, t) && t in states[i].writers
    ensures t in states[j].writers && states[j].writers[t] == states[i].writers[t]
  {
    hide Step, Enabled, Inv, IsRun;
    if i < j {
      WithinStep(states, events, i, j);
      WriteWaits(states, events, i, j - 1, t);
      OthersWait(states[j - 1], events[j - 1].action, t);
    }
  }

  lemma {:induction false} RecordStays(states: seq<State>, events: seq<Event>, i: nat, j: nat, l: Loc)
    requires Within(states, events, i, j) && HasRec(states[i], l)
    ensures HasRec(states[j], l) && At(states[j], l) == At(states[i], l)
  {
    hide Step, Enabled, Inv, IsRun, HasRec, At, FilesOk, Grows;
    if i < j {
      WithinStep(states, events, i, j);
      RecordStays(states, events, i, j - 1, l);
      FilesFacts(states[j - 1]);
      StepGrows(states[j - 1], events[j - 1].action);
      GrowsHas(states[j - 1], states[j]);
    }
  }

  /** A put, appended by step `i` and inserted by step `j`, is what every get sees from then on until the next write. */
  lemma PutIsSeen(states: seq<State>, events: seq<Event>, i: nat, j: nat, t: Tid, k: Key, v: Value)
    requires Within(states, events, i, j + 1) && i < j
    requires events[i] == Work(PutAppend(t, k, v)) && events[j] == Work(PutInsert(t)) && NoWrite(events, i + 1, j, t)
    ensures View(states[j + 1]) == View(states[j])[k := Some(v)]
    ensures t in states[j + 1].writers && states[j + 1].writers[t] == WIdle
  {
    hide Step, Enabled, Inv, IsRun, View, AppendedRec;
    WithinStep(states, events, i, i + 1);
    PutAppendExactly(states[i], t, k, v);
    AppendedAt(states[i], states[i + 1], Rec(k, Some(v)));
    var l := Loc(states[i].active, |states[i].files[states[i].active]|);
    WriteWaits(states, events, i + 1, j, t);
    RecordStays(states, events, i + 1, j, l);
    WithinStep(states, events, i, j + 1);
    StepView(states[j], PutInsert(t));
    Idles(states[j], PutInsert(t));
  }

  /** The last step of a put or a delete is the last. */
  lemma Idles(s: State, a: Action)
    requires Enabled(s, a) && (a.PutInsert? || a.DelRemove?)
    ensures a.t in Step(s, a).writers && Step(s, a).writers[a.t] == WIdle
  {
    hide MergeNext, Appended;
  }

  lemma AppendedAt(s: State, s': State, r: Rec)
    requires AppendedRec(s, s', r)
    ensures s.active in s.files
    ensures var l := Loc(s.active, |s.files[s.active]|); HasRec(s', l) && At(s', l) == r && !HasRec(s, l)
  {
  }

  /** A delete that found its key by step `i`, with its tombstone appended by step `j` and its removal by step `m`:
      the key is gone, and no other. */
  lemma DeleteIsSeen(states: seq<State>, events: seq<Event>, i: nat, j: nat, m: nat, t: Tid, k: Key)
    requires Within(states, events, i, m + 1) && i < j < m && events[i] == Work(DelCheck(t, k))
    requires events[j] == Work(DelAppend(t)) && events[m] == Work(DelRemove(t))
    requires NoWrite(events, i + 1, j, t) && NoWrite(events, j + 1, m, t)
    ensures k in View(states[i]) && AppendedRec(states[j], states[j + 1], Rec(k, None))
    ensures View(states[m + 1]) == View(states[m]) - {k}
    ensures t in states[m + 1].writers && states[m + 1].writers[t] == WIdle
  {
    hide Step, Enabled, Inv, IsRun, View, AppendedRec;
    WithinStep(states, events, i, i + 1);
    DelCheckExactly(states[i], t, k);
    WriteWaits(states, events, i + 1, j, t);
    WithinStep(states, events, i, j + 1);
    DelAppendExactly(states[j], t);
    WriteWaits(states, events, j + 1, m, t);
    WithinStep(states, events, i, m + 1);
    StepView(states[m], DelRemove(t));
    Idles(states[m], DelRemove(t));
  }

  // --- The newest record of a key -----------------------------------------------------------------

  /** The key of the record the step adds, if it adds one. */
  function Adds(s: State, a: Action): Option<Key>
    requires Enabled(s, a)
  {
    match a
    case PutAppend(_, k, _) => Some(k)
    case DelAppend(t) => Some(s.writers[t].key)
    case MergeWrite => Some(At(s, s.merge.todo[0]).key)
    case _ => None
  }

  /** At most one record is added, of key `k`; a new file has none. */
  ghost predicate OnlyAdds(s: State, s': State, k: Option<Key>) {
    && (forall l :: HasRec(s', l) ==> HasRec(s, l) || k == Some(At(s', l).key))
    && (forall f :: f in s'.linked ==> f in s.linked || f !in s.files)
  }

  lemma AppendAdds(s: State, s': State, r: Rec)
    requires FilesOk(s) && AppendedRec(s, s', r)
    ensures OnlyAdds(s, s', Some(r.key))
  {
    assert s.nextId !in s.files;
    forall l | HasRec(s', l)
      ensures HasRec(s, l) || At(s', l) == r
    {
      assert l.file in s.files.Keys || l.file == s'.active;
    }
  }

  lemma CopyAdds(s: State)
    requires FilesOk(s) && Enabled(s, MergeWrite)
    ensures OnlyAdds(s, Copied(s, s.merge, s.merge.todo[0], s.merge.phase.version), Some(At(s, s.merge.todo[0]).key))
  {
  }

  lemma SameFilesAdd(s: State, s': State)
    requires s'.files == s.files && s'.linked <= s.linked
    ensures OnlyAdds(s, s', None)
  {
  }

  lemma NewFileAdds(s: State, s': State)
    requires FilesOk(s) && s'.files == s.files[s.nextId := []] && s'.linked == s.linked + {s.nextId}
    ensures OnlyAdds(s, s', None)
  {
    assert s.nextId !in s.files;
  }

  lemma SettleAdds(s: State, rotate: bool)
    requires FilesOk(s) && s.merge.On? && s.merge.cur in s.files
    ensures OnlyAdds(s, Settled(s, s.merge, rotate), None)
  {
    var s' := Settled(s, s.merge, rotate);
    hide OnlyAdds, FilesOk;
    if rotate {
      NewFileAdds(s, s');
    } else {
      SameFilesAdd(s, s');
    }
  }

  lemma RestoreAdds(s: State, highest: nat)
    requires FilesOk(s)
    ensures OnlyAdds(s, Restored(s, highest), None)
  {
    var s' := Restored(s, highest);
    hide OnlyAdds, FilesOk;
    if s.active <= highest {
      NewFileAdds(s, s');
    } else {
      SameFilesAdd(s, s');
    }
  }

  lemma StartAdds(s: State, ids: seq<nat>, bound: nat)
    requires FilesOk(s)
    ensures OnlyAdds(s, Started(s, ids, bound), None)
  {
    hide OnlyAdds, FilesOk, LocsOf, InputsOf;
    NewFileAdds(s, Started(s, ids, bound));
  }

  lemma StepAdds(s: State, a: Action)
    requires Inv(s) && Enabled(s, a)
    ensures OnlyAdds(s, Step(s, a), Adds(s, a))
  {
    hide Inv, OnlyAdds, FilesOk;
    FilesFacts(s);
    if MergeStep(a) {
      MergeAdds(s, a);
    } else if a.PutAppend? {
      PutAppendExactly(s, a.t, a.key, a.value);
      AppendAdds(s, Step(s, a), Rec(a.key, Some(a.value)));
    } else if a.DelAppend? {
      DelAppendExactly(s, a.t);
      AppendAdds(s, Step(s, a), Rec(s.writers[a.t].key, None));
    } else {
      SameFilesAdd(s, Step(s, a));
    }
  }

  lemma MergeAdds(s: State, a: Action)
    requires FilesOk(s) && Enabled(s, a) && MergeStep(a)
    ensures OnlyAdds(s, Step(s, a), Adds(s, a))
  {
    hide OnlyAdds, FilesOk, Checked, CallerStep, Started, Copied, Settled, Swapped, Restored, OutputFull;
    if a.MergeStart? {
      StartAdds(s, a.ids, a.bound);
    } else if a.MergeWrite? {
      CopyAdds(s);
    } else if a.MergeSettle? {
      SettleAdds(s, OutputFull(s));
    } else if a.MergeRestore? {
      RestoreAdds(s, s.merge.highest);
    } else {
      if a.MergeCas? {
        SwapFiles(s);
      }
      SameFilesAdd(s, Step(s, a));
    }
  }

  lemma SwapFiles(s: State)
    requires s.merge.On? && s.merge.pending != []
    ensures Swapped(s, s.merge).files == s.files && Swapped(s, s.merge).linked == s.linked
  {
  }

  /** No record of `k` is added between, be it a write or a copy. */
  ghost predicate NoRecord(states: seq<State>, events: seq<Event>, i: nat, j: nat, k: Key) {
    j <= |events| && j <= |states| && forall m :: i <= m < j ==>
      events[m].Work? && Enabled(states[m], events[m].action) ==> Adds(states[m], events[m].action) != Some(k)
  }

  /** No record of `k` in the directory comes after `d`. */
  ghost predicate Newest(s: State, k: Key, d: Loc) {
    forall l :: HasRec(s, l) && l.file in s.linked && At(s, l).key == k ==> !Before(d, l)
  }

  lemma {:induction false} NewestStays(states: seq<State>, events: seq<Event>, i: nat, j: nat, k: Key, d: Loc)
    requires Within(states, events, i, j) && NoRecord(states, events, i, j, k) && Newest(states[i], k, d)
    ensures Newest(states[j], k, d)
  {
    hide Step, Enabled, Inv, IsRun, HasRec, At, FilesOk, Grows, Before, Adds;
    if i < j {
      WithinStep(states, events, i, j);
      NewestStays(states, events, i, j - 1, k, d);
      FilesFacts(states[j - 1]);
      StepAdds(states[j - 1], events[j - 1].action);
      StepGrows(states[j - 1], events[j - 1].action);
      GrowsHas(states[j - 1], states[j]);
      NewestStep(states[j - 1], states[j], Adds(states[j - 1], events[j - 1].action), k, d);
    }
  }

  lemma NewestStep(s: State, s': State, added: Option<Key>, k: Key, d: Loc)
    requires Newest(s, k, d) && OnlyAdds(s, s', added) && added != Some(k)
    requires forall l :: HasRec(s, l) ==> HasRec(s', l) && At(s', l) == At(s, l)
    ensures Newest(s', k, d)
  {
    hide Before, At;
    forall l | HasRec(s', l) && l.file in s'.linked && At(s', l).key == k
      ensures !Before(d, l)
    {
      assert HasRec(s, l);
    }
  }

  /** With no copy of `k` above the active file when the tombstone is appended, and no other record of `k` added
      until the removal, the tombstone is still the newest record of `k`: the next recovery does not find it. */
  lemma DeleteIsNewest(states: seq<State>, events: seq<Event>, i: nat, j: nat, m: nat, t: Tid, k: Key)
    requires Within(states, events, i, m + 1) && i < j < m && events[i] == Work(DelCheck(t, k))
    requires events[j] == Work(DelAppend(t)) && events[m] == Work(DelRemove(t))
    requires NoWrite(events, i + 1, j, t) && NoWrite(events, j + 1, m, t) && NoRecord(states, events, j + 1, m + 1, k)
    requires forall l :: HasRec(states[j], l) && l.file in states[j].linked && At(states[j], l).key == k ==>
      l.file <= states[j].active
    ensures states[j].active in states[j].files
    ensures
      var d := Loc(states[j].active, |states[j].files[states[j].active]|);
      HasRec(states[m + 1], d) && At(states[m + 1], d) == Rec(k, None) && Newest(states[m + 1], k, d)
  {
    hide Step, Enabled, Inv, IsRun, View, AppendedRec, Newest, HasRec, At, Adds, Before;
    DeleteIsSeen(states, events, i, j, m, t, k);
    WithinStep(states, events, i, j + 1);
    FilesFacts(states[j]);
    AppendedAt(states[j], states[j + 1], Rec(k, None));
    var d := Loc(states[j].active, |states[j].files[states[j].active]|);
    AppendedNewest(states[j], states[j + 1], k);
    NewestStays(states, events, j + 1, m + 1, k, d);
    RecordStays(states, events, j + 1, m + 1, d);
  }

  lemma AppendedNewest(s: State, s': State, k: Key)
    requires FilesOk(s) && AppendedRec(s, s', Rec(k, None))
    requires forall l :: HasRec(s, l) && l.file in s.linked && At(s, l).key == k ==> l.file <= s.active
    ensures s.active in s.files && Newest(s', k, Loc(s.active, |s.files[s.active]|))
  {
    assert s.nextId !in s.files;
    forall l | HasRec(s', l) && l.file in s'.linked && At(s', l).key == k
      ensures !Before(Loc(s.active, |s.files[s.active]|), l)
    {
      if l.file != s.active && l.file != s'.active {
        assert HasRec(s, l) && At(s, l) == At(s', l) && l.file in s.linked;
      }
    }
  }

  // --- Merges -------------------------------------------------------------------------------------

  /** After a copy the output is rotated if and only if it is full, and flushed if and only if it is full or a
      batch is queued; only then is the queue drained. */
  lemma SettleExactly(s: State)
    requires Inv(s) && Enabled(s, MergeSettle)
    ensures
      var s', c := Step(s, MergeSettle), s.merge.cur;
      var full := SizeOf(s, c) >= s.limit;
      && s'.merge.On? && (s'.merge.cur != c <==> full)
      && (full ==> s'.merge.cur == s.nextId && s'.merge.cur in s'.files && s'.files[s'.merge.cur] == []
                   && s'.merge.outputs == s.merge.outputs + {s'.merge.cur})
      && c in s'.visible && (full || |s.merge.pending| >= MERGE_FLUSH_BATCH_SIZE ==> s'.visible[c] == |s.files[c]|)
      && (s'.merge.phase == Drain(false) <==> full || |s.merge.pending| >= MERGE_FLUSH_BATCH_SIZE)
      && (s'.merge.phase == Scan <==> !full && |s.merge.pending| < MERGE_FLUSH_BATCH_SIZE)
      && (s'.merge.phase == Scan ==> s'.visible == s.visible)
      && s'.merge.pending == s.merge.pending && s'.merge.todo == s.merge.todo
  {
    hide KeydirOk, PublishedOk, WritersOk, ReadersOk, PendingOk, CoverOk, LeftOk, HandlesOk, FileSize, CallerStep;
  }

  /** The last step starts a new active file if and only if some output is newer than the active one. */
  lemma RestoreExactly(s: State)
    requires Inv(s) && Enabled(s, MergeRestore)
    ensures
      var s' := Step(s, MergeRestore);
      && s'.merge == Off
      && (s'.active != s.active <==> exists o :: o in s.merge.outputs && o > s.active)
      && (s'.active == s.active ==> s' == s.(merge := Off))
      && (s'.active != s.active ==> s'.active == s.nextId && s'.active in s'.files && s'.files[s'.active] == [])
  {
    hide KeydirOk, PublishedOk, WritersOk, ReadersOk, PendingOk, CoverOk, LeftOk, HandlesOk, BatchOk, CallerStep;
  }

  /** Merge goes through its inputs in the order of the files and of the records in each. */
  lemma {:induction false} ScanInOrder(ids: seq<nat>, files: map<nat, seq<Rec>>, i: nat, j: nat)
    requires Ascending(ids) && i < j < |LocsOf(ids, files)|
    ensures Before(LocsOf(ids, files)[i], LocsOf(ids, files)[j])
  {
    if ids != [] {
      var f := ids[0];
      var own := if f in files then seq(|files[f]|, i requires 0 <= i < |files[f]| => Loc(f, i)) else [];
      var rest := LocsOf(ids[1..], files);
      assert LocsOf(ids, files) == own + rest;
      if i >= |own| {
        ScanInOrder(ids[1..], files, i - |own|, j - |own|);
      } else if j >= |own| {
        LocsOfFacts(ids[1..], files);
        assert rest[j - |own|] in rest;
      }
    }
  }

  /** While it is on, a merge keeps its inputs, and takes no other file away. */
  lemma MergeGoesOn(s: State, a: Action)
    requires Inv(s) && s.merge.On? && Enabled(s, a) && a != MergeRestore
    ensures Step(s, a).merge.On? && Step(s, a).merge.inputs == s.merge.inputs
    ensures forall f :: f in s.linked && f !in s.merge.inputs ==> f in Step(s, a).linked
  {
    hide Inv;
    if a == MergeUnlink {
      UnlinksInput(s);
    } else {
      LinkedStays(s, a);
      if MergeStep(a) {
        MergeKeepsInputs(s, a);
      } else {
        CallerLeaves(s, a);
      }
    }
  }

  lemma UnlinksInput(s: State)
    requires Inv(s) && Enabled(s, MergeUnlink)
    ensures Step(s, MergeUnlink).merge.On? && Step(s, MergeUnlink).merge.inputs == s.merge.inputs
    ensures forall f :: f in s.linked && f !in s.merge.inputs ==> f in Step(s, MergeUnlink).linked
  {
    hide KeydirOk, PublishedOk, WritersOk, ReadersOk, PendingOk, CoverOk, FilesOk, InputsOk, BatchOk, CallerStep;
  }

  lemma CheckedInputs(s: State, m: Merge, l: Loc)
    requires m.On? && m.todo != [] && HasRec(s, l)
    ensures Checked(s, m, l).On? && Checked(s, m, l).inputs == m.inputs
  {
  }

  lemma MergeKeepsInputs(s: State, a: Action)
    requires Enabled(s, a) && MergeStep(a) && s.merge.On? && a != MergeRestore
    ensures Step(s, a).merge.On? && Step(s, a).merge.inputs == s.merge.inputs
  {
    hide CallerStep, Checked, Copied, Settled, Swapped, Started, OutputFull, HasRec;
    match a
    case MergeCheck => CheckedInputs(s, s.merge, s.merge.todo[0]);
    case MergeWrite => CopyLeaves(s);
    case MergeSettle => SettleLeaves(s, OutputFull(s));
    case MergeCas => SwappedLeaves(s);
    case _ =>
  }

  lemma {:induction false} MergeWithin(states: seq<State>, events: seq<Event>, i: nat, j: nat, ids: seq<nat>,
                                       bound: nat)
    requires Within(states, events, i, j) && i < j && events[i] == Work(MergeStart(ids, bound))
    requires forall m :: i < m < j ==> events[m] != Work(MergeRestore)
    ensures states[j].merge.On? && states[j].merge.inputs == InputsOf(states[i], bound)
    ensures forall f :: f in states[i].linked && f >= bound ==> f in states[j].linked
  {
    hide Step, Enabled, Inv, IsRun, InputsOf;
    WithinStep(states, events, i, j);
    if j == i + 1 {
      LinkedStays(states[i], events[i].action);
      Starts(states[i], ids, bound);
    } else {
      MergeWithin(states, events, i, j - 1, ids, bound);
      MergeGoesOn(states[j - 1], events[j - 1].action);
      forall f | f in states[i].linked && f >= bound
        ensures f !in states[j - 1].merge.inputs
      {
        NotInput(states[i], bound, f);
      }
    }
  }

  lemma Starts(s: State, ids: seq<nat>, bound: nat)
    requires Enabled(s, MergeStart(ids, bound))
    ensures Step(s, MergeStart(ids, bound)).merge.On?
    ensures Step(s, MergeStart(ids, bound)).merge.inputs == InputsOf(s, bound)
  {
    hide InputsOf, LocsOf;
  }

  lemma NotInput(s: State, bound: nat, f: nat)
    requires f in s.linked
    ensures f in InputsOf(s, bound) <==> f < bound
  {
  }

  /** A merge that begins by step `i` and ends by step `j` has removed exactly the files below its bound, and has
      left no handle of them in the cache. */
  lemma MergeRemovesInputs(states: seq<State>, events: seq<Event>, i: nat, j: nat, ids: seq<nat>, bound: nat, f: nat)
    requires Within(states, events, i, j + 1) && i < j && events[i] == Work(MergeStart(ids, bound))
    requires events[j] == Work(MergeRestore) && forall m :: i < m < j ==> events[m] != Work(MergeRestore)
    requires f in states[i].linked
    ensures f in states[j + 1].linked <==> f >= bound
    ensures f in states[j + 1].handles ==> f >= bound
  {
    hide Step, Enabled, Inv, IsRun, InputsOf;
    WithinStep(states, events, i, j + 1);
    assert Within(states, events, i, j);
    MergeWithin(states, events, i, j, ids, bound);
    NotInput(states[i], bound, f);
    FileStays(states, events, i, j, f);
    LinkedStays(states[j], MergeRestore);
    LastStep(states[j], f);
  }

  lemma LastStep(s: State, f: nat)
    requires Inv(s) && Enabled(s, MergeRestore) && f in s.files
    ensures f in s.merge.inputs ==> f !in Step(s, MergeRestore).linked
    ensures f in Step(s, MergeRestore).handles ==> f !in s.merge.inputs
  {
    hide KeydirOk, PublishedOk, WritersOk, ReadersOk, PendingOk, CoverOk, BatchOk, InputsOk, CallerStep;
  }

  lemma {:induction false} FileStays(states: seq<State>, events: seq<Event>, i: nat, j: nat, f: nat)
    requires Within(states, events, i, j) && f in states[i].linked
    ensures f in states[j].files
  {
    hide Step, Enabled, Inv, IsRun, FilesOk, Grows;
    if i < j {
      WithinStep(states, events, i, j);
      FileStays(states, events, i, j - 1, f);
      FilesFacts(states[j - 1]);
      StepGrows(states[j - 1], events[j - 1].action);
      GrowsFiles(states[j - 1], states[j]);
    } else {
      RunInv(states, events, i);
      LinkedFiles(states[i]);
    }
  }

  lemma GrowsFiles(s: State, s': State)
    requires Grows(s, s')
    ensures forall f :: f in s.files ==> f in s'.files
  {
  }

  lemma LinkedFiles(s: State)
    requires Inv(s)
    ensures s.linked <= s.files.Keys
  {
    hide KeydirOk, PublishedOk, WritersOk, ReadersOk, PendingOk, CoverOk, BatchOk, InputsOk;
  }

  // --- Sizes ----------------------------------------------------------------------------------------

  /** The file is empty or not yet full. */
  predicate Roomy(s: State, f: nat) {
    f in s.files && (s.files[f] == [] || SizeOf(s, f) < s.limit)
  }

  /** The active file can be written to, and so can the output except just after a copy. */
  predicate RoomOk(s: State) {
    Roomy(s, s.active) && (s.merge.On? && !s.merge.phase.Settling? ==> Roomy(s, s.merge.cur))
  }

  lemma AppendRoom(s: State, s': State, r: Rec)
    requires Inv(s) && RoomOk(s) && AppendedRec(s, s', r) && s'.limit == s.limit
    ensures RoomOk(s')
  {
    hide KeydirOk, PublishedOk, WritersOk, ReadersOk, PendingOk, CoverOk, BatchOk, LeftOk, HandlesOk, FileSize;
  }

  lemma SameRoom(s: State, s': State)
    requires RoomOk(s) && s'.files == s.files && s'.active == s.active && s'.limit == s.limit
    requires s'.merge.On? ==> s.merge.On? && s'.merge.cur == s.merge.cur && !s.merge.phase.Settling?
    ensures RoomOk(s')
  {
  }

  lemma CallerRoom(s: State, a: Action)
    requires Inv(s) && RoomOk(s) && Enabled(s, a) && !MergeStep(a)
    ensures RoomOk(Step(s, a))
  {
    hide Inv, MergeNext, Appended, Fills, RoomOk, AppendedRec;
    CallerLeaves(s, a);
    if a.PutAppend? {
      PutAppendExactly(s, a.t, a.key, a.value);
      AppendRoom(s, Step(s, a), Rec(a.key, Some(a.value)));
    } else if a.DelAppend? {
      DelAppendExactly(s, a.t);
      AppendRoom(s, Step(s, a), Rec(s.writers[a.t].key, None));
    } else {
      RestRoom(s, Step(s, a));
    }
  }

  lemma RestRoom(s: State, s': State)
    requires RoomOk(s) && s'.files == s.files && s'.active == s.active && s'.limit == s.limit && s'.merge == s.merge
    ensures RoomOk(s')
  {
  }

  lemma StartRoom(s: State, ids: seq<nat>, bound: nat)
    requires FilesOk(s) && RoomOk(s)
    ensures RoomOk(Started(s, ids, bound))
  {
    hide LocsOf, InputsOf, FileSize;
    assert s.nextId !in s.files;
  }

  lemma CopyRoom(s: State)
    requires Inv(s) && RoomOk(s) && Enabled(s, MergeWrite)
    ensures RoomOk(Copied(s, s.merge, s.merge.todo[0], s.merge.phase.version))
  {
    hide KeydirOk, PublishedOk, WritersOk, ReadersOk, PendingOk, CoverOk, BatchOk, LeftOk, HandlesOk, FileSize;
  }

  lemma SettleRoom(s: State)
    requires FilesOk(s) && RoomOk(s) && Enabled(s, MergeSettle)
    ensures RoomOk(Settled(s, s.merge, OutputFull(s)))
  {
    hide FileSize;
    assert s.nextId !in s.files;
  }

  lemma RestoreRoom(s: State, highest: nat)
    requires FilesOk(s) && RoomOk(s)
    ensures RoomOk(Restored(s, highest))
  {
    hide FileSize;
    assert s.nextId !in s.files;
  }

  lemma SwapKeeps(s: State)
    requires s.merge.On? && s.merge.pending != []
    ensures
      var s' := Swapped(s, s.merge);
      s'.files == s.files && s'.active == s.active && s'.merge == s.merge.(pending := s'.merge.pending)
  {
  }

  lemma MergeRoom(s: State, a: Action)
    requires Inv(s) && FilesOk(s) && RoomOk(s) && Enabled(s, a) && MergeStep(a)
    ensures RoomOk(Step(s, a))
  {
    hide Inv, FilesOk, RoomOk, CallerStep, Started, Copied, Settled, Swapped, Restored, OutputFull, At, Lookup;
    if a.MergeStart? {
      StartRoom(s, a.ids, a.bound);
    } else if a.MergeWrite? {
      CopyRoom(s);
    } else if a.MergeSettle? {
      SettleRoom(s);
    } else if a.MergeRestore? {
      RestoreRoom(s, s.merge.highest);
    } else {
      if a.MergeCas? {
        SwapKeeps(s);
        SwappedLeaves(s);
      }
      SameRoom(s, Step(s, a));
    }
  }

  lemma OpenedRoom(s: State)
    requires Opened(s)
    ensures RoomOk(s)
  {
    hide ScanFiles;
  }

  /** No record is ever added to a file that is full. */
  lemma {:induction false} FilesStayWithinLimit(states: seq<State>, events: seq<Event>, i: nat)
    requires IsRun(states, events) && i < |states|
    ensures RoomOk(states[i])
  {
    hide Inv, Step, Enabled, Opened, Reopened, RoomOk;
    if i == 0 {
      OpenedRoom(states[0]);
    } else {
      FilesStayWithinLimit(states, events, i - 1);
      RunInv(states, events, i - 1);
      assert IsStep(states[i - 1], events[i - 1], states[i]);
      match events[i - 1]
      case Work(a) =>
        FilesFacts(states[i - 1]);
        if MergeStep(a) {
          MergeRoom(states[i - 1], a);
        } else {
          CallerRoom(states[i - 1], a);
        }
      case Crash(cut, limit) =>
        ReopenedIsOpened(states[i - 1], cut, limit);
        OpenedRoom(states[i]);
    }
  }
}
