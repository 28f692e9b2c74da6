/** What holds in every interleaving of one merge at a time with puts, deletes and gets. */
module MergeInterleavings {
  import opened Bytes
  import opened Format
  import opened Index
  import opened MergeWriter
  import opened MergeProtocol
  import opened MergeSession

  /** A step of some thread, or a crash after which the store is opened again, with any file size limit. */
  datatype Event = Work(action: Action) | Crash(cut: map<nat, nat>, limit: nat)

  /** One event; merges start only under the guard. */
  ghost predicate IsStep(s: State, e: Event, s': State) {
    match e
    case Work(a) => Enabled(s, a) && (a.MergeStart? ==> StartGuard(s, a.bound)) && s' == Step(s, a)
    case Crash(cut, limit) => CrashCut(s, cut) && s' == Reopened(s, cut).(limit := limit)
  }

  /** A path of events from any state; every merge it starts obeys the guard. */
  ghost predicate IsPath(states: seq<State>, events: seq<Event>) {
    && |states| == |events| + 1
    && forall i :: 0 <= i < |events| ==> IsStep(states[i], events[i], states[i + 1])
  }

  /** A run, of any number of sessions, from the opening of any directory. */
  ghost predicate IsRun(states: seq<State>, events: seq<Event>) {
    IsPath(states, events) && Opened(states[0])
  }

  lemma EventInv(s: State, e: Event, s': State)
    requires Inv(s) && IsStep(s, e, s')
    ensures Inv(s')
  {
    hide Inv, Step, Enabled, Opened, Reopened;
    match e
    case Work(a) => StepInv(s, a);
    case Crash(cut, limit) =>
      ReopenedIsOpened(s, cut, limit);
      OpenedInv(s');
  }

  lemma {:induction false} PathInv(states: seq<State>, events: seq<Event>, i: nat)
    requires IsPath(states, events) && Inv(states[0]) && i < |states|
    ensures Inv(states[i])
  {
    hide Inv, IsStep;
    if i > 0 {
      PathInv(states, events, i - 1);
      assert IsStep(states[i - 1], events[i - 1], states[i]);
      EventInv(states[i - 1], events[i - 1], states[i]);
    }
  }

  lemma RunInv(states: seq<State>, events: seq<Event>, i: nat)
    requires IsRun(states, events) && i < |states|
    ensures Inv(states[i])
  {
    hide Inv, IsPath;
    OpenedInv(states[0]);
    PathInv(states, events, i);
  }

  lemma PathCons(s: State, e: Event, rest: seq<State>, after: seq<Event>)
    returns (states: seq<State>, events: seq<Event>)
    requires IsPath(rest, after) && IsStep(s, e, rest[0])
    ensures states == [s] + rest && events == [e] + after && IsPath(states, events)
  {
    hide IsStep;
    states, events := [s] + rest, [e] + after;
    forall i | 0 <= i < |events|
      ensures IsStep(states[i], events[i], states[i + 1])
    {
      if i > 0 {
        assert IsStep(rest[i - 1], after[i - 1], rest[i]);
      }
    }
  }

  lemma PathSnoc(states: seq<State>, events: seq<Event>, e: Event, s': State)
    returns (more: seq<State>, upTo: seq<Event>)
    requires IsPath(states, events) && IsStep(states[|states| - 1], e, s')
    ensures more == states + [s'] && upTo == events + [e] && IsPath(more, upTo)
  {
    hide IsStep;
    more, upTo := states + [s'], events + [e];
    forall i | 0 <= i < |upTo|
      ensures IsStep(more[i], upTo[i], more[i + 1])
    {
      if i < |events| {
        assert IsStep(states[i], events[i], states[i + 1]);
      }
    }
  }

  /** What an action does to the key-to-value view. */
  function ViewAfter(s: State, a: Action): map<Key, Option<Value>>
    requires Enabled(s, a)
  {
    match a
    case PutInsert(t) =>
      var w := s.writers[t];
      View(s)[w.key := if HasRec(s, w.loc) then At(s, w.loc).value else None]
    case DelRemove(t) => View(s) - {s.writers[t].key}
    case _ => View(s)
  }

  /** Only a put's insert and a delete's removal change what any key maps to; no step of a merge does. */
  lemma StepView(s: State, a: Action)
    requires Inv(s) && Enabled(s, a)
    ensures View(Step(s, a)) == ViewAfter(s, a)
    ensures MergeStep(a) ==> View(Step(s, a)) == View(s)
  {
    if a.MergeCas? {
      CasView(s);
    } else {
      PlainView(s, a);
    }
  }

  lemma CasView(s: State)
    requires Inv(s) && Enabled(s, MergeCas)
    ensures View(Step(s, MergeCas)) == View(s)
  {
    hide FilesOk, KeydirOk, WritersOk, ReadersOk, InputsOk, BatchOk, CoverOk;
    assert PendOk(s, s.merge.pending[0]);
  }

  lemma PlainView(s: State, a: Action)
    requires Inv(s) && Enabled(s, a) && !a.MergeCas?
    ensures View(Step(s, a)) == ViewAfter(s, a)
  {
    hide FilesOk, Inv, Step, HasRec, Grows;
    FilesFacts(s);
    StepGrows(s, a);
    SameReads(s, Step(s, a));
    if a.PutInsert? {
      InsertKeydir(s, a.t);
    } else if a.DelRemove? {
      RemoveKeydir(s, a.t);
    } else {
      KeepKeydir(s, a);
    }
  }

  lemma InsertKeydir(s: State, t: Tid)
    requires Inv(s) && Enabled(s, PutInsert(t))
    ensures Step(s, PutInsert(t)).keydir == s.keydir[s.writers[t].key := s.writers[t].loc]
    ensures HasRec(s, s.writers[t].loc)
  {
    hide KeydirOk, FilesOk, ReadersOk, PendingOk, CoverOk, InputsOk, BatchOk;
  }

  lemma RemoveKeydir(s: State, t: Tid)
    requires Enabled(s, DelRemove(t))
    ensures Step(s, DelRemove(t)).keydir == s.keydir - {s.writers[t].key}
  {
  }

  /** The keydir changes, and locations are published, in three steps only. */
  lemma KeepKeydir(s: State, a: Action)
    requires Enabled(s, a) && !a.PutInsert? && !a.DelRemove? && !a.MergeCas?
    ensures Step(s, a).keydir == s.keydir && Step(s, a).published == s.published
  {
    if MergeStep(a) {
      KeepKeydirMerge(s, a);
    } else {
      KeepKeydirCaller(s, a);
    }
  }

  predicate SamePointers(s: State, s': State) {
    s'.keydir == s.keydir && s'.published == s.published
  }

  lemma SettleKeepsPointers(s: State, rotate: bool)
    requires s.merge.On? && s.merge.cur in s.files
    ensures SamePointers(s, Settled(s, s.merge, rotate))
  {
  }

  lemma AppendKeepsPointers(s: State, r: Rec, rotate: bool)
    requires s.active in s.files && s.active in s.visible
    ensures SamePointers(s, Appended(s, r, rotate))
  {
  }

  lemma FetchKeepsPointers(s: State, t: Tid, l: Loc, seen: Value)
    ensures SamePointers(s, Fetched(s, t, l, seen))
  {
  }

  lemma WriteKeepsPointers(s: State)
    requires Enabled(s, MergeWrite)
    ensures SamePointers(s, Copied(s, s.merge, s.merge.todo[0], s.merge.phase.version))
  {
  }

  lemma StartKeepsPointers(s: State, ids: seq<nat>, bound: nat)
    ensures SamePointers(s, Started(s, ids, bound))
  {
    hide LocsOf, InputsOf;
  }

  lemma RestoreKeepsPointers(s: State, highest: nat)
    ensures SamePointers(s, Restored(s, highest))
  {
  }

  lemma KeepKeydirMerge(s: State, a: Action)
    requires Enabled(s, a) && MergeStep(a) && !a.MergeCas?
    ensures Step(s, a).keydir == s.keydir && Step(s, a).published == s.published
  {
    hide Checked, Swapped, CallerStep, At, Started, Copied, Settled, Restored;
    match a
    case MergeStart(ids, bound) => StartKeepsPointers(s, ids, bound);
    case MergeWrite => WriteKeepsPointers(s);
    case MergeSettle => SettleKeepsPointers(s, OutputFull(s));
    case MergeRestore => RestoreKeepsPointers(s, s.merge.highest);
    case _ =>
  }

  lemma KeepKeydirCaller(s: State, a: Action)
    requires Enabled(s, a) && !MergeStep(a) && !a.PutInsert? && !a.DelRemove?
    ensures Step(s, a).keydir == s.keydir && Step(s, a).published == s.published
  {
    hide MergeNext, LookedUp, ReadBack, Fills, Appended, Fetched;
    match a
    case PutAppend(_, k, v) => AppendKeepsPointers(s, Rec(k, Some(v)), Fills(s, Rec(k, Some(v))));
    case DelAppend(t) => AppendKeepsPointers(s, Rec(s.writers[t].key, None), Fills(s, Rec(s.writers[t].key, None)));
    case GetFetch(t) => FetchKeepsPointers(s, t, s.readers[t].loc, s.readers[t].seen);
    case _ =>
  }

  lemma FilesFacts(s: State)
    requires Inv(s)
    ensures FilesOk(s) && forall k :: k in s.keydir ==> HasRec(s, s.keydir[k])
  {
    hide FilesOk, WritersOk, ReadersOk, InputsOk, BatchOk, CoverOk, PendingOk;
    forall k | k in s.keydir
      ensures HasRec(s, s.keydir[k])
    {
      assert Good(s, k, s.keydir[k]);
    }
  }

  lemma SameReads(s: State, s': State)
    requires Grows(s, s')
    ensures forall l :: HasRec(s, l) ==> HasRec(s', l) && At(s', l) == At(s, l)
  {
    GrowsHas(s, s');
  }

  lemma AppendGrows(s: State, r: Rec, rotate: bool)
    requires FilesOk(s)
    ensures s.active in s.files && s.active in s.visible && Grows(s, Appended(s, r, rotate))
  {
  }

  lemma FlushGrows(s: State, f: nat)
    requires FilesOk(s) && f in s.files
    ensures Grows(s, FlushFile(s, f)) && Grows(s, NewFile(FlushFile(s, f)))
  {
  }

  lemma SameFilesGrow(s: State, s': State, t: State)
    requires Grows(s, s') && t.files == s'.files && t.visible == s'.visible
    ensures Grows(s, t)
  {
  }

  /** Logs only grow. */
  lemma StepGrows(s: State, a: Action)
    requires FilesOk(s) && Enabled(s, a)
    ensures Grows(s, Step(s, a))
  {
    if MergeStep(a) {
      MergeStepGrows(s, a);
    } else {
      CallerStepGrows(s, a);
    }
  }

  lemma CallerStepGrows(s: State, a: Action)
    requires FilesOk(s) && Enabled(s, a) && !MergeStep(a)
    ensures Grows(s, Step(s, a))
  {
    hide Grows, Appended, FilesOk, MergeNext, LookedUp, ReadBack, Fills;
    var s' := Step(s, a);
    SelfGrows(s);
    if a.PutAppend? {
      var r := Rec(a.key, Some(a.value));
      AppendGrows(s, r, Fills(s, r));
      SameFilesGrow(s, Appended(s, r, Fills(s, r)), s');
    } else if a.DelAppend? {
      var r := Rec(s.writers[a.t].key, None);
      AppendGrows(s, r, Fills(s, r));
      SameFilesGrow(s, Appended(s, r, Fills(s, r)), s');
    } else {
      SameFilesGrow(s, s, s');
    }
  }

  lemma MergeStepGrows(s: State, a: Action)
    requires FilesOk(s) && Enabled(s, a) && MergeStep(a)
    ensures Grows(s, Step(s, a))
  {
    hide Grows, Started, Copied, Settled, Restored, Swapped, Checked, FlushFile, FilesOk, At, CallerStep;
    var s' := Step(s, a);
    SelfGrows(s);
    match a
    case MergeStart(ids, bound) => StartGrows(s, ids, bound);
    case MergeWrite => CopyGrows(s);
    case MergeSettle => SettleGrows(s, OutputFull(s));
    case MergeFinish =>
      FlushGrows(s, s.merge.cur);
      SameFilesGrow(s, FlushFile(s, s.merge.cur), s');
    case MergeRestore => RestoreGrows(s, s.merge.highest);
    case MergeCas => SwapGrows(s);
    case _ => SameFilesGrow(s, s, s');
  }

  lemma StartGrows(s: State, ids: seq<nat>, bound: nat)
    requires FilesOk(s)
    ensures Grows(s, Started(s, ids, bound))
  {
    hide LocsOf;
  }

  lemma CopyGrows(s: State)
    requires FilesOk(s) && Enabled(s, MergeWrite)
    ensures Grows(s, Copied(s, s.merge, s.merge.todo[0], s.merge.phase.version))
  {
  }

  lemma SettleGrows(s: State, rotate: bool)
    requires FilesOk(s) && Enabled(s, MergeSettle)
    ensures Grows(s, Settled(s, s.merge, rotate))
  {
    hide Grows, NewFile, FlushFile, FilesOk;
    SelfGrows(s);
    FlushGrows(s, s.merge.cur);
    var f := FlushFile(s, s.merge.cur);
    var s' := Settled(s, s.merge, rotate);
    SameFilesGrow(s, if rotate then NewFile(f) else if s.merge.since >= MERGE_FLUSH_BATCH_SIZE then f else s, s');
  }

  lemma RestoreGrows(s: State, highest: nat)
    requires FilesOk(s)
    ensures Grows(s, Restored(s, highest))
  {
  }

  lemma SwapGrows(s: State)
    requires s.merge.On? && s.merge.pending != []
    ensures Grows(s, Swapped(s, s.merge))
  {
  }

  lemma SelfGrows(s: State)
    ensures Grows(s, s)
  {
  }

  /** Nothing ever dangles: every pointer leads to a flushed live record of its key in a file that is still there. */
  lemma NothingDangles(states: seq<State>, events: seq<Event>, i: nat, k: Key)
    requires IsRun(states, events) && i < |states| && k in states[i].keydir
    ensures Good(states[i], k, states[i].keydir[k])
  {
    RunInv(states, events, i);
  }

  /** When merge starts removing, no pointer and no put still under way refers to an input. */
  lemma RemovalIsSafe(states: seq<State>, events: seq<Event>, i: nat)
    requires IsRun(states, events) && i < |states|
    requires states[i].merge.On? && (states[i].merge.phase.Unlink? || states[i].merge.phase.Forget?)
    ensures forall k :: k in states[i].keydir ==> states[i].keydir[k].file !in states[i].merge.inputs
    ensures forall t :: t in states[i].writers && states[i].writers[t].PutAppended? ==>
      states[i].writers[t].loc.file !in states[i].merge.inputs
  {
    hide KeydirOk, ReadersOk, PendingOk, FilesOk;
    RunInv(states, events, i);
    forall k | k in states[i].keydir
      ensures states[i].keydir[k].file !in states[i].merge.inputs
    {
      NothingPointsAtInputs(states[i], k);
    }
  }

  /** No ABA: a compare-and-swap succeeds exactly when no put or delete has touched the key since merge saw it live. */
  lemma CasIsExact(states: seq<State>, events: seq<Event>, i: nat, j: nat)
    requires IsRun(states, events) && i < |states| && states[i].merge.On? && j < |states[i].merge.pending|
    ensures
      var s, p := states[i], states[i].merge.pending[j];
      Lookup(s.keydir, p.key) == Some(p.was) <==> Ver(s, p.key) == p.version
  {
    hide KeydirOk, ReadersOk, FilesOk, WritersOk, InputsOk, CoverOk;
    RunInv(states, events, i);
    assert PendOk(states[i], states[i].merge.pending[j]);
  }

  /** The step makes `l` the pointer of `k`. */
  predicate Publishes(s: State, s': State, k: Key, l: Loc) {
    Lookup(s'.keydir, k) == Some(l) && Lookup(s.keydir, k) != Some(l)
  }

  lemma PublishingStep(s: State, a: Action, k: Key, l: Loc)
    requires Inv(s) && Enabled(s, a)
    ensures s.published <= Step(s, a).published
    ensures Publishes(s, Step(s, a), k, l) ==> l !in s.published && l in Step(s, a).published
    ensures Publishes(s, Step(s, a), k, l) ==> forall x, m :: Publishes(s, Step(s, a), x, m) ==> x == k
  {
    hide KeydirOk, ReadersOk, FilesOk, InputsOk, CoverOk, BatchOk, FlushFile;
    if a.MergeCas? {
      assert PendOk(s, s.merge.pending[0]);
    } else if !a.PutInsert? && !a.DelRemove? {
      KeepKeydir(s, a);
    }
  }

  /** Within a session what has been published stays known. */
  lemma {:induction false} PublishedGrows(states: seq<State>, events: seq<Event>, i: nat, j: nat)
    requires IsRun(states, events) && i <= j < |states| && forall m :: i <= m < j ==> events[m].Work?
    ensures states[i].published <= states[j].published
  {
    hide Inv, Step, Enabled, Opened, Reopened;
    if i < j {
      PublishedGrows(states, events, i, j - 1);
      RunInv(states, events, j - 1);
      assert IsStep(states[j - 1], events[j - 1], states[j]);
      PublishingStep(states[j - 1], events[j - 1].action, [], Loc(0, 0));
    }
  }

  /** Within a session each location becomes a pointer at most once, of one key. */
  lemma PublishedOnce(states: seq<State>, events: seq<Event>, i: nat, j: nat, k: Key, x: Key, l: Loc)
    requires IsRun(states, events) && i <= j < |events| && forall m :: i <= m <= j ==> events[m].Work?
    requires Publishes(states[i], states[i + 1], k, l) && Publishes(states[j], states[j + 1], x, l)
    ensures i == j && k == x
  {
    hide Inv, Step, Enabled, Opened, Reopened, Publishes;
    RunInv(states, events, i);
    RunInv(states, events, j);
    assert IsStep(states[i], events[i], states[i + 1]) && IsStep(states[j], events[j], states[j + 1]);
    PublishingStep(states[i], events[i].action, k, l);
    PublishingStep(states[j], events[j].action, x, l);
    if i < j {
      PublishedGrows(states, events, i + 1, j);
    }
  }

  /** A successful get returns the value that was current at its lookup, whatever happened in between. */
  lemma GetIsCorrect(states: seq<State>, events: seq<Event>, i: nat, t: Tid)
    requires IsRun(states, events) && i < |states| && t in states[i].readers && states[i].readers[t].Answered?
    ensures states[i].readers[t].got == states[i].readers[t].seen
  {
    hide KeydirOk, FilesOk, WritersOk, InputsOk, CoverOk, PendingOk;
    RunInv(states, events, i);
    assert ReaderOk(states[i], states[i].readers[t]);
  }

  /** What a get remembers from its lookup is the key's value at that moment. */
  lemma LookupSeesView(s: State, t: Tid, k: Key)
    requires Inv(s) && Enabled(s, GetLookup(t, k)) && k in s.keydir
    ensures
      var r := Step(s, GetLookup(t, k)).readers[t];
      r.Looked? && k in View(s) && View(s)[k] == Some(r.seen)
  {
    hide FilesOk, WritersOk, InputsOk, CoverOk, PendingOk, ReadersOk;
    assert Good(s, k, s.keydir[k]);
  }

  /** Batching: never more queued than a batch, and nothing is published before it is flushed. */
  lemma BatchesAreSafe(states: seq<State>, events: seq<Event>, i: nat)
    requires IsRun(states, events) && i < |states| && states[i].merge.On?
    ensures !states[i].merge.phase.Drain? && !states[i].merge.phase.Settling? ==>
      |states[i].merge.pending| < MERGE_FLUSH_BATCH_SIZE
    ensures states[i].merge.phase.Scan? || states[i].merge.phase.Writing? ==>
      states[i].merge.since == |states[i].merge.pending|
    ensures states[i].merge.phase.Drain? ==>
      forall j :: 0 <= j < |states[i].merge.pending| ==>
        var l := states[i].merge.pending[j].becomes;
        HasRec(states[i], l) && Visible(states[i], l)
  {
    hide KeydirOk, WritersOk, ReadersOk, CoverOk;
    RunInv(states, events, i);
    if states[i].merge.phase.Drain? {
      forall j | 0 <= j < |states[i].merge.pending|
        ensures
          var l := states[i].merge.pending[j].becomes;
          HasRec(states[i], l) && Visible(states[i], l)
      {
        assert PendOk(states[i], states[i].merge.pending[j]);
      }
    }
  }

  /** When merge returns, the active file is newer than each of its outputs. */
  lemma ActiveIsNewest(states: seq<State>, events: seq<Event>, i: nat)
    requires IsRun(states, events) && i + 1 < |states| && events[i] == Work(MergeRestore)
    ensures states[i].merge.On? && forall o :: o in states[i].merge.outputs ==> o < states[i + 1].active
    ensures var s := states[i + 1]; forall f :: f in s.linked ==> f <= s.active
  {
    hide KeydirOk, WritersOk, ReadersOk, CoverOk, PendingOk, PublishedOk;
    RunInv(states, events, i);
    assert IsStep(states[i], events[i], states[i + 1]);
    RestoreInv(states[i], states[i + 1]);
  }

  /** Ids are handed out once: a step creates at most the file the counter names, which is newer than every file
      there ever was. */
  lemma IdsAreFresh(s: State, a: Action)
    requires Inv(s) && Enabled(s, a)
    ensures Step(s, a).files.Keys <= s.files.Keys + {s.nextId}
    ensures s.nextId in Step(s, a).files ==> Step(s, a).nextId == s.nextId + 1
    ensures forall f :: f in s.files ==> f < s.nextId
  {
    hide KeydirOk, WritersOk, ReadersOk, CoverOk, PendingOk, PublishedOk, LocsOf, BatchOk, Lookup, At;
    if MergeStep(a) {
      FreshMerge(s, a);
    } else {
      FreshCaller(s, a);
    }
  }

  lemma FreshMerge(s: State, a: Action)
    requires FilesOk(s) && Enabled(s, a) && MergeStep(a)
    ensures Step(s, a).files.Keys <= s.files.Keys + {s.nextId}
    ensures s.nextId in Step(s, a).files ==> Step(s, a).nextId == s.nextId + 1
  {
    hide LocsOf, Lookup, At, Checked, CallerStep;
    assert s.nextId !in s.files;
  }

  lemma FreshCaller(s: State, a: Action)
    requires FilesOk(s) && Enabled(s, a) && !MergeStep(a)
    ensures Step(s, a).files.Keys <= s.files.Keys + {s.nextId}
    ensures s.nextId in Step(s, a).files ==> Step(s, a).nextId == s.nextId + 1
  {
    hide Lookup, At, MergeNext, LookedUp, ReadBack;
    assert s.nextId !in s.files && s.active in s.files;
  }
}
