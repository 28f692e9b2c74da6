/** One merge at a time, interleaved at lock granularity with any number of puts, deletes and gets. */
module MergeProtocol {
  import opened Bytes
  import opened Format
  import opened EntryFormat
  import opened Index
  import opened Recovery
  import opened MergeWriter

  type Tid = nat

  /** One log record; `None` is a tombstone. */
  datatype Rec = Rec(key: Key, value: Option<Value>)

  /** The `idx`-th record of a file. */
  datatype Loc = Loc(file: nat, idx: nat)

  /** A put between its append and its keydir insert; a delete between its three steps. */
  datatype Writer =
    | WIdle
    | PutAppended(key: Key, loc: Loc)
    | DelChecked(key: Key)
    | DelAppended(key: Key)

  /** A get between its keydir lookup, its handle fetch and its read; `Missed` says that the key was not
      there. `seen` is what the key's value was at the lookup. */
  datatype Reader =
    | RIdle
    | Missed
    | Looked(loc: Loc, seen: Value)
    | Holding(loc: Loc, seen: Value)
    | Answered(seen: Value, got: Value)
    | IoFailed

  /** A repoint waiting for its flush, with how often the key had been written when merge saw it live. */
  datatype Pend = Pend(key: Key, was: Loc, becomes: Loc, version: nat)

  datatype Phase =
    | Scan
    | Writing(version: nat)
    | Settling
    | Drain(final: bool)
    | Unlink
    | Forget

  datatype Merge =
    | Off
    | On(inputs: set<nat>, phase: Phase, todo: seq<Loc>, cur: nat, outputs: set<nat>, highest: nat,
         pending: seq<Pend>, since: nat, left: seq<nat>)

  /** `files` keeps the contents of every file ever created, `linked` says which are still in the
      directory, `visible` how many records of each have been flushed. `published` and `versions`
      are history: which locations were ever a key's pointer, and how often puts and deletes
      have changed each key. `limit` is the size at which a file counts as full. */
  datatype State = State(
    files: map<nat, seq<Rec>>,
    visible: map<nat, nat>,
    linked: set<nat>,
    handles: set<nat>,
    keydir: map<Key, Loc>,
    active: nat,
    nextId: nat,
    writers: map<Tid, Writer>,
    readers: map<Tid, Reader>,
    merge: Merge,
    published: set<Loc>,
    versions: map<Key, nat>,
    limit: nat)

  datatype Action =
    | PutAppend(t: Tid, key: Key, value: Value)
    | PutInsert(t: Tid)
    | DelCheck(t: Tid, key: Key)
    | DelAppend(t: Tid)
    | DelRemove(t: Tid)
    | GetLookup(t: Tid, key: Key)
    | GetFetch(t: Tid)
    | GetRead(t: Tid)
    | MergeStart(ids: seq<nat>, bound: nat)
    | MergeCheck
    | MergeWrite
    | MergeSettle
    | MergeFinish
    | MergeCas
    | MergeDrained
    | MergeUnlink
    | MergeForget
    | MergeRestore

  function Ver(s: State, k: Key): nat {
    if k in s.versions then s.versions[k] else 0
  }

  predicate HasRec(s: State, l: Loc) {
    l.file in s.files && l.idx < |s.files[l.file]|
  }

  function At(s: State, l: Loc): Rec
    requires HasRec(s, l)
  {
    s.files[l.file][l.idx]
  }

  /** The record has been flushed. */
  predicate Visible(s: State, l: Loc) {
    l.file in s.visible && l.idx < s.visible[l.file]
  }

  /** The bytes a record takes: header, key and, unless it is a tombstone, the value. */
  function RecSize(r: Rec): nat {
    HEADER_SIZE + |r.key| + if r.value.Some? then |r.value.value| else 0
  }

  function FileSize(recs: seq<Rec>): nat {
    if recs == [] then 0 else FileSize(recs[..|recs| - 1]) + RecSize(recs[|recs| - 1])
  }

  function SizeOf(s: State, f: nat): nat {
    if f in s.files then FileSize(s.files[f]) else 0
  }

  lemma SizeSnoc(recs: seq<Rec>, r: Rec)
    ensures FileSize(recs + [r]) == FileSize(recs) + RecSize(r)
  {
    assert (recs + [r])[..|recs|] == recs;
  }

  /** Appending `r` fills the active file. */
  predicate Fills(s: State, r: Rec) {
    SizeOf(s, s.active) + RecSize(r) >= s.limit
  }

  /** Merge's current output is full. */
  predicate OutputFull(s: State)
    requires s.merge.On?
  {
    SizeOf(s, s.merge.cur) >= s.limit
  }

  /** The locations of the records of the given files, in order. */
  function LocsOf(ids: seq<nat>, files: map<nat, seq<Rec>>): seq<Loc> {
    if ids == [] then []
    else
      var f := ids[0];
      (if f in files then seq(|files[f]|, i requires 0 <= i < |files[f]| => Loc(f, i)) else [])
      + LocsOf(ids[1..], files)
  }

  /** The files a merge takes that saw `bound` as the active id. The active file may have rotated
      since, before the first output was opened. */
  function InputsOf(s: State, bound: nat): set<nat> {
    set f | f in s.linked && f < bound
  }

  /** No put is between its append and its insert with its record in a file below `bound`. */
  predicate StartGuard(s: State, bound: nat) {
    forall t :: t in s.writers && s.writers[t].PutAppended? ==> s.writers[t].loc.file >= bound
  }

  predicate Enabled(s: State, a: Action) {
    match a
    case PutAppend(t, _, _) => t in s.writers && s.writers[t].WIdle? && s.active in s.files && s.active in s.visible
    case PutInsert(t) => t in s.writers && s.writers[t].PutAppended?
    case DelCheck(t, _) => t in s.writers && s.writers[t].WIdle?
    case DelAppend(t) => t in s.writers && s.writers[t].DelChecked? && s.active in s.files && s.active in s.visible
    case DelRemove(t) => t in s.writers && s.writers[t].DelAppended?
    case GetLookup(t, _) => t in s.readers && !s.readers[t].Looked? && !s.readers[t].Holding?
    case GetFetch(t) => t in s.readers && s.readers[t].Looked?
    case GetRead(t) => t in s.readers && s.readers[t].Holding?
    case MergeStart(ids, bound) =>
      s.merge.Off? && bound <= s.active && Ascending(ids) && ids != [] && (set f | f in ids) == InputsOf(s, bound)
    case MergeCheck => s.merge.On? && s.merge.phase.Scan? && s.merge.todo != [] && HasRec(s, s.merge.todo[0])
    case MergeWrite =>
      s.merge.On? && s.merge.phase.Writing? && s.merge.todo != [] && HasRec(s, s.merge.todo[0])
          && s.merge.cur in s.files
    case MergeSettle => s.merge.On? && s.merge.phase.Settling? && s.merge.cur in s.files
    case MergeFinish => s.merge.On? && s.merge.phase.Scan? && s.merge.todo == [] && s.merge.cur in s.files
    case MergeCas => s.merge.On? && s.merge.phase.Drain? && s.merge.pending != []
    case MergeDrained => s.merge.On? && s.merge.phase.Drain? && s.merge.pending == []
    case MergeUnlink => s.merge.On? && s.merge.phase.Unlink? && s.merge.left != []
    case MergeForget => s.merge.On? && s.merge.phase.Forget? && s.merge.left != []
    case MergeRestore => s.merge.On? && s.merge.phase.Unlink? && s.merge.left == []
  }

  /** Appends to the active file, flushed; `rotate` says whether a new active file is due. */
  function Appended(s: State, r: Rec, rotate: bool): State
    requires s.active in s.files && s.active in s.visible
  {
    var log := s.files[s.active] + [r];
    var s1 := s.(files := s.files[s.active := log], visible := s.visible[s.active := |log|]);
    if rotate then NewFile(s1).(active := s1.nextId) else s1
  }

  /** Claims the next id and creates that file. */
  function NewFile(s: State): State {
    s.(files := s.files[s.nextId := []], visible := s.visible[s.nextId := 0],
       linked := s.linked + {s.nextId}, nextId := s.nextId + 1)
  }

  function FlushFile(s: State, f: nat): State
    requires f in s.files
  {
    s.(visible := s.visible[f := |s.files[f]|])
  }

  /** What a caller's step does. */
  function CallerStep(s: State, a: Action): State
    requires Enabled(s, a) && !MergeStep(a)
  {
    match a
    case PutAppend(t, k, v) =>
      var l := Loc(s.active, |s.files[s.active]|);
      var r := Rec(k, Some(v));
      Appended(s, r, Fills(s, r)).(writers := s.writers[t := PutAppended(k, l)])
    case PutInsert(t) =>
      var w := s.writers[t];
      s.(writers := s.writers[t := WIdle], keydir := s.keydir[w.key := w.loc],
         published := s.published + {w.loc}, versions := s.versions[w.key := Ver(s, w.key) + 1])
    case DelCheck(t, k) => if k in s.keydir then s.(writers := s.writers[t := DelChecked(k)]) else s
    case DelAppend(t) =>
      var k := s.writers[t].key;
      var r := Rec(k, None);
      Appended(s, r, Fills(s, r)).(writers := s.writers[t := DelAppended(k)])
    case DelRemove(t) =>
      var k := s.writers[t].key;
      s.(writers := s.writers[t := WIdle], keydir := s.keydir - {k}, versions := s.versions[k := Ver(s, k) + 1])
    case GetLookup(t, k) =>
      s.(readers := s.readers[t := if k in s.keydir then LookedUp(s, s.keydir[k]) else Missed])
    case GetFetch(t) => Fetched(s, t, s.readers[t].loc, s.readers[t].seen)
    case GetRead(t) => s.(readers := s.readers[t := ReadBack(s, s.readers[t].loc, s.readers[t].seen)])
  }

  function LookedUp(s: State, l: Loc): Reader {
    if HasRec(s, l) && At(s, l).value.Some? then Looked(l, At(s, l).value.value) else IoFailed
  }

  /** The handle comes from the cache, or from the directory if the file is still there. */
  function Fetched(s: State, t: Tid, l: Loc, seen: Value): State {
    if l.file in s.handles then s.(readers := s.readers[t := Holding(l, seen)])
    else if l.file in s.linked then s.(readers := s.readers[t := Holding(l, seen)], handles := s.handles + {l.file})
    else s.(readers := s.readers[t := IoFailed])
  }

  function ReadBack(s: State, l: Loc, seen: Value): Reader {
    if HasRec(s, l) && Visible(s, l) && At(s, l).value.Some? then Answered(seen, At(s, l).value.value) else IoFailed
  }

  function Started(s: State, ids: seq<nat>, bound: nat): State {
    NewFile(s).(merge := On(InputsOf(s, bound), Scan, LocsOf(ids, s.files), s.nextId, {s.nextId}, s.nextId, [], 0, ids))
  }

  /** The liveness check of the next record: skip it, or go on to copy it. */
  function Checked(s: State, m: Merge, l: Loc): Merge
    requires m.On? && m.todo != [] && HasRec(s, l)
  {
    var r := At(s, l);
    if r.value.Some? && Lookup(s.keydir, r.key) == Some(l) then m.(phase := Writing(Ver(s, r.key)))
    else m.(todo := m.todo[1..])
  }

  /** A copy, not flushed, and its repoint queued. */
  function Copied(s: State, m: Merge, l: Loc, version: nat): State
    requires m.On? && m.todo != [] && m.cur in s.files && HasRec(s, l)
  {
    var p := Pend(At(s, l).key, l, Loc(m.cur, |s.files[m.cur]|), version);
    s.(files := s.files[m.cur := s.files[m.cur] + [At(s, l)]],
       merge := m.(phase := Settling, todo := m.todo[1..], since := m.since + 1, pending := m.pending + [p]))
  }

  /** The output is full: flush it and start the next one. */
  function RotatedOutput(s: State, m: Merge): State
    requires m.On? && m.cur in s.files
  {
    var n := s.nextId;
    NewFile(FlushFile(s, m.cur)).(merge := m.(phase := Drain(false), since := 0, cur := n, outputs := m.outputs + {n},
                                            highest := if n > m.highest then n else m.highest))
  }

  function Settled(s: State, m: Merge, rotate: bool): State
    requires m.On? && m.cur in s.files
  {
    if rotate then RotatedOutput(s, m)
    else if m.since >= MERGE_FLUSH_BATCH_SIZE then FlushFile(s, m.cur).(merge := m.(phase := Drain(false), since := 0))
    else s.(merge := m.(phase := Scan))
  }

  /** One compare-and-swap. */
  function Swapped(s: State, m: Merge): State
    requires m.On? && m.pending != []
  {
    var p := m.pending[0];
    if Lookup(s.keydir, p.key) == Some(p.was)
    then s.(merge := m.(pending := m.pending[1..]), keydir := s.keydir[p.key := p.becomes],
            published := s.published + {p.becomes})
    else s.(merge := m.(pending := m.pending[1..]))
  }

  function Restored(s: State, highest: nat): State {
    (if s.active <= highest then NewFile(s).(active := s.nextId) else s).(merge := Off)
  }

  function MergeNext(s: State, a: Action): State
    requires Enabled(s, a) && MergeStep(a)
  {
    var m := s.merge;
    match a
    case MergeStart(ids, bound) => Started(s, ids, bound)
    case MergeCheck => s.(merge := Checked(s, m, m.todo[0]))
    case MergeWrite => Copied(s, m, m.todo[0], m.phase.version)
    case MergeSettle => Settled(s, m, OutputFull(s))
    case MergeFinish => FlushFile(s, m.cur).(merge := m.(phase := Drain(true), since := 0))
    case MergeCas => Swapped(s, m)
    case MergeDrained => s.(merge := m.(phase := if m.phase.final then Unlink else Scan))
    case MergeUnlink => s.(linked := s.linked - {m.left[0]}, merge := m.(phase := Forget))
    case MergeForget => s.(handles := s.handles - {m.left[0]}, merge := m.(phase := Unlink, left := m.left[1..]))
    case MergeRestore => Restored(s, m.highest)
  }

  function Step(s: State, a: Action): State
    requires Enabled(s, a)
  {
    if MergeStep(a) then MergeNext(s, a) else CallerStep(s, a)
  }

  /** Merge's own steps. */
  predicate MergeStep(a: Action) {
    !a.PutAppend? && !a.PutInsert? && !a.DelCheck? && !a.DelAppend? && !a.DelRemove?
    && !a.GetLookup? && !a.GetFetch? && !a.GetRead?
  }

  // --- The invariant ------------------------------------------------------------

  predicate IsOutput(m: Merge, f: nat) {
    m.On? && f in m.outputs
  }

  predicate IsInput(m: Merge, f: nat) {
    m.On? && f in m.inputs
  }

  /** Files and ids: every id is below the counter, only merge's current output can have unflushed
      records, and outside a merge no linked file is newer than the active one. */
  predicate FilesOk(s: State) {
    && s.active in s.linked && s.linked <= s.files.Keys
    && s.visible.Keys == s.files.Keys
    && (forall f :: f in s.files ==> f < s.nextId && s.visible[f] <= |s.files[f]|)
    && (forall f :: f in s.files && s.visible[f] != |s.files[f]| ==> s.merge.On? && f == s.merge.cur)
    && (forall f :: f in s.linked && f > s.active ==> IsOutput(s.merge, f))
  }

  /** A location a keydir may point at for `k`: linked, flushed, and a live record of `k`. */
  predicate Good(s: State, k: Key, l: Loc) {
    && l.file in s.linked && HasRec(s, l) && l.file in s.visible && l.idx < s.visible[l.file]
    && At(s, l).key == k && At(s, l).value.Some?
  }

  predicate KeydirOk(s: State) {
    forall k :: k in s.keydir ==> Good(s, k, s.keydir[k]) && s.keydir[k] in s.published
  }

  predicate PublishedOk(s: State) {
    forall l :: l in s.published ==> HasRec(s, l)
  }

  /** An appended but unpublished record keeps its place: it is not in an input, so it will not be removed. */
  predicate WritersOk(s: State) {
    && (forall t :: t in s.writers && s.writers[t].PutAppended? ==>
         var w := s.writers[t];
         && Good(s, w.key, w.loc) && w.loc !in s.published
         && !IsInput(s.merge, w.loc.file) && !IsOutput(s.merge, w.loc.file))
    && (forall t, u ::
         t in s.writers && u in s.writers && t != u && s.writers[t].PutAppended? && s.writers[u].PutAppended? ==>
           s.writers[t].loc != s.writers[u].loc)
  }

  /** A get holds a location with the value it saw there; if it succeeded it returned that value. */
  predicate ReaderOk(s: State, r: Reader) {
    match r
    case Looked(l, x) => HasRec(s, l) && Visible(s, l) && At(s, l).value == Some(x)
    case Holding(l, x) => HasRec(s, l) && Visible(s, l) && At(s, l).value == Some(x)
    case Answered(x, got) => got == x
    case _ => true
  }

  predicate ReadersOk(s: State) {
    forall t :: t in s.readers ==> ReaderOk(s, s.readers[t])
  }

  predicate Distinct(locs: seq<Loc>) {
    forall i, j :: 0 <= i < j < |locs| ==> locs[i] != locs[j]
  }

  /** The files a merge reads and writes. */
  predicate InputsOk(s: State) {
    s.merge.On? ==>
      var m := s.merge;
      && (forall f :: f in m.inputs ==> f in s.files && f < s.active && f !in m.outputs)
      && m.cur in m.outputs && m.outputs <= s.linked && m.outputs <= s.files.Keys
      && s.active !in m.outputs && m.cur <= m.highest && m.highest in m.outputs
      && (forall o :: o in m.outputs ==> o <= m.highest)
      && (forall l :: l in m.todo ==> l.file in m.inputs && HasRec(s, l))
      && Distinct(m.todo)
  }

  /** A queued repoint leads from an input to an identical, unpublished copy in an output, and
      compare-and-swap will succeed exactly if no put or delete has touched the key since. */
  predicate PendOk(s: State, p: Pend) {
    var m := s.merge;
    && m.On? && p.was.file in m.inputs && p.becomes.file in m.outputs
    && HasRec(s, p.was) && HasRec(s, p.becomes) && At(s, p.was) == At(s, p.becomes)
    && At(s, p.was).key == p.key && At(s, p.was).value.Some?
    && p.was in s.published && p.becomes !in s.published
    && (Lookup(s.keydir, p.key) == Some(p.was) <==> Ver(s, p.key) == p.version)
    && p.version <= Ver(s, p.key)
  }

  predicate PendingOk(s: State) {
    s.merge.On? ==>
      var m := s.merge;
      && (forall i :: 0 <= i < |m.pending| ==> PendOk(s, m.pending[i]) && m.pending[i].was !in m.todo)
      && (forall i, j :: 0 <= i < j < |m.pending| ==>
           m.pending[i].was != m.pending[j].was && m.pending[i].becomes != m.pending[j].becomes)
      && (m.phase.Writing? ==>
           m.todo != [] && HasRec(s, m.todo[0]) && At(s, m.todo[0]).value.Some? && m.todo[0] in s.published
           && m.phase.version <= Ver(s, At(s, m.todo[0]).key)
           && (Lookup(s.keydir, At(s, m.todo[0]).key) == Some(m.todo[0]) <==>
               Ver(s, At(s, m.todo[0]).key) == m.phase.version))
  }

  predicate CurFlushed(s: State)
    requires s.merge.On?
  {
    s.merge.cur in s.files && s.merge.cur in s.visible && s.visible[s.merge.cur] == |s.files[s.merge.cur]|
  }

  /** The queued copies are the records of the current output that are not flushed. */
  predicate QueueUnflushed(s: State)
    requires s.merge.On?
  {
    && s.merge.cur in s.files && s.merge.cur in s.visible
    && s.visible[s.merge.cur] + |s.merge.pending| == |s.files[s.merge.cur]|
  }

  /** Batching: what is queued is what was written since the last flush, fewer than a batch between
      entries; while the queue drains, everything is flushed. */
  predicate BatchOk(s: State) {
    s.merge.On? ==>
      var m := s.merge;
      match m.phase
      case Scan => m.since == |m.pending| < MERGE_FLUSH_BATCH_SIZE && QueueUnflushed(s)
      case Writing(_) => m.since == |m.pending| < MERGE_FLUSH_BATCH_SIZE && QueueUnflushed(s)
      case Settling => m.since == |m.pending| <= MERGE_FLUSH_BATCH_SIZE && QueueUnflushed(s)
      case Drain(final) => m.since == 0 && CurFlushed(s) && (final ==> m.todo == [])
      case Unlink => m.pending == [] && m.todo == [] && CurFlushed(s)
      case Forget => m.pending == [] && m.todo == [] && m.left != [] && CurFlushed(s)
  }

  predicate Queued(m: Merge, l: Loc)
    requires m.On?
  {
    exists i :: 0 <= i < |m.pending| && m.pending[i].was == l
  }

  /** Every keydir pointer into an input is still to be scanned or queued for repointing. */
  predicate CoverOk(s: State) {
    s.merge.On? ==>
      forall k :: k in s.keydir && s.keydir[k].file in s.merge.inputs ==>
        s.keydir[k] in s.merge.todo || Queued(s.merge, s.keydir[k])
  }

  /** The inputs that are still in the directory are still to be removed. */
  predicate LeftOk(s: State) {
    s.merge.On? ==>
      && (forall i :: 0 <= i < |s.merge.left| ==> s.merge.left[i] in s.merge.inputs)
      && (forall f :: f in s.linked && f in s.merge.inputs ==> f in s.merge.left)
      && (s.merge.phase.Forget? ==> s.merge.left != [] && s.merge.left[0] !in s.linked)
  }

  /** A handle is cached only of a file of the directory, and for a moment of the one just removed. */
  predicate HandlesOk(s: State) {
    forall f :: f in s.handles && f !in s.linked ==>
      s.merge.On? && s.merge.phase.Forget? && s.merge.left != [] && f == s.merge.left[0]
  }

  predicate Inv(s: State) {
    && FilesOk(s) && KeydirOk(s) && PublishedOk(s) && WritersOk(s) && ReadersOk(s)
    && InputsOk(s) && PendingOk(s) && BatchOk(s) && CoverOk(s) && LeftOk(s) && HandlesOk(s)
  }

  /** What every key maps to. */
  function View(s: State): map<Key, Option<Value>> {
    map k | k in s.keydir :: if HasRec(s, s.keydir[k]) then At(s, s.keydir[k]).value else None
  }

  // --- Each step keeps the invariant ----------------------------------------------

  /** Logs only grow and flushed records stay flushed. */
  predicate Grows(s: State, s': State) {
    && (forall f :: f in s.files ==> f in s'.files && s.files[f] <= s'.files[f])
    && (forall f :: f in s.visible ==> f in s'.visible && s.visible[f] <= s'.visible[f])
  }

  lemma GrowsHas(s: State, s': State)
    requires Grows(s, s')
    ensures forall l :: HasRec(s, l) ==> HasRec(s', l) && At(s', l) == At(s, l)
    ensures forall k, l :: Good(s, k, l) && l.file in s'.linked ==> Good(s', k, l)
  {
  }

  /** A step of a get. */
  lemma ReaderInv(s: State, t: Tid, r: Reader, handles: set<nat>, s': State)
    requires Inv(s) && t in s.readers && ReaderOk(s, r) && handles <= s.handles + s.linked
    requires s' == s.(readers := s.readers[t := r], handles := handles)
    ensures Inv(s')
  {
    GrowsHas(s, s');
    assert PendingOk(s') by {
      hide FilesOk, KeydirOk, WritersOk, ReadersOk, InputsOk, BatchOk, CoverOk;
      if s.merge.On? {
        FlushPending(s, s.merge, s');
      }
    }
    hide PendingOk, CoverOk;
    assert forall u :: u in s'.readers ==> ReaderOk(s, s'.readers[u]);
  }

  /** A delete that found its key. */
  lemma DelCheckInv(s: State, t: Tid, k: Key, s': State)
    requires Inv(s) && t in s.writers && s' == s.(writers := s.writers[t := DelChecked(k)])
    ensures Inv(s')
  {
    GrowsHas(s, s');
    if s.merge.On? {
      FlushPending(s, s.merge, s');
    }
    hide PendingOk, CoverOk, ReadersOk;
  }

  /** What survives when files only grow and neither the keydir nor the merge changes. */
  lemma GrowthKeeps(s: State, s': State)
    requires Inv(s) && Grows(s, s') && s.linked <= s'.linked
    requires s'.keydir == s.keydir && s'.published == s.published && s'.versions == s.versions
    requires s'.readers == s.readers && s'.merge == s.merge
    ensures KeydirOk(s') && PublishedOk(s') && ReadersOk(s') && PendingOk(s') && CoverOk(s')
  {
    hide FilesOk, WritersOk, InputsOk, BatchOk, LeftOk, HandlesOk;
    GrowsHas(s, s');
  }

  /** A record appended to the active file. */
  lemma AppendInv(s: State, t: Tid, r: Rec, w: Writer, s': State)
    requires Inv(s) && t in s.writers
    requires s' == Appended(s, r, false).(writers := s.writers[t := w])
    requires w.DelAppended? || (w == PutAppended(r.key, Loc(s.active, |s.files[s.active]|)) && r.value.Some?)
    ensures Inv(s')
  {
    assert Grows(s, s');
    GrowthKeeps(s, s');
    AppendRest(s, t, r, w, s');
    LeftStays(s, s');
  }

  /** Neither records nor new files touch what is left to remove. */
  lemma LeftStays(s: State, s': State)
    requires Inv(s) && s'.merge == s.merge && s'.handles == s.handles
    requires s.linked <= s'.linked <= s.linked + {s.nextId}
    ensures LeftOk(s') && HandlesOk(s')
  {
    hide KeydirOk, WritersOk, ReadersOk, PendingOk, CoverOk, PublishedOk;
  }

  lemma AppendRest(s: State, t: Tid, r: Rec, w: Writer, s': State)
    requires Inv(s) && t in s.writers && Grows(s, s')
    requires s' == Appended(s, r, false).(writers := s.writers[t := w])
    requires w.DelAppended? || (w == PutAppended(r.key, Loc(s.active, |s.files[s.active]|)) && r.value.Some?)
    ensures FilesOk(s') && WritersOk(s') && InputsOk(s') && BatchOk(s')
  {
    hide PendingOk, CoverOk, LeftOk, HandlesOk, KeydirOk, ReadersOk;
    GrowsHas(s, s');
  }

  /** A fresh active file. */
  lemma NewActiveInv(s: State, s': State)
    requires Inv(s) && s' == NewFile(s).(active := s.nextId)
    ensures Inv(s')
  {
    assert Grows(s, s');
    GrowthKeeps(s, s');
    NewActiveRest(s, s');
    LeftStays(s, s');
  }

  lemma NewActiveRest(s: State, s': State)
    requires Inv(s) && s' == NewFile(s).(active := s.nextId) && Grows(s, s')
    ensures FilesOk(s') && WritersOk(s') && InputsOk(s') && BatchOk(s')
  {
    hide PendingOk, CoverOk, LeftOk, HandlesOk, KeydirOk, ReadersOk;
    GrowsHas(s, s');
  }

  /** A put's keydir insert: the location is new to the keydir, so every queued repoint of the key is now stale. */
  lemma InsertInv(s: State, t: Tid, w: Writer, s': State)
    requires Inv(s) && t in s.writers && w == s.writers[t] && w.PutAppended?
    requires s' == s.(writers := s.writers[t := WIdle], keydir := s.keydir[w.key := w.loc],
                      published := s.published + {w.loc}, versions := s.versions[w.key := Ver(s, w.key) + 1])
    ensures Inv(s')
  {
    InsertPending(s, t, w, s');
    InsertPointers(s, t, w, s');
    InsertRest(s, t, w, s');
  }

  lemma InsertPending(s: State, t: Tid, w: Writer, s': State)
    requires Inv(s) && t in s.writers && w == s.writers[t] && w.PutAppended?
    requires s' == s.(writers := s.writers[t := WIdle], keydir := s.keydir[w.key := w.loc],
                      published := s.published + {w.loc}, versions := s.versions[w.key := Ver(s, w.key) + 1])
    ensures PendingOk(s')
  {
    hide FilesOk, KeydirOk, PublishedOk, ReadersOk, BatchOk, CoverOk, LeftOk, InputsOk;
    assert !IsInput(s.merge, w.loc.file) && !IsOutput(s.merge, w.loc.file);
    if s.merge.On? {
      forall i | 0 <= i < |s.merge.pending|
        ensures PendOk(s', s.merge.pending[i])
      {
        assert PendOk(s, s.merge.pending[i]);
      }
    }
  }

  lemma InsertRest(s: State, t: Tid, w: Writer, s': State)
    requires Inv(s) && t in s.writers && w == s.writers[t] && w.PutAppended?
    requires s' == s.(writers := s.writers[t := WIdle], keydir := s.keydir[w.key := w.loc],
                      published := s.published + {w.loc}, versions := s.versions[w.key := Ver(s, w.key) + 1])
    ensures FilesOk(s') && ReadersOk(s') && InputsOk(s') && BatchOk(s') && LeftOk(s')
  {
    hide PendingOk, KeydirOk, PublishedOk, WritersOk, CoverOk;
    GrowsHas(s, s');
  }

  lemma InsertPointers(s: State, t: Tid, w: Writer, s': State)
    requires Inv(s) && t in s.writers && w == s.writers[t] && w.PutAppended?
    requires s' == s.(writers := s.writers[t := WIdle], keydir := s.keydir[w.key := w.loc],
                      published := s.published + {w.loc}, versions := s.versions[w.key := Ver(s, w.key) + 1])
    ensures KeydirOk(s') && PublishedOk(s') && WritersOk(s') && CoverOk(s')
  {
    hide PendingOk, FilesOk, ReadersOk, InputsOk, BatchOk, LeftOk;
    GrowsHas(s, s');
  }

  /** A delete's keydir removal. */
  lemma RemoveInv(s: State, t: Tid, k: Key, s': State)
    requires Inv(s) && t in s.writers && s.writers[t] == DelAppended(k)
    requires s' == s.(writers := s.writers[t := WIdle], keydir := s.keydir - {k},
                      versions := s.versions[k := Ver(s, k) + 1])
    ensures Inv(s')
  {
    RemovePending(s, t, k, s');
    hide PendingOk;
    GrowsHas(s, s');
  }

  lemma RemovePending(s: State, t: Tid, k: Key, s': State)
    requires Inv(s) && t in s.writers && s.writers[t] == DelAppended(k)
    requires s' == s.(writers := s.writers[t := WIdle], keydir := s.keydir - {k},
                      versions := s.versions[k := Ver(s, k) + 1])
    ensures PendingOk(s')
  {
    hide FilesOk, KeydirOk, PublishedOk, ReadersOk, BatchOk, CoverOk, LeftOk, InputsOk, WritersOk;
    if s.merge.On? {
      forall i | 0 <= i < |s.merge.pending|
        ensures PendOk(s', s.merge.pending[i])
      {
        assert PendOk(s, s.merge.pending[i]);
      }
    }
  }

  lemma {:induction false} LocsOfFacts(ids: seq<nat>, files: map<nat, seq<Rec>>)
    requires Ascending(ids)
    ensures forall l :: l in LocsOf(ids, files) <==> l.file in ids && l.file in files && l.idx < |files[l.file]|
    ensures Distinct(LocsOf(ids, files))
  {
    if ids != [] {
      var f, rest := ids[0], LocsOf(ids[1..], files);
      LocsOfFacts(ids[1..], files);
      var own := if f in files then seq(|files[f]|, i requires 0 <= i < |files[f]| => Loc(f, i)) else [];
      assert LocsOf(ids, files) == own + rest;
      forall l
        ensures l in own <==> l.file == f && f in files && l.idx < |files[f]|
      {
        if l.file == f && f in files && l.idx < |files[f]| {
          assert own[l.idx] == l;
        }
      }
      assert forall x :: x in ids <==> x == f || x in ids[1..];
      assert f !in ids[1..];
      assert forall l :: l in own ==> l !in rest;
    }
  }

  /** Merge begins: inputs are fixed, the first output is created. */
  lemma StartInv(s: State, ids: seq<nat>, bound: nat, s': State)
    requires Inv(s) && Enabled(s, MergeStart(ids, bound)) && StartGuard(s, bound)
    requires s' == NewFile(s).(merge := On(InputsOf(s, bound), Scan, LocsOf(ids, s.files), s.nextId, {s.nextId},
                                           s.nextId, [], 0, ids))
    ensures Inv(s')
  {
    LocsOfFacts(ids, s.files);
    assert forall f :: f in ids <==> f in InputsOf(s, bound);
    GrowsHas(s, s');
    StartFiles(s, ids, bound, s');
    StartKeydir(s, ids, bound, s');
  }

  lemma StartFiles(s: State, ids: seq<nat>, bound: nat, s': State)
    requires Inv(s) && s.merge.Off? && bound <= s.active && StartGuard(s, bound)
    requires (forall f :: f in ids <==> f in InputsOf(s, bound)) && Grows(s, s')
    requires Distinct(LocsOf(ids, s.files))
    requires forall l :: l in LocsOf(ids, s.files) <==> l.file in ids && l.file in s.files && l.idx < |s.files[l.file]|
    requires s' == NewFile(s).(merge := On(InputsOf(s, bound), Scan, LocsOf(ids, s.files), s.nextId, {s.nextId},
                                           s.nextId, [], 0, ids))
    ensures FilesOk(s') && WritersOk(s') && InputsOk(s') && BatchOk(s') && LeftOk(s')
  {
    hide KeydirOk, ReadersOk, LocsOf;
    GrowsHas(s, s');
    hide Grows;
    assert s.nextId !in s.files && s.nextId !in InputsOf(s, bound);
  }

  lemma StartKeydir(s: State, ids: seq<nat>, bound: nat, s': State)
    requires Inv(s) && s.merge.Off? && bound <= s.active && (forall f :: f in ids <==> f in InputsOf(s, bound))
    requires Grows(s, s')
    requires forall l :: l in LocsOf(ids, s.files) <==> l.file in ids && l.file in s.files && l.idx < |s.files[l.file]|
    requires s' == NewFile(s).(merge := On(InputsOf(s, bound), Scan, LocsOf(ids, s.files), s.nextId, {s.nextId},
                                           s.nextId, [], 0, ids))
    ensures KeydirOk(s') && PublishedOk(s') && ReadersOk(s') && PendingOk(s') && CoverOk(s')
  {
    hide WritersOk, LocsOf;
    GrowsHas(s, s');
  }

  /** What survives a step of merge's own bookkeeping. */
  lemma BookkeepingKeeps(s: State, s': State)
    requires Inv(s) && s' == s.(merge := s'.merge) && s.merge.On? && s'.merge.On?
    requires s'.merge.inputs == s.merge.inputs && s'.merge.outputs == s.merge.outputs && s'.merge.cur == s.merge.cur
    ensures FilesOk(s') && KeydirOk(s') && PublishedOk(s') && WritersOk(s') && ReadersOk(s')
  {
    hide PendingOk, CoverOk, BatchOk;
  }

  /** The liveness check. */
  lemma CheckInv(s: State, s': State)
    requires Inv(s) && Enabled(s, MergeCheck) && s' == Step(s, MergeCheck)
    ensures Inv(s')
  {
    BookkeepingKeeps(s, s');
    hide FilesOk, PublishedOk, WritersOk, ReadersOk;
    var l := s.merge.todo[0];
    if At(s, l).value.Some? && Lookup(s.keydir, At(s, l).key) == Some(l) {
      CheckLive(s, s');
    } else {
      CheckDead(s, s');
    }
  }

  lemma CheckLive(s: State, s': State)
    requires Inv(s) && Enabled(s, MergeCheck)
    requires At(s, s.merge.todo[0]).value.Some? && Lookup(s.keydir, At(s, s.merge.todo[0]).key) == Some(s.merge.todo[0])
    requires s' == s.(merge := s.merge.(phase := Writing(Ver(s, At(s, s.merge.todo[0]).key))))
    ensures InputsOk(s') && PendingOk(s') && BatchOk(s') && CoverOk(s') && LeftOk(s')
  {
    hide FilesOk, PublishedOk, WritersOk, ReadersOk;
    forall i | 0 <= i < |s.merge.pending|
      ensures PendOk(s', s.merge.pending[i])
    {
      assert PendOk(s, s.merge.pending[i]);
    }
    SameQueue(s.merge, s'.merge);
  }

  lemma SameQueue(m: Merge, n: Merge)
    requires m.On? && n.On? && n.pending == m.pending
    ensures forall l :: Queued(n, l) <==> Queued(m, l)
  {
    forall l
      ensures Queued(n, l) <==> Queued(m, l)
    {
    }
  }

  lemma CheckDead(s: State, s': State)
    requires Inv(s) && Enabled(s, MergeCheck)
    requires At(s, s.merge.todo[0]).value.None? || Lookup(s.keydir, At(s, s.merge.todo[0]).key) != Some(s.merge.todo[0])
    requires s' == s.(merge := s.merge.(todo := s.merge.todo[1..]))
    ensures InputsOk(s') && PendingOk(s') && BatchOk(s') && CoverOk(s') && LeftOk(s')
  {
    hide FilesOk, PublishedOk, WritersOk, ReadersOk;
    forall i | 0 <= i < |s.merge.pending|
      ensures PendOk(s', s.merge.pending[i])
    {
      assert PendOk(s, s.merge.pending[i]);
    }
    SameQueue(s.merge, s'.merge);
    forall k | k in s.keydir && s.keydir[k].file in s.merge.inputs
      ensures s.keydir[k] in s'.merge.todo || Queued(s'.merge, s.keydir[k])
    {
      assert Good(s, k, s.keydir[k]);
      assert s.keydir[k] != s.merge.todo[0];
    }
  }

  /** The state after an unflushed copy, with its repoint queued as `p`. */
  predicate CopyQueued(s: State, p: Pend, s': State)
    requires Enabled(s, MergeWrite)
  {
    && p == Pend(At(s, s.merge.todo[0]).key, s.merge.todo[0], Loc(s.merge.cur, |s.files[s.merge.cur]|),
                 s.merge.phase.version)
    && s' == s.(files := s.files[s.merge.cur := s.files[s.merge.cur] + [At(s, s.merge.todo[0])]],
                merge := s.merge.(phase := Settling, todo := s.merge.todo[1..], since := s.merge.since + 1,
                                  pending := s.merge.pending + [p]))
  }

  /** The unflushed write of a copy and the queueing of its repoint. */
  lemma WriteInv(s: State, s': State)
    requires Inv(s) && Enabled(s, MergeWrite) && s' == Step(s, MergeWrite)
    ensures Inv(s')
  {
    var p := Pend(At(s, s.merge.todo[0]).key, s.merge.todo[0], Loc(s.merge.cur, |s.files[s.merge.cur]|),
                  s.merge.phase.version);
    assert Grows(s, s');
    WriteFiles(s, p, s');
    WritePointers(s, p, s');
    WritePending(s, p, s');
  }

  lemma WriteFiles(s: State, p: Pend, s': State)
    requires Inv(s) && Enabled(s, MergeWrite) && Grows(s, s') && CopyQueued(s, p, s')
    ensures FilesOk(s') && InputsOk(s') && BatchOk(s') && LeftOk(s')
  {
    hide PendingOk, CoverOk, KeydirOk, PublishedOk, WritersOk, ReadersOk;
    GrowsHas(s, s');
  }

  lemma WritePointers(s: State, p: Pend, s': State)
    requires Inv(s) && Enabled(s, MergeWrite) && Grows(s, s') && CopyQueued(s, p, s')
    ensures KeydirOk(s') && PublishedOk(s') && WritersOk(s') && ReadersOk(s')
  {
    hide PendingOk, CoverOk, FilesOk, InputsOk, BatchOk, LeftOk;
    GrowsHas(s, s');
  }

  lemma WritePending(s: State, p: Pend, s': State)
    requires Inv(s) && Enabled(s, MergeWrite) && Grows(s, s') && CopyQueued(s, p, s')
    ensures PendingOk(s') && CoverOk(s')
  {
    hide FilesOk, WritersOk, ReadersOk, BatchOk, LeftOk, KeydirOk, CoverOk, PublishedOk, PendOk, Queued;
    WriteCover(s, p, s');
    var q := s'.merge.pending;
    forall i | 0 <= i < |q|
      ensures PendOk(s', q[i]) && q[i].was !in s'.merge.todo
    {
      if i < |s.merge.pending| {
        OldPending(s, s', s.merge.pending[i]);
      } else {
        NewPending(s, p, s');
      }
    }
    forall i, j | 0 <= i < j < |q|
      ensures q[i].was != q[j].was && q[i].becomes != q[j].becomes
    {
      WasBelow(s, s.merge.pending[i]);
    }
  }

  lemma OldPending(s: State, s': State, p: Pend)
    requires PendOk(s, p) && Grows(s, s') && s'.merge.On?
    requires s'.merge.inputs == s.merge.inputs && s'.merge.outputs == s.merge.outputs
    requires s'.keydir == s.keydir && s'.versions == s.versions && s'.published == s.published
    ensures PendOk(s', p)
  {
    GrowsHas(s, s');
  }

  lemma NewPending(s: State, p: Pend, s': State)
    requires Inv(s) && Enabled(s, MergeWrite) && Grows(s, s') && CopyQueued(s, p, s')
    ensures PendOk(s', p) && p.was !in s'.merge.todo
  {
    hide FilesOk, WritersOk, ReadersOk, BatchOk, LeftOk, KeydirOk, CoverOk;
    GrowsHas(s, s');
    assert At(s', p.becomes) == At(s, p.was);
  }

  lemma WasBelow(s: State, p: Pend)
    requires PendOk(s, p)
    ensures HasRec(s, p.becomes)
  {
  }

  /** What pointed at the copied record is now queued. */
  lemma WriteCover(s: State, p: Pend, s': State)
    requires Inv(s) && Enabled(s, MergeWrite) && CopyQueued(s, p, s')
    ensures CoverOk(s')
  {
    hide FilesOk, WritersOk, ReadersOk, BatchOk, LeftOk, KeydirOk, PendingOk, PublishedOk, InputsOk;
    var q := s'.merge.pending;
    forall k | k in s.keydir && s.keydir[k].file in s.merge.inputs
      ensures s.keydir[k] in s'.merge.todo || Queued(s'.merge, s.keydir[k])
    {
      if Queued(s.merge, s.keydir[k]) {
        var i :| 0 <= i < |s.merge.pending| && s.merge.pending[i].was == s.keydir[k];
        assert q[i].was == s.keydir[k];
      } else if s.keydir[k] == p.was {
        assert q[|q| - 1].was == s.keydir[k];
      }
    }
  }

  /** A flush of the current output. */
  lemma FlushInv(s: State, m: Merge, s': State)
    requires Inv(s) && s.merge.On? && s.merge.cur in s.files && s' == FlushFile(s, s.merge.cur).(merge := m)
    requires m.On? && m == s.merge.(phase := m.phase, since := 0) && m.phase.Drain?
    requires m.phase.final ==> m.todo == []
    requires s.merge.phase.Settling? || s.merge.phase.Scan?
    ensures Inv(s')
  {
    assert Grows(s, s');
    GrowsHas(s, s');
    FlushPending(s, m, s');
    hide PendingOk, CoverOk;
  }

  lemma FlushPending(s: State, m: Merge, s': State)
    requires Inv(s) && s.merge.On? && s'.files == s.files && s'.keydir == s.keydir && s'.published == s.published
    requires s'.versions == s.versions && s'.merge == m
    requires m.On? && m.pending == s.merge.pending && m.todo == s.merge.todo
    requires (m.phase.Writing? ==> m.phase == s.merge.phase)
    requires m.inputs == s.merge.inputs && s.merge.outputs <= m.outputs
    ensures PendingOk(s') && CoverOk(s')
  {
    hide FilesOk, WritersOk, ReadersOk, BatchOk, LeftOk, KeydirOk, InputsOk;
    forall i | 0 <= i < |m.pending|
      ensures PendOk(s', m.pending[i])
    {
      assert PendOk(s, s.merge.pending[i]);
    }
    SameQueue(s.merge, m);
  }

  /** A rotation of the output: flush, close, next file. */
  lemma RotateInv(s: State, s': State)
    requires Inv(s) && Enabled(s, MergeSettle) && s' == RotatedOutput(s, s.merge)
    ensures Inv(s')
  {
    assert Rotated(s, s') && Grows(s, s');
    hide FilesOk, KeydirOk, WritersOk, ReadersOk, PendingOk, CoverOk;
    RotateFiles(s, s');
    RotateInputs(s, s');
    RotatePointers(s, s');
    RotatePending(s, s');
  }

  predicate Rotated(s: State, s': State) {
    && s.merge.On? && s.merge.phase.Settling? && s.merge.cur in s.files
    && s' == NewFile(FlushFile(s, s.merge.cur)).(merge := s.merge.(phase := Drain(false), since := 0, cur := s.nextId,
      outputs := s.merge.outputs + {s.nextId},
      highest := if s.nextId > s.merge.highest then s.nextId else s.merge.highest))
  }

  lemma RotateFiles(s: State, s': State)
    requires Inv(s) && Rotated(s, s') && Grows(s, s')
    ensures FilesOk(s') && BatchOk(s')
  {
    hide PendingOk, CoverOk, KeydirOk, WritersOk, ReadersOk, PublishedOk, LeftOk, InputsOk, Grows;
    assert s.nextId !in s.files;
    forall f | f in s'.files
      ensures f < s'.nextId && f in s'.visible && s'.visible[f] == |s'.files[f]|
    {
      assert f == s.nextId || f in s.files;
    }
  }

  lemma RotateInputs(s: State, s': State)
    requires Inv(s) && Rotated(s, s') && Grows(s, s')
    ensures InputsOk(s') && LeftOk(s')
  {
    hide PendingOk, CoverOk, KeydirOk, WritersOk, ReadersOk, PublishedOk, BatchOk;
    GrowsHas(s, s');
  }

  lemma RotatePointers(s: State, s': State)
    requires Inv(s) && Rotated(s, s') && Grows(s, s')
    ensures KeydirOk(s') && PublishedOk(s') && WritersOk(s') && ReadersOk(s')
  {
    hide PendingOk, CoverOk, InputsOk, BatchOk;
    GrowsHas(s, s');
  }

  lemma RotatePending(s: State, s': State)
    requires Inv(s) && s.merge.On? && s.merge.cur in s.files && Grows(s, s')
    requires s'.keydir == s.keydir && s'.published == s.published && s'.versions == s.versions
    requires s'.merge.On? && s'.merge.pending == s.merge.pending && s'.merge.todo == s.merge.todo
    requires !s'.merge.phase.Writing?
    requires s'.merge.inputs == s.merge.inputs && s.merge.outputs <= s'.merge.outputs
    ensures PendingOk(s') && CoverOk(s')
  {
    hide FilesOk, WritersOk, ReadersOk, BatchOk, LeftOk, KeydirOk, InputsOk;
    GrowsHas(s, s');
    forall i | 0 <= i < |s.merge.pending|
      ensures PendOk(s', s.merge.pending[i])
    {
      assert PendOk(s, s.merge.pending[i]);
    }
    SameQueue(s.merge, s'.merge);
  }

  /** Neither rotation nor flush was due. */
  lemma ContinueInv(s: State, s': State)
    requires Inv(s) && s.merge.On? && s.merge.phase.Settling? && s.merge.since < MERGE_FLUSH_BATCH_SIZE
    requires s' == s.(merge := s.merge.(phase := Scan))
    ensures Inv(s')
  {
    hide FilesOk, KeydirOk, PublishedOk, WritersOk, ReadersOk;
    BookkeepingKeeps(s, s');
    FlushPending(s, s'.merge, s');
  }

  /** The state after a compare-and-swap that succeeds. */
  function CasWon(s: State): State
    requires s.merge.On? && s.merge.pending != []
  {
    var p := s.merge.pending[0];
    s.(merge := s.merge.(pending := s.merge.pending[1..]), keydir := s.keydir[p.key := p.becomes],
       published := s.published + {p.becomes})
  }

  /** One compare-and-swap. */
  lemma CasInv(s: State, s': State)
    requires Inv(s) && Enabled(s, MergeCas) && s' == Step(s, MergeCas)
    ensures Inv(s')
  {
    var p := s.merge.pending[0];
    assert PendOk(s, p);
    if Lookup(s.keydir, p.key) == Some(p.was) {
      CasWinsPending(s, s');
      CasWinsPointers(s, s');
      CasWinsRest(s, s');
      CasCover(s, s');
    } else {
      CasLoses(s, s');
    }
  }

  lemma CasWinsPending(s: State, s': State)
    requires Inv(s) && Enabled(s, MergeCas)
    requires Lookup(s.keydir, s.merge.pending[0].key) == Some(s.merge.pending[0].was) && s' == CasWon(s)
    ensures PendingOk(s')
  {
    hide FilesOk, WritersOk, ReadersOk, BatchOk, LeftOk, KeydirOk, InputsOk, CoverOk;
    var p := s.merge.pending[0];
    assert PendOk(s, p);
    forall i | 0 <= i < |s'.merge.pending|
      ensures PendOk(s', s'.merge.pending[i])
    {
      assert s'.merge.pending[i] == s.merge.pending[i + 1];
      assert PendOk(s, s.merge.pending[i + 1]);
    }
  }

  lemma CasWinsRest(s: State, s': State)
    requires Inv(s) && Enabled(s, MergeCas) && PendOk(s, s.merge.pending[0])
    requires s' == CasWon(s)
    ensures FilesOk(s') && ReadersOk(s') && InputsOk(s') && BatchOk(s') && LeftOk(s') && HandlesOk(s')
  {
    hide PendingOk, CoverOk, KeydirOk, PublishedOk, WritersOk;
    GrowsHas(s, s');
  }

  lemma CasWinsPointers(s: State, s': State)
    requires Inv(s) && Enabled(s, MergeCas) && PendOk(s, s.merge.pending[0])
    requires s' == CasWon(s)
    ensures KeydirOk(s') && PublishedOk(s') && WritersOk(s')
  {
    hide PendingOk, CoverOk, ReadersOk, LeftOk, HandlesOk;
    GrowsHas(s, s');
  }

  /** Popping the head of the queue uncovers nothing: either it was repointed or nobody points there. */
  lemma CasCover(s: State, s': State)
    requires Inv(s) && Enabled(s, MergeCas) && s'.merge == s.merge.(pending := s.merge.pending[1..])
    requires PendOk(s, s.merge.pending[0])
    requires s'.keydir == s.keydir[s.merge.pending[0].key := s.merge.pending[0].becomes] ||
      (s'.keydir == s.keydir && Lookup(s.keydir, s.merge.pending[0].key) != Some(s.merge.pending[0].was))
    ensures CoverOk(s')
  {
    hide FilesOk, WritersOk, ReadersOk, BatchOk, LeftOk, PublishedOk, PendingOk;
    var p := s.merge.pending[0];
    forall k | k in s'.keydir && s'.keydir[k].file in s.merge.inputs
      ensures s'.keydir[k] in s.merge.todo || Queued(s'.merge, s'.keydir[k])
    {
      assert p.becomes.file !in s.merge.inputs;
      assert s'.keydir[k] == s.keydir[k];
      assert Good(s, k, s.keydir[k]);
      assert s.keydir[k] != p.was;
      if Queued(s.merge, s.keydir[k]) {
        var i :| 0 <= i < |s.merge.pending| && s.merge.pending[i].was == s.keydir[k];
        assert s'.merge.pending[i - 1].was == s.keydir[k];
      }
    }
  }

  lemma CasLoses(s: State, s': State)
    requires Inv(s) && Enabled(s, MergeCas) && PendOk(s, s.merge.pending[0])
    requires Lookup(s.keydir, s.merge.pending[0].key) != Some(s.merge.pending[0].was)
    requires s' == s.(merge := s.merge.(pending := s.merge.pending[1..]))
    ensures Inv(s')
  {
    BookkeepingKeeps(s, s');
    CasCover(s, s');
    hide FilesOk, KeydirOk, PublishedOk, WritersOk, ReadersOk, CoverOk;
    forall i | 0 <= i < |s'.merge.pending|
      ensures PendOk(s', s'.merge.pending[i])
    {
      assert s'.merge.pending[i] == s.merge.pending[i + 1];
      assert PendOk(s, s.merge.pending[i + 1]);
    }
  }

  lemma DrainedInv(s: State, s': State)
    requires Inv(s) && Enabled(s, MergeDrained)
    requires s' == s.(merge := s.merge.(phase := if s.merge.phase.final then Unlink else Scan))
    ensures Inv(s')
  {
    hide FilesOk, KeydirOk, PublishedOk, WritersOk, ReadersOk, CoverOk, PendingOk;
    BookkeepingKeeps(s, s');
    FlushPending(s, s'.merge, s');
  }

  /** Once everything is drained no pointer, published or not, leads into an input. */
  lemma NothingPointsAtInputs(s: State, k: Key)
    requires Inv(s) && s.merge.On? && s.merge.todo == [] && s.merge.pending == []
    ensures k in s.keydir ==> s.keydir[k].file !in s.merge.inputs
  {
    hide FilesOk, KeydirOk, PublishedOk, WritersOk, ReadersOk, PendingOk, InputsOk, LeftOk, BatchOk;
  }

  /** Unlinking an input. */
  lemma UnlinkInv(s: State, s': State)
    requires Inv(s) && Enabled(s, MergeUnlink)
    requires s' == s.(linked := s.linked - {s.merge.left[0]}, merge := s.merge.(phase := Forget))
    ensures Inv(s')
  {
    forall k | k in s.keydir
      ensures s.keydir[k].file !in s.merge.inputs
    {
      NothingPointsAtInputs(s, k);
    }
    assert s.merge.left[0] in s.merge.inputs;
    UnlinkFiles(s, s');
    hide FilesOk, WritersOk, KeydirOk;
    FlushPending(s, s'.merge, s');
  }

  lemma UnlinkFiles(s: State, s': State)
    requires Inv(s) && Enabled(s, MergeUnlink) && s.merge.left[0] in s.merge.inputs
    requires forall k :: k in s.keydir ==> s.keydir[k].file !in s.merge.inputs
    requires s' == s.(linked := s.linked - {s.merge.left[0]}, merge := s.merge.(phase := Forget))
    ensures FilesOk(s') && WritersOk(s') && KeydirOk(s') && PublishedOk(s') && InputsOk(s')
  {
    hide PendingOk, CoverOk, ReadersOk;
  }

  lemma ForgetInv(s: State, s': State)
    requires Inv(s) && Enabled(s, MergeForget)
    requires s' == s.(handles := s.handles - {s.merge.left[0]},
                      merge := s.merge.(phase := Unlink, left := s.merge.left[1..]))
    ensures Inv(s')
  {
    hide KeydirOk, ReadersOk, PendingOk, CoverOk, PublishedOk, WritersOk;
    BookkeepingKeeps(s, s.(merge := s'.merge));
    FlushPending(s, s'.merge, s');
    ForgetRest(s, s');
  }

  lemma ForgetRest(s: State, s': State)
    requires Inv(s) && Enabled(s, MergeForget)
    requires s' == s.(handles := s.handles - {s.merge.left[0]},
                      merge := s.merge.(phase := Unlink, left := s.merge.left[1..]))
    ensures KeydirOk(s') && PublishedOk(s') && WritersOk(s') && ReadersOk(s') && FilesOk(s')
  {
    hide PendingOk, CoverOk;
  }

  /** The active file becomes the newest again. */
  lemma RestoreInv(s: State, s': State)
    requires Inv(s) && Enabled(s, MergeRestore) && s' == Step(s, MergeRestore)
    ensures Inv(s') && forall o :: o in s.merge.outputs ==> o < s'.active
  {
    assert Grows(s, s');
    RestoreFiles(s, s');
    RestorePointers(s, s');
  }

  lemma RestoreFiles(s: State, s': State)
    requires Inv(s) && Enabled(s, MergeRestore) && Grows(s, s')
    requires s' == (if s.active <= s.merge.highest then NewFile(s).(active := s.nextId) else s).(merge := Off)
    ensures FilesOk(s') && PublishedOk(s') && ReadersOk(s')
    ensures forall o :: o in s.merge.outputs ==> o < s'.active
  {
    hide PendingOk, CoverOk, KeydirOk, WritersOk;
    GrowsHas(s, s');
  }

  lemma RestorePointers(s: State, s': State)
    requires Inv(s) && Enabled(s, MergeRestore) && Grows(s, s')
    requires s' == (if s.active <= s.merge.highest then NewFile(s).(active := s.nextId) else s).(merge := Off)
    ensures KeydirOk(s') && WritersOk(s')
  {
    hide PendingOk, CoverOk, ReadersOk, InputsOk, BatchOk;
    GrowsHas(s, s');
  }

  /** Every step keeps the invariant, provided merges start under the guard. */
  lemma StepInv(s: State, a: Action)
    requires Inv(s) && Enabled(s, a) && (a.MergeStart? ==> StartGuard(s, a.bound))
    ensures Inv(Step(s, a))
  {
    if MergeStep(a) {
      MergeStepInv(s, a);
    } else {
      CallerStepInv(s, a);
    }
  }

  lemma CallerStepInv(s: State, a: Action)
    requires Inv(s) && Enabled(s, a) && !MergeStep(a)
    ensures Inv(Step(s, a))
  {
    hide Inv, MergeNext;
    var s' := Step(s, a);
    match a
    case PutAppend(t, k, v) =>
      var l, r := Loc(s.active, |s.files[s.active]|), Rec(k, Some(v));
      PutOrDeleteAppended(s, t, r, PutAppended(k, l), Fills(s, r), s');
    case DelAppend(t) =>
      var r := Rec(s.writers[t].key, None);
      PutOrDeleteAppended(s, t, r, DelAppended(r.key), Fills(s, r), s');
    case PutInsert(t) => InsertInv(s, t, s.writers[t], s');
    case DelRemove(t) => RemoveInv(s, t, s.writers[t].key, s');
    case DelCheck(t, k) =>
      if k in s.keydir {
        DelCheckInv(s, t, k, s');
      }
    case GetLookup(t, k) =>
      LookupInv(s, t, k, s');
    case GetFetch(t) => FetchInv(s, t, s');
    case GetRead(t) => ReadInv(s, t, s');
  }

  lemma PutOrDeleteAppended(s: State, t: Tid, r: Rec, w: Writer, rotate: bool, s': State)
    requires Inv(s) && t in s.writers && s.active in s.files && s.active in s.visible
    requires w.DelAppended? || (w == PutAppended(r.key, Loc(s.active, |s.files[s.active]|)) && r.value.Some?)
    requires s' == Appended(s, r, rotate).(writers := s.writers[t := w])
    ensures Inv(s')
  {
    hide Inv;
    var s1 := Appended(s, r, false).(writers := s.writers[t := w]);
    AppendInv(s, t, r, w, s1);
    if rotate {
      NewActiveInv(s1, s');
    }
  }

  lemma GetFacts(s: State, t: Tid)
    requires Inv(s) && t in s.readers
    ensures ReaderOk(s, s.readers[t])
  {
    hide KeydirOk, PublishedOk, WritersOk, InputsOk, PendingOk, BatchOk, CoverOk;
  }

  lemma LookupInv(s: State, t: Tid, k: Key, s': State)
    requires Inv(s) && t in s.readers
    requires s' == s.(readers := s.readers[t := if k in s.keydir then LookedUp(s, s.keydir[k]) else Missed])
    ensures Inv(s')
  {
    hide Inv;
    if k in s.keydir {
      PointerGood(s, k);
    }
    ReaderInv(s, t, s'.readers[t], s.handles, s');
  }

  lemma PointerGood(s: State, k: Key)
    requires Inv(s) && k in s.keydir
    ensures Good(s, k, s.keydir[k])
  {
    hide FilesOk, PublishedOk, WritersOk, ReadersOk, InputsOk, PendingOk, BatchOk, CoverOk, LeftOk, HandlesOk;
  }

  lemma FetchInv(s: State, t: Tid, s': State)
    requires Inv(s) && t in s.readers && s.readers[t].Looked?
    requires s' == Fetched(s, t, s.readers[t].loc, s.readers[t].seen)
    ensures Inv(s')
  {
    hide Inv;
    GetFacts(s, t);
    ReaderInv(s, t, s'.readers[t], s'.handles, s');
  }

  lemma ReadInv(s: State, t: Tid, s': State)
    requires Inv(s) && t in s.readers && s.readers[t].Holding?
    requires s' == s.(readers := s.readers[t := ReadBack(s, s.readers[t].loc, s.readers[t].seen)])
    ensures Inv(s')
  {
    hide Inv;
    GetFacts(s, t);
    ReaderInv(s, t, ReadBack(s, s.readers[t].loc, s.readers[t].seen), s.handles, s');
  }

  lemma MergeStepInv(s: State, a: Action)
    requires Inv(s) && Enabled(s, a) && MergeStep(a) && (a.MergeStart? ==> StartGuard(s, a.bound))
    ensures Inv(Step(s, a))
  {
    hide Inv;
    var s' := Step(s, a);
    match a
    case MergeStart(ids, bound) => StartInv(s, ids, bound, s');
    case MergeCheck => CheckInv(s, s');
    case MergeWrite => WriteInv(s, s');
    case MergeSettle =>
      if OutputFull(s) {
        RotateInv(s, s');
      } else if s.merge.since >= MERGE_FLUSH_BATCH_SIZE {
        FlushInv(s, s'.merge, s');
      } else {
        ContinueInv(s, s');
      }
    case MergeFinish => FlushInv(s, s'.merge, s');
    case MergeCas => CasInv(s, s');
    case MergeDrained => DrainedInv(s, s');
    case MergeUnlink => UnlinkInv(s, s');
    case MergeForget => ForgetInv(s, s');
    case MergeRestore => RestoreInv(s, s');
  }
}
