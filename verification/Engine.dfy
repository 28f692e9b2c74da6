/** The store as one caller uses it: open, get, put, delete, list, fold, merge, reopen. */
module Engine {
  import opened Bytes
  import opened Format
  import opened EntryFormat
  import opened Index
  import opened Recovery
  import opened DiskState
  import opened LogFacts
  import opened Files
  import opened MergeWriter
  import opened MergeFacts
  import opened MergeRun
  import opened EngineFacts

  datatype Error = EmptyKey | Io

  datatype Result<+T> = Success(value: T) | Failure(error: Error)

  /** The plain map a view stands for. */
  function PlainMap(view: map<Key, Reading>): map<Key, Value> {
    map k | k in view && view[k].Content? :: view[k].value
  }

  /** The directory after `bytes` were appended to file `a` and flushed; if that has filled the file, the next
      one is there, empty. */
  function AfterAppend(fs: FileState, a: nat, bytes: seq<Byte>, maxFileSize: nat, next: nat): FileState
    requires a in fs.data
  {
    var written := fs.AppendData(a, bytes).FlushData(a);
    if |fs.data[a].bytes| + |bytes| >= maxFileSize then written.CreateData(next) else written
  }

  class Engine {
    const h: Checksum
    const dir: Directory
    const keydir: Keydir
    const counter: IdCounter
    const maxFileSize: nat
    var active: ActiveFile

    ghost predicate Valid()
      reads this, dir, keydir, counter, active
    {
      && active.dir == dir && active.Valid() && maxFileSize <= MAX_FILE_SIZE
      && StoreOk(h, dir.fs, keydir.entries, active.fileId, counter.next)
    }

    /** What every key reads as. */
    ghost function View(): map<Key, Reading>
      reads this, dir, keydir
    {
      ViewOf(dir.fs.OnDisk(), keydir.entries)
    }

    /** The store as a plain map. */
    ghost function Contents(): map<Key, Value>
      reads this, dir, keydir
    {
      PlainMap(View())
    }

    /** Recovers the keydir from the files found, then starts a fresh active file above them. Any
        directory opens; it makes a valid store exactly if its trusted hint files tell the truth
        and none bears an id still to be handed out. */
    constructor Open(h: Checksum, dir: Directory, maxFileSize: nat)
      requires dir.fs.AllFlushed() && maxFileSize <= MAX_FILE_SIZE
      modifies dir
      ensures Valid() <==> DirOk(h, old(dir.fs.OnDisk()))
      ensures this.dir == dir && this.h == h && this.maxFileSize == maxFileSize
      ensures fresh(keydir) && fresh(counter) && fresh(active) && active.dir == dir
      ensures keydir.entries == Recovered(h, old(dir.fs.OnDisk()))
      ensures View() == StoreView(h, old(dir.fs.OnDisk()))
      ensures active.fileId == NextId(old(dir.fs.OnDisk()).data.Keys) && counter.next == active.fileId + 1
      ensures dir.fs == old(dir.fs).CreateData(active.fileId)
      ensures dir.trace == old(dir.trace) + [dir.fs]
    {
      hide Recovered, StoreOk, DirOk, ViewOf;
      var d := dir.fs.OnDisk();
      var fileIds := Discover(d);
      var kd := new Keydir();
      Recover(h, d, fileIds, kd);
      LastId(d, fileIds);
      var nextId := if fileIds == [] then 0 else fileIds[|fileIds| - 1] + 1;
      OpenAny(h, dir.fs, kd.entries, nextId);
      var file := new ActiveFile(dir, nextId);
      var ids := new IdCounter(nextId + 1);
      this.h, this.dir, this.maxFileSize := h, dir, maxFileSize;
      keydir, counter, active := kd, ids, file;
    }

    /** Reads the value bytes an entry points at, through a handle of its own. */
    method ReadValue(p: KeydirEntry) returns (r: Result<Value>)
      ensures r == match ReadAt(dir.fs.OnDisk(), p) case Unreadable => Failure(Io) case Content(v, _) => Success(v)
    {
      match ReadAt(dir.fs.OnDisk(), p)
      case Unreadable => r := Failure(Io);
      case Content(v, _) => r := Success(v);
    }

    /** In a valid store a get never fails; otherwise it fails only if the value is not there. */
    method Get(key: Key) returns (r: Result<Option<Value>>)
      ensures Valid() ==> r == Success(Lookup(Contents(), key))
      ensures r == if Lookup(View(), key) == Some(Unreadable) then Failure(Io) else Success(Lookup(Contents(), key))
    {
      hide StoreOk;
      if Valid() {
        AllReadable(h, dir.fs, keydir.entries, active.fileId, counter.next);
      }
      var e := keydir.Get(key);
      if e.Some? {
        var v := ReadValue(e.value);
        r := match v case Success(x) => Success(Some(x)) case Failure(err) => Failure(err);
      } else {
        r := Success(None);
      }
    }

    /** Appends one encoded entry and rotates once the file is large enough; the
        keydir is not touched yet. */
    method Append(key: Key, value: Value, tombstone: bool, timestamp: U32) returns (fileId: nat, valuePos: nat)
      requires Valid()
      modifies this, dir, counter, active
      ensures active.dir == dir && active.Valid() && (active == old(active) || fresh(active))
      ensures fileId == old(active.fileId) && valuePos == old(active.offset) + HEADER_SIZE + |key|
      ensures fileId in old(dir.fs.data)
      ensures dir.fs == AfterAppend(old(dir.fs), fileId, EntryBytes(h, key, value, tombstone, timestamp), maxFileSize,
                                    old(counter.next))
      ensures
        if valuePos + |value| >= maxFileSize
        then active.fileId == old(counter.next) && counter.next == active.fileId + 1
        else active == old(active) && counter.next == old(counter.next)
      ensures Encodable(key, value) ==>
        var effect := AppendEffect(old(active.fileId), old(active.offset), key, value, tombstone, timestamp);
        var kd := Apply(keydir.entries, effect);
        && StoreOk(h, dir.fs, kd, active.fileId, counter.next)
        && ViewOf(dir.fs.OnDisk(), kd) == ViewAfter(old(View()), key, value, tombstone, timestamp)
      ensures Encodable(key, value) ==>
        TraceOldOrNew(h, dir.trace, old(dir.trace), old(View()),
                      ViewAfter(old(View()), key, value, tombstone, timestamp))
    {
      hide StoreOk, EntryBytes, Apply, AppendEffect, ViewAfter, ViewOf, OldOrNew, TraceOldOrNew;
      ghost var fs0, a, next := dir.fs, active.fileId, counter.next;
      ghost var view := View();
      ghost var kd := map[];
      StoreParts(h, fs0, keydir.entries, a, next);
      var bytes, valueLen := EncodeEntry(h, key, value, tombstone, timestamp);
      AppendedDisk(fs0, a, bytes);
      ghost var t := dir.trace;
      if Encodable(key, value) {
        kd := Apply(keydir.entries, AppendEffect(a, active.offset, key, value, tombstone, timestamp));
        AppendStore(h, fs0, keydir.entries, a, next, key, value, tombstone, timestamp);
        AppendTrace(h, fs0, t, keydir.entries, a, next, key, value, tombstone, timestamp);
      }
      var id, pos, _ := active.Append(bytes, valueLen);
      fileId, valuePos := id, pos;
      RotateIfDue(Encodable(key, value), kd, t, view);
    }

    /** Rotation: sync the full file, then start the next one. */
    method RotateIfDue(ghost fits: bool, ghost kd: Entries, ghost start: seq<FileState>, ghost before: map<Key,
                       Reading>)
      requires active.dir == dir && active.Valid() && dir.fs.AllFlushed()
      requires fits ==> StoreOk(h, dir.fs, kd, active.fileId, counter.next)
      requires fits ==> TraceOldOrNew(h, dir.trace, start, before, ViewOf(dir.fs.OnDisk(), kd))
      modifies this`active, dir, counter
      ensures active.dir == dir && active.Valid() && (active == old(active) || fresh(active))
      ensures
        if old(active.offset) >= maxFileSize
        then active.fileId == old(counter.next) && counter.next == active.fileId + 1
             && dir.fs == old(dir.fs).CreateData(active.fileId)
        else active == old(active) && counter.next == old(counter.next) && dir.fs == old(dir.fs)
      ensures fits ==> StoreOk(h, dir.fs, kd, active.fileId, counter.next)
      ensures fits ==> ViewOf(dir.fs.OnDisk(), kd) == old(ViewOf(dir.fs.OnDisk(), kd))
      ensures fits ==> TraceOldOrNew(h, dir.trace, start, before, ViewOf(dir.fs.OnDisk(), kd))
    {
      hide StoreOk, ViewOf, OldOrNew, TraceOldOrNew;
      if active.offset >= maxFileSize {
        ghost var fs, a, next := dir.fs, active.fileId, counter.next;
        FlushNothing(fs, a);
        if fits {
          RotateTrace(h, fs, kd, a, next, dir.trace, start, before);
        }
        active.Sync();
        var newId := counter.FetchAdd();
        active := new ActiveFile(dir, newId);
      }
    }

    /** An entry that fits its header becomes the key's value now and for every session to come;
        one that does not is lost in one of the two. */
    method Put(key: Key, value: Value, timestamp: U32) returns (r: Result<()>)
      requires Valid()
      modifies this, dir, keydir, counter, active
      ensures active.dir == dir && (active == old(active) || fresh(active))
      ensures r == if key == [] then Failure(EmptyKey) else Success(())
      ensures key == [] ==> dir.fs == old(dir.fs) && keydir.entries == old(keydir.entries)
      ensures key == [] || Encodable(key, value) ==>
        Valid() && TraceOldOrNew(h, dir.trace, old(dir.trace), old(View()), View())
      ensures key == [] ==> View() == old(View())
      ensures key != [] && Encodable(key, value) ==> View() == old(View())[key := Content(value, timestamp)]
      ensures key != [] ==> (Encodable(key, value) <==> Keeps(h, dir.fs.OnDisk(), keydir.entries, key, value))
      ensures old(active.fileId) in old(dir.fs.data)
      ensures key != [] ==>
        dir.fs == AfterAppend(old(dir.fs), old(active.fileId), EntryBytes(h, key, value, false, timestamp), maxFileSize,
                              old(counter.next))
    {
      hide StoreOk, ViewOf, TraceOldOrNew, Keeps, EntryBytes;
      if key == [] {
        NoStates(h, dir.trace, View(), View());
        return Failure(EmptyKey);
      }
      var fileId, valuePos := Append(key, value, false, timestamp);
      keydir.Insert(key, KeydirEntry(fileId, |value| % 0x1_0000_0000, valuePos, timestamp));
      if Encodable(key, value) {
        KeepsFitting(h, dir.fs, keydir.entries, active.fileId, counter.next, key, value, timestamp);
      } else {
        LosesOversize(h, dir.fs.OnDisk(), keydir.entries, key, value);
      }
      r := Success(());
    }

    /** Deleting an absent key does nothing; otherwise a tombstone is appended. */
    method Delete(key: Key, timestamp: U32) returns (r: Result<()>)
      requires Valid()
      modifies this, dir, keydir, counter, active
      ensures Valid() && (active == old(active) || fresh(active))
      ensures r == if key == [] then Failure(EmptyKey) else Success(())
      ensures key == [] || key !in old(keydir.entries) ==>
        dir.fs == old(dir.fs) && keydir.entries == old(keydir.entries)
      ensures key == [] ==> View() == old(View())
      ensures key != [] ==> View() == old(View()) - {key}
      ensures TraceOldOrNew(h, dir.trace, old(dir.trace), old(View()), View())
      ensures old(active.fileId) in old(dir.fs.data)
      ensures key != [] && key in old(keydir.entries) ==>
        dir.fs == AfterAppend(old(dir.fs), old(active.fileId), EntryBytes(h, key, [], true, timestamp), maxFileSize,
                              old(counter.next))
    {
      hide StoreOk, TraceOldOrNew, EntryBytes;
      NoStates(h, dir.trace, View(), View());
      if key == [] {
        return Failure(EmptyKey);
      }
      var e := keydir.Get(key);
      if e.None? {
        assert View() - {key} == View();
        return Success(());
      }
      StoreKeyFits(h, dir.fs, keydir.entries, active.fileId, counter.next, key);
      var _, _ := Append(key, [], true, timestamp);
      var _ := keydir.Remove(key);
      r := Success(());
    }

    /** Every key of the store, once. */
    method ListKeys() returns (keys: seq<Key>)
      ensures |keys| == |keydir.entries|
      ensures forall i, j :: 0 <= i < j < |keys| ==> keys[i] != keys[j]
      ensures forall k :: k in keys <==> k in keydir.entries
    {
      var pairs := keydir.Snapshot();
      keys := seq(|pairs|, i requires 0 <= i < |pairs| => pairs[i].0);
      forall k | k in keydir.entries
        ensures k in keys
      {
        var i :| 0 <= i < |pairs| && pairs[i] == (k, keydir.entries[k]);
        assert keys[i] == k;
      }
    }

    /** Folds `f` over every pair of the store, each once, in some order. */
    method Fold<A>(f: (Key, Value, A) -> A, init: A) returns (r: Result<A>)
      requires Valid()
      ensures exists visited :: EachOnce(visited, Contents()) && r == Success(FoldOver(f, init, visited))
    {
      hide StoreOk, FoldOver, ReadAt, ViewOf, PlainMap;
      ghost var m := Contents();
      var pairs := keydir.Snapshot();
      PairsRead(h, dir.fs, keydir.entries, active.fileId, counter.next, pairs);
      ghost var visited: seq<(Key, Value)> := [];
      var acc := init;
      FoldNothing(f, init);
      var i := 0;
      while i < |pairs|
        invariant 0 <= i <= |pairs| && |visited| == i
        invariant forall j :: 0 <= j < i ==> visited[j].0 == pairs[j].0 && Lookup(m, visited[j].0) == Some(visited[j].1)
        invariant acc == FoldOver(f, init, visited)
      {
        var value := ReadValue(pairs[i].1);
        if value.Failure? {
          assert false;
        }
        FoldMore(f, init, visited, pairs[i].0, value.value);
        visited := visited + [(pairs[i].0, value.value)];
        acc := f(pairs[i].0, value.value, acc);
        i := i + 1;
      }
      r := Success(acc);
      assert EachOnce(visited, Contents());
    }

    /** Compaction through the engine's own fields. */
    method Merge() returns (live: nat)
      requires Valid()
      modifies this, dir, keydir, counter
      ensures Valid() && (active == old(active) || fresh(active))
      ensures View() == old(View())
      ensures (forall id :: id in old(dir.fs.data) ==> id >= old(active.fileId)) ==>
        dir.fs == old(dir.fs) && active == old(active)
      ensures TraceSafe(h, BaseOf(old(dir.fs), old(keydir.entries), old(active.fileId)), dir.trace, old(dir.trace))
      ensures Compacted(h, BaseOf(old(dir.fs), old(keydir.entries), old(active.fileId)), dir.fs.OnDisk(),
                        keydir.entries, live)
    {
      hide StoreOk, ViewOf, TraceSafe, Compacted;
      var file, n, _ := MergeRun.Merge(h, dir, keydir, active, counter, maxFileSize);
      active := file;
      live := n;
    }
  }

  /** The key has the value, both now and after the store is opened again. */
  ghost predicate Keeps(h: Checksum, d: Disk, kd: Entries, key: Key, value: Value) {
    && Lookup(PlainMap(ViewOf(d, kd)), key) == Some(value)
    && Lookup(PlainMap(StoreView(h, d)), key) == Some(value)
  }

  lemma KeepsFitting(h: Checksum, fs: FileState, kd: Entries, a: nat, next: nat, key: Key, value: Value, timestamp: U32)
    requires StoreOk(h, fs, kd, a, next) && Lookup(ViewOf(fs.OnDisk(), kd), key) == Some(Content(value, timestamp))
    ensures Keeps(h, fs.OnDisk(), kd, key, value)
  {
    hide Recovered, DirOk, ActiveOk, ReadAt;
  }

  /** A value too long is cut to its size field; a key too long is not read back. */
  lemma LosesOversize(h: Checksum, d: Disk, kd: Entries, key: Key, value: Value)
    requires !Encodable(key, value) && key in kd && kd[key].valueSize == |value| % 0x1_0000_0000
    ensures !Keeps(h, d, kd, key, value)
  {
    hide Recovered;
    if |key| > MAX_KEY_LEN && key in Recovered(h, d) {
      RecoveredKeyFits(h, d, key);
    }
  }

  lemma NoStates(h: Checksum, trace: seq<FileState>, before: map<Key, Reading>, after: map<Key, Reading>)
    ensures TraceOldOrNew(h, trace, trace, before, after)
  {
  }

  /** In a valid store every key reads. */
  lemma AllReadable(h: Checksum, fs: FileState, kd: Entries, a: nat, next: nat)
    requires StoreOk(h, fs, kd, a, next)
    ensures forall k :: k in kd ==> ReadAt(fs.OnDisk(), kd[k]).Content?
  {
    hide Recovered, DirOk;
    forall k | k in kd
      ensures ReadAt(fs.OnDisk(), kd[k]).Content?
    {
      RecoveredPoints(h, fs.OnDisk(), k);
    }
  }

  /** Each pair of a snapshot reads as the store says. */
  lemma PairsRead(h: Checksum, fs: FileState, kd: Entries, a: nat, next: nat, pairs: seq<(Key, KeydirEntry)>)
    requires StoreOk(h, fs, kd, a, next)
    requires forall i :: 0 <= i < |pairs| ==> pairs[i].0 in kd && kd[pairs[i].0] == pairs[i].1
    ensures
      var m := PlainMap(ViewOf(fs.OnDisk(), kd));
      |m| == |kd| && forall i :: 0 <= i < |pairs| ==>
        ReadAt(fs.OnDisk(), pairs[i].1).Content? && Lookup(m, pairs[i].0) == Some(ReadAt(fs.OnDisk(), pairs[i].1).value)
  {
    hide StoreOk, ReadAt;
    AllReadable(h, fs, kd, a, next);
    var m := PlainMap(ViewOf(fs.OnDisk(), kd));
    assert m.Keys == kd.Keys;
    assert |m| == |m.Keys| && |kd| == |kd.Keys|;
  }

  /** The pairs of `m`, every one exactly once. */
  predicate EachOnce(pairs: seq<(Key, Value)>, m: map<Key, Value>) {
    && |pairs| == |m|
    && (forall i :: 0 <= i < |pairs| ==> Lookup(m, pairs[i].0) == Some(pairs[i].1))
    && (forall i, j :: 0 <= i < j < |pairs| ==> pairs[i].0 != pairs[j].0)
  }

  function FoldOver<A>(f: (Key, Value, A) -> A, init: A, pairs: seq<(Key, Value)>): A {
    if pairs == [] then init
    else
      var (k, v) := pairs[|pairs| - 1];
      f(k, v, FoldOver(f, init, pairs[..|pairs| - 1]))
  }

  lemma FoldNothing<A>(f: (Key, Value, A) -> A, init: A)
    ensures FoldOver(f, init, []) == init
  {
  }

  lemma FoldMore<A>(f: (Key, Value, A) -> A, init: A, pairs: seq<(Key, Value)>, k: Key, v: Value)
    ensures FoldOver(f, init, pairs + [(k, v)]) == f(k, v, FoldOver(f, init, pairs))
  {
    assert (pairs + [(k, v)])[..|pairs|] == pairs;
  }

  // --- Runs -----------------------------------------------------------------------

  datatype Op =
    | Put(key: Key, value: Value, timestamp: U32)
    | Delete(key: Key, timestamp: U32)
    | Get(key: Key)
    | Reopen
    | Merge

  /** The sizes of what is put fit in an entry's header. */
  predicate OpFits(op: Op) {
    op.Put? && op.key != [] ==> Encodable(op.key, op.value)
  }

  /** The reference: a plain map. */
  function ModelStep(m: map<Key, Value>, op: Op): map<Key, Value> {
    match op
    case Put(k, v, _) => if k == [] then m else m[k := v]
    case Delete(k, _) => if k == [] then m else m - {k}
    case _ => m
  }

  datatype Answer = Done | Refused | Found(value: Option<Value>)

  function ModelAnswer(m: map<Key, Value>, op: Op): Answer {
    match op
    case Put(k, _, _) => if k == [] then Refused else Done
    case Delete(k, _) => if k == [] then Refused else Done
    case Get(k) => Found(Lookup(m, k))
    case _ => Done
  }

  function ModelRun(m: map<Key, Value>, ops: seq<Op>): map<Key, Value> {
    if ops == [] then m else ModelStep(ModelRun(m, ops[..|ops| - 1]), ops[|ops| - 1])
  }

  function ModelAnswers(m: map<Key, Value>, ops: seq<Op>): (answers: seq<Answer>)
    ensures |answers| == |ops|
  {
    if ops == [] then []
    else
      var before := ops[..|ops| - 1];
      ModelAnswers(m, before) + [ModelAnswer(ModelRun(m, before), ops[|ops| - 1])]
  }

  /** The operation sets `k` or takes it away. */
  predicate Writes(op: Op, k: Key) {
    k != [] && (op.Put? || op.Delete?) && op.key == k
  }

  /** After `ops` the key `k` has the value `v`: that of the last write of it, if there was one, and
      otherwise the one it started with. */
  ghost predicate LastSays(m: map<Key, Value>, ops: seq<Op>, k: Key, v: Option<Value>) {
    && ((forall j :: 0 <= j < |ops| ==> !Writes(ops[j], k)) ==> v == Lookup(m, k))
    && forall j :: 0 <= j < |ops| && Writes(ops[j], k) && (forall l :: j < l < |ops| ==> !Writes(ops[l], k)) ==>
         v == if ops[j].Put? then Some(ops[j].value) else None
  }

  /** A get after `before` found what those operations say; only an empty key is refused. */
  ghost predicate RightAnswer(m: map<Key, Value>, before: seq<Op>, op: Op, answer: Answer) {
    match op
    case Get(k) => answer.Found? && LastSays(m, before, k, answer.value)
    case Put(k, _, _) => answer == if k == [] then Refused else Done
    case Delete(k, _) => answer == if k == [] then Refused else Done
    case _ => answer == Done
  }

  ghost predicate Answered(m: map<Key, Value>, ops: seq<Op>, answers: seq<Answer>)
    requires |answers| == |ops|
  {
    forall i :: 0 <= i < |ops| ==> RightAnswer(m, ops[..i], ops[i], answers[i])
  }

  lemma WriteSays(m: map<Key, Value>, ops: seq<Op>, op: Op, k: Key)
    requires Writes(op, k)
    ensures LastSays(m, ops + [op], k, if op.Put? then Some(op.value) else None)
  {
    assert (ops + [op])[|ops|] == op;
  }

  lemma OtherSays(m: map<Key, Value>, ops: seq<Op>, op: Op, k: Key, v: Option<Value>)
    requires LastSays(m, ops, k, v) && !Writes(op, k)
    ensures LastSays(m, ops + [op], k, v)
  {
    hide Writes;
    var more := ops + [op];
    assert forall j :: 0 <= j < |ops| ==> more[j] == ops[j];
    forall j | 0 <= j < |more| && Writes(more[j], k) && (forall l :: j < l < |more| ==> !Writes(more[l], k))
      ensures v == if more[j].Put? then Some(more[j].value) else None
    {
      assert j < |ops| && Writes(ops[j], k);
      forall l | j < l < |ops|
        ensures !Writes(ops[l], k)
      {
        assert !Writes(more[l], k);
      }
    }
  }

  lemma {:induction false} RunSays(m: map<Key, Value>, ops: seq<Op>, k: Key)
    ensures LastSays(m, ops, k, Lookup(ModelRun(m, ops), k))
  {
    if ops != [] {
      hide LastSays;
      var init, last := ops[..|ops| - 1], ops[|ops| - 1];
      assert init + [last] == ops;
      RunSays(m, init, k);
      if Writes(last, k) {
        WriteSays(m, init, last, k);
      } else {
        OtherSays(m, init, last, k, Lookup(ModelRun(m, init), k));
      }
    }
  }

  lemma ModelRight(m: map<Key, Value>, ops: seq<Op>, op: Op)
    ensures RightAnswer(m, ops, op, ModelAnswer(ModelRun(m, ops), op))
  {
    hide LastSays, ModelRun;
    if op.Get? {
      RunSays(m, ops, op.key);
    }
  }

  lemma AnsweredMore(m: map<Key, Value>, ops: seq<Op>, answers: seq<Answer>, op: Op, answer: Answer)
    requires |answers| == |ops| && Answered(m, ops, answers) && RightAnswer(m, ops, op, answer)
    ensures Answered(m, ops + [op], answers + [answer])
  {
    hide RightAnswer;
    var more := ops + [op];
    forall i | 0 <= i < |more|
      ensures RightAnswer(m, more[..i], more[i], (answers + [answer])[i])
    {
      if i < |ops| {
        assert more[..i] == ops[..i];
      } else {
        assert more[..i] == ops;
      }
    }
  }

  lemma {:induction false} ModelAnswered(m: map<Key, Value>, ops: seq<Op>)
    ensures Answered(m, ops, ModelAnswers(m, ops))
  {
    if ops != [] {
      hide RightAnswer, ModelRun, ModelAnswer;
      var init, last := ops[..|ops| - 1], ops[|ops| - 1];
      ModelAnswered(m, init);
      ModelRight(m, init, last);
      AnsweredMore(m, init, ModelAnswers(m, init), last, ModelAnswer(ModelRun(m, init), last));
      assert init + [last] == ops;
    }
  }

  /** Whatever a crash leaves of `fs` opens, as the plain map `m` or as `m'`. */
  ghost predicate CrashesTo(h: Checksum, fs: FileState, m: map<Key, Value>, m': map<Key, Value>) {
    forall d :: MayCrashTo(fs, d) ==>
      DirOk(h, d) && (PlainMap(StoreView(h, d)) == m || PlainMap(StoreView(h, d)) == m')
  }

  ghost predicate StatesCrashTo(h: Checksum, trace: seq<FileState>, start: seq<FileState>,
                                m: map<Key, Value>, m': map<Key, Value>) {
    start <= trace && forall i :: |start| <= i < |trace| ==> CrashesTo(h, trace[i], m, m')
  }

  lemma OldOrNewCrashes(h: Checksum, trace: seq<FileState>, start: seq<FileState>,
                        before: map<Key, Reading>, after: map<Key, Reading>)
    requires TraceOldOrNew(h, trace, start, before, after)
    ensures StatesCrashTo(h, trace, start, PlainMap(before), PlainMap(after))
  {
    hide DirOk, PlainMap, StoreView, MayCrashTo;
    forall i | |start| <= i < |trace|
      ensures CrashesTo(h, trace[i], PlainMap(before), PlainMap(after))
    {
      assert OldOrNew(h, trace[i], before, after);
    }
  }

  lemma SafeCrashes(h: Checksum, b: Base, trace: seq<FileState>, start: seq<FileState>)
    requires TraceSafe(h, b, trace, start) && b.kd == Recovered(h, b.disk)
    ensures StatesCrashTo(h, trace, start, PlainMap(ViewOf(b.disk, b.kd)), PlainMap(ViewOf(b.disk, b.kd)))
  {
    hide DirOk, PlainMap, MayCrashTo, Recovered, ViewOf;
    var m := PlainMap(ViewOf(b.disk, b.kd));
    forall i | |start| <= i < |trace|
      ensures CrashesTo(h, trace[i], m, m)
    {
      assert CrashSafe(h, b, trace[i]);
    }
  }

  lemma OpenCrashes(h: Checksum, fs: FileState, kd: Entries, a: nat, next: nat, trace: seq<FileState>)
    requires StoreOk(h, fs, kd, a, next)
    ensures StatesCrashTo(h, trace + [fs], trace, PlainMap(ViewOf(fs.OnDisk(), kd)), PlainMap(ViewOf(fs.OnDisk(), kd)))
  {
    hide StoreOk, OldOrNew, PlainMap, ViewOf;
    var view := ViewOf(fs.OnDisk(), kd);
    QuietCrash(h, fs, kd, a, next, view);
    OldOrNewCrashes(h, trace + [fs], trace, view, view);
  }

  /** The keydir is what recovery finds in `fs`, and one fresh empty file is added to write to. */
  ghost predicate StartsOver(e: Engine, fs: FileState)
    reads e, e.dir, e.keydir
  {
    && e.keydir.entries == Recovered(e.h, fs.OnDisk()) && e.active.fileId == NextId(fs.OnDisk().data.Keys)
    && e.dir.fs == fs.CreateData(e.active.fileId)
  }

  /** The operation has an entry to append. */
  predicate WritesEntry(op: Op, kd: Entries) {
    (op.Put? && op.key != []) || (op.Delete? && op.key != [] && op.key in kd)
  }

  function OpBytes(h: Checksum, op: Op): seq<Byte>
    requires op.Put? || op.Delete?
  {
    EntryBytes(h, op.key, if op.Put? then op.value else [], op.Delete?, op.timestamp)
  }

  /** The store holds `m`, both now and after it is opened again. */
  ghost predicate HoldsMap(e: Engine, m: map<Key, Value>)
    reads e, e.dir, e.keydir
  {
    e.Contents() == m && PlainMap(StoreView(e.h, e.dir.fs.OnDisk())) == m
  }

  /** One operation, as the reference does it; a crash at any moment of it leaves the map before
      or the map after. All this holds if and only if what is put fits in an entry. A get changes nothing,
      a reopen starts over from what is on disk, and a merge compacts. */
  method Perform(e: Engine, op: Op) returns (e': Engine, answer: Answer)
    requires e.Valid()
    modifies e, e.dir, e.keydir, e.counter, e.active
    ensures e'.dir == e.dir && e'.h == e.h && (e' == e || fresh(e'))
    ensures e'.keydir == e.keydir || fresh(e'.keydir)
    ensures e'.counter == e.counter || fresh(e'.counter)
    ensures e'.active == old(e.active) || fresh(e'.active)
    ensures answer == ModelAnswer(old(e.Contents()), op)
    ensures OpFits(op) ==>
      e'.Valid() && StatesCrashTo(e.h, e.dir.trace, old(e.dir.trace), old(e.Contents()), e'.Contents())
    ensures OpFits(op) <==> HoldsMap(e', ModelStep(old(e.Contents()), op))
    ensures old(e.active.fileId) in old(e.dir.fs.data)
    ensures WritesEntry(op, old(e.keydir.entries)) ==>
      e.dir.fs == AfterAppend(old(e.dir.fs), old(e.active.fileId), OpBytes(e.h, op), e.maxFileSize,
                              old(e.counter.next))
    ensures op.Get? ==> e' == e && e.dir.fs == old(e.dir.fs) && e.keydir.entries == old(e.keydir.entries)
    ensures op.Reopen? ==> fresh(e') && StartsOver(e', old(e.dir.fs))
    ensures op.Merge? ==> exists live :: Compacted(e.h, BaseOf(old(e.dir.fs), old(e.keydir.entries),
                                                              old(e.active.fileId)),
                                                   e.dir.fs.OnDisk(), e'.keydir.entries, live)
  {
    hide StoreOk, ViewOf, Compacted, StartsOver, StatesCrashTo, HoldsMap, ModelStep, ModelAnswer, PlainMap,
         StoreView, Keeps;
    if op.Put? {
      answer := PerformPut(e, op);
      e' := e;
    } else if op.Delete? {
      answer := PerformDelete(e, op);
      e' := e;
    } else {
      e', answer := PerformRest(e, op);
    }
  }

  method PerformPut(e: Engine, op: Op) returns (answer: Answer)
    requires e.Valid() && op.Put?
    modifies e, e.dir, e.keydir, e.counter, e.active
    ensures e.active == old(e.active) || fresh(e.active)
    ensures answer == ModelAnswer(old(e.Contents()), op)
    ensures OpFits(op) ==>
      e.Valid() && StatesCrashTo(e.h, e.dir.trace, old(e.dir.trace), old(e.Contents()), e.Contents())
    ensures OpFits(op) <==> HoldsMap(e, ModelStep(old(e.Contents()), op))
    ensures old(e.active.fileId) in old(e.dir.fs.data)
    ensures WritesEntry(op, old(e.keydir.entries)) ==>
      e.dir.fs == AfterAppend(old(e.dir.fs), old(e.active.fileId), OpBytes(e.h, op), e.maxFileSize,
                              old(e.counter.next))
  {
    hide StoreOk, ViewOf, TraceOldOrNew, StatesCrashTo, StoreView;
    ghost var view, start := e.View(), e.dir.trace;
    var r := e.Put(op.key, op.value, op.timestamp);
    answer := if r.Success? then Done else Refused;
    if OpFits(op) {
      assert op.key != [] ==> PlainMap(e.View()) == PlainMap(view)[op.key := op.value];
      OldOrNewCrashes(e.h, e.dir.trace, start, view, e.View());
      Reopenable(e);
    }
  }

  method PerformDelete(e: Engine, op: Op) returns (answer: Answer)
    requires e.Valid() && op.Delete?
    modifies e, e.dir, e.keydir, e.counter, e.active
    ensures e.active == old(e.active) || fresh(e.active)
    ensures answer == ModelAnswer(old(e.Contents()), op)
    ensures e.Valid() && StatesCrashTo(e.h, e.dir.trace, old(e.dir.trace), old(e.Contents()), e.Contents())
    ensures HoldsMap(e, ModelStep(old(e.Contents()), op))
    ensures old(e.active.fileId) in old(e.dir.fs.data)
    ensures WritesEntry(op, old(e.keydir.entries)) ==>
      e.dir.fs == AfterAppend(old(e.dir.fs), old(e.active.fileId), OpBytes(e.h, op), e.maxFileSize,
                              old(e.counter.next))
  {
    hide StoreOk, ViewOf, TraceOldOrNew, StatesCrashTo, StoreView;
    ghost var view, start := e.View(), e.dir.trace;
    var r := e.Delete(op.key, op.timestamp);
    answer := if r.Success? then Done else Refused;
    assert op.key != [] ==> PlainMap(e.View()) == PlainMap(view) - {op.key};
    OldOrNewCrashes(e.h, e.dir.trace, start, view, e.View());
    Reopenable(e);
  }

  method PerformRest(e: Engine, op: Op) returns (e': Engine, answer: Answer)
    requires e.Valid() && !op.Put? && !op.Delete?
    modifies e, e.dir, e.keydir, e.counter
    ensures e'.dir == e.dir && e'.h == e.h && (e' == e || fresh(e'))
    ensures e'.keydir == e.keydir || fresh(e'.keydir)
    ensures e'.counter == e.counter || fresh(e'.counter)
    ensures e'.active == old(e.active) || fresh(e'.active)
    ensures answer == ModelAnswer(old(e.Contents()), op)
    ensures e'.Valid() && StatesCrashTo(e.h, e.dir.trace, old(e.dir.trace), old(e.Contents()), e'.Contents())
    ensures HoldsMap(e', ModelStep(old(e.Contents()), op))
    ensures op.Get? ==> e' == e && e.dir.fs == old(e.dir.fs) && e.keydir.entries == old(e.keydir.entries)
    ensures op.Reopen? ==> fresh(e') && StartsOver(e', old(e.dir.fs))
    ensures op.Merge? ==> exists live :: Compacted(e.h, BaseOf(old(e.dir.fs), old(e.keydir.entries),
                                                              old(e.active.fileId)),
                                                   e.dir.fs.OnDisk(), e'.keydir.entries, live)
  {
    hide StoreOk, ViewOf, TraceSafe, Compacted, CrashesTo, PlainMap, StoreView;
    e' := e;
    ghost var start := e.dir.trace;
    Reopenable(e);
    if op.Get? {
      var r := e.Get(op.key);
      answer := Found(r.value);
    } else if op.Reopen? {
      e' := new Engine.Open(e.h, e.dir, e.maxFileSize);
      OpenCrashes(e.h, e'.dir.fs, e'.keydir.entries, e'.active.fileId, e'.counter.next, start);
      answer := Done;
    } else {
      ghost var b := BaseOf(e.dir.fs, e.keydir.entries, e.active.fileId);
      var live := e.Merge();
      SafeCrashes(e.h, b, e.dir.trace, start);
      answer := Done;
    }
    Reopenable(e');
  }

  /** A valid store can be closed and opened again at any time, with the same view. */
  lemma Reopenable(e: Engine)
    requires e.Valid()
    ensures e.dir.fs.AllFlushed() && DirOk(e.h, e.dir.fs.OnDisk())
    ensures Recovered(e.h, e.dir.fs.OnDisk()) == e.keydir.entries
    ensures StoreView(e.h, e.dir.fs.OnDisk()) == e.View()
  {
    hide Recovered, DirOk, ActiveOk;
  }

  /** A crash in any of the states `trace[from..to]` leaves the map `m` or the map `m'`. */
  ghost predicate SpanCrashesTo(h: Checksum, trace: seq<FileState>, from: nat, to: nat,
                                m: map<Key, Value>, m': map<Key, Value>) {
    from <= to <= |trace| && forall t :: from <= t < to ==> CrashesTo(h, trace[t], m, m')
  }

  /** `marks[i]` is how much history there was before the `i`-th operation: a crash at any moment
      of that operation leaves the map of the first `i` operations or of the first `i + 1`. */
  ghost predicate CrashConsistent(h: Checksum, start: seq<FileState>, trace: seq<FileState>, marks: seq<nat>,
                                  m: map<Key, Value>, ops: seq<Op>) {
    && start <= trace && |marks| == |ops| + 1 && marks[0] == |start| && marks[|ops|] == |trace|
    && forall i :: 0 <= i < |ops| ==>
         SpanCrashesTo(h, trace, marks[i], marks[i + 1], ModelRun(m, ops[..i]), ModelRun(m, ops[..i + 1]))
  }

  lemma NoOps(h: Checksum, trace: seq<FileState>, m: map<Key, Value>, ops: seq<Op>)
    requires ops == []
    ensures CrashConsistent(h, trace, trace, [|trace|], m, ops)
  {
  }

  lemma OneMoreOp(h: Checksum, start: seq<FileState>, before: seq<FileState>, trace: seq<FileState>, marks: seq<nat>,
                  m: map<Key, Value>, ops: seq<Op>, op: Op)
    requires CrashConsistent(h, start, before, marks, m, ops)
    requires StatesCrashTo(h, trace, before, ModelRun(m, ops), ModelRun(m, ops + [op]))
    ensures CrashConsistent(h, start, trace, marks + [|trace|], m, ops + [op])
  {
    hide CrashesTo, ModelRun, SpanCrashesTo, StatesCrashTo;
    var marks', ops' := marks + [|trace|], ops + [op];
    LongerTrace(h, before, trace, ModelRun(m, ops), ModelRun(m, ops'));
    forall i | 0 <= i < |ops'|
      ensures SpanCrashesTo(h, trace, marks'[i], marks'[i + 1], ModelRun(m, ops'[..i]), ModelRun(m, ops'[..i + 1]))
    {
      if i < |ops| {
        assert ops'[..i] == ops[..i] && ops'[..i + 1] == ops[..i + 1];
        SpanKeeps(h, before, trace, marks[i], marks[i + 1], ModelRun(m, ops[..i]), ModelRun(m, ops[..i + 1]));
      } else {
        assert ops'[..i] == ops && ops'[..i + 1] == ops';
      }
    }
  }

  lemma LongerTrace(h: Checksum, before: seq<FileState>, trace: seq<FileState>, m: map<Key, Value>, m': map<Key, Value>)
    requires StatesCrashTo(h, trace, before, m, m')
    ensures before <= trace && SpanCrashesTo(h, trace, |before|, |trace|, m, m')
  {
    hide CrashesTo;
  }

  lemma SpanKeeps(h: Checksum, before: seq<FileState>, trace: seq<FileState>, from: nat, to: nat,
                  m: map<Key, Value>, m': map<Key, Value>)
    requires before <= trace && SpanCrashesTo(h, before, from, to, m, m')
    ensures SpanCrashesTo(h, trace, from, to, m, m')
  {
    hide CrashesTo;
    forall t | from <= t < to
      ensures CrashesTo(h, trace[t], m, m')
    {
      assert trace[t] == before[t];
    }
  }

  lemma ModelMore(m: map<Key, Value>, ops: seq<Op>, op: Op)
    ensures ModelRun(m, ops + [op]) == ModelStep(ModelRun(m, ops), op)
    ensures ModelAnswers(m, ops + [op]) == ModelAnswers(m, ops) + [ModelAnswer(ModelRun(m, ops), op)]
  {
    assert (ops + [op])[..|ops|] == ops;
  }

  /** Every run of put, delete, get, reopen and merge answers as a plain map would, and a crash
      at any moment of it loses at most the operation in progress; up to the first put that does
      not fit in an entry, which the store cannot keep. */
  method Run(e: Engine, ops: seq<Op>) returns (e': Engine, answers: seq<Answer>, ghost marks: seq<nat>)
    requires e.Valid()
    modifies e, e.dir, e.keydir, e.counter, e.active
    ensures e'.Valid() && e'.dir == e.dir && e'.h == e.h
    ensures |answers| <= |ops| && forall i :: 0 <= i < |answers| ==> OpFits(ops[i])
    ensures |answers| < |ops| ==> !OpFits(ops[|answers|])
    ensures answers == ModelAnswers(old(e.Contents()), ops[..|answers|])
    ensures e'.Contents() == ModelRun(old(e.Contents()), ops[..|answers|])
    ensures Answered(old(e.Contents()), ops[..|answers|], answers)
    ensures forall k :: LastSays(old(e.Contents()), ops[..|answers|], k, Lookup(e'.Contents(), k))
    ensures CrashConsistent(e.h, old(e.dir.trace), e.dir.trace, marks, old(e.Contents()), ops[..|answers|])
  {
    hide StoreOk, ViewOf, PlainMap, ModelStep, ModelAnswer, ModelRun, ModelAnswers, CrashConsistent, StatesCrashTo,
         Engine.Valid, StoreView, OpFits, Compacted, StartsOver;
    ghost var m := e.Contents();
    e' := e;
    answers := [];
    marks := [|e.dir.trace|];
    NoOps(e.h, e.dir.trace, m, ops[..0]);
    NoneYet(m, ops[..0]);
    var i := 0;
    while i < |ops| && OpFits(ops[i])
      invariant 0 <= i <= |ops| && |answers| == i && forall j :: 0 <= j < i ==> OpFits(ops[j])
      invariant e'.Valid() && e'.dir == e.dir && e'.h == e.h
      invariant e' == e || fresh(e')
      invariant e'.keydir == e.keydir || fresh(e'.keydir)
      invariant e'.counter == e.counter || fresh(e'.counter)
      invariant e'.active == old(e.active) || fresh(e'.active)
      invariant answers == ModelAnswers(m, ops[..i]) && e'.Contents() == ModelRun(m, ops[..i])
      invariant CrashConsistent(e.h, old(e.dir.trace), e.dir.trace, marks, m, ops[..i])
      decreases |ops| - i
    {
      ghost var before := e.dir.trace;
      var answer;
      e', answer := Perform(e', ops[i]);
      ModelMore(m, ops[..i], ops[i]);
      OneMoreOp(e.h, old(e.dir.trace), before, e.dir.trace, marks, m, ops[..i], ops[i]);
      assert ops[..i] + [ops[i]] == ops[..i + 1];
      marks := marks + [|e.dir.trace|];
      answers := answers + [answer];
      i := i + 1;
    }
    hide Answered, LastSays;
    ModelAnswered(m, ops[..i]);
    forall k
      ensures LastSays(m, ops[..i], k, Lookup(e'.Contents(), k))
    {
      RunSays(m, ops[..i], k);
    }
  }

  lemma NoneYet(m: map<Key, Value>, ops: seq<Op>)
    requires ops == []
    ensures ModelAnswers(m, ops) == [] && ModelRun(m, ops) == m
  {
  }
}
