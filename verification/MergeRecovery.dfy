/** Crashing in the middle of concurrent work: reopening gives the live map, as long as no write
    is overtaken by a copy that a merge makes of an older value. */
module MergeRecovery {
  import opened Bytes
  import opened Format
  import opened Index
  import opened Recovery
  import opened MergeProtocol
  import opened MergeSession
  import opened MergeInterleavings

  // --- The writers and keys this is about ---------------------------------------------

  /** A record is in the log but not yet in the keydir. */
  predicate Pushed(w: Writer) {
    w.PutAppended? || w.DelAppended?
  }

  predicate Busy(s: State, k: Key) {
    exists t :: t in s.writers && Pushed(s.writers[t]) && s.writers[t].key == k
  }

  /** Written, and its file is still in the directory. */
  predicate Listed(s: State, l: Loc) {
    HasRec(s, l) && l.file in s.linked
  }

  /** The liveness check would pass. */
  predicate LiveLoc(s: State, x: Loc) {
    HasRec(s, x) && At(s, x).value.Some? && Lookup(s.keydir, At(s, x).key) == Some(x)
  }

  /** Left alone, the merge copies the `i`-th record still to be scanned. */
  predicate ToBeCopied(s: State, i: nat)
    requires s.merge.On? && i < |s.merge.todo|
  {
    var x := s.merge.todo[i];
    HasRec(s, x) && (LiveLoc(s, x) || (s.merge.phase.Writing? && i == 0))
  }

  /** How many bytes of copies come before that of the `i`-th record still to be scanned. */
  function CopySize(s: State, i: nat): nat
    requires s.merge.On? && i <= |s.merge.todo|
  {
    if i == 0 then 0
    else CopySize(s, i - 1) + if ToBeCopied(s, i - 1) then RecSize(At(s, s.merge.todo[i - 1])) else 0
  }

  /** They fill the current output, so that it is rotated. */
  predicate RotatesBefore(s: State, i: nat)
    requires s.merge.On? && i <= |s.merge.todo|
  {
    && (s.merge.phase.Settling? || CopySize(s, i) > 0)
    && SizeOf(s, s.merge.cur) + CopySize(s, i) >= s.limit
  }

  /** Left alone, the merge copies the `i`-th record still to be scanned, into file `f` or a newer one. */
  predicate CopiesAbove(s: State, i: nat, f: nat) {
    && s.merge.On? && i < |s.merge.todo| && ToBeCopied(s, i)
    && (s.merge.cur >= f || RotatesBefore(s, i))
  }

  /** A record `r` of file `f` has a different record of its key in a newer file, or will have if the merge
      is left alone. */
  ghost predicate Overtaken(s: State, r: Rec, f: nat) {
    || (exists l :: Listed(s, l) && l.file > f && At(s, l).key == r.key && At(s, l) != r)
    || (exists i: nat :: CopiesAbove(s, i, f) && At(s, s.merge.todo[i]).key == r.key && At(s, s.merge.todo[i]) != r)
  }

  /** Writers of one key take turns. */
  predicate TakesTurns(s: State, a: Action)
    requires Enabled(s, a)
  {
    match a
    case PutAppend(_, k, _) => !Busy(s, k)
    case DelAppend(t) => !Busy(s, s.writers[t].key)
    case _ => true
  }

  /** A put of what location `l` says already. */
  predicate Repeats(s: State, w: Writer, l: Loc) {
    w.PutAppended? && HasRec(s, w.loc) && HasRec(s, l) && At(s, w.loc) == At(s, l)
  }

  /** No write is overtaken: neither one that is appended, nor one that a merge finds under way. */
  ghost predicate Clean(s: State, a: Action)
    requires Enabled(s, a)
  {
    match a
    case PutAppend(_, k, v) => !Overtaken(s, Rec(k, Some(v)), s.active)
    case DelAppend(t) => !Overtaken(s, Rec(s.writers[t].key, None), s.active)
    case MergeStart(_, bound) =>
      forall t :: t in s.writers && Pushed(s.writers[t]) && s.writers[t].key in s.keydir ==>
        s.keydir[s.writers[t].key].file in InputsOf(s, bound) ==> Repeats(s, s.writers[t], s.keydir[s.writers[t].key])
    case _ => true
  }

  // --- The invariant ----------------------------------------------------------------------

  /** No later record of `k` says anything other than `t` does. */
  ghost predicate Tops(s: State, k: Key, t: Loc) {
    HasRec(s, t) && forall l :: Listed(s, l) && At(s, l).key == k ==> !Before(t, l) || At(s, l) == At(s, t)
  }

  /** Nor will any record that the merge under way copies. */
  ghost predicate Unovertaken(s: State, k: Key, t: Loc) {
    && Tops(s, k, t)
    && forall i: nat :: CopiesAbove(s, i, t.file) && At(s, s.merge.todo[i]).key == k ==>
         At(s, s.merge.todo[i]) == At(s, t)
  }

  predicate Tomb(s: State, k: Key, d: Loc) {
    Listed(s, d) && Visible(s, d) && At(s, d) == Rec(k, None)
  }

  ghost predicate Buried(s: State, k: Key, l: Loc) {
    exists d :: Before(l, d) && Tomb(s, k, d)
  }

  /** Every live record of `k` is followed by a flushed tombstone. */
  ghost predicate Gone(s: State, k: Key) {
    forall l :: Listed(s, l) && At(s, l).key == k && At(s, l).value.Some? ==> Buried(s, k, l)
  }

  ghost predicate CopyBuried(s: State, k: Key, i: nat) {
    exists d :: Tomb(s, k, d) && !CopiesAbove(s, i, d.file)
  }

  /** So is any that the merge under way copies. */
  ghost predicate Sealed(s: State, k: Key) {
    Gone(s, k) && forall i: nat :: CopiesAbove(s, i, 0) && At(s, s.merge.todo[i]).key == k ==> CopyBuried(s, k, i)
  }

  ghost predicate WriterTruth(s: State, w: Writer) {
    (w.PutAppended? ==> Unovertaken(s, w.key, w.loc)) && (w.DelAppended? ==> Sealed(s, w.key))
  }

  ghost predicate KeyTruth(s: State, k: Key) {
    if k in s.keydir then Unovertaken(s, k, s.keydir[k]) else Sealed(s, k)
  }

  /** The newest word on each key is the keydir's, or that of the writer at work on it. */
  ghost predicate Truths(s: State) {
    && (forall t :: t in s.writers ==> WriterTruth(s, s.writers[t]))
    && forall k :: Busy(s, k) || KeyTruth(s, k)
  }

  predicate Serial(s: State) {
    forall t, u :: t in s.writers && u in s.writers && t != u && Pushed(s.writers[t]) && Pushed(s.writers[u]) ==>
      s.writers[t].key != s.writers[u].key
  }

  predicate InOutput(s: State, l: Loc) {
    HasRec(s, l) && s.merge.On? && l.file in s.merge.outputs
  }

  /** A key that has been copied is not copied again, and what is being copied was live. */
  ghost predicate Once(s: State) {
    s.merge.On? ==>
      && (forall l, i: nat :: InOutput(s, l) && CopiesAbove(s, i, 0) ==> At(s, s.merge.todo[i]).key != At(s, l).key)
      && (forall l, m :: InOutput(s, l) && InOutput(s, m) && At(s, l).key == At(s, m).key ==> l == m)
      && (s.merge.phase.Writing? ==> WasLive(s))
  }

  /** The record being copied is its key's pointer, or the key has since been written elsewhere. */
  predicate WasLive(s: State)
    requires s.merge.On?
  {
    && s.merge.todo != [] && HasRec(s, s.merge.todo[0])
    && var k := At(s, s.merge.todo[0]).key;
       k in s.keydir ==> s.keydir[k] == s.merge.todo[0] || s.keydir[k].file !in s.merge.inputs
  }

  /** Inputs are older than everything else and go away oldest first. */
  predicate InputsOldest(s: State) {
    s.merge.On? ==>
      && Ascending(s.merge.left)
      && (forall f, i :: f in s.linked && f !in s.merge.inputs && i in s.merge.inputs ==> i < f)
  }

  ghost predicate CleanInv(s: State) {
    Truths(s) && Serial(s) && Once(s) && InputsOldest(s)
  }

  // --- Steps that add no record -----------------------------------------------------------

  /** The same records are listed, and what was flushed still is. */
  ghost predicate SameLog(s: State, s': State) {
    && (forall l :: HasRec(s, l) <==> HasRec(s', l))
    && (forall l :: HasRec(s, l) ==> At(s', l) == At(s, l))
    && (forall l :: Listed(s, l) <==> Listed(s', l))
    && (forall l :: Listed(s, l) && Visible(s, l) ==> Visible(s', l))
  }

  /** What the merge may still copy, it might have copied before; `n` records have been passed. */
  ghost predicate FewerCopies(s: State, s': State, n: nat) {
    forall i: nat, f: nat :: CopiesAbove(s', i, f) ==>
      CopiesAbove(s, i + n, f) && s'.merge.todo[i] == s.merge.todo[i + n]
          && At(s', s'.merge.todo[i]) == At(s, s'.merge.todo[i])
  }

  predicate SameWriters(s: State, s': State) {
    && s'.writers.Keys == s.writers.Keys
    && forall t :: t in s.writers ==>
         Pushed(s'.writers[t]) == Pushed(s.writers[t]) && (Pushed(s.writers[t]) ==> s'.writers[t] == s.writers[t])
  }

  lemma BusyKeeps(s: State, s': State, k: Key)
    requires SameWriters(s, s')
    ensures Busy(s', k) <==> Busy(s, k)
  {
    if Busy(s, k) {
      var t :| t in s.writers && Pushed(s.writers[t]) && s.writers[t].key == k;
      assert Pushed(s'.writers[t]);
    }
    if Busy(s', k) {
      var t :| t in s'.writers && Pushed(s'.writers[t]) && s'.writers[t].key == k;
      assert Pushed(s.writers[t]);
    }
  }

  lemma TopsKeeps(s: State, s': State, k: Key, t: Loc)
    requires SameLog(s, s') && Tops(s, k, t)
    ensures Tops(s', k, t)
  {
  }

  lemma GoneKeeps(s: State, s': State, k: Key)
    requires SameLog(s, s') && Gone(s, k)
    ensures Gone(s', k)
  {
    forall l | Listed(s', l) && At(s', l).key == k && At(s', l).value.Some?
      ensures Buried(s', k, l)
    {
      assert Listed(s, l) && Buried(s, k, l);
      var d :| Before(l, d) && Tomb(s, k, d);
      assert Visible(s, d);
      assert Tomb(s', k, d);
    }
  }

  lemma UnovertakenKeeps(s: State, s': State, n: nat, k: Key, t: Loc)
    requires SameLog(s, s') && FewerCopies(s, s', n) && Unovertaken(s, k, t)
    ensures Unovertaken(s', k, t)
  {
    TopsKeeps(s, s', k, t);
    hide Tops;
  }

  lemma SealedKeeps(s: State, s': State, n: nat, k: Key)
    requires SameLog(s, s') && FewerCopies(s, s', n) && Sealed(s, k)
    ensures Sealed(s', k)
  {
    GoneKeeps(s, s', k);
    hide Gone, CopiesAbove;
    forall i: nat | CopiesAbove(s', i, 0) && At(s', s'.merge.todo[i]).key == k
      ensures CopyBuried(s', k, i)
    {
      assert CopyBuried(s, k, i + n);
      var d :| Tomb(s, k, d) && !CopiesAbove(s, i + n, d.file);
      assert Visible(s, d);
      assert Tomb(s', k, d);
    }
  }

  lemma WriterKeeps(s: State, s': State, n: nat, w: Writer)
    requires SameLog(s, s') && FewerCopies(s, s', n) && WriterTruth(s, w)
    ensures WriterTruth(s', w)
  {
    hide SameLog, FewerCopies, Unovertaken, Sealed;
    if w.PutAppended? {
      UnovertakenKeeps(s, s', n, w.key, w.loc);
    } else if w.DelAppended? {
      SealedKeeps(s, s', n, w.key);
    }
  }

  lemma KeyKeeps(s: State, s': State, n: nat, k: Key)
    requires SameLog(s, s') && FewerCopies(s, s', n) && KeyTruth(s, k) && Lookup(s'.keydir, k) == Lookup(s.keydir, k)
    ensures KeyTruth(s', k)
  {
    hide SameLog, FewerCopies, Unovertaken, Sealed;
    if k in s.keydir {
      UnovertakenKeeps(s, s', n, k, s.keydir[k]);
    } else {
      SealedKeeps(s, s', n, k);
    }
  }

  lemma TruthsKeep(s: State, s': State, n: nat)
    requires Truths(s) && SameLog(s, s') && FewerCopies(s, s', n) && SameWriters(s, s') && s'.keydir == s.keydir
    ensures Truths(s')
  {
    hide SameLog, FewerCopies, Unovertaken, Sealed;
    forall t | t in s'.writers
      ensures WriterTruth(s', s'.writers[t])
    {
      assert WriterTruth(s, s.writers[t]);
      WriterKeeps(s, s', n, s.writers[t]);
    }
    forall k
      ensures Busy(s', k) || KeyTruth(s', k)
    {
      BusyKeeps(s, s', k);
      if !Busy(s, k) {
        KeyKeeps(s, s', n, k);
      }
    }
  }

  lemma OnceKeeps(s: State, s': State, n: nat)
    requires Once(s) && s.merge.On? && FewerCopies(s, s', n)
    requires (s'.merge.On? && s'.merge.phase.Writing? ==> WasLive(s'))
    requires forall l :: InOutput(s', l) ==> InOutput(s, l) && At(s', l) == At(s, l)
    ensures Once(s')
  {
    hide CopiesAbove, WasLive;
  }

  /** A step that adds no record, moves no pointer and publishes nothing. */
  lemma SameLogClean(s: State, s': State, n: nat)
    requires CleanInv(s) && SameLog(s, s') && SameWriters(s, s') && s'.keydir == s.keydir
    requires FewerCopies(s, s', n) && InputsOldest(s')
    requires s'.merge.On? ==> s.merge.On? && (s'.merge.phase.Writing? ==> WasLive(s'))
    requires forall l :: InOutput(s', l) ==> InOutput(s, l)
    ensures CleanInv(s')
  {
    TruthsKeep(s, s', n);
    hide Truths, FewerCopies, InputsOldest, CopiesAbove, WasLive;
    if s'.merge.On? {
      OnceKeeps(s, s', n);
    }
    hide SameLog;
    assert Serial(s');
  }

  /** Flushing or caching changes no record. */
  lemma FlushSame(s: State, t: State)
    requires t.files == s.files && t.linked == s.linked
    requires forall f :: f in s.visible ==> f in t.visible && s.visible[f] <= t.visible[f]
    ensures SameLog(s, t)
  {
  }

  /** A new file is empty. */
  lemma NewFileSame(s: State, t: State)
    requires FilesOk(s) && t.files == s.files[s.nextId := []] && t.linked == s.linked + {s.nextId}
    requires forall f :: f in s.visible ==> f in t.visible && s.visible[f] <= t.visible[f]
    ensures SameLog(s, t)
  {
    assert s.nextId !in s.files;
  }

  /** The first `n` records are passed, and of the rest no more is copied than before. */
  ghost predicate NoMore(s: State, s': State, n: nat) {
    && s.merge.On? && s'.merge.On? && |s.merge.todo| == |s'.merge.todo| + n
    && forall j: nat :: j < |s'.merge.todo| ==>
         && s'.merge.todo[j] == s.merge.todo[j + n]
         && (ToBeCopied(s', j) ==> ToBeCopied(s, j + n) && At(s', s'.merge.todo[j]) == At(s, s'.merge.todo[j]))
  }

  lemma {:induction false} NoMoreSize(s: State, s': State, n: nat, i: nat)
    requires NoMore(s, s', n) && i <= |s'.merge.todo|
    ensures CopySize(s', i) + CopySize(s, n) <= CopySize(s, i + n)
  {
    hide LiveLoc;
    if i > 0 {
      NoMoreSize(s, s', n, i - 1);
      assert s'.merge.todo[i - 1] == s.merge.todo[i - 1 + n];
    }
  }

  /** A step that keeps the current output, and adds to it at most what was to be copied there. */
  lemma NoMoreCopies(s: State, s': State, n: nat)
    requires NoMore(s, s', n) && s'.merge.cur == s.merge.cur && s'.limit == s.limit
    requires SizeOf(s', s.merge.cur) <= SizeOf(s, s.merge.cur) + CopySize(s, n)
    requires s'.merge.phase.Settling? ==> s.merge.phase.Settling? || CopySize(s, n) > 0
    ensures FewerCopies(s, s', n)
  {
    hide ToBeCopied, CopySize, SizeOf;
    forall i: nat, f: nat | CopiesAbove(s', i, f)
      ensures CopiesAbove(s, i + n, f)
    {
      assert s'.merge.todo[i] == s.merge.todo[i + n];
      NoMoreSize(s, s', n, i);
    }
  }

  /** With the same records to scan, in the same phase, the same is copied. */
  lemma SameCopies(s: State, s': State)
    requires s'.merge == s.merge && s'.limit == s.limit
    requires s.merge.On? ==> SizeOf(s', s.merge.cur) == SizeOf(s, s.merge.cur)
    requires s.merge.On? ==> forall x :: x in s.merge.todo && HasRec(s', x) ==> HasRec(s, x) && At(s', x) == At(s, x)
    requires s.merge.On? ==> forall x :: x in s.merge.todo && LiveLoc(s', x) ==> LiveLoc(s, x)
    ensures FewerCopies(s, s', 0)
  {
    hide LiveLoc, SizeOf, HasRec, FewerCopies;
    if s.merge.On? {
      forall j: nat | j < |s'.merge.todo| && ToBeCopied(s', j)
        ensures ToBeCopied(s, j) && At(s', s'.merge.todo[j]) == At(s, s'.merge.todo[j])
      {
        assert s.merge.todo[j] in s.merge.todo;
      }
      NoMoreCopies(s, s', 0);
    } else {
      NoCopies(s, s');
    }
  }

  /** With nothing left to scan, nothing more is copied. */
  lemma NoCopies(s: State, s': State)
    requires s'.merge.On? ==> s'.merge.todo == []
    ensures FewerCopies(s, s', 0)
  {
  }

  lemma ReadersClean(s: State, s': State)
    requires Inv(s) && CleanInv(s)
    requires s' == s.(readers := s'.readers, handles := s'.handles, writers := s'.writers) && SameWriters(s, s')
    ensures CleanInv(s')
  {
    FlushSame(s, s');
    assert forall x :: LiveLoc(s', x) ==> LiveLoc(s, x);
    SameCopies(s, s');
    hide SameLog, FewerCopies, Truths, Once, Serial, SameWriters;
    SameOnce(s, s');
    SameLogClean(s, s', 0);
  }

  lemma SameOnce(s: State, s': State)
    requires Once(s) && s'.files == s.files && s'.keydir == s.keydir && s'.merge == s.merge
    ensures forall l :: InOutput(s', l) ==> InOutput(s, l)
    ensures s'.merge.On? && s'.merge.phase.Writing? ==> WasLive(s')
  {
    hide CopiesAbove;
  }

  /** A fresh active file. */
  lemma NewActiveClean(s: State, s': State)
    requires Inv(s) && CleanInv(s) && s' == NewFile(s).(active := s.nextId)
    ensures CleanInv(s')
  {
    hide KeydirOk, WritersOk, ReadersOk, PendingOk, BatchOk, CoverOk;
    NewFileSame(s, s');
    assert s.nextId !in s.files;
    NewFileCopies(s, s');
    assert InputsOldest(s');
    hide SameLog, FewerCopies, Truths, Serial, InputsOldest;
    NewFileOnce(s, s');
    SameLogClean(s, s', 0);
  }

  lemma NewFileCopies(s: State, s': State)
    requires InputsOk(s) && s.nextId !in s.files && s' == NewFile(s).(active := s.nextId)
    ensures FewerCopies(s, s', 0)
  {
    hide FewerCopies;
    assert forall x :: HasRec(s', x) ==> HasRec(s, x) && At(s', x) == At(s, x);
    SameCopies(s, s');
  }

  lemma NewFileOnce(s: State, s': State)
    requires Once(s) && s.nextId !in s.files && s'.files == s.files[s.nextId := []] && s'.keydir == s.keydir
    requires s'.merge == s.merge
    ensures forall l :: InOutput(s', l) ==> InOutput(s, l)
    ensures s'.merge.On? && s'.merge.phase.Writing? ==> WasLive(s')
  {
    hide CopiesAbove;
  }

  // --- Appending --------------------------------------------------------------------------

  /** One record more, at `n`, in a file of the directory. */
  ghost predicate Extended(s: State, s': State, n: Loc) {
    && !HasRec(s, n) && Listed(s', n)
    && (forall l :: HasRec(s', l) <==> HasRec(s, l) || l == n)
    && (forall l :: HasRec(s, l) ==> At(s', l) == At(s, l))
    && (forall l :: Listed(s', l) <==> Listed(s, l) || l == n)
    && (forall l :: Listed(s, l) && Visible(s, l) ==> Visible(s', l))
  }

  lemma ExtendTops(s: State, s': State, n: Loc, k: Key, t: Loc)
    requires Extended(s, s', n) && Tops(s, k, t) && (At(s', n).key == k && Before(t, n) ==> At(s', n) == At(s, t))
    ensures Tops(s', k, t)
  {
  }

  lemma ExtendGone(s: State, s': State, n: Loc, k: Key)
    requires Extended(s, s', n) && Gone(s, k)
    requires At(s', n).key == k && At(s', n).value.Some? ==> Buried(s, k, n)
    ensures Gone(s', k)
  {
    forall l | Listed(s', l) && At(s', l).key == k && At(s', l).value.Some?
      ensures Buried(s', k, l)
    {
      assert l == n || Listed(s, l);
      var d :| Before(l, d) && Tomb(s, k, d);
      assert Visible(s, d);
      assert Tomb(s', k, d);
    }
  }

  lemma ExtendUnovertaken(s: State, s': State, n: Loc, m: nat, k: Key, t: Loc)
    requires Extended(s, s', n) && FewerCopies(s, s', m) && Unovertaken(s, k, t)
    requires At(s', n).key == k && Before(t, n) ==> At(s', n) == At(s, t)
    ensures Unovertaken(s', k, t)
  {
    ExtendTops(s, s', n, k, t);
    hide Tops;
  }

  lemma ExtendSealed(s: State, s': State, n: Loc, m: nat, k: Key)
    requires Extended(s, s', n) && FewerCopies(s, s', m) && Sealed(s, k)
    requires At(s', n).key == k && At(s', n).value.Some? ==> Buried(s, k, n)
    ensures Sealed(s', k)
  {
    ExtendGone(s, s', n, k);
    hide Gone, CopiesAbove;
    forall i: nat | CopiesAbove(s', i, 0) && At(s', s'.merge.todo[i]).key == k
      ensures CopyBuried(s', k, i)
    {
      assert CopyBuried(s, k, i + m);
      var d :| Tomb(s, k, d) && !CopiesAbove(s, i + m, d.file);
      assert Visible(s, d);
      assert Tomb(s', k, d);
    }
  }

  /** Truth carries over to a log with one more record, for the keys other than the record's. */
  lemma OthersTrue(s: State, s': State, n: Loc, m: nat, k: Key)
    requires Extended(s, s', n) && FewerCopies(s, s', m) && At(s', n).key != k
    ensures Lookup(s'.keydir, k) == Lookup(s.keydir, k) && KeyTruth(s, k) ==> KeyTruth(s', k)
    ensures forall w: Writer :: Pushed(w) && w.key == k && WriterTruth(s, w) ==> WriterTruth(s', w)
  {
    hide Extended, FewerCopies, Sealed, Unovertaken;
    if Sealed(s, k) {
      ExtendSealed(s, s', n, m, k);
    }
    forall t | Unovertaken(s, k, t)
      ensures Unovertaken(s', k, t)
    {
      ExtendUnovertaken(s, s', n, m, k, t);
    }
  }

  /** With one record more, and the same keydir and merge, the same may be copied. */
  lemma ExtendCopies(s: State, s': State, n: Loc)
    requires Extended(s, s', n) && s'.keydir == s.keydir && s'.merge == s.merge && s'.limit == s.limit
    requires s.merge.On? ==> n !in s.merge.todo && SizeOf(s', s.merge.cur) == SizeOf(s, s.merge.cur)
    ensures FewerCopies(s, s', 0)
  {
    hide Listed, Visible, SizeOf, FewerCopies;
    SameCopies(s, s');
  }

  /** Only live records are copied. */
  lemma CopiesLive(s: State, i: nat, f: nat)
    requires Inv(s) && CopiesAbove(s, i, f)
    ensures At(s, s.merge.todo[i]).value.Some? && s.merge.todo[i].file in s.merge.inputs
  {
    hide FilesOk, KeydirOk, WritersOk, ReadersOk, BatchOk, CoverOk, PendOk, RotatesBefore;
    assert s.merge.todo[i] in s.merge.todo;
  }

  /** The record just appended is the newest word on its key, and will be. */
  lemma NewWord(s: State, r: Rec, s': State, n: Loc)
    requires Inv(s) && Extended(s, s', n) && FewerCopies(s, s', 0) && At(s', n) == r && n.file == s.active
    requires s.active in s.files && n.idx == |s.files[s.active]| && !Overtaken(s, r, s.active) && Visible(s', n)
    ensures r.value.Some? ==> Unovertaken(s', r.key, n)
    ensures r.value.None? ==> Sealed(s', r.key)
  {
    hide Inv, CopiesAbove;
    assert Tops(s', r.key, n);
    assert Unovertaken(s', r.key, n);
    if r.value.None? {
      NewSeal(s, r.key, s', n);
    }
  }

  lemma NewSeal(s: State, k: Key, s': State, n: Loc)
    requires Inv(s) && Extended(s, s', n) && FewerCopies(s, s', 0) && At(s', n) == Rec(k, None) && Visible(s', n)
    requires Unovertaken(s', k, n)
    ensures Sealed(s', k)
  {
    hide Inv, LiveLoc, RotatesBefore;
    assert Tomb(s', k, n);
    forall l | Listed(s', l) && At(s', l).key == k && At(s', l).value.Some?
      ensures Buried(s', k, l)
    {
      assert Before(l, n);
    }
    forall i: nat | CopiesAbove(s', i, 0) && At(s', s'.merge.todo[i]).key == k
      ensures CopyBuried(s', k, i)
    {
      assert CopiesAbove(s, i + 0, 0);
      CopiesLive(s, i, 0);
      assert !CopiesAbove(s', i, n.file);
    }
  }

  /** A put's or delete's record reaching the active file. */
  lemma AppendClean(s: State, t: Tid, r: Rec, w: Writer, s': State)
    requires Inv(s) && CleanInv(s) && t in s.writers && !Pushed(s.writers[t])
    requires !Busy(s, r.key) && !Overtaken(s, r, s.active)
    requires s' == Appended(s, r, false).(writers := s.writers[t := w])
    requires (w == DelAppended(r.key) && r.value.None?) ||
      (w == PutAppended(r.key, Loc(s.active, |s.files[s.active]|)) && r.value.Some?)
    ensures CleanInv(s')
  {
    hide KeydirOk, WritersOk, ReadersOk, BatchOk, CoverOk, PendingOk, Truths, Once, Serial, Overtaken;
    var n := Loc(s.active, |s.files[s.active]|);
    assert Extended(s, s', n) && At(s', n) == r && Visible(s', n);
    ExtendCopies(s, s', n);
    hide FilesOk, Extended, FewerCopies;
    NewWord(s, r, s', n);
    AppendTruths(s, t, r, w, s', n);
    AppendOnce(s, s', n);
    AppendSerial(s, t, w, s');
  }

  lemma AppendSerial(s: State, t: Tid, w: Writer, s': State)
    requires Serial(s) && Pushed(w) && !Busy(s, w.key) && s'.writers == s.writers[t := w]
    ensures Serial(s')
  {
  }

  lemma AppendOnce(s: State, s': State, n: Loc)
    requires Once(s) && Extended(s, s', n) && FewerCopies(s, s', 0) && s'.keydir == s.keydir && s'.merge == s.merge
    requires s.merge.On? ==> n.file !in s.merge.outputs
    ensures Once(s')
  {
    if s.merge.On? {
      assert forall l :: InOutput(s', l) ==> InOutput(s, l) && At(s', l) == At(s, l);
      hide Extended;
      assert s.merge.phase.Writing? ==> WasLive(s') by { ExtendWasLive(s, s', n); }
      OnceKeeps(s, s', 0);
    }
  }

  lemma ExtendWasLive(s: State, s': State, n: Loc)
    requires Extended(s, s', n) && s'.keydir == s.keydir && s'.merge == s.merge
    ensures s.merge.On? && WasLive(s) ==> WasLive(s')
  {
  }

  lemma AppendTruths(s: State, t: Tid, r: Rec, w: Writer, s': State, n: Loc)
    requires Truths(s) && t in s.writers && !Pushed(s.writers[t]) && !Busy(s, r.key)
    requires Extended(s, s', n) && FewerCopies(s, s', 0) && At(s', n) == r
    requires s'.writers == s.writers[t := w] && s'.keydir == s.keydir
    requires (w == DelAppended(r.key) && Sealed(s', r.key)) || (w == PutAppended(r.key, n) && Unovertaken(s', r.key, n))
    ensures Truths(s')
  {
    hide Sealed, Unovertaken, Extended, FewerCopies;
    forall u | u in s'.writers
      ensures WriterTruth(s', s'.writers[u])
    {
      if u != t && Pushed(s.writers[u]) {
        assert WriterTruth(s, s.writers[u]);
        assert s.writers[u].key != r.key;
        OthersTrue(s, s', n, 0, s.writers[u].key);
      }
    }
    forall k
      ensures Busy(s', k) || KeyTruth(s', k)
    {
      if k == r.key {
        assert Pushed(s'.writers[t]) && s'.writers[t].key == k;
      } else if Busy(s, k) {
        var u :| u in s.writers && Pushed(s.writers[u]) && s.writers[u].key == k;
        assert Pushed(s'.writers[u]) && s'.writers[u].key == k;
      } else {
        OthersTrue(s, s', n, 0, k);
      }
    }
  }

  // --- Publishing ---------------------------------------------------------------------

  /** Where a writer's publishing leaves the keydir. */
  function PublishedKeydir(s: State, w: Writer): map<Key, Loc>
    requires Pushed(w)
  {
    if w.PutAppended? then s.keydir[w.key := w.loc] else s.keydir - {w.key}
  }

  /** A record that is published was not about to be copied. */
  lemma PublishCopies(s: State, t: Tid, s': State)
    requires Inv(s) && t in s.writers && Pushed(s.writers[t])
    requires s'.keydir == PublishedKeydir(s, s.writers[t]) && s'.files == s.files && s'.merge == s.merge
    requires s'.limit == s.limit
    ensures FewerCopies(s, s', 0)
  {
    hide KeydirOk, ReadersOk, CoverOk, FilesOk, PendingOk, BatchOk, FewerCopies;
    if s.merge.On? {
      forall x | x in s.merge.todo && LiveLoc(s', x)
        ensures LiveLoc(s, x)
      {
        assert x.file in s.merge.inputs;
      }
    }
    SameCopies(s, s');
  }

  /** A put's insert, or a delete's removal. */
  lemma PublishClean(s: State, t: Tid, s': State)
    requires Inv(s) && CleanInv(s) && t in s.writers && Pushed(s.writers[t])
    requires s'.keydir == PublishedKeydir(s, s.writers[t])
    requires s' == s.(writers := s.writers[t := WIdle], keydir := s'.keydir, published := s'.published,
                      versions := s'.versions)
    ensures CleanInv(s')
  {
    hide Truths, Once;
    FlushSame(s, s');
    PublishCopies(s, t, s');
    PublishTruths(s, t, s');
    PublishOnce(s, t, s');
  }

  lemma PublishOnce(s: State, t: Tid, s': State)
    requires Inv(s) && Once(s) && t in s.writers && Pushed(s.writers[t])
    requires s'.keydir == PublishedKeydir(s, s.writers[t]) && s'.files == s.files && s'.merge == s.merge
    requires FewerCopies(s, s', 0)
    ensures Once(s')
  {
    hide KeydirOk, ReadersOk, CoverOk, FilesOk, PendingOk, BatchOk, FewerCopies, CopiesAbove;
    if s.merge.On? {
      assert s.merge.phase.Writing? ==> WasLive(s');
      OnceKeeps(s, s', 0);
    }
  }

  lemma PublishTruths(s: State, t: Tid, s': State)
    requires Truths(s) && t in s.writers && Pushed(s.writers[t]) && SameLog(s, s') && FewerCopies(s, s', 0)
    requires s'.keydir == PublishedKeydir(s, s.writers[t]) && s'.writers == s.writers[t := WIdle]
    ensures Truths(s')
  {
    hide SameLog, FewerCopies, Unovertaken, Sealed;
    assert WriterTruth(s, s.writers[t]);
    forall u | u in s'.writers
      ensures WriterTruth(s', s'.writers[u])
    {
      if u != t {
        assert WriterTruth(s, s.writers[u]);
        WriterKeeps(s, s', 0, s.writers[u]);
      }
    }
    forall x
      ensures Busy(s', x) || KeyTruth(s', x)
    {
      if x == s.writers[t].key {
        WriterKeeps(s, s', 0, s.writers[t]);
      } else if Busy(s, x) {
        var u :| u in s.writers && Pushed(s.writers[u]) && s.writers[u].key == x;
        assert Pushed(s'.writers[u]) && s'.writers[u].key == x;
      } else {
        KeyKeeps(s, s', 0, x);
      }
    }
  }

  // --- Merge's steps ----------------------------------------------------------------------

  /** At the start only pointers of keys, and nothing that was overwritten, may be copied. */
  lemma StartCopies(s: State, i: nat, f: nat)
    requires s.merge.On? && s.merge.phase.Scan? && CopiesAbove(s, i, f)
    ensures Lookup(s.keydir, At(s, s.merge.todo[i]).key) == Some(s.merge.todo[i])
  {
  }

  lemma StartClean(s: State, ids: seq<nat>, bound: nat, s': State)
    requires Inv(s) && Inv(s') && CleanInv(s) && Enabled(s, MergeStart(ids, bound)) && Clean(s, MergeStart(ids, bound))
    requires s' == Started(s, ids, bound)
    ensures CleanInv(s')
  {
    hide KeydirOk, WritersOk, ReadersOk, PendingOk, BatchOk, CoverOk, LocsOf, Truths, CopiesAbove, Clean;
    NewFileSame(s, s');
    assert forall f :: f in ids <==> f in InputsOf(s, bound);
    assert forall l :: !InOutput(s', l);
    StartTruths(s, ids, bound, s');
  }

  lemma StartTruths(s: State, ids: seq<nat>, bound: nat, s': State)
    requires Inv(s') && Truths(s) && SameLog(s, s') && s.merge.Off?
    requires Enabled(s, MergeStart(ids, bound)) && Clean(s, MergeStart(ids, bound)) && s' == Started(s, ids, bound)
    ensures Truths(s')
  {
    hide SameLog, LocsOf, Unovertaken, Sealed, CopiesAbove, Enabled, Clean;
    forall t | t in s'.writers
      ensures WriterTruth(s', s'.writers[t])
    {
      var w := s.writers[t];
      assert WriterTruth(s, w);
      if w.PutAppended? {
        StartPut(s, ids, bound, s', t);
      } else if w.DelAppended? {
        StartDelete(s, ids, bound, s', t);
      }
    }
    forall k
      ensures Busy(s', k) || KeyTruth(s', k)
    {
      BusyKeeps(s, s', k);
      if !Busy(s, k) {
        assert KeyTruth(s, k);
        StartKey(s, s', k);
      }
    }
  }

  lemma StartPut(s: State, ids: seq<nat>, bound: nat, s': State, t: Tid)
    requires Inv(s') && SameLog(s, s') && Enabled(s, MergeStart(ids, bound)) && Clean(s, MergeStart(ids, bound))
    requires s' == Started(s, ids, bound) && t in s.writers && s.writers[t].PutAppended?
    requires Unovertaken(s, s.writers[t].key, s.writers[t].loc)
    ensures Unovertaken(s', s.writers[t].key, s.writers[t].loc)
  {
    hide LocsOf, SameLog, KeydirOk, WritersOk, ReadersOk, PendingOk, BatchOk, CoverOk, LiveLoc, RotatesBefore, FilesOk;
    var k, n := s.writers[t].key, s.writers[t].loc;
    TopsKeeps(s, s', k, n);
    SameRecords(s, s');
    hide Tops;
    forall i: nat | CopiesAbove(s', i, n.file) && At(s', s'.merge.todo[i]).key == k
      ensures At(s', s'.merge.todo[i]) == At(s', n)
    {
      StartCopies(s', i, n.file);
      CopiesLive(s', i, n.file);
      assert Repeats(s, s.writers[t], s.keydir[k]);
    }
  }

  lemma SameRecords(s: State, s': State)
    requires SameLog(s, s')
    ensures forall l :: HasRec(s', l) <==> HasRec(s, l)
    ensures forall l :: HasRec(s, l) ==> At(s', l) == At(s, l)
  {
  }

  lemma StartDelete(s: State, ids: seq<nat>, bound: nat, s': State, t: Tid)
    requires Inv(s') && SameLog(s, s') && Enabled(s, MergeStart(ids, bound)) && Clean(s, MergeStart(ids, bound))
    requires s' == Started(s, ids, bound) && t in s.writers && s.writers[t].DelAppended? && Sealed(s, s.writers[t].key)
    ensures Sealed(s', s.writers[t].key)
  {
    hide LocsOf, SameLog, KeydirOk, WritersOk, ReadersOk, PendingOk, BatchOk, CoverOk, LiveLoc, RotatesBefore, FilesOk;
    var k := s.writers[t].key;
    GoneKeeps(s, s', k);
    SameRecords(s, s');
    hide Gone;
    forall i: nat
      ensures CopiesAbove(s', i, 0) ==> At(s', s'.merge.todo[i]).key != k
    {
      if CopiesAbove(s', i, 0) {
        StartCopies(s', i, 0);
        CopiesLive(s', i, 0);
      }
    }
  }

  lemma StartKey(s: State, s': State, k: Key)
    requires Inv(s') && KeyTruth(s, k) && SameLog(s, s') && s'.keydir == s.keydir && s'.merge.On?
    requires s'.merge.phase.Scan?
    ensures KeyTruth(s', k)
  {
    hide SameLog, Inv, Tops, Gone, LiveLoc, RotatesBefore;
    forall i: nat, f: nat | CopiesAbove(s', i, f)
      ensures Lookup(s'.keydir, At(s', s'.merge.todo[i]).key) == Some(s'.merge.todo[i])
    {
      StartCopies(s', i, f);
    }
    if k in s.keydir {
      TopsKeeps(s, s', k, s.keydir[k]);
    } else {
      GoneKeeps(s, s', k);
    }
  }

  /** Merge's bookkeeping: no file comes or goes, nothing is queued or published. */
  lemma BookkeepingClean(s: State, s': State, n: nat)
    requires CleanInv(s) && s.merge.On? && s'.merge.On?
    requires s'.files == s.files && s'.linked == s.linked && s'.keydir == s.keydir && s'.writers == s.writers
    requires forall f :: f in s.visible ==> f in s'.visible && s.visible[f] <= s'.visible[f]
    requires s'.merge.outputs == s.merge.outputs && FewerCopies(s, s', n) && InputsOldest(s')
    requires s'.merge.phase.Writing? ==> WasLive(s')
    ensures CleanInv(s')
  {
    FlushSame(s, s');
    hide SameLog, FewerCopies, Truths, Once, Serial, InputsOldest, WasLive;
    SameLogClean(s, s', n);
  }

  /** A record that is found live goes from the scan to the write. */
  lemma CheckLiveCopies(s: State, s': State)
    requires Enabled(s, MergeCheck) && s'.merge.On? && s' == s.(merge := s.merge.(phase := s'.merge.phase))
    requires s'.merge.phase.Writing?
    requires LiveLoc(s, s.merge.todo[0])
    ensures FewerCopies(s, s', 0) && WasLive(s')
  {
    hide FewerCopies;
    assert forall x :: LiveLoc(s', x) <==> LiveLoc(s, x);
    assert NoMore(s, s', 0);
    NoMoreCopies(s, s', 0);
  }

  /** A dead one is passed over. */
  lemma CheckDeadCopies(s: State, s': State)
    requires Enabled(s, MergeCheck) && s' == s.(merge := s.merge.(todo := s.merge.todo[1..]))
    requires !LiveLoc(s, s.merge.todo[0])
    ensures FewerCopies(s, s', 1)
  {
    hide FewerCopies;
    assert forall x :: LiveLoc(s', x) <==> LiveLoc(s, x);
    assert NoMore(s, s', 1);
    NoMoreCopies(s, s', 1);
  }

  lemma CheckClean(s: State, s': State)
    requires Inv(s) && CleanInv(s) && Enabled(s, MergeCheck) && s' == Step(s, MergeCheck)
    ensures CleanInv(s')
  {
    hide Inv, Truths, Once, Serial, CallerStep, CopiesAbove, WasLive, FewerCopies;
    if LiveLoc(s, s.merge.todo[0]) {
      CheckLiveCopies(s, s');
      BookkeepingClean(s, s', 0);
    } else {
      CheckDeadCopies(s, s');
      BookkeepingClean(s, s', 1);
    }
  }

  /** A copy adds to the output what was to be copied. */
  lemma WriteCopies(s: State, s': State)
    requires Inv(s) && Enabled(s, MergeWrite) && s' == Copied(s, s.merge, s.merge.todo[0], s.merge.phase.version)
    ensures FewerCopies(s, s', 1)
  {
    hide KeydirOk, WritersOk, ReadersOk, CoverOk, BatchOk, PendingOk, FilesOk, FewerCopies;
    forall j: nat | j < |s'.merge.todo|
      ensures s'.merge.todo[j] == s.merge.todo[j + 1]
      ensures ToBeCopied(s', j) ==>
        ToBeCopied(s, j + 1) && At(s', s'.merge.todo[j]) == At(s, s'.merge.todo[j])
    {
      assert s.merge.todo[j + 1] in s.merge.todo;
    }
    SizeSnoc(s.files[s.merge.cur], At(s, s.merge.todo[0]));
    assert CopySize(s, 1) == RecSize(At(s, s.merge.todo[0]));
    hide HasRec, LiveLoc;
    NoMoreCopies(s, s', 1);
  }

  /** Copying the record that was found live. */
  lemma WriteClean(s: State, s': State)
    requires Inv(s) && CleanInv(s) && Enabled(s, MergeWrite)
    requires s' == Copied(s, s.merge, s.merge.todo[0], s.merge.phase.version)
    ensures CleanInv(s')
  {
    hide KeydirOk, WritersOk, ReadersOk, CoverOk, BatchOk, PendingOk, Truths, Once;
    var x := s.merge.todo[0];
    var n := Loc(s.merge.cur, |s.files[s.merge.cur]|);
    assert Extended(s, s', n) && At(s', n) == At(s, x);
    WriteCopies(s, s');
    assert CopiesAbove(s, 0, 0) && forall f: nat :: f <= n.file ==> CopiesAbove(s, 0, f);
    hide FilesOk, InputsOk, CopiesAbove, Extended, FewerCopies;
    WriteTruths(s, s', n);
    WriteOnce(s, s', n);
  }

  lemma WriteOnce(s: State, s': State, n: Loc)
    requires Inv(s) && Once(s) && Enabled(s, MergeWrite) && Extended(s, s', n) && FewerCopies(s, s', 1)
    requires s' == Copied(s, s.merge, s.merge.todo[0], s.merge.phase.version)
    requires CopiesAbove(s, 0, 0) && At(s', n) == At(s, s.merge.todo[0])
    ensures Once(s')
  {
    hide KeydirOk, WritersOk, ReadersOk, CoverOk, BatchOk, PendingOk, FilesOk, LiveLoc, RotatesBefore;
    forall l | InOutput(s', l)
      ensures l == n || (InOutput(s, l) && At(s', l) == At(s, l) && At(s, l).key != At(s', n).key)
    {
    }
    forall l, i: nat | InOutput(s', l) && CopiesAbove(s', i, 0)
      ensures At(s', s'.merge.todo[i]).key != At(s', l).key
    {
      assert CopiesAbove(s, i + 1, 0);
      if l == n {
        NotTwice(s, i + 1);
      }
    }
  }

  /** What is being copied is not still to be scanned as well. */
  lemma NotTwice(s: State, i: nat)
    requires Inv(s) && Once(s) && Enabled(s, MergeWrite) && i > 0 && CopiesAbove(s, i, 0)
    ensures At(s, s.merge.todo[i]).key != At(s, s.merge.todo[0]).key
  {
    hide KeydirOk, WritersOk, ReadersOk, CoverOk, BatchOk, PendingOk, FilesOk, RotatesBefore;
    assert s.merge.todo[i] in s.merge.todo;
    assert WasLive(s);
  }

  lemma WriteTruths(s: State, s': State, n: Loc)
    requires Truths(s) && HasRec(s', n) && s.merge.On? && s.merge.todo != [] && HasRec(s, s.merge.todo[0])
    requires Extended(s, s', n) && FewerCopies(s, s', 1) && At(s', n) == At(s, s.merge.todo[0])
    requires CopiesAbove(s, 0, 0) && forall f: nat :: f <= n.file ==> CopiesAbove(s, 0, f)
    requires s'.keydir == s.keydir && s'.writers == s.writers
    ensures Truths(s')
  {
    hide Sealed, Unovertaken, Extended, FewerCopies, CopiesAbove;
    forall u | u in s'.writers
      ensures WriterTruth(s', s'.writers[u])
    {
      var w := s.writers[u];
      assert WriterTruth(s, w);
      if w.PutAppended? {
        CopyUnovertaken(s, s', n, w.key, w.loc);
      } else if w.DelAppended? {
        CopySealed(s, s', n, w.key);
      }
    }
    forall k
      ensures Busy(s', k) || KeyTruth(s', k)
    {
      if Busy(s, k) {
        var u :| u in s.writers && Pushed(s.writers[u]) && s.writers[u].key == k;
        assert Pushed(s'.writers[u]) && s'.writers[u].key == k;
      } else {
        assert KeyTruth(s, k);
        if k in s.keydir {
          CopyUnovertaken(s, s', n, k, s.keydir[k]);
        } else {
          CopySealed(s, s', n, k);
        }
      }
    }
  }

  lemma CopyUnovertaken(s: State, s': State, n: Loc, k: Key, t: Loc)
    requires Unovertaken(s, k, t) && Extended(s, s', n) && FewerCopies(s, s', 1)
    requires HasRec(s', n) && s.merge.On? && s.merge.todo != [] && HasRec(s, s.merge.todo[0])
    requires At(s', n) == At(s, s.merge.todo[0])
    requires forall f: nat :: f <= n.file ==> CopiesAbove(s, 0, f)
    ensures Unovertaken(s', k, t)
  {
    hide Extended, FewerCopies, CopiesAbove, Tops;
    if At(s', n).key == k && Before(t, n) {
      assert CopiesAbove(s, 0, t.file);
    }
    assert Tops(s, k, t) && HasRec(s, t) by { TopsHas(s, k, t); }
    ExtendUnovertaken(s, s', n, 1, k, t);
  }

  lemma TopsHas(s: State, k: Key, t: Loc)
    requires Tops(s, k, t)
    ensures HasRec(s, t)
  {
  }

  lemma CopySealed(s: State, s': State, n: Loc, k: Key)
    requires Sealed(s, k) && Extended(s, s', n) && FewerCopies(s, s', 1) && CopiesAbove(s, 0, 0)
    requires HasRec(s', n) && s.merge.On? && s.merge.todo != [] && HasRec(s, s.merge.todo[0])
    requires At(s', n) == At(s, s.merge.todo[0])
    requires forall f: nat :: f <= n.file ==> CopiesAbove(s, 0, f)
    ensures Sealed(s', k)
  {
    hide Extended, FewerCopies, CopiesAbove, Gone, Tomb;
    if At(s', n).key == k {
      assert CopyBuried(s, k, 0);
      var d :| Tomb(s, k, d) && !CopiesAbove(s, 0, d.file);
      assert Before(n, d);
    }
    ExtendSealed(s, s', n, 1, k);
  }

  /** The phase moves on; the output, if it is not still the same, was about to be rotated. */
  lemma PhaseCopies(s: State, s': State)
    requires s.merge.On? && s'.merge.On? && !s'.merge.phase.Writing? && !s'.merge.phase.Settling?
    requires s'.merge.todo == s.merge.todo && s'.keydir == s.keydir && s'.limit == s.limit
    requires forall l :: HasRec(s, l) <==> HasRec(s', l)
    requires forall l :: HasRec(s, l) ==> At(s', l) == At(s, l)
    requires if s.merge.phase.Settling? && OutputFull(s) then true
             else s'.merge.cur == s.merge.cur && SizeOf(s', s.merge.cur) == SizeOf(s, s.merge.cur)
    ensures FewerCopies(s, s', 0)
  {
    hide HasRec, SizeOf, FewerCopies;
    assert NoMore(s, s', 0);
    if s.merge.phase.Settling? && OutputFull(s) {
      RotatingCopies(s, s');
    } else {
      NoMoreCopies(s, s', 0);
    }
  }

  /** When the output is about to be rotated everything to come goes above any file. */
  lemma RotatingCopies(s: State, s': State)
    requires NoMore(s, s', 0) && s.merge.phase.Settling? && OutputFull(s)
    ensures FewerCopies(s, s', 0)
  {
    hide ToBeCopied, CopySize, SizeOf;
    assert forall i: nat :: i < |s.merge.todo| ==> RotatesBefore(s, i);
  }

  lemma KeepOutputClean(s: State, s': State)
    requires Inv(s) && CleanInv(s) && Enabled(s, MergeSettle) && s' == Settled(s, s.merge, false)
    ensures CleanInv(s')
  {
    hide KeydirOk, WritersOk, ReadersOk, InputsOk, PendingOk, BatchOk, CoverOk, Settled, CleanInv, FewerCopies,
         CopiesAbove, FilesOk;
    KeptOutput(s, s');
    PhaseCopies(s, s');
    hide InputsOldest;
    OldestKeeps(s, s');
    BookkeepingClean(s, s', 0);
  }

  lemma OldestKeeps(s: State, s': State)
    requires CleanInv(s) && s.merge.On? && s'.merge.On? && s'.linked == s.linked && !s'.merge.phase.Forget?
    requires s'.merge.left == s.merge.left && s'.merge.inputs == s.merge.inputs
    ensures InputsOldest(s')
  {
    hide Truths, Once, Serial;
  }

  lemma KeptOutput(s: State, s': State)
    requires FilesOk(s) && s.merge.On? && s.merge.cur in s.files && s' == Settled(s, s.merge, false)
    ensures s'.files == s.files && s'.linked == s.linked && s'.keydir == s.keydir && s'.writers == s.writers
    ensures s'.limit == s.limit && forall f :: f in s.visible ==> f in s'.visible && s.visible[f] <= s'.visible[f]
    ensures s'.merge.On? && s'.merge == s.merge.(phase := s'.merge.phase, since := s'.merge.since)
    ensures !s'.merge.phase.Writing? && !s'.merge.phase.Settling? && !s'.merge.phase.Forget?
  {
    hide RotatedOutput;
    assert s.merge.cur in s.visible && s.visible[s.merge.cur] <= |s.files[s.merge.cur]|;
    hide FilesOk;
  }

  lemma RotateOutputClean(s: State, s': State)
    requires Inv(s) && CleanInv(s) && Enabled(s, MergeSettle) && OutputFull(s) && s' == RotatedOutput(s, s.merge)
    ensures CleanInv(s')
  {
    hide KeydirOk, WritersOk, ReadersOk, PendingOk, BatchOk, CoverOk, Truths, Once, Serial, FewerCopies;
    NewFileSame(s, s');
    assert s.nextId !in s.files;
    assert forall l :: InOutput(s', l) ==> InOutput(s, l);
    assert InputsOldest(s');
    PhaseCopies(s, s');
    hide SameLog, FilesOk, InputsOk, InputsOldest;
    SameLogClean(s, s', 0);
  }

  lemma FinishClean(s: State, s': State)
    requires Inv(s) && CleanInv(s) && Enabled(s, MergeFinish) && s' == Step(s, MergeFinish)
    ensures CleanInv(s')
  {
    hide KeydirOk, WritersOk, ReadersOk, InputsOk, PendingOk, BatchOk, CoverOk, Truths, Once, Serial, CallerStep,
         CopiesAbove;
    assert s'.merge.todo == [];
    NoCopies(s, s');
    hide FewerCopies;
    BookkeepingClean(s, s', 0);
  }

  lemma DrainedClean(s: State, s': State)
    requires Inv(s) && CleanInv(s) && Enabled(s, MergeDrained) && s' == Step(s, MergeDrained)
    ensures CleanInv(s')
  {
    hide KeydirOk, WritersOk, ReadersOk, InputsOk, PendingOk, BatchOk, CoverOk, Truths, Once, Serial, FilesOk,
         CallerStep;
    PhaseCopies(s, s');
    hide FewerCopies, CopiesAbove, LiveLoc;
    BookkeepingClean(s, s', 0);
  }

  lemma ForgetClean(s: State, s': State)
    requires Inv(s) && CleanInv(s) && Enabled(s, MergeForget) && s' == Step(s, MergeForget)
    ensures CleanInv(s')
  {
    hide KeydirOk, WritersOk, ReadersOk, InputsOk, PendingOk, CoverOk, Truths, Once, Serial, FilesOk, CallerStep,
         CopiesAbove;
    ForgetLeft(s);
    assert s'.merge.todo == [];
    NoCopies(s, s');
    hide FewerCopies;
    BookkeepingClean(s, s', 0);
  }

  lemma ForgetLeft(s: State)
    requires InputsOldest(s) && LeftOk(s) && s.merge.On? && s.merge.phase.Forget?
    ensures s.merge.left != [] && Ascending(s.merge.left[1..])
  {
  }

  lemma RestoreClean(s: State, s': State)
    requires Inv(s) && CleanInv(s) && Enabled(s, MergeRestore) && s' == Step(s, MergeRestore)
    ensures CleanInv(s')
  {
    hide KeydirOk, WritersOk, ReadersOk, InputsOk, PendingOk, BatchOk, CoverOk, Truths, Once, Serial, CallerStep,
         CopiesAbove;
    NoCopies(s, s');
    if s.active <= s.merge.highest {
      NewFileSame(s, s');
    } else {
      FlushSame(s, s');
    }
    hide SameLog, FilesOk, FewerCopies;
    SameLogClean(s, s', 0);
  }

  /** A compare-and-swap that succeeds publishes a record that says what the original said. */
  lemma CasClean(s: State, s': State)
    requires Inv(s) && CleanInv(s) && Enabled(s, MergeCas) && s' == Step(s, MergeCas)
    ensures CleanInv(s')
  {
    hide KeydirOk, WritersOk, ReadersOk, CoverOk, BatchOk, FilesOk, CallerStep, Truths, Once, CopiesAbove, Serial;
    var p := s.merge.pending[0];
    assert PendOk(s, p);
    FlushSame(s, s');
    CasCopies(s, s');
    hide SameLog, FewerCopies;
    if Lookup(s.keydir, p.key) == Some(p.was) {
      assert s' == CasWon(s);
      CasTruths(s, s', p);
      OnceKeeps(s, s', 0);
      assert Serial(s') by { SameSerial(s, s'); }
    } else {
      assert s' == s.(merge := s'.merge);
      BookkeepingClean(s, s', 0);
    }
  }

  lemma SameSerial(s: State, s': State)
    requires Serial(s) && s'.writers == s.writers
    ensures Serial(s')
  {
  }

  /** A repoint neither makes nor unmakes a pointer into the records still to be scanned. */
  lemma CasLive(s: State, s': State)
    requires Inv(s) && Enabled(s, MergeCas) && s' == Swapped(s, s.merge)
    ensures forall x :: x in s.merge.todo ==> (LiveLoc(s', x) <==> LiveLoc(s, x))
  {
    hide KeydirOk, WritersOk, ReadersOk, CoverOk, BatchOk, FilesOk;
    var p := s.merge.pending[0];
    assert PendOk(s, p) && p.was !in s.merge.todo;
    forall x | x in s.merge.todo
      ensures LiveLoc(s', x) <==> LiveLoc(s, x)
    {
      assert x.file in s.merge.inputs && x != p.becomes;
    }
  }

  lemma CasCopies(s: State, s': State)
    requires Inv(s) && Enabled(s, MergeCas) && s' == Swapped(s, s.merge)
    ensures FewerCopies(s, s', 0)
  {
    CasLive(s, s');
    hide Inv, LiveLoc, FewerCopies;
    assert s'.files == s.files && s'.merge == s.merge.(pending := s'.merge.pending);
    assert NoMore(s, s', 0);
    NoMoreCopies(s, s', 0);
  }

  lemma CasTruths(s: State, s': State, p: Pend)
    requires Inv(s) && CleanInv(s) && Enabled(s, MergeCas) && p == s.merge.pending[0] && PendOk(s, p)
    requires Lookup(s.keydir, p.key) == Some(p.was) && s' == CasWon(s) && SameLog(s, s') && FewerCopies(s, s', 0)
    ensures Truths(s')
  {
    hide Inv, SameLog, FewerCopies, Unovertaken, Sealed, PendOk, InputsOldest, Once;
    forall u | u in s'.writers
      ensures WriterTruth(s', s'.writers[u])
    {
      assert WriterTruth(s, s.writers[u]);
      WriterKeeps(s, s', 0, s.writers[u]);
    }
    forall x
      ensures Busy(s', x) || KeyTruth(s', x)
    {
      BusyKeeps(s, s', x);
      if !Busy(s, x) {
        assert KeyTruth(s, x);
        if x == p.key {
          CasKey(s, s', p);
        } else {
          KeyKeeps(s, s', 0, x);
        }
      }
    }
  }

  /** What is repointed is not copied again. */
  lemma CasKey(s: State, s': State, p: Pend)
    requires Inv(s) && InputsOldest(s) && Enabled(s, MergeCas) && p == s.merge.pending[0] && PendOk(s, p)
    requires Lookup(s.keydir, p.key) == Some(p.was) && s' == CasWon(s) && SameLog(s, s')
    requires Unovertaken(s, p.key, p.was)
    ensures KeyTruth(s', p.key)
  {
    hide KeydirOk, WritersOk, ReadersOk, CoverOk, BatchOk, FilesOk, RotatesBefore;
    CasTops(s, p);
    TopsKeeps(s, s', p.key, p.becomes);
    hide Tops, SameLog;
    forall i: nat
      ensures CopiesAbove(s', i, p.becomes.file) ==> At(s', s'.merge.todo[i]).key != p.key
    {
      if i < |s.merge.todo| {
        assert s.merge.todo[i] in s.merge.todo && s.merge.todo[i].file in s.merge.inputs;
      }
    }
  }

  lemma CasTops(s: State, p: Pend)
    requires Inv(s) && InputsOldest(s) && PendOk(s, p) && Tops(s, p.key, p.was)
    ensures Tops(s, p.key, p.becomes)
  {
    hide KeydirOk, WritersOk, ReadersOk, CoverOk, BatchOk, FilesOk, PendingOk;
    assert p.was.file < p.becomes.file;
  }

  /** Unlinking the oldest input. */
  lemma UnlinkClean(s: State, s': State)
    requires Inv(s) && CleanInv(s) && Enabled(s, MergeUnlink)
    requires s' == s.(linked := s.linked - {s.merge.left[0]}, merge := s.merge.(phase := Forget))
    ensures CleanInv(s')
  {
    hide KeydirOk, WritersOk, ReadersOk, CoverOk, FilesOk, PendingOk, InputsOk, Truths, Once, CopiesAbove;
    var f := s.merge.left[0];
    assert f in s.merge.inputs;
    forall l | Listed(s', l)
      ensures l.file > f
    {
      OldestGone(s, l.file);
    }
    NoCopies(s, s');
    UnlinkTruths(s, s', f);
    OnceKeeps(s, s', 0);
  }

  lemma OldestGone(s: State, f: nat)
    requires InputsOldest(s) && LeftOk(s) && s.merge.On? && s.merge.left != [] && s.merge.left[0] in s.merge.inputs
    requires f in s.linked && f != s.merge.left[0]
    ensures f > s.merge.left[0]
  {
    if f in s.merge.inputs {
      var i :| 0 <= i < |s.merge.left| && s.merge.left[i] == f;
    }
  }

  lemma UnlinkUnovertaken(s: State, s': State, f: nat, k: Key, t: Loc)
    requires s' == s.(linked := s.linked - {f}, merge := s'.merge) && FewerCopies(s, s', 0) && Unovertaken(s, k, t)
    ensures Unovertaken(s', k, t)
  {
    hide CopiesAbove;
    assert forall l :: Listed(s', l) ==> Listed(s, l);
  }

  /** A tombstone goes only after everything it buries. */
  lemma UnlinkSealed(s: State, s': State, f: nat, k: Key)
    requires s' == s.(linked := s.linked - {f}, merge := s'.merge) && Sealed(s, k)
    requires forall l :: Listed(s', l) ==> l.file > f
    requires forall i: nat :: !CopiesAbove(s', i, 0)
    ensures Sealed(s', k)
  {
    hide CopiesAbove;
    forall l | Listed(s', l) && At(s', l).key == k && At(s', l).value.Some?
      ensures Buried(s', k, l)
    {
      assert Listed(s, l) && Buried(s, k, l);
      var d :| Before(l, d) && Tomb(s, k, d);
      assert d.file > f;
      assert Tomb(s', k, d);
    }
  }

  lemma UnlinkTruths(s: State, s': State, f: nat)
    requires Truths(s) && s' == s.(linked := s.linked - {f}, merge := s'.merge) && FewerCopies(s, s', 0)
    requires s'.merge.On? && s'.merge.todo == []
    requires forall l :: Listed(s', l) ==> l.file > f
    ensures Truths(s')
  {
    assert forall i: nat :: !CopiesAbove(s', i, 0);
    hide Unovertaken, Sealed, CopiesAbove, FewerCopies;
    forall t | t in s'.writers
      ensures WriterTruth(s', s'.writers[t])
    {
      var w := s.writers[t];
      assert WriterTruth(s, w);
      if w.PutAppended? {
        UnlinkUnovertaken(s, s', f, w.key, w.loc);
      } else if w.DelAppended? {
        UnlinkSealed(s, s', f, w.key);
      }
    }
    forall x
      ensures Busy(s', x) || KeyTruth(s', x)
    {
      BusyKeeps(s, s', x);
      if !Busy(s, x) {
        assert KeyTruth(s, x);
        if x in s.keydir {
          UnlinkUnovertaken(s, s', f, x, s.keydir[x]);
        } else {
          UnlinkSealed(s, s', f, x);
        }
      }
    }
  }

  // --- Every step, every run --------------------------------------------------------------

  lemma AppendStepClean(s: State, t: Tid, r: Rec, w: Writer, rotate: bool, s': State)
    requires Inv(s) && CleanInv(s) && t in s.writers && !Pushed(s.writers[t])
    requires !Busy(s, r.key) && !Overtaken(s, r, s.active) && s.active in s.files && s.active in s.visible
    requires (w == DelAppended(r.key) && r.value.None?) ||
      (w == PutAppended(r.key, Loc(s.active, |s.files[s.active]|)) && r.value.Some?)
    requires s' == Appended(s, r, rotate).(writers := s.writers[t := w])
    ensures CleanInv(s')
  {
    hide Inv, CleanInv, Busy, Overtaken;
    var s1 := Appended(s, r, false).(writers := s.writers[t := w]);
    AppendClean(s, t, r, w, s1);
    AppendInv(s, t, r, w, s1);
    if rotate {
      NewActiveClean(s1, s');
    }
  }

  lemma CallerStepClean(s: State, a: Action)
    requires Inv(s) && CleanInv(s) && Enabled(s, a) && !MergeStep(a) && TakesTurns(s, a) && Clean(s, a)
    ensures CleanInv(Step(s, a))
  {
    hide Inv, CleanInv, Busy, Overtaken;
    var s' := Step(s, a);
    if a.PutAppend? || a.DelAppend? {
      AppendActionClean(s, a);
    } else if a.PutInsert? || a.DelRemove? {
      PublishClean(s, a.t, s');
    } else {
      ReadersStep(s, a);
      ReadersClean(s, s');
    }
  }

  lemma AppendActionClean(s: State, a: Action)
    requires Inv(s) && CleanInv(s) && Enabled(s, a) && (a.PutAppend? || a.DelAppend?) && TakesTurns(s, a) && Clean(s, a)
    ensures CleanInv(Step(s, a))
  {
    hide Inv, CleanInv, Busy, Overtaken, MergeNext;
    var s' := Step(s, a);
    match a
    case PutAppend(t, k, v) =>
      var l, r := Loc(s.active, |s.files[s.active]|), Rec(k, Some(v));
      AppendStepClean(s, t, r, PutAppended(k, l), Fills(s, r), s');
    case DelAppend(t) =>
      var r := Rec(s.writers[t].key, None);
      AppendStepClean(s, t, r, DelAppended(r.key), Fills(s, r), s');
  }

  lemma ReadersStep(s: State, a: Action)
    requires Enabled(s, a) && (a.GetLookup? || a.GetFetch? || a.GetRead? || a.DelCheck?)
    ensures
      var s' := Step(s, a);
      s' == s.(readers := s'.readers, handles := s'.handles, writers := s'.writers) && SameWriters(s, s')
  {
    hide MergeNext, LookedUp, ReadBack, Fills;
  }

  lemma MergeStepClean(s: State, a: Action)
    requires Inv(s) && CleanInv(s) && Enabled(s, a) && MergeStep(a) && Clean(s, a) && Inv(Step(s, a))
    ensures CleanInv(Step(s, a))
  {
    hide Inv, CleanInv;
    var s' := Step(s, a);
    match a
    case MergeStart(ids, bound) => StartClean(s, ids, bound, s');
    case MergeCheck => CheckClean(s, s');
    case MergeWrite => WriteClean(s, s');
    case MergeSettle =>
      if OutputFull(s) {
        RotateOutputClean(s, s');
      } else {
        KeepOutputClean(s, s');
      }
    case MergeFinish => FinishClean(s, s');
    case MergeCas => CasClean(s, s');
    case MergeDrained => DrainedClean(s, s');
    case MergeUnlink => UnlinkClean(s, s');
    case MergeForget => ForgetClean(s, s');
    case MergeRestore => RestoreClean(s, s');
  }

  /** Every clean step keeps what recovery rests on. */
  lemma StepClean(s: State, a: Action)
    requires Inv(s) && CleanInv(s) && Enabled(s, a) && (a.MergeStart? ==> StartGuard(s, a.bound))
    requires TakesTurns(s, a) && Clean(s, a)
    ensures Inv(Step(s, a)) && CleanInv(Step(s, a))
  {
    hide Inv, CleanInv, Clean, TakesTurns;
    StepInv(s, a);
    if MergeStep(a) {
      MergeStepClean(s, a);
    } else {
      CallerStepClean(s, a);
    }
  }

  /** Every session starts with the keydir and the log in agreement. */
  lemma OpenedClean(s: State)
    requires Opened(s)
    ensures CleanInv(s)
  {
    hide ScanFiles, LastOf;
    forall k
      ensures KeyTruth(s, k)
    {
      OpenedTruth(s, k);
    }
    assert forall t :: t in s.writers ==> WriterTruth(s, s.writers[t]);
  }

  lemma OpenedTruth(s: State, k: Key)
    requires Opened(s)
    ensures KeyTruth(s, k)
  {
    var l := ScanLast(s.files, s.nextId, k);
    hide ScanFiles;
    if l.Some? {
      assert Listed(s, l.value);
      forall m | Listed(s, m) && At(s, m).key == k
        ensures !Before(l.value, m)
      {
        assert InFiles(s.files, m);
      }
      if k !in s.keydir {
        assert Tomb(s, k, l.value);
        forall m | Listed(s, m) && At(s, m).key == k && At(s, m).value.Some?
          ensures Buried(s, k, m)
        {
          assert Before(m, l.value);
        }
      }
    } else {
      assert forall m :: Listed(s, m) ==> InFiles(s.files, m);
    }
  }

  /** A step of some thread that is clean, or a crash. */
  ghost predicate IsCleanStep(s: State, e: Event) {
    e.Work? ==> Enabled(s, e.action) && TakesTurns(s, e.action) && Clean(s, e.action)
  }

  ghost predicate IsCleanPath(states: seq<State>, events: seq<Event>) {
    IsPath(states, events) && forall i :: 0 <= i < |events| ==> IsCleanStep(states[i], events[i])
  }

  /** A run, of any number of sessions, in which every step is clean. */
  ghost predicate IsCleanRun(states: seq<State>, events: seq<Event>) {
    IsCleanPath(states, events) && Opened(states[0])
  }

  lemma EventClean(s: State, e: Event, s': State)
    requires Inv(s) && CleanInv(s) && IsStep(s, e, s') && IsCleanStep(s, e)
    ensures Inv(s') && CleanInv(s')
  {
    hide Inv, CleanInv, Step, Enabled, Opened, Reopened, Clean, TakesTurns;
    match e
    case Work(a) => StepClean(s, a);
    case Crash(cut, limit) =>
      ReopenedIsOpened(s, cut, limit);
      OpenedInv(s');
      OpenedClean(s');
  }

  lemma {:induction false} CleanPathInv(states: seq<State>, events: seq<Event>, i: nat)
    requires IsCleanPath(states, events) && Inv(states[0]) && CleanInv(states[0]) && i < |states|
    ensures Inv(states[i]) && CleanInv(states[i])
  {
    hide Inv, CleanInv, IsStep, IsCleanStep;
    if i > 0 {
      CleanPathInv(states, events, i - 1);
      assert IsStep(states[i - 1], events[i - 1], states[i]) && IsCleanStep(states[i - 1], events[i - 1]);
      EventClean(states[i - 1], events[i - 1], states[i]);
    }
  }

  lemma CleanRunInv(states: seq<State>, events: seq<Event>, i: nat)
    requires IsCleanRun(states, events) && i < |states|
    ensures Inv(states[i]) && CleanInv(states[i])
  {
    hide Inv, CleanInv, IsCleanPath;
    OpenedInv(states[0]);
    OpenedClean(states[0]);
    CleanPathInv(states, events, i);
  }

  // --- Crash recovery -----------------------------------------------------------------------

  /** The store as a plain map, as gets see it. */
  function LiveMap(s: State): map<Key, Value> {
    map k | k in s.keydir && HasRec(s, s.keydir[k]) && At(s, s.keydir[k]).value.Some? :: At(s, s.keydir[k]).value.value
  }

  /** What a get of `k` finds after a crash and a reopen. */
  ghost function AfterCrash(s: State, cut: map<nat, nat>, k: Key): Option<Value> {
    Lookup(LiveMap(Reopened(s, cut)), k)
  }

  /** A crash leaves `k` as it was; a write whose record is in the log counts as done. */
  ghost predicate Survives(s: State, cut: map<nat, nat>, k: Key) {
    && (!Busy(s, k) ==> AfterCrash(s, cut, k) == Lookup(LiveMap(s), k))
    && (forall t :: t in s.writers && s.writers[t].PutAppended? && s.writers[t].key == k ==>
          (HasRec(s, s.writers[t].loc) && AfterCrash(s, cut, k) == At(s, s.writers[t].loc).value))
    && (forall t :: t in s.writers && s.writers[t].DelAppended? && s.writers[t].key == k ==>
        AfterCrash(s, cut, k) == None)
  }

  /** The scan that reopens meets record `l`. */
  predicate Met(s: State, cut: map<nat, nat>, l: Loc) {
    Listed(s, l) && l.file in cut && l.idx < cut[l.file]
  }

  /** Reopening answers with the last record that survived. */
  lemma ReopenedLast(s: State, cut: map<nat, nat>, k: Key) returns (l: Option<Loc>)
    requires FilesOk(s) && CrashCut(s, cut)
    ensures l == None ==> AfterCrash(s, cut, k) == None && forall m :: Met(s, cut, m) ==> At(s, m).key != k
    ensures l.Some? ==> Met(s, cut, l.value) && At(s, l.value).key == k && AfterCrash(s, cut, k) == At(s, l.value).value
    ensures l.Some? ==> forall m :: Met(s, cut, m) && At(s, m).key == k ==> !Before(l.value, m)
  {
    var q := Reopened(s, cut);
    ReopenedRecs(s, cut);
    l := ScanLast(q.files, q.nextId, k);
    hide ScanFiles, Reopened, CrashCut;
    forall m | Met(s, cut, m)
      ensures InFiles(q.files, m) && m.file < q.nextId && q.files[m.file][m.idx] == At(s, m)
    {
    }
  }

  lemma ReopenedRecs(s: State, cut: map<nat, nat>)
    requires FilesOk(s) && CrashCut(s, cut)
    ensures
      var q := Reopened(s, cut);
      && q.keydir == ScanFiles(q.files, q.nextId)
      && forall m :: Met(s, cut, m) <==> InFiles(q.files, m)
    ensures
      var q := Reopened(s, cut);
      forall m :: InFiles(q.files, m) ==> m.file < q.nextId && q.files[m.file][m.idx] == At(s, m)
  {
    hide ScanFiles;
    ReopenedIsOpened(s, cut, s.limit);
    var n := NextId(CutFiles(s, cut).Keys);
    assert n !in CutFiles(s, cut).Keys;
  }

  lemma ToppedReopens(s: State, cut: map<nat, nat>, k: Key, t: Loc)
    requires FilesOk(s) && CrashCut(s, cut) && Tops(s, k, t) && Good(s, k, t)
    ensures AfterCrash(s, cut, k) == At(s, t).value
  {
    hide FilesOk, AfterCrash;
    assert Met(s, cut, t);
    var l := ReopenedLast(s, cut, k);
    assert l.Some? && Listed(s, l.value);
  }

  lemma GoneReopens(s: State, cut: map<nat, nat>, k: Key)
    requires FilesOk(s) && CrashCut(s, cut) && Gone(s, k)
    ensures AfterCrash(s, cut, k) == None
  {
    hide FilesOk, AfterCrash, Gone;
    var l := ReopenedLast(s, cut, k);
    if l.Some? && At(s, l.value).value.Some? {
      var m := LaterMet(s, cut, k, l.value);
    }
  }

  /** A live record of a deleted key is not the last one a scan meets. */
  lemma LaterMet(s: State, cut: map<nat, nat>, k: Key, l: Loc) returns (m: Loc)
    requires FilesOk(s) && CrashCut(s, cut) && Gone(s, k) && Met(s, cut, l) && At(s, l).key == k && At(s, l).value.Some?
    ensures Met(s, cut, m) && At(s, m).key == k && Before(l, m)
  {
    hide FilesOk;
    assert Buried(s, k, l);
    m :| Before(l, m) && Tomb(s, k, m);
    TombMet(s, cut, k, m);
  }

  lemma TombMet(s: State, cut: map<nat, nat>, k: Key, d: Loc)
    requires FilesOk(s) && CrashCut(s, cut) && Tomb(s, k, d)
    ensures Met(s, cut, d) && At(s, d).key == k
  {
  }

  lemma KeydirGood(s: State, k: Key)
    requires Inv(s) && k in s.keydir
    ensures Good(s, k, s.keydir[k]) && Lookup(LiveMap(s), k) == At(s, s.keydir[k]).value
  {
    hide FilesOk, WritersOk, ReadersOk, InputsOk, PendingOk, BatchOk, CoverOk;
  }

  lemma NotLive(s: State, k: Key)
    requires k !in s.keydir
    ensures Lookup(LiveMap(s), k) == None
  {
  }

  lemma WriterGood(s: State, t: Tid)
    requires Inv(s) && t in s.writers && s.writers[t].PutAppended?
    ensures Good(s, s.writers[t].key, s.writers[t].loc)
  {
    hide FilesOk, KeydirOk, ReadersOk, InputsOk, PendingOk, BatchOk, CoverOk;
  }

  lemma CleanSurvives(s: State, cut: map<nat, nat>, k: Key)
    requires Inv(s) && CleanInv(s) && CrashCut(s, cut)
    ensures Survives(s, cut, k)
  {
    hide Inv, AfterCrash, LiveMap, CrashCut, Tops, Gone, Busy, Once, Serial, InputsOldest, FilesOk, CopiesAbove;
    assert FilesOk(s) by { InvFiles(s); }
    if !Busy(s, k) {
      assert KeyTruth(s, k);
      if k in s.keydir {
        KeydirGood(s, k);
        ToppedReopens(s, cut, k, s.keydir[k]);
      } else {
        GoneReopens(s, cut, k);
        NotLive(s, k);
      }
    }
    forall t | t in s.writers && Pushed(s.writers[t]) && s.writers[t].key == k
      ensures s.writers[t].PutAppended? ==>
        HasRec(s, s.writers[t].loc) && AfterCrash(s, cut, k) == At(s, s.writers[t].loc).value
      ensures s.writers[t].DelAppended? ==> AfterCrash(s, cut, k) == None
    {
      assert WriterTruth(s, s.writers[t]);
      if s.writers[t].PutAppended? {
        WriterGood(s, t);
        ToppedReopens(s, cut, k, s.writers[t].loc);
      } else {
        GoneReopens(s, cut, k);
      }
    }
  }

  lemma InvFiles(s: State)
    requires Inv(s)
    ensures FilesOk(s)
  {
    hide FilesOk;
  }

  /** A crash at any moment of a clean run: every key with no write of its own under way comes
      back exactly as it was; a write whose record is in the log counts as done. */
  lemma CrashRecovers(states: seq<State>, events: seq<Event>, i: nat, cut: map<nat, nat>, k: Key)
    requires IsCleanRun(states, events) && i < |states| && CrashCut(states[i], cut)
    ensures Survives(states[i], cut, k)
  {
    hide IsCleanRun, Survives, CrashCut, Inv, CleanInv;
    CleanRunInv(states, events, i);
    CleanSurvives(states[i], cut, k);
  }

  /** When no write is between log and keydir, reopening gives exactly the live map, in the
      middle of a merge as well as outside one. */
  lemma QuietReopensLive(states: seq<State>, events: seq<Event>, i: nat, cut: map<nat, nat>)
    requires IsCleanRun(states, events) && i < |states| && CrashCut(states[i], cut)
    requires forall t :: t in states[i].writers ==> !Pushed(states[i].writers[t])
    ensures LiveMap(Reopened(states[i], cut)) == LiveMap(states[i])
  {
    hide IsCleanRun, Reopened, LiveMap, CrashCut;
    var s := states[i];
    forall k
      ensures Lookup(LiveMap(Reopened(s, cut)), k) == Lookup(LiveMap(s), k)
    {
      assert !Busy(s, k);
      CrashRecovers(states, events, i, cut, k);
    }
    SameLookups(LiveMap(Reopened(s, cut)), LiveMap(s));
  }

  lemma SameLookups<K, V>(m: map<K, V>, n: map<K, V>)
    requires forall k :: Lookup(m, k) == Lookup(n, k)
    ensures m == n
  {
    forall k
      ensures k in m <==> k in n
      ensures k in m ==> m[k] == n[k]
    {
      assert Lookup(m, k) == Lookup(n, k);
    }
  }

  /** A copy that a merge in a clean run has queued is no newer than its key's pointer, or says
      the same: whether its compare-and-swap wins or loses, nothing is lost at the next recovery. */
  lemma QueuedCopiesAreHarmless(states: seq<State>, events: seq<Event>, i: nat, j: nat)
    requires IsCleanRun(states, events) && i < |states| && states[i].merge.On? && j < |states[i].merge.pending|
    ensures
      var s, p := states[i], states[i].merge.pending[j];
      HasRec(s, p.becomes) && (!Busy(s, p.key) && p.key in s.keydir ==>
        HasRec(s, s.keydir[p.key])
        && (!Before(s.keydir[p.key], p.becomes) || At(s, p.becomes) == At(s, s.keydir[p.key])))
  {
    hide IsCleanRun, KeydirOk, WritersOk, ReadersOk, CoverOk, BatchOk, Once, Serial, InputsOldest, CopiesAbove;
    CleanRunInv(states, events, i);
    var s, p := states[i], states[i].merge.pending[j];
    assert PendOk(s, p) && Listed(s, p.becomes);
    if !Busy(s, p.key) {
      assert KeyTruth(s, p.key);
    }
  }
}
