/** The merge output writer and the queue of repoints waiting for a flush. */
module MergeWriter {
  import opened Bytes
  import opened Format
  import opened EntryFormat
  import opened HintFormat
  import opened Scan
  import opened Index
  import opened DiskState
  import opened Files
  import opened MergeFacts
  import opened MergeSteps

  const MERGE_FLUSH_BATCH_SIZE: nat := 256

  /** File sizes are signed 64-bit quantities to the operating system. */
  const MAX_FILE_SIZE: nat := 0x8000_0000_0000_0000

  /** The id counter shared by active-file rotation and merge outputs. */
  class IdCounter {
    var next: nat

    constructor (n: nat)
      ensures next == n
    {
      next := n;
    }

    method FetchAdd() returns (id: nat)
      modifies this
      ensures id == old(next) && next == old(next) + 1
    {
      id := next;
      next := next + 1;
    }
  }

  datatype Repoint = Repoint(key: Key, was: KeydirEntry, becomes: KeydirEntry)

  /** Entries copied but not yet repointed. */
  class PendingQueue {
    var items: seq<Repoint>

    constructor ()
      ensures items == []
    {
      items := [];
    }

    method Queue(entry: Entry, fileId: nat, newFileId: nat, entryValuePos: nat, newValuePos: nat)
      modifies this
      ensures items == old(items) + [Repoint(entry.key,
        KeydirEntry(fileId, entry.header.valueSize, entryValuePos, entry.header.timestamp),
        KeydirEntry(newFileId, entry.header.valueSize, newValuePos, entry.header.timestamp))]
    {
      var was := KeydirEntry(fileId, entry.header.valueSize, entryValuePos, entry.header.timestamp);
      var becomes := KeydirEntry(newFileId, entry.header.valueSize, newValuePos, entry.header.timestamp);
      items := items + [Repoint(entry.key, was, becomes)];
    }

    method Drain() returns (all: seq<Repoint>)
      modifies this
      ensures all == old(items) && items == []
    {
      all := items;
      items := [];
    }
  }

  /** Every output but the current one is finished. */
  ghost predicate OthersClosed(h: Checksum, b: Base, fs: FileState, c: nat) {
    forall o :: o in fs.data && o > b.active && o != c ==> Closed(h, fs, o)
  }

  predicate IdsBelow(fs: FileState, n: nat) {
    (forall id :: id in fs.data ==> id < n) && (forall id :: id in fs.hints ==> id < n)
  }

  /** Every state the directory went through since its history was `start` survives a crash. */
  ghost predicate TraceSafe(h: Checksum, b: Base, trace: seq<FileState>, start: seq<FileState>) {
    start <= trace && forall i :: |start| <= i < |trace| ==> CrashSafe(h, b, trace[i])
  }

  lemma TraceStep(h: Checksum, b: Base, trace: seq<FileState>, start: seq<FileState>, fs: FileState)
    requires TraceSafe(h, b, trace, start) && BaseOk(h, b) && Writing(h, b, fs)
    ensures TraceSafe(h, b, trace + [fs], start)
  {
    hide CrashSafe;
    WritingIsCrashSafe(h, b, fs);
  }

  /** Claims an id from the shared counter; creates the data file, then the hint file. */
  method OpenOutput(h: Checksum, dir: Directory, counter: IdCounter, ghost b: Base, ghost start: seq<FileState>)
    returns (data: ActiveFile)
    requires BaseOk(h, b) && Writing(h, b, dir.fs) && TraceSafe(h, b, dir.trace, start)
    requires b.active < counter.next && IdsBelow(dir.fs, counter.next)
    modifies dir, counter
    ensures fresh(data) && data.dir == dir && data.Valid()
    ensures data.fileId == old(counter.next) && counter.next == old(counter.next) + 1
    ensures Writing(h, b, dir.fs) && TraceSafe(h, b, dir.trace, start) && IdsBelow(dir.fs, counter.next)
    ensures dir.fs == old(dir.fs).CreateData(data.fileId).CreateHint(data.fileId)
    ensures AtRest(h, dir.fs.Written(), data.fileId, []) && data.offset == 0
  {
    hide Writing, BaseOk, AtRest, CrashSafe, TraceSafe;
    var fileId := counter.FetchAdd();
    CreateOutput(h, b, dir.fs, fileId);
    TraceStep(h, b, dir.trace, start, dir.fs.CreateData(fileId));
    data := new ActiveFile(dir, fileId);
    TraceStep(h, b, dir.trace, start, dir.fs.CreateHint(fileId));
    dir.Become(dir.fs.CreateHint(fileId));
  }

  /** Files other than `c` keep their state when only `c` is touched. */
  lemma ClosedFrame(h: Checksum, b: Base, fs: FileState, gs: FileState, c: nat)
    requires OthersClosed(h, b, fs, c) && OnlyChangesFile(fs, gs, c)
    ensures OthersClosed(h, b, gs, c)
  {
    forall o | o in gs.data && o > b.active && o != c
      ensures Closed(h, gs, o)
    {
      assert Closed(h, fs, o);
    }
  }

  /** The data files after `x` was appended to file `c`, flushed or not, with the
      writer now on file `n`, fresh if it is another one. */
  function DataAfter(data: map<nat, File>, c: nat, x: seq<Byte>, flushed: bool, n: nat): map<nat, File>
    requires c in data
  {
    var f := Extend(data[c], x);
    var grown := data[c := if flushed then Flushed(f) else f];
    if n == c then grown else grown[n := EMPTY]
  }

  /** Writes copies of live entries to data files with companion hint files. */
  class MergeOutputWriter {
    const h: Checksum
    const dir: Directory
    const counter: IdCounter
    const maxFileSize: nat
    var current: ActiveFile
    var hintCrc: U32
    var pendingSinceFlush: nat

    ghost const b: Base
    ghost const start: seq<FileState>
    ghost var recs: seq<HintRec>

    /** What every single write to the directory keeps. */
    ghost predicate Open()
      reads this, dir, counter, current
    {
      && current.dir == dir && current.Valid()
      && BaseOk(h, b) && Writing(h, b, dir.fs) && TraceSafe(h, b, dir.trace, start)
      && b.active < current.fileId && IdsBelow(dir.fs, counter.next)
      && OthersClosed(h, b, dir.fs, current.fileId)
      && maxFileSize <= MAX_FILE_SIZE
    }

    /** The writer between two entries. */
    ghost predicate Ready()
      reads this, dir, counter, current
    {
      && Open()
      && AtRest(h, dir.fs.Written(), current.fileId, recs)
      && hintCrc == h.Feed(h.init, HintStream(recs))
    }

    ghost predicate Valid()
      reads this, dir, counter, current
    {
      && Ready()
      && pendingSinceFlush < MERGE_FLUSH_BATCH_SIZE
      && (current.offset < maxFileSize || current.offset == 0)
    }

    constructor (h: Checksum, dir: Directory, counter: IdCounter, maxFileSize: nat, ghost b: Base)
      requires BaseOk(h, b) && Writing(h, b, dir.fs) && IdsBelow(dir.fs, counter.next)
      requires b.active in dir.fs.data && forall id :: id in dir.fs.data ==> id <= b.active
      requires maxFileSize <= MAX_FILE_SIZE
      modifies dir, counter
      ensures Valid() && fresh(current) && this.dir == dir && this.counter == counter && this.b == b && this.h == h
      ensures this.maxFileSize == maxFileSize && start == old(dir.trace)
      ensures current.fileId == old(counter.next) && counter.next == old(counter.next) + 1 && pendingSinceFlush == 0
      ensures dir.fs.data == old(dir.fs.data)[current.fileId := EMPTY]
    {
      hide Writing, BaseOk, AtRest, CrashSafe, Closed;
      this.h, this.dir, this.counter, this.maxFileSize := h, dir, counter, maxFileSize;
      this.b, start := b, dir.trace;
      hintCrc, pendingSinceFlush, recs := h.init, 0, [];
      var data := OpenOutput(h, dir, counter, b, dir.trace);
      current := data;
    }

    /** Copies one live entry and its hint record, then rotates or flushes if due.
        `flushed` says that every byte any output holds has reached the system. */
    method WriteLiveEntry(e: Entry) returns (fileId: nat, valuePos: nat, flushed: bool)
      requires Valid() && e.Consistent() && Copies(b, e)
      modifies this, dir, counter, current
      ensures Valid() && (current == old(current) || fresh(current))
      ensures fileId == old(current.fileId) && valuePos == old(current.offset) + HEADER_SIZE + |e.key|
      ensures fileId in old(dir.fs.data)
      ensures dir.fs.data == DataAfter(old(dir.fs.data), fileId, CopyBytes(h, e), flushed, current.fileId)
      ensures Parse(h, old(dir.fs.data[fileId].bytes) + CopyBytes(h, e))
           == Parse(h, old(dir.fs.data[fileId].bytes)) + [Item(old(current.offset), e)]
      ensures pendingSinceFlush == if flushed then 0 else old(pendingSinceFlush) + 1
      ensures current.fileId == fileId || (current.fileId > fileId && current.fileId !in old(dir.fs.data))
      ensures current == old(current) <==> old(current.offset) + e.Len() < maxFileSize
      ensures flushed <==> current != old(current) || old(pendingSinceFlush) + 1 >= MERGE_FLUSH_BATCH_SIZE
    {
      hide Writing, BaseOk, AtRest, CrashSafe, TraceSafe, Closed, Whole, Parse, Copies, OthersClosed, IdsBelow;
      var c := current.fileId;
      valuePos := CopyEntry(e);
      fileId := c;
      pendingSinceFlush := pendingSinceFlush + 1;
      ghost var mid := dir.fs;
      flushed := RotateOrFlush();
      DataAfterTwice(old(dir.fs), mid, c, CopyBytes(h, e), flushed, current.fileId);
    }

    /** Appends the entry and then its hint record, neither flushed. */
    method CopyEntry(e: Entry) returns (valuePos: nat)
      requires Ready() && e.Consistent() && Copies(b, e) && current.offset < MAX_FILE_SIZE
      modifies this`hintCrc, this`recs, dir, current
      ensures Ready()
      ensures valuePos == old(current.offset) + HEADER_SIZE + |e.key|
      ensures current.offset == old(current.offset) + e.Len()
      ensures OnlyChangesFile(old(dir.fs), dir.fs, current.fileId)
      ensures dir.fs.data[current.fileId] == Extend(old(dir.fs.data[current.fileId]), CopyBytes(h, e))
      ensures Parse(h, dir.fs.data[current.fileId].bytes)
           == Parse(h, old(dir.fs.data[current.fileId].bytes)) + [Item(old(current.offset), e)]
    {
      hide Writing, BaseOk, CrashSafe, TraceSafe, Closed, Whole, Parse, Copies, HintsMatch, HintStream, HintBytes;
      ghost var items := Parse(h, dir.fs.data[current.fileId].bytes);
      ghost var it := Item(current.offset, e);
      ghost var fs0 := dir.fs;
      valuePos := AppendEntry(e);
      AppendHintRecord(items, it, CopyHint(e, valuePos));
      assert OnlyChangesFile(fs0, dir.fs, current.fileId);
    }

    /** The data file's half: one encoded entry, buffered. */
    method AppendEntry(e: Entry) returns (valuePos: nat)
      requires Ready() && e.Consistent() && Copies(b, e) && current.offset < MAX_FILE_SIZE
      modifies dir, current
      ensures Open()
      ensures valuePos == old(current.offset) + HEADER_SIZE + |e.key|
      ensures current.offset == old(current.offset) + e.Len()
      ensures dir.fs == old(dir.fs).AppendData(current.fileId, CopyBytes(h, e))
      ensures !e.header.tombstone && Whole(h, dir.fs.data[current.fileId].bytes)
      ensures Parse(h, dir.fs.data[current.fileId].bytes)
           == Parse(h, old(dir.fs.data[current.fileId].bytes)) + [Item(old(current.offset), e)]
    {
      hide Writing, BaseOk, CrashSafe, TraceSafe, Closed, Whole, Parse, Copies, HintsMatch, HintStream, EntryBytes;
      var c := current.fileId;
      ghost var fs0 := dir.fs;
      assert !e.header.tombstone by { NotTomb(b, e); }
      var bytes, valueLen := EncodeEntry(h, e.key, e.value, false, e.header.timestamp);
      AppendCopy(h, b, fs0, c, e);
      CopyParses(h, fs0.data[c].bytes, e);
      TraceStep(h, b, dir.trace, start, fs0.AppendData(c, bytes));
      var _, pos, _ := current.AppendBuffered(bytes, valueLen);
      valuePos := pos;
      ClosedFrame(h, b, fs0, dir.fs, c);
    }

    /** The hint file's half: one record, buffered, and the running checksum. */
    method AppendHintRecord(ghost items: seq<Item>, ghost it: Item, rec: HintRec)
      requires Open() && current.fileId in dir.fs.hints
      requires Whole(h, dir.fs.data[current.fileId].bytes)
      requires Parse(h, dir.fs.data[current.fileId].bytes) == items + [it] && HintsMatch(items, recs)
      requires HintFor(it, rec)
      requires dir.fs.hints[current.fileId].bytes == HintStream(recs) && hintCrc == h.Feed(h.init, HintStream(recs))
      modifies this`hintCrc, this`recs, dir
      ensures Ready()
      ensures dir.fs == old(dir.fs).AppendHint(current.fileId, HintBytes(rec))
    {
      hide Writing, BaseOk, CrashSafe, TraceSafe, Closed, Whole, Parse, HintsMatch, HintStream, HintBytes;
      var c := current.fileId;
      ghost var fs0 := dir.fs;
      AppendRecord(h, b, fs0, c, items, recs, it, rec);
      TraceStep(h, b, dir.trace, start, fs0.AppendHint(c, HintBytes(rec)));
      dir.Become(dir.fs.AppendHint(c, HintBytes(rec)));
      HintStreamAppend(recs, rec);
      h.FeedAppend(h.init, HintStream(recs), HintBytes(rec));
      hintCrc := h.Feed(hintCrc, HintBytes(rec));
      recs := recs + [rec];
      ClosedFrame(h, b, fs0, dir.fs, c);
    }

    method RotateOrFlush() returns (flushed: bool)
      requires Ready() && pendingSinceFlush <= MERGE_FLUSH_BATCH_SIZE
      modifies this, dir, counter
      ensures Valid() && (current == old(current) || fresh(current))
      ensures old(current).fileId in old(dir.fs.data)
      ensures dir.fs.data == DataAfter(old(dir.fs.data), old(current).fileId, [], flushed, current.fileId)
      ensures pendingSinceFlush == if flushed then 0 else old(pendingSinceFlush)
      ensures current == old(current) || (current.fileId > old(current).fileId && current.fileId !in old(dir.fs.data))
      ensures current == old(current) <==> old(current.offset) < maxFileSize
      ensures flushed <==> old(current.offset) >= maxFileSize || old(pendingSinceFlush) >= MERGE_FLUSH_BATCH_SIZE
    {
      hide Writing, BaseOk, AtRest, CrashSafe, TraceSafe, Closed, Whole, Parse, Copies;
      assert Extend(dir.fs.data[current.fileId], []) == dir.fs.data[current.fileId];
      assert dir.fs.data[current.fileId := dir.fs.data[current.fileId]] == dir.fs.data;
      if current.offset >= maxFileSize {
        Rotate();
        flushed := true;
      } else if pendingSinceFlush >= MERGE_FLUSH_BATCH_SIZE {
        FlushCurrent();
        pendingSinceFlush := 0;
        flushed := true;
      } else {
        flushed := false;
      }
    }

    /** Flushes the current data file; `Sync` and `FlushOnly` look the same to a process crash. */
    method FlushCurrent()
      requires Ready()
      modifies dir
      ensures Ready()
      ensures dir.fs == old(dir.fs).FlushData(current.fileId)
    {
      hide Writing, BaseOk, AtRest, CrashSafe, TraceSafe, Closed;
      ghost var fs0 := dir.fs;
      FlushOutput(h, b, fs0, current.fileId);
      TraceStep(h, b, dir.trace, start, fs0.FlushData(current.fileId));
      current.FlushOnly();
      ClosedFrame(h, b, fs0, dir.fs, current.fileId);
    }

    /** Finishes the current output: sync, checksum trailer, flush of the hint file. */
    method CloseCurrent()
      requires Ready()
      modifies dir
      ensures Open() && Closed(h, dir.fs, current.fileId)
      ensures OnlyChangesFile(old(dir.fs), dir.fs, current.fileId)
      ensures dir.fs.data == old(dir.fs).FlushData(current.fileId).data
    {
      hide Writing, BaseOk, CrashSafe, TraceSafe, Closed, HintsMatch, HintStream, Whole, Parse;
      var c := current.fileId;
      ghost var fs0 := dir.fs;
      FlushCurrent();
      var crc := h.finish(hintCrc);
      AppendTrailer(h, b, dir.fs, c, recs);
      TraceStep(h, b, dir.trace, start, dir.fs.AppendHint(c, Le32(crc)));
      dir.Become(dir.fs.AppendHint(c, Le32(crc)));
      FlushOutput(h, b, dir.fs, c);
      TraceStep(h, b, dir.trace, start, dir.fs.FlushHint(c));
      dir.Become(dir.fs.FlushHint(c));
      ClosedFrame(h, b, fs0, dir.fs, c);
      assert Closed(h, dir.fs, c) by { NowClosed(h, dir.fs, c, recs); }
    }

    method Rotate()
      requires Ready()
      modifies this, dir, counter
      ensures Valid() && fresh(current) && pendingSinceFlush == 0
      ensures old(current).fileId in dir.fs.data
      ensures current.fileId == old(counter.next) && current.fileId !in old(dir.fs.data)
      ensures dir.fs.data == old(dir.fs).FlushData(old(current).fileId).data[current.fileId := EMPTY]
    {
      hide Writing, BaseOk, AtRest, CrashSafe, TraceSafe, Closed;
      CloseCurrent();
      ghost var fs1 := dir.fs;
      ghost var was := current.fileId;
      var data := OpenOutput(h, dir, counter, b, start);
      current := data;
      hintCrc := h.init;
      recs := [];
      pendingSinceFlush := 0;
      OpenedOthers(h, b, fs1, dir.fs, was, current.fileId);
    }

    /** Finishes the last output. */
    method Finish()
      requires Valid()
      modifies dir
      ensures Open() && Closed(h, dir.fs, current.fileId)
      ensures dir.fs.data == old(dir.fs).FlushData(current.fileId).data
    {
      hide Writing, BaseOk, AtRest, CrashSafe, TraceSafe, Closed;
      CloseCurrent();
    }
  }

  lemma DataAfterTwice(fs: FileState, gs: FileState, c: nat, x: seq<Byte>, flushed: bool, n: nat)
    requires c in fs.data && OnlyChangesFile(fs, gs, c) && c in gs.data && gs.data[c] == Extend(fs.data[c], x)
    ensures DataAfter(gs.data, c, [], flushed, n) == DataAfter(fs.data, c, x, flushed, n)
  {
    assert gs.data == fs.data[c := Extend(fs.data[c], x)];
    assert fs.data[c].bytes + x + [] == fs.data[c].bytes + x;
  }

  lemma NowClosed(h: Checksum, fs: FileState, c: nat, recs: seq<HintRec>)
    requires c in fs.data && c in fs.hints && HintsMatch(Parse(h, fs.data[c].bytes), recs)
    requires fs.hints[c].bytes == ClosedHint(h, recs)
    requires fs.data[c].flushed == |fs.data[c].bytes| && fs.hints[c].flushed == |fs.hints[c].bytes|
    ensures Closed(h, fs, c)
  {
  }

  lemma OpenedOthers(h: Checksum, b: Base, fs: FileState, gs: FileState, was: nat, n: nat)
    requires OthersClosed(h, b, fs, was) && Closed(h, fs, was) && n !in fs.data && n !in fs.hints
    requires gs == fs.CreateData(n).CreateHint(n)
    ensures OthersClosed(h, b, gs, n)
  {
    forall o | o in gs.data && o > b.active && o != n
      ensures Closed(h, gs, o)
    {
      assert Closed(h, fs, o);
    }
  }
}
