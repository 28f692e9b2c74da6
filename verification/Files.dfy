/** Files with a written part and a flushed part, and what a process crash may leave of them. */
module Files {
  import opened Bytes
  import opened Recovery

  /** Bytes written to a file through its buffer; the first `flushed` of them have reached the system. */
  datatype RawFile = RawFile(bytes: seq<Byte>, flushed: nat)

  type File = f: RawFile | f.flushed <= |f.bytes| witness RawFile([], 0)

  const EMPTY: File := RawFile([], 0)

  function Extend(f: File, x: seq<Byte>): File {
    RawFile(f.bytes + x, f.flushed)
  }

  function Flushed(f: File): File {
    RawFile(f.bytes, |f.bytes|)
  }

  datatype FileState = FileState(data: map<nat, File>, hints: map<nat, File>) {

    /** Opens for appending, creating the file if it is missing. */
    function CreateData(id: nat): FileState {
      if id in data then this else this.(data := data[id := EMPTY])
    }

    function AppendData(id: nat, x: seq<Byte>): FileState
      requires id in data
    {
      this.(data := data[id := Extend(data[id], x)])
    }

    function FlushData(id: nat): FileState
      requires id in data
    {
      this.(data := data[id := Flushed(data[id])])
    }

    function RemoveData(id: nat): FileState {
      this.(data := data - {id})
    }

    /** Creates or truncates. */
    function CreateHint(id: nat): FileState {
      this.(hints := hints[id := EMPTY])
    }

    function AppendHint(id: nat, x: seq<Byte>): FileState
      requires id in hints
    {
      this.(hints := hints[id := Extend(hints[id], x)])
    }

    function FlushHint(id: nat): FileState
      requires id in hints
    {
      this.(hints := hints[id := Flushed(hints[id])])
    }

    function RemoveHint(id: nat): FileState {
      this.(hints := hints - {id})
    }

    /** What another file handle sees. */
    function OnDisk(): Disk {
      Disk(map id | id in data :: data[id].bytes[..data[id].flushed],
           map id | id in hints :: hints[id].bytes[..hints[id].flushed])
    }

    /** Everything written so far, buffered bytes included. */
    function Written(): Disk {
      Disk(map id | id in data :: data[id].bytes, map id | id in hints :: hints[id].bytes)
    }

    predicate AllFlushed() {
      && (forall id :: id in data ==> data[id].flushed == |data[id].bytes|)
      && (forall id :: id in hints ==> hints[id].flushed == |hints[id].bytes|)
    }
  }

  /** What each operation on a data file does to it: bytes are added at the end and reach the disk only by a flush. */
  lemma DataOperations(fs: FileState, id: nat, x: seq<Byte>)
    ensures id in fs.CreateData(id).data
    ensures id !in fs.data ==> fs.CreateData(id).data[id].bytes == [] && fs.CreateData(id).OnDisk().data[id] == []
    ensures fs.CreateData(id).hints == fs.hints && fs.CreateData(id).data - {id} == fs.data - {id}
    ensures id in fs.data ==> fs.CreateData(id) == fs && id !in fs.RemoveData(id).data
    ensures id in fs.data ==>
      var f := fs.AppendData(id, x).data[id];
      f.bytes == fs.data[id].bytes + x && f.flushed == fs.data[id].flushed
          && fs.AppendData(id, x).OnDisk().data[id] == fs.OnDisk().data[id]
    ensures id in fs.data ==>
      fs.FlushData(id).data[id].bytes == fs.data[id].bytes && fs.FlushData(id).OnDisk().data[id] == fs.data[id].bytes
    ensures id in fs.data ==> forall gs | gs in {fs.AppendData(id, x), fs.FlushData(id), fs.RemoveData(id)} ::
                                gs.hints == fs.hints && gs.data - {id} == fs.data - {id}
  {
    if id in fs.data {
      var f := fs.data[id];
      assert (f.bytes + x)[..f.flushed] == f.bytes[..f.flushed];
      assert f.bytes[..|f.bytes|] == f.bytes;
    }
  }

  /** And on a hint file, which is emptied when it is created. */
  lemma HintOperations(fs: FileState, id: nat, x: seq<Byte>)
    ensures id in fs.CreateHint(id).hints && fs.CreateHint(id).hints[id].bytes == [] && id !in fs.RemoveHint(id).hints
    ensures id in fs.hints ==>
      var f := fs.AppendHint(id, x).hints[id];
      f.bytes == fs.hints[id].bytes + x && f.flushed == fs.hints[id].flushed
          && fs.AppendHint(id, x).OnDisk().hints[id] == fs.OnDisk().hints[id]
    ensures id in fs.hints ==>
      var gs := fs.FlushHint(id);
      gs.hints[id].bytes == fs.hints[id].bytes && gs.OnDisk().hints[id] == fs.hints[id].bytes
    ensures id in fs.hints ==>
      forall gs | gs in {fs.AppendHint(id, x), fs.FlushHint(id), fs.CreateHint(id), fs.RemoveHint(id)} ::
        gs.data == fs.data && gs.hints - {id} == fs.hints - {id}
  {
    if id in fs.hints {
      var f := fs.hints[id];
      assert (f.bytes + x)[..f.flushed] == f.bytes[..f.flushed];
      assert f.bytes[..|f.bytes|] == f.bytes;
    }
  }

  /** Some cut of `f` no shorter than what was flushed. */
  predicate CutOf(f: File, s: seq<Byte>) {
    s <= f.bytes && f.flushed <= |s|
  }

  /** A crash may cut a file at any byte it has not flushed, and nowhere else. */
  lemma CutsExactly(f: File, s: seq<Byte>)
    ensures CutOf(f, s) <==> exists c :: f.flushed <= c <= |f.bytes| && s == f.bytes[..c]
  {
    if CutOf(f, s) {
      assert s == f.bytes[..|s|];
    }
  }

  /** What a process crash in state `fs` may leave on disk: every file cut at
      any byte of its unflushed part, each one independently. */
  ghost predicate MayCrashTo(fs: FileState, d: Disk) {
    && d.data.Keys == fs.data.Keys && d.hints.Keys == fs.hints.Keys
    && (forall id :: id in d.data ==> CutOf(fs.data[id], d.data[id]))
    && (forall id :: id in d.hints ==> CutOf(fs.hints[id], d.hints[id]))
  }

  /** With nothing buffered a crash loses nothing. */
  lemma FlushedImage(fs: FileState, d: Disk)
    requires fs.AllFlushed() && MayCrashTo(fs, d)
    ensures d == fs.OnDisk()
  {
    forall id | id in d.data
      ensures d.data[id] == fs.OnDisk().data[id]
    {
      assert CutOf(fs.data[id], d.data[id]);
    }
    forall id | id in d.hints
      ensures d.hints[id] == fs.OnDisk().hints[id]
    {
      assert CutOf(fs.hints[id], d.hints[id]);
    }
    assert d.data == fs.OnDisk().data && d.hints == fs.OnDisk().hints;
  }

  lemma FlushedWritten(fs: FileState)
    requires fs.AllFlushed()
    ensures fs.Written() == fs.OnDisk()
  {
    assert fs.Written().data == fs.OnDisk().data by {
      assert forall id :: id in fs.data ==> fs.data[id].bytes[..fs.data[id].flushed] == fs.data[id].bytes;
    }
    assert fs.Written().hints == fs.OnDisk().hints by {
      assert forall id :: id in fs.hints ==> fs.hints[id].bytes[..fs.hints[id].flushed] == fs.hints[id].bytes;
    }
  }

  /** The directory: each operation takes effect at once and is remembered, so
      that a crash between any two operations can be spoken of. */
  class Directory {
    var fs: FileState
    ghost var trace: seq<FileState>

    constructor (fs: FileState)
      ensures this.fs == fs && trace == []
    {
      this.fs := fs;
      trace := [];
    }

    method Become(next: FileState)
      modifies this
      ensures fs == next && trace == old(trace) + [next]
    {
      fs := next;
      trace := trace + [next];
    }
  }

  /** The file being appended to. */
  class ActiveFile {
    const dir: Directory
    const fileId: nat
    var offset: nat

    ghost predicate Valid()
      reads this, dir
    {
      fileId in dir.fs.data && offset == |dir.fs.data[fileId].bytes|
    }

    /** Opens the data file `id` for appending; the offset is read back from the file's length. */
    constructor (dir: Directory, id: nat)
      modifies dir
      ensures this.dir == dir && fileId == id && Valid()
      ensures dir.fs == old(dir.fs).CreateData(id) && dir.trace == old(dir.trace) + [dir.fs]
    {
      this.dir := dir;
      fileId := id;
      offset := if id in dir.fs.data then |dir.fs.data[id].bytes| else 0;
      new;
      dir.Become(dir.fs.CreateData(id));
    }

    /** Writes one entry without flushing; the value lies at the end of it. */
    method AppendBuffered(bytes: seq<Byte>, valueLen: nat) returns (id: nat, valuePos: nat, totalLen: nat)
      requires Valid() && valueLen <= |bytes|
      modifies this, dir
      ensures Valid()
      ensures id == fileId && totalLen == |bytes| && valuePos == old(offset) + |bytes| - valueLen
      ensures dir.fs == old(dir.fs).AppendData(fileId, bytes) && dir.trace == old(dir.trace) + [dir.fs]
    {
      dir.Become(dir.fs.AppendData(fileId, bytes));
      totalLen := |bytes|;
      valuePos := offset + (totalLen - valueLen);
      offset := offset + totalLen;
      id := fileId;
    }

    method FlushOnly()
      requires Valid()
      modifies dir
      ensures Valid()
      ensures dir.fs == old(dir.fs).FlushData(fileId) && dir.trace == old(dir.trace) + [dir.fs]
    {
      dir.Become(dir.fs.FlushData(fileId));
    }

    /** Flush and fsync; a process crash does not tell the two apart. */
    method Sync()
      requires Valid()
      modifies dir
      ensures Valid()
      ensures dir.fs == old(dir.fs).FlushData(fileId) && dir.trace == old(dir.trace) + [dir.fs]
    {
      FlushOnly();
    }

    /** Writes one entry and flushes it, so that any other handle can read it. */
    method Append(bytes: seq<Byte>, valueLen: nat) returns (id: nat, valuePos: nat, totalLen: nat)
      requires Valid() && valueLen <= |bytes|
      modifies this, dir
      ensures Valid()
      ensures id == fileId && totalLen == |bytes| && valuePos == old(offset) + |bytes| - valueLen
      ensures dir.fs == old(dir.fs).AppendData(fileId, bytes).FlushData(fileId)
      ensures dir.trace == old(dir.trace) + [old(dir.fs).AppendData(fileId, bytes), dir.fs]
    {
      id, valuePos, totalLen := AppendBuffered(bytes, valueLen);
      FlushOnly();
    }
  }
}
