/** Reading entries and hint records from a stream that may return short reads. */
module Reader {
  import opened Bytes
  import opened EntryFormat
  import opened HintFormat

  /** An open file: the bytes ahead of the cursor, and how much each coming read may return. */
  class ByteSource {
    var rest: seq<Byte>
    var quotas: seq<nat>

    constructor (bytes: seq<Byte>, quotas: seq<nat>)
      ensures rest == bytes && this.quotas == quotas
    {
      rest := bytes;
      this.quotas := quotas;
    }

    /** One read call into `buf[from..]`: any number of bytes up to what was asked
        for, and none only at the end of the file. */
    method Read(buf: array<Byte>, from: nat) returns (n: nat)
      requires from <= buf.Length
      modifies this, buf
      ensures n <= buf.Length - from && n <= |old(rest)|
      ensures n == 0 ==> from == buf.Length || old(rest) == []
      ensures rest == old(rest)[n..]
      ensures buf[..] == old(buf[..from]) + old(rest)[..n] + old(buf[from + n..])
    {
      var room := if |rest| < buf.Length - from then |rest| else buf.Length - from;
      n := room;
      if quotas != [] {
        n := if quotas[0] == 0 && room > 0 then 1 else if quotas[0] < room then quotas[0] else room;
        quotas := quotas[1..];
      }
      forall i | 0 <= i < n {
        buf[from + i] := rest[i];
      }
      rest := rest[n..];
    }
  }

  /** Loops over short reads until the buffer is full or the file ends. */
  method ReadUpTo(r: ByteSource, buf: array<Byte>) returns (total: nat)
    modifies r, buf
    ensures total == if |old(r.rest)| < buf.Length then |old(r.rest)| else buf.Length
    ensures buf[..total] == old(r.rest)[..total]
    ensures r.rest == old(r.rest)[total..]
  {
    total := 0;
    while total < buf.Length
      invariant total <= buf.Length && total <= |old(r.rest)|
      invariant r.rest == old(r.rest)[total..]
      invariant buf[..total] == old(r.rest)[..total]
    {
      ghost var had := buf[..total];
      var n := r.Read(buf, total);
      if n == 0 {
        break;
      }
      assert buf[..total] == had;
      assert buf[total..total + n] == old(r.rest)[total..total + n];
      assert buf[..total + n] == buf[..total] + buf[total..total + n];
      total := total + n;
    }
  }

  /** How far reading one entry moves the cursor. */
  function EntryConsumed(h: Checksum, s: seq<Byte>): nat {
    match ReadEntry(h, s)
    case None => 0
    case Some(Truncated) => |s|
    case Some(r) => r.TotalLen()
  }

  method ReadEntryFrom(h: Checksum, r: ByteSource) returns (res: Option<EntryRead>)
    modifies r
    ensures res == ReadEntry(h, old(r.rest))
    ensures r.rest == old(r.rest)[EntryConsumed(h, old(r.rest))..]
  {
    ghost var s := r.rest;
    var headerBuf := new Byte[HEADER_SIZE];
    var n := ReadUpTo(r, headerBuf);
    if n == 0 {
      return None;
    }
    if n < HEADER_SIZE {
      return Some(Truncated);
    }
    assert headerBuf[..] == headerBuf[..n] == s[..HEADER_SIZE];
    var (crc, header) := DecodeEntryHeader(headerBuf[..]);
    var bodyLen := header.keySize + header.valueSize;
    var body := new Byte[bodyLen];
    var n2 := ReadUpTo(r, body);
    if n2 < bodyLen {
      return Some(Truncated);
    }
    assert body[..] == body[..n2] == s[HEADER_SIZE..HEADER_SIZE + bodyLen];
    var crcInput := headerBuf[4..] + body[..];
    assert headerBuf[4..] == s[4..HEADER_SIZE];
    if h.Hash(crcInput) != crc {
      return Some(CrcMismatch(HEADER_SIZE + bodyLen));
    }
    var key := body[..header.keySize];
    var value := body[header.keySize..];
    res := Some(Ok(Entry(header, key, value), HEADER_SIZE + bodyLen));
  }

  /** How far reading one hint record moves the cursor. */
  function HintConsumed(s: seq<Byte>): nat {
    match ReadHint(s)
    case None => 0
    case Some(HintTruncated) => |s|
    case Some(HintOk(rec)) => rec.Len()
  }

  method ReadHintFrom(r: ByteSource) returns (res: Option<HintRead>)
    modifies r
    ensures res == ReadHint(old(r.rest))
    ensures r.rest == old(r.rest)[HintConsumed(old(r.rest))..]
  {
    ghost var s := r.rest;
    var headerBuf := new Byte[HINT_HEADER_SIZE];
    var n := ReadUpTo(r, headerBuf);
    if n == 0 {
      return None;
    }
    if n < HINT_HEADER_SIZE {
      return Some(HintTruncated);
    }
    assert headerBuf[..] == headerBuf[..n] == s[..HINT_HEADER_SIZE];
    var (header, valuePos) := DecodeHintHeader(headerBuf[..]);
    var key := new Byte[header.keySize];
    var n2 := ReadUpTo(r, key);
    if n2 < key.Length {
      return Some(HintTruncated);
    }
    assert key[..] == key[..n2] == s[HINT_HEADER_SIZE..HINT_HEADER_SIZE + header.keySize];
    res := Some(HintOk(HintRec(header, valuePos, key[..])));
  }
}
