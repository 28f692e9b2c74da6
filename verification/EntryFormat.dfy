/** Data-file entries: a 16-byte header, the key, the value. */
module EntryFormat {
  import opened Bytes
  import opened Format

  const HEADER_SIZE: nat := 16

  datatype Entry = Entry(header: EntryHeader, key: Key, value: Value) {
    /** On-disk length. */
    function Len(): nat {
      HEADER_SIZE + header.keySize + header.valueSize
    }

    /** The header describes the body that follows it. */
    predicate Consistent() {
      |key| == header.keySize <= MAX_KEY_LEN && |value| == header.valueSize
    }
  }

  /** The entry `EncodeEntry` is asked to write. */
  function MakeEntry(key: Key, value: Value, tombstone: bool, timestamp: U32): Entry
    requires Encodable(key, value)
  {
    Entry(EntryHeader(timestamp, |key|, |value|, tombstone), key, value)
  }

  /** The sizes fit in the header fields. */
  predicate Encodable(key: Key, value: Value) {
    |key| <= MAX_KEY_LEN && |value| < 0x1_0000_0000
  }

  /** Everything after the CRC field; sizes are truncated to 32 bits as the cast in the source does. */
  function EntryTail(key: Key, value: Value, tombstone: bool, timestamp: U32): (s: seq<Byte>)
    ensures |s| == 12 + |key| + |value|
  {
    Le32(timestamp) + Le32(EncodeKeySize(|key| % 0x1_0000_0000, tombstone)) + Le32(|value| % 0x1_0000_0000)
    + key + value
  }

  function EntryBytes(h: Checksum, key: Key, value: Value, tombstone: bool, timestamp: U32): (s: seq<Byte>)
    ensures |s| == HEADER_SIZE + |key| + |value|
  {
    Le32(h.Hash(EntryTail(key, value, tombstone, timestamp))) + EntryTail(key, value, tombstone, timestamp)
  }

  /** Fills the buffer with a zero CRC field, then patches the CRC in. */
  method EncodeEntry(h: Checksum, key: Key, value: Value, tombstone: bool, timestamp: U32)
    returns (bytes: seq<Byte>, valueLen: nat)
    ensures bytes == EntryBytes(h, key, value, tombstone, timestamp) && valueLen == |value|
  {
    hide Le32, Checksum.Hash, EncodeKeySize;
    var keySizeAndFlags := EncodeKeySize(|key| % 0x1_0000_0000, tombstone);
    var buf: seq<Byte> := [0, 0, 0, 0];
    buf := buf + Le32(timestamp);
    buf := buf + Le32(keySizeAndFlags);
    buf := buf + Le32(|value| % 0x1_0000_0000);
    buf := buf + key;
    buf := buf + value;
    assert buf[4..] == EntryTail(key, value, tombstone, timestamp);
    var crc := h.Hash(buf[4..]);
    buf := Le32(crc) + buf[4..];
    return buf, |value|;
  }

  function DecodeEntryHeader(buf: seq<Byte>): (U32, EntryHeader)
    requires |buf| == HEADER_SIZE
  {
    var (keySize, tombstone) := DecodeKeySize(U32Of(buf[8..12]));
    (U32Of(buf[0..4]), EntryHeader(U32Of(buf[4..8]), keySize, U32Of(buf[12..16]), tombstone))
  }

  datatype EntryRead = Ok(entry: Entry, len: nat) | Truncated | CrcMismatch(totalLen: nat) {
    /** A whole entry was there, intact or not. */
    predicate Complete() {
      !Truncated?
    }

    function TotalLen(): nat
      requires Complete()
    {
      match this
      case Ok(_, n) => n
      case CrcMismatch(n) => n
    }
  }

  /** What reading one entry finds at the front of `s`; `None` is a clean end of file. */
  function ReadEntry(h: Checksum, s: seq<Byte>): (r: Option<EntryRead>)
    ensures r == None <==> s == []
    ensures r.Some? && r.value.Complete() ==> HEADER_SIZE <= r.value.TotalLen() <= |s|
    ensures r.Some? && r.value.Ok? ==>
      var e := r.value.entry;
      e.Consistent() && e.Len() == r.value.len && s[HEADER_SIZE + |e.key|..r.value.len] == e.value
  {
    if |s| == 0 then None
    else if |s| < HEADER_SIZE then Some(Truncated)
    else
      var (crc, header) := DecodeEntryHeader(s[..HEADER_SIZE]);
      var bodyLen := header.keySize + header.valueSize;
      if |s| - HEADER_SIZE < bodyLen then Some(Truncated)
      else
        var body := s[HEADER_SIZE..HEADER_SIZE + bodyLen];
        if h.Hash(s[4..HEADER_SIZE] + body) != crc then Some(CrcMismatch(HEADER_SIZE + bodyLen))
        else Some(Ok(Entry(header, body[..header.keySize], body[header.keySize..]), HEADER_SIZE + bodyLen))
  }

  /** More bytes behind a complete entry do not change what is read. */
  lemma ReadEntryExtends(h: Checksum, s: seq<Byte>, x: seq<Byte>)
    requires ReadEntry(h, s).Some? && ReadEntry(h, s).value.Complete()
    ensures ReadEntry(h, s + x) == ReadEntry(h, s)
  {
    assert (s + x)[..HEADER_SIZE] == s[..HEADER_SIZE];
    SliceOfPrefix(s, x, 4, HEADER_SIZE);
    SliceOfPrefix(s, x, HEADER_SIZE, ReadEntry(h, s).value.TotalLen());
  }

  /** Reading a file cut at byte `c`: an entry is either wholly there or torn. */
  lemma ReadEntryCut(h: Checksum, s: seq<Byte>, c: nat)
    requires c <= |s|
    ensures c == 0 ==> ReadEntry(h, s[..c]) == None
    ensures c > 0 && ReadEntry(h, s) == Some(Truncated) ==> ReadEntry(h, s[..c]) == Some(Truncated)
    ensures c > 0 && ReadEntry(h, s).Some? && ReadEntry(h, s).value.Complete() ==>
      ReadEntry(h, s[..c]) == if c < ReadEntry(h, s).value.TotalLen() then Some(Truncated) else ReadEntry(h, s)
  {
    var t := s[..c];
    if c >= HEADER_SIZE {
      assert t[..HEADER_SIZE] == s[..HEADER_SIZE];
      if ReadEntry(h, s).Some? && ReadEntry(h, s).value.Complete() && c >= ReadEntry(h, s).value.TotalLen() {
        var n := ReadEntry(h, s).value.TotalLen();
        assert t[HEADER_SIZE..n] == s[HEADER_SIZE..n];
        assert t[4..HEADER_SIZE] == s[4..HEADER_SIZE];
      }
    }
  }

  /** Reading an entry given as its four header fields and its body. */
  lemma ReadFields(h: Checksum, crc: seq<Byte>, ts: seq<Byte>, ks: seq<Byte>, vs: seq<Byte>, body: seq<Byte>)
    requires |crc| == |ts| == |ks| == |vs| == 4
    requires |body| == DecodeKeySize(U32Of(ks)).0 + U32Of(vs)
    ensures
      var (keySize, tombstone) := DecodeKeySize(U32Of(ks));
      ReadEntry(h, crc + ts + ks + vs + body) == Some(
        if h.Hash(ts + ks + vs + body) == U32Of(crc)
        then Ok(Entry(EntryHeader(U32Of(ts), keySize, U32Of(vs), tombstone), body[..keySize], body[keySize..]),
                16 + |body|)
        else CrcMismatch(16 + |body|))
  {
    hide U32Of, Checksum.Hash;
    var s := crc + ts + ks + vs + body;
    FieldsOf(crc, ts, ks, vs, body);
    assert s[HEADER_SIZE..HEADER_SIZE + |body|] == body[..|body|] == body;
    assert s[4..HEADER_SIZE] + body == ts + ks + vs + body;
  }

  /** Encoding then reading, with anything behind, gives the fields back and stops at the suffix. */
  lemma EntryRoundTrip(h: Checksum, key: Key, value: Value, tombstone: bool, timestamp: U32, suffix: seq<Byte>)
    requires Encodable(key, value)
    ensures
      var b := EntryBytes(h, key, value, tombstone, timestamp);
      ReadEntry(h, b + suffix) == Some(Ok(MakeEntry(key, value, tombstone, timestamp), |b|))
  {
    hide Le32, U32Of, Checksum.Hash, ReadEntry;
    var b := EntryBytes(h, key, value, tombstone, timestamp);
    var crc := h.Hash(EntryTail(key, value, tombstone, timestamp));
    var sizes := EncodeKeySize(|key|, tombstone);
    Le32RoundTrip(crc);
    Le32RoundTrip(timestamp);
    Le32RoundTrip(sizes);
    Le32RoundTrip(|value|);
    KeySizeRoundTrip(|key|, tombstone);
    Regroup(Le32(crc), Le32(timestamp), Le32(sizes), Le32(|value|), key, value);
    ReadFields(h, Le32(crc), Le32(timestamp), Le32(sizes), Le32(|value|), key + value);
    assert (key + value)[..|key|] == key && (key + value)[|key|..] == value;
    ReadEntryExtends(h, b, suffix);
  }

  /** The round trip holds exactly for keys and values whose sizes fit in the header. */
  lemma EntryRoundTripExactly(h: Checksum, key: Key, value: Value, tombstone: bool, timestamp: U32)
    ensures Encodable(key, value) <==>
      var r := ReadEntry(h, EntryBytes(h, key, value, tombstone, timestamp));
      r.Some? && r.value.Ok? && r.value.entry.key == key && r.value.entry.value == value
  {
    if Encodable(key, value) {
      EntryRoundTrip(h, key, value, tombstone, timestamp, []);
      var b := EntryBytes(h, key, value, tombstone, timestamp);
      assert b + [] == b;
    }
  }

  /** Where each field lies, byte for byte. */
  lemma EntryLayout(h: Checksum, key: Key, value: Value, tombstone: bool, timestamp: U32)
    requires Encodable(key, value)
    ensures
      var b := EntryBytes(h, key, value, tombstone, timestamp);
      && U32Of(b[..4]) == h.Hash(b[4..]) && U32Of(b[4..8]) == timestamp
      && U32Of(b[8..12]) == |key| + (if tombstone then 0x8000_0000 else 0) && U32Of(b[12..16]) == |value|
      && b[16..16 + |key|] == key && b[16 + |key|..] == value
  {
    hide Le32, U32Of, Checksum.Hash;
    var b := EntryBytes(h, key, value, tombstone, timestamp);
    var sizes := EncodeKeySize(|key|, tombstone);
    var crc := h.Hash(EntryTail(key, value, tombstone, timestamp));
    Le32RoundTrip(crc);
    Le32RoundTrip(timestamp);
    Le32RoundTrip(sizes);
    Le32RoundTrip(|value|);
    Regroup(Le32(crc), Le32(timestamp), Le32(sizes), Le32(|value|), key, value);
    FieldSlices(Le32(crc), Le32(timestamp), Le32(sizes), Le32(|value|), key + value);
    assert b[4..] == EntryTail(key, value, tombstone, timestamp);
    assert b[16..] == key + value;
  }

  /** What the header fields do not cover goes through the checksum, together with them. */
  lemma ChecksumCovers(h: Checksum, s: seq<Byte>)
    requires ReadEntry(h, s).Some? && ReadEntry(h, s).value.Complete()
    ensures
      var n := ReadEntry(h, s).value.TotalLen();
      && n == HEADER_SIZE + DecodeKeySize(U32Of(s[8..12])).0 + U32Of(s[12..16])
      && (ReadEntry(h, s).value.Ok? <==> h.Hash(s[4..n]) == U32Of(s[..4]))
  {
    hide U32Of, Checksum.Hash;
    var n := ReadEntry(h, s).value.TotalLen();
    var header := s[..HEADER_SIZE];
    assert header[0..4] == s[..4] && header[8..12] == s[8..12] && header[12..16] == s[12..16];
    assert s[4..HEADER_SIZE] + s[HEADER_SIZE..n] == s[4..n];
  }

  /** Complete entries are complete whatever their bodies and checksums are. */
  lemma StillComplete(h: Checksum, s: seq<Byte>, t: seq<Byte>)
    requires ReadEntry(h, s).Some? && ReadEntry(h, s).value.Complete() && |t| == |s| && t[8..16] == s[8..16]
    ensures ReadEntry(h, t).Some? && ReadEntry(h, t).value.Complete()
    ensures ReadEntry(h, t).value.TotalLen() == ReadEntry(h, s).value.TotalLen()
  {
    hide U32Of, Checksum.Hash;
    assert t[..HEADER_SIZE][8..12] == t[8..16][..4] == s[..HEADER_SIZE][8..12];
    assert t[..HEADER_SIZE][12..16] == t[8..16][4..] == s[..HEADER_SIZE][12..16];
  }

  /** Damage is detected: one byte of an entry changed, anywhere but in its two size fields, and the entry reads
      as corrupt, at its full length. */
  lemma OneBadByte(h: Checksum, s: seq<Byte>, i: nat, x: Byte)
    requires h.Injective() && ReadEntry(h, s).Some? && ReadEntry(h, s).value.Ok?
    requires i < ReadEntry(h, s).value.len && !(8 <= i < 16) && s[i] != x
    ensures ReadEntry(h, s[i := x]) == Some(CrcMismatch(ReadEntry(h, s).value.len))
  {
    hide ReadEntry, U32Of, Checksum.Hash;
    var t, n := s[i := x], ReadEntry(h, s).value.len;
    StillComplete(h, s, t);
    ChecksumCovers(h, s);
    ChecksumCovers(h, t);
    if i < 4 {
      assert t[4..n] == s[4..n];
      assert t[..4][i] == x;
      if U32Of(t[..4]) == U32Of(s[..4]) {
        U32OfInjective(t[..4], s[..4]);
      }
    } else {
      assert t[..4] == s[..4] && t[4..n] == s[4..n][i - 4 := x];
      h.OneByteShows(s[4..n], i - 4, x);
    }
  }
}
