/** Hint files: 20-byte-header records and one checksum trailer over all of them. */
module HintFormat {
  import opened Bytes
  import opened Format

  const HINT_HEADER_SIZE: nat := 20
  const HINT_TRAILER_SIZE: nat := 4

  datatype HintRec = HintRec(header: EntryHeader, valuePos: U64, key: Key) {
    function Len(): nat {
      HINT_HEADER_SIZE + header.keySize
    }

    predicate Consistent() {
      |key| == header.keySize <= MAX_KEY_LEN
    }
  }

  function HintBytes(rec: HintRec): (s: seq<Byte>)
    ensures |s| == HINT_HEADER_SIZE + |rec.key|
  {
    Le32(rec.header.timestamp) + Le32(EncodeKeySize(rec.header.keySize, rec.header.tombstone))
    + Le32(rec.header.valueSize) + Le64(rec.valuePos) + rec.key
  }

  function DecodeHintHeader(buf: seq<Byte>): (EntryHeader, U64)
    requires |buf| == HINT_HEADER_SIZE
  {
    var (keySize, tombstone) := DecodeKeySize(U32Of(buf[4..8]));
    (EntryHeader(U32Of(buf[0..4]), keySize, U32Of(buf[8..12]), tombstone), U64Of(buf[12..20]))
  }

  datatype HintRead = HintOk(rec: HintRec) | HintTruncated

  function ReadHint(s: seq<Byte>): (r: Option<HintRead>)
    ensures r.Some? && r.value.HintOk? ==> r.value.rec.Consistent() && r.value.rec.Len() <= |s|
  {
    if |s| == 0 then None
    else if |s| < HINT_HEADER_SIZE then Some(HintTruncated)
    else
      var (header, valuePos) := DecodeHintHeader(s[..HINT_HEADER_SIZE]);
      if |s| - HINT_HEADER_SIZE < header.keySize then Some(HintTruncated)
      else Some(HintOk(HintRec(header, valuePos, s[HINT_HEADER_SIZE..HINT_HEADER_SIZE + header.keySize])))
  }

  /** Reading a record given as its four header fields and the bytes behind them. */
  lemma ReadHintFields(ts: seq<Byte>, ks: seq<Byte>, vs: seq<Byte>, pos: seq<Byte>, key: Key, suffix: seq<Byte>)
    requires |ts| == |ks| == |vs| == 4 && |pos| == 8
    requires |key| == DecodeKeySize(U32Of(ks)).0
    ensures
      var (keySize, tombstone) := DecodeKeySize(U32Of(ks));
      ReadHint(ts + ks + vs + pos + (key + suffix)) ==
        Some(HintOk(HintRec(EntryHeader(U32Of(ts), keySize, U32Of(vs), tombstone), U64Of(pos), key)))
  {
    hide U32Of, U64Of;
    FieldsOf(ts, ks, vs, pos, key + suffix);
    assert (key + suffix)[..|key|] == key;
  }

  lemma HintRoundTrip(rec: HintRec, suffix: seq<Byte>)
    requires rec.Consistent()
    ensures ReadHint(HintBytes(rec) + suffix) == Some(HintOk(rec))
  {
    hide Le32, U32Of, Le64, U64Of, ReadHint;
    var sizes := EncodeKeySize(rec.header.keySize, rec.header.tombstone);
    Le32RoundTrip(rec.header.timestamp);
    Le32RoundTrip(sizes);
    Le32RoundTrip(rec.header.valueSize);
    Le64RoundTrip(rec.valuePos);
    KeySizeRoundTrip(rec.header.keySize, rec.header.tombstone);
    var ts, ks, vs, pos := Le32(rec.header.timestamp), Le32(sizes), Le32(rec.header.valueSize), Le64(rec.valuePos);
    ReadHintFields(ts, ks, vs, pos, rec.key, suffix);
    assert ts + ks + vs + pos + rec.key + suffix == ts + ks + vs + pos + (rec.key + suffix);
  }

  /** A record cut short reads as torn. */
  lemma ReadHintCut(rec: HintRec, suffix: seq<Byte>, c: nat)
    requires rec.Consistent() && 0 < c < |HintBytes(rec)|
    ensures ReadHint((HintBytes(rec) + suffix)[..c]) == Some(HintTruncated)
  {
    var b := HintBytes(rec) + suffix;
    HintRoundTrip(rec, suffix);
    if c >= HINT_HEADER_SIZE {
      assert b[..c][..HINT_HEADER_SIZE] == b[..HINT_HEADER_SIZE];
    }
  }

  /** The record content of a whole hint file, if its trailer matches. */
  function VerifyHintFile(h: Checksum, bytes: seq<Byte>): Option<seq<Byte>> {
    if |bytes| < HINT_TRAILER_SIZE then None
    else
      var content := bytes[..|bytes| - HINT_TRAILER_SIZE];
      if h.Hash(content) == U32Of(bytes[|bytes| - HINT_TRAILER_SIZE..]) then Some(content) else None
  }

  /** All records of `s`, or `None` when the last one is torn. */
  function ParseHints(s: seq<Byte>): Option<seq<HintRec>>
    decreases |s|
  {
    match ReadHint(s)
    case None => Some([])
    case Some(HintTruncated) => None
    case Some(HintOk(rec)) =>
      match ParseHints(s[rec.Len()..])
      case None => None
      case Some(rest) => Some([rec] + rest)
  }

  /** The records written one after the other. */
  function HintStream(recs: seq<HintRec>): seq<Byte> {
    if recs == [] then [] else HintBytes(recs[0]) + HintStream(recs[1..])
  }

  predicate AllConsistent(recs: seq<HintRec>) {
    forall i :: 0 <= i < |recs| ==> recs[i].Consistent()
  }

  lemma {:induction false} HintStreamAppend(recs: seq<HintRec>, rec: HintRec)
    ensures HintStream(recs + [rec]) == HintStream(recs) + HintBytes(rec)
    decreases |recs|
  {
    if recs == [] {
      assert recs + [rec] == [rec];
      assert HintStream([rec]) == HintBytes(rec) + HintStream([]);
    } else {
      HintStreamAppend(recs[1..], rec);
      assert (recs + [rec])[1..] == recs[1..] + [rec];
    }
  }

  lemma ParseHintsCons(rec: HintRec, tail: seq<Byte>)
    requires rec.Consistent()
    ensures ParseHints(HintBytes(rec) + tail) ==
      match ParseHints(tail) case None => None case Some(rest) => Some([rec] + rest)
  {
    HintRoundTrip(rec, tail);
    assert (HintBytes(rec) + tail)[rec.Len()..] == tail;
  }

  lemma ParseHintsTorn(rec: HintRec, tail: seq<Byte>, c: nat)
    requires rec.Consistent() && 0 < c < |HintBytes(rec)|
    ensures ParseHints((HintBytes(rec) + tail)[..c]) == None
  {
    ReadHintCut(rec, tail, c);
  }

  /** A whole record stream parses back to its records. */
  lemma {:induction false} ParseStream(recs: seq<HintRec>)
    requires AllConsistent(recs)
    ensures ParseHints(HintStream(recs)) == Some(recs)
    decreases |recs|
  {
    if recs != [] {
      ParseStream(recs[1..]);
      ParseHintsCons(recs[0], HintStream(recs[1..]));
      assert recs == [recs[0]] + recs[1..];
    }
  }

  /** One step of ParseCutStream, for an arbitrary tail. */
  lemma CutStep(rec: HintRec, tail: seq<Byte>, rest: seq<HintRec>, c: nat)
    requires rec.Consistent() && c <= rec.Len() + |tail|
    requires c >= rec.Len() && ParseHints(tail[..c - rec.Len()]).Some? ==>
      ParseHints(tail[..c - rec.Len()]).value <= rest
    ensures ParseHints((HintBytes(rec) + tail)[..c]).Some? ==>
      ParseHints((HintBytes(rec) + tail)[..c]).value <= [rec] + rest
  {
    if c >= rec.Len() {
      CutOfConcat(HintBytes(rec), tail, c);
      ParseHintsCons(rec, tail[..c - rec.Len()]);
    } else if c > 0 {
      ParseHintsTorn(rec, tail, c);
    }
  }

  /** Whatever a cut of a record stream parses to is a prefix of the records. */
  lemma {:induction false} ParseCutStream(recs: seq<HintRec>, c: nat)
    requires AllConsistent(recs) && c <= |HintStream(recs)|
    ensures ParseHints(HintStream(recs)[..c]).Some? ==> ParseHints(HintStream(recs)[..c]).value <= recs
    decreases |recs|
  {
    if recs != [] {
      var rec, rest := recs[0], recs[1..];
      if c >= rec.Len() {
        ParseCutStream(rest, c - rec.Len());
      }
      CutStep(rec, HintStream(rest), rest, c);
      assert [rec] + rest == recs;
    }
  }

  lemma CutOfConcat(b: seq<Byte>, tail: seq<Byte>, c: nat)
    requires |b| <= c <= |b| + |tail|
    ensures (b + tail)[..c] == b + tail[..c - |b|]
  {
  }

  /** A closed hint file verifies and yields exactly its record stream. */
  lemma ClosedHintVerifies(h: Checksum, content: seq<Byte>)
    ensures VerifyHintFile(h, content + Le32(h.Hash(content))) == Some(content)
  {
    var bytes := content + Le32(h.Hash(content));
    assert bytes[..|bytes| - HINT_TRAILER_SIZE] == content;
    assert bytes[|bytes| - HINT_TRAILER_SIZE..] == Le32(h.Hash(content));
    Le32RoundTrip(h.Hash(content));
  }

  /** Damage is detected: one byte changed anywhere in a hint file that verifies, and it no longer does. */
  lemma OneBadHintByte(h: Checksum, bytes: seq<Byte>, i: nat, x: Byte)
    requires h.Injective() && VerifyHintFile(h, bytes).Some? && i < |bytes| && bytes[i] != x
    ensures VerifyHintFile(h, bytes[i := x]) == None
  {
    hide Checksum.Hash, U32Of;
    var n, t := |bytes| - HINT_TRAILER_SIZE, bytes[i := x];
    if i < n {
      assert t[..n] == bytes[..n][i := x] && t[n..] == bytes[n..];
      h.OneByteShows(bytes[..n], i, x);
    } else {
      assert t[..n] == bytes[..n] && t[n..][i - n] == x;
      if U32Of(t[n..]) == U32Of(bytes[n..]) {
        U32OfInjective(t[n..], bytes[n..]);
      }
    }
  }

  /** Where each field of a record lies, byte for byte. */
  lemma HintLayout(rec: HintRec)
    requires rec.Consistent()
    ensures
      var b := HintBytes(rec);
      && U32Of(b[..4]) == rec.header.timestamp
      && U32Of(b[4..8]) == rec.header.keySize + (if rec.header.tombstone then 0x8000_0000 else 0)
      && U32Of(b[8..12]) == rec.header.valueSize && U64Of(b[12..20]) == rec.valuePos && b[20..] == rec.key
  {
    hide Le32, U32Of, Le64, U64Of;
    var sizes := EncodeKeySize(rec.header.keySize, rec.header.tombstone);
    Le32RoundTrip(rec.header.timestamp);
    Le32RoundTrip(sizes);
    Le32RoundTrip(rec.header.valueSize);
    Le64RoundTrip(rec.valuePos);
    FieldSlices(Le32(rec.header.timestamp), Le32(sizes), Le32(rec.header.valueSize), Le64(rec.valuePos), rec.key);
  }
}
