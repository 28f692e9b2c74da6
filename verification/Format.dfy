/** The parts of the on-disk layout that data files and hint files share. */
module Format {
  import opened Bytes

  type Key = seq<Byte>
  type Value = seq<Byte>

  const TOMBSTONE_BIT: U32 := 0x8000_0000
  const MAX_KEY_LEN: U32 := 0x7FFF_FFFF

  datatype EntryHeader = EntryHeader(timestamp: U32, keySize: U32, valueSize: U32, tombstone: bool)

  /** Bitwise or of a 32-bit length with the flag in bit 31. */
  function EncodeKeySize(keyLen: U32, tombstone: bool): U32 {
    if tombstone && keyLen < TOMBSTONE_BIT then keyLen + TOMBSTONE_BIT else keyLen
  }

  /** The low 31 bits, and bit 31. */
  function DecodeKeySize(raw: U32): (U32, bool) {
    (raw % TOMBSTONE_BIT, raw / TOMBSTONE_BIT != 0)
  }

  /** Packing is a bijection between 32-bit words and (31-bit length, flag) pairs. */
  lemma KeySizeBijection(raw: U32)
    ensures var (n, t) := DecodeKeySize(raw); n <= MAX_KEY_LEN && EncodeKeySize(n, t) == raw
    ensures forall n: U32, t: bool :: n <= MAX_KEY_LEN && EncodeKeySize(n, t) == raw ==> DecodeKeySize(raw) == (n, t)
  {
    forall n: U32, t: bool | n <= MAX_KEY_LEN && EncodeKeySize(n, t) == raw
      ensures DecodeKeySize(raw) == (n, t)
    {
      KeySizeRoundTrip(n, t);
    }
  }

  /** A length survives packing exactly when it fits in 31 bits. */
  lemma KeySizeRoundTrip(n: U32, t: bool)
    ensures DecodeKeySize(EncodeKeySize(n, t)) == (n, t) <==> n <= MAX_KEY_LEN
  {
    if n <= MAX_KEY_LEN {
      assert (n + TOMBSTONE_BIT) % TOMBSTONE_BIT == n;
    }
  }

  /** A slice of a prefix is a slice of the whole. */
  lemma SliceOfPrefix<T>(s: seq<T>, x: seq<T>, lo: nat, hi: nat)
    requires lo <= hi <= |s|
    ensures (s + x)[lo..hi] == s[lo..hi]
  {
  }

  /** The fields of a header, cut out again. */
  lemma FieldsOf<T>(a: seq<T>, b: seq<T>, c: seq<T>, d: seq<T>, body: seq<T>)
    requires |a| == |b| == |c| == 4
    ensures
      var n := 12 + |d|;
      var hd := (a + b + c + d + body)[..n];
      hd == a + b + c + d && hd[0..4] == a && hd[4..8] == b && hd[8..12] == c && hd[12..n] == d
    ensures (a + b + c + d + body)[4..12 + |d|] == b + c + d
    ensures forall m :: 0 <= m <= |body| ==> (a + b + c + d + body)[12 + |d|..12 + |d| + m] == body[..m]
  {
    assert a + b + c + d + body == a + (b + (c + (d + body)));
  }

  lemma Regroup<T>(a: seq<T>, b: seq<T>, c: seq<T>, d: seq<T>, key: seq<T>, value: seq<T>)
    ensures a + (b + c + d + key + value) == a + b + c + d + (key + value)
    ensures b + c + d + key + value == b + c + d + (key + value)
  {
  }

  lemma FieldSlices<T>(a: seq<T>, b: seq<T>, c: seq<T>, d: seq<T>, body: seq<T>)
    requires |a| == |b| == |c| == 4
    ensures
      var s := a + b + c + d + body;
      s[..4] == a && s[4..8] == b && s[8..12] == c && s[12..12 + |d|] == d && s[12 + |d|..] == body
  {
  }
}
