/** What a sequential scan of a data file finds, as a function of its bytes. */
module Scan {
  import opened Bytes
  import opened Format
  import opened EntryFormat

  /** An intact entry and the offset it starts at. */
  datatype Item = Item(pos: nat, entry: Entry) {
    function ValuePos(): nat {
      pos + HEADER_SIZE + entry.header.keySize
    }

    function End(): nat {
      pos + entry.Len()
    }
  }

  /** Scans `s`, whose first byte sits at offset `base` of its file: corrupt
      entries are skipped, a torn one ends the scan. */
  function ParseFrom(h: Checksum, s: seq<Byte>, base: nat): seq<Item>
    decreases |s|
  {
    match ReadEntry(h, s)
    case None => []
    case Some(Truncated) => []
    case Some(Ok(e, n)) => [Item(base, e)] + ParseFrom(h, s[n..], base + n)
    case Some(CrcMismatch(n)) => ParseFrom(h, s[n..], base + n)
  }

  function Parse(h: Checksum, s: seq<Byte>): seq<Item> {
    ParseFrom(h, s, 0)
  }

  /** The scan of `s` ends exactly at its last byte: nothing torn. */
  predicate Whole(h: Checksum, s: seq<Byte>)
    decreases |s|
  {
    match ReadEntry(h, s)
    case None => true
    case Some(Truncated) => false
    case Some(r) => Whole(h, s[r.TotalLen()..])
  }

  /** Appending behind a whole log appends to what a scan finds. */
  lemma {:induction false} ParseAppend(h: Checksum, s: seq<Byte>, x: seq<Byte>, base: nat)
    requires Whole(h, s)
    ensures ParseFrom(h, s + x, base) == ParseFrom(h, s, base) + ParseFrom(h, x, base + |s|)
    ensures Whole(h, s + x) == Whole(h, x)
    decreases |s|
  {
    hide ReadEntry;
    if s == [] {
      assert s + x == x;
    } else {
      var n := ReadEntry(h, s).value.TotalLen();
      ReadEntryExtends(h, s, x);
      assert (s + x)[n..] == s[n..] + x;
      ParseAppend(h, s[n..], x, base + n);
    }
  }

  /** An encoded entry parses to itself. */
  lemma ParseOne(h: Checksum, key: Key, value: Value, tombstone: bool, timestamp: U32, base: nat)
    requires Encodable(key, value)
    ensures
      var b := EntryBytes(h, key, value, tombstone, timestamp);
      Whole(h, b) && ParseFrom(h, b, base) == [Item(base, MakeEntry(key, value, tombstone, timestamp))]
  {
    var b := EntryBytes(h, key, value, tombstone, timestamp);
    EntryRoundTrip(h, key, value, tombstone, timestamp, []);
    assert b + [] == b && b[|b|..] == [];
  }

  /** The first `m` items are exactly the ones that end at or before `limit`. */
  predicate KeepsUpTo(items: seq<Item>, m: nat, limit: nat) {
    m <= |items| && forall i :: 0 <= i < |items| ==> (i < m <==> items[i].End() <= limit)
  }

  lemma KeepsUpToCons(it: Item, rest: seq<Item>, m: nat, limit: nat)
    requires KeepsUpTo(rest, m, limit) && it.End() <= limit
    ensures KeepsUpTo([it] + rest, m + 1, limit) && ([it] + rest)[..m + 1] == [it] + rest[..m]
  {
  }

  /** Cutting a file at byte `c` keeps exactly the entries that end at or before `c`, whatever the bytes are. */
  lemma {:induction false} ParseCut(h: Checksum, s: seq<Byte>, base: nat, c: nat) returns (m: nat)
    requires c <= |s|
    ensures KeepsUpTo(ParseFrom(h, s, base), m, base + c)
    ensures ParseFrom(h, s[..c], base) == ParseFrom(h, s, base)[..m]
    decreases |s|
  {
    hide ReadEntry;
    ReadEntryCut(h, s, c);
    if c == 0 || ReadEntry(h, s) == None || ReadEntry(h, s) == Some(Truncated)
       || c < ReadEntry(h, s).value.TotalLen() {
      m := 0;
      if ReadEntry(h, s).Some? && ReadEntry(h, s).value.Complete() {
        FirstEnd(h, s, base);
      }
    } else {
      var r := ReadEntry(h, s).value;
      var n := r.TotalLen();
      m := ParseCut(h, s[n..], base + n, c - n);
      assert s[..c][n..] == s[n..][..c - n];
      if r.Ok? {
        KeepsUpToCons(Item(base, r.entry), ParseFrom(h, s[n..], base + n), m, base + c);
        m := m + 1;
      }
    }
  }

  /** No item ends before the first complete entry does. */
  lemma FirstEnd(h: Checksum, s: seq<Byte>, base: nat)
    requires ReadEntry(h, s).Some? && ReadEntry(h, s).value.Complete()
    ensures forall i :: 0 <= i < |ParseFrom(h, s, base)| ==>
      base + ReadEntry(h, s).value.TotalLen() <= ParseFrom(h, s, base)[i].End()
  {
    hide ReadEntry;
    var r := ReadEntry(h, s).value;
    var n := r.TotalLen();
    var rest := ParseFrom(h, s[n..], base + n);
    ParseBounds(h, s[n..], base + n);
    forall i | 0 <= i < |rest|
      ensures base + n <= rest[i].End()
    {
      assert Holds(s[n..], base + n, rest[i]);
    }
    if r.Ok? {
      assert ParseFrom(h, s, base) == [Item(base, r.entry)] + rest;
    } else {
      assert ParseFrom(h, s, base) == rest;
    }
  }

  /** Every item lies inside the file and describes its own bytes. */
  lemma {:induction false} ParseBounds(h: Checksum, s: seq<Byte>, base: nat)
    ensures forall i :: 0 <= i < |ParseFrom(h, s, base)| ==> Holds(s, base, ParseFrom(h, s, base)[i])
    decreases |s|
  {
    hide ReadEntry;
    if ReadEntry(h, s).Some? && ReadEntry(h, s).value.Complete() {
      var n := ReadEntry(h, s).value.TotalLen();
      ParseBounds(h, s[n..], base + n);
      var rest := ParseFrom(h, s[n..], base + n);
      forall i | 0 <= i < |rest|
        ensures Holds(s, base, rest[i])
      {
        HoldsShift(s, base, n, rest[i]);
      }
    }
  }

  /** The bytes `s` at offset `base` hold the item. */
  predicate Holds(s: seq<Byte>, base: nat, it: Item) {
    && base <= it.pos && it.End() <= base + |s|
    && it.entry.Consistent()
    && s[it.ValuePos() - base..it.End() - base] == it.entry.value
  }

  lemma HoldsShift(s: seq<Byte>, base: nat, n: nat, it: Item)
    requires n <= |s| && Holds(s[n..], base + n, it)
    ensures Holds(s, base, it)
  {
    var lo, hi := it.ValuePos() - base, it.End() - base;
    assert s[lo..hi] == s[n..][lo - n..hi - n];
  }

  /** Items do not overlap and come in file order. */
  lemma {:induction false} ParseOrdered(h: Checksum, s: seq<Byte>, base: nat)
    ensures forall i, j :: 0 <= i < j < |ParseFrom(h, s, base)| ==>
      ParseFrom(h, s, base)[i].End() <= ParseFrom(h, s, base)[j].pos
    decreases |s|
  {
    hide ReadEntry;
    if ReadEntry(h, s).Some? && ReadEntry(h, s).value.Complete() {
      var n := ReadEntry(h, s).value.TotalLen();
      ParseOrdered(h, s[n..], base + n);
      ParseBounds(h, s[n..], base + n);
    }
  }

  /** Overwriting one entry, its two size fields excepted, so that its checksum
      fails loses that entry and nothing else. */
  lemma CorruptionIsLocal(h: Checksum, before: seq<Byte>, entry: seq<Byte>, damaged: seq<Byte>, after: seq<Byte>)
    requires Whole(h, before)
    requires ReadEntry(h, entry).Some? && ReadEntry(h, entry).value.Ok? && ReadEntry(h, entry).value.len == |entry|
    requires |damaged| == |entry| && damaged[8..16] == entry[8..16]
    requires !ReadEntry(h, damaged).value.Ok?
    ensures Parse(h, before + entry + after) ==
      Parse(h, before) + [Item(|before|, ReadEntry(h, entry).value.entry)] + ParseFrom(h, after, |before| + |entry|)
    ensures Parse(h, before + damaged + after) == Parse(h, before) + ParseFrom(h, after, |before| + |entry|)
  {
    hide ReadEntry;
    DamagedReads(h, entry, damaged);
    ReplaceEntry(h, before, entry, after);
    ReplaceEntry(h, before, damaged, after);
  }

  /** One byte of an entry changed, its size fields excepted, loses that entry and nothing else. */
  lemma OneBadByteIsLocal(h: Checksum, before: seq<Byte>, entry: seq<Byte>, after: seq<Byte>, i: nat, x: Byte)
    requires h.Injective() && Whole(h, before) && i < |entry| && !(8 <= i < 16) && entry[i] != x
    requires ReadEntry(h, entry).Some? && ReadEntry(h, entry).value.Ok? && ReadEntry(h, entry).value.len == |entry|
    ensures Parse(h, before + entry[i := x] + after) == Parse(h, before) + ParseFrom(h, after, |before| + |entry|)
  {
    hide ReadEntry, ParseFrom, Whole;
    OneBadByte(h, entry, i, x);
    CorruptionIsLocal(h, before, entry, entry[i := x], after);
  }

  /** With the size fields intact, a damaged entry is skipped at its full length. */
  lemma DamagedReads(h: Checksum, entry: seq<Byte>, damaged: seq<Byte>)
    requires ReadEntry(h, entry).Some? && ReadEntry(h, entry).value.Ok? && ReadEntry(h, entry).value.len == |entry|
    requires |damaged| == |entry| && damaged[8..16] == entry[8..16]
    requires !ReadEntry(h, damaged).value.Ok?
    ensures ReadEntry(h, damaged) == Some(CrcMismatch(|entry|))
  {
    assert damaged[..HEADER_SIZE][8..12] == damaged[8..16][..4] == entry[..HEADER_SIZE][8..12];
    assert damaged[..HEADER_SIZE][12..16] == damaged[8..16][4..] == entry[..HEADER_SIZE][12..16];
  }

  /** What a scan finds around one complete entry. */
  lemma ReplaceEntry(h: Checksum, before: seq<Byte>, e: seq<Byte>, after: seq<Byte>)
    requires Whole(h, before)
    requires ReadEntry(h, e).Some? && ReadEntry(h, e).value.Complete() && ReadEntry(h, e).value.TotalLen() == |e|
    ensures Parse(h, before + e + after) ==
      Parse(h, before)
      + (if ReadEntry(h, e).value.Ok? then [Item(|before|, ReadEntry(h, e).value.entry)] else [])
      + ParseFrom(h, after, |before| + |e|)
  {
    hide ReadEntry;
    hide ParseFrom;
    assert before + e + after == before + (e + after);
    ParseAppend(h, before, e + after, 0);
    ParseFirst(h, e, after, |before|);
  }

  lemma ParseFirst(h: Checksum, e: seq<Byte>, after: seq<Byte>, base: nat)
    requires ReadEntry(h, e).Some? && ReadEntry(h, e).value.Complete() && ReadEntry(h, e).value.TotalLen() == |e|
    ensures ParseFrom(h, e + after, base) ==
      (if ReadEntry(h, e).value.Ok? then [Item(base, ReadEntry(h, e).value.entry)] else [])
      + ParseFrom(h, after, base + |e|)
  {
    hide ReadEntry;
    ReadEntryExtends(h, e, after);
    assert (e + after)[|e|..] == after;
  }
}
