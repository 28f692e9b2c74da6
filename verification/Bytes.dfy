/** Bytes, little-endian integers and the running checksum. */
module Bytes {

  type Byte = x: int | 0 <= x < 256
  type U32 = x: int | 0 <= x < 0x1_0000_0000
  type U64 = x: int | 0 <= x < 0x1_0000_0000_0000_0000

  datatype Option<+T> = None | Some(value: T)

  function Pow256(n: nat): (p: nat)
    ensures p >= 1
  {
    if n == 0 then 1 else 256 * Pow256(n - 1)
  }

  /** The low `n` bytes of `x`, least significant first. */
  function ToLe(x: nat, n: nat): (s: seq<Byte>)
    ensures |s| == n
  {
    if n == 0 then [] else [x % 256] + ToLe(x / 256, n - 1)
  }

  function FromLe(s: seq<Byte>): nat {
    if s == [] then 0 else s[0] + 256 * FromLe(s[1..])
  }

  lemma {:induction false} FromToLe(x: nat, n: nat)
    requires x < Pow256(n)
    ensures FromLe(ToLe(x, n)) == x
  {
    if n != 0 {
      FromToLe(x / 256, n - 1);
      assert ToLe(x, n)[1..] == ToLe(x / 256, n - 1);
    }
  }

  lemma {:induction false} ToFromLe(s: seq<Byte>)
    ensures FromLe(s) < Pow256(|s|)
    ensures ToLe(FromLe(s), |s|) == s
  {
    if s != [] {
      ToFromLe(s[1..]);
      assert FromLe(s) % 256 == s[0] && FromLe(s) / 256 == FromLe(s[1..]);
    }
  }

  /** Byte `i` counts `256^i`: the least significant byte comes first. */
  lemma {:induction false} LittleEndian(s: seq<Byte>, b: Byte)
    ensures FromLe(s + [b]) == FromLe(s) + Pow256(|s|) * b
  {
    if s == [] {
      assert [b][1..] == [];
    } else {
      var p := Pow256(|s| - 1);
      LittleEndian(s[1..], b);
      assert (s + [b])[1..] == s[1..] + [b];
      assert 256 * (p * b) == 256 * p * b;
    }
  }

  lemma Pow256Values()
    ensures Pow256(4) == 0x1_0000_0000 && Pow256(8) == 0x1_0000_0000_0000_0000
  {
    assert Pow256(2) == 0x1_0000;
    assert Pow256(4) == 0x1_0000_0000;
    assert Pow256(6) == 0x1_0000_0000_0000;
  }

  function Le32(x: U32): (s: seq<Byte>)
    ensures |s| == 4
  {
    ToLe(x, 4)
  }

  function U32Of(s: seq<Byte>): (x: U32)
    requires |s| == 4
  {
    ToFromLe(s);
    Pow256Values();
    FromLe(s)
  }

  /** No two sequences of four bytes stand for the same number. */
  lemma U32OfInjective(s: seq<Byte>, t: seq<Byte>)
    requires |s| == |t| == 4 && U32Of(s) == U32Of(t)
    ensures s == t
  {
    ToFromLe(s);
    ToFromLe(t);
  }

  function Le64(x: U64): (s: seq<Byte>)
    ensures |s| == 8
  {
    ToLe(x, 8)
  }

  function U64Of(s: seq<Byte>): (x: U64)
    requires |s| == 8
  {
    ToFromLe(s);
    Pow256Values();
    FromLe(s)
  }

  lemma Le32RoundTrip(x: U32)
    ensures U32Of(Le32(x)) == x
  {
    Pow256Values();
    FromToLe(x, 4);
  }

  lemma Le64RoundTrip(x: U64)
    ensures U64Of(Le64(x)) == x
  {
    Pow256Values();
    FromToLe(x, 8);
  }

  /** A checksum computed one byte at a time. CRC-32 (section 8 of RFC 1952) is
      one instance; nothing below depends on which one it is. */
  datatype Checksum = Checksum(init: U32, step: (U32, Byte) -> U32, finish: U32 -> U32) {

    /** The state of a running hasher that starts in `acc` and is fed `s`. */
    function Feed(acc: U32, s: seq<Byte>): U32
      decreases |s|
    {
      if s == [] then acc else Feed(step(acc, s[0]), s[1..])
    }

    function Hash(s: seq<Byte>): U32 {
      finish(Feed(init, s))
    }

    /** Streaming equals one-shot: two updates are one update of the concatenation. */
    lemma {:induction false} FeedAppend(acc: U32, s: seq<Byte>, t: seq<Byte>)
      ensures Feed(acc, s + t) == Feed(Feed(acc, s), t)
      decreases |s|
    {
      if s == [] {
        assert s + t == t;
      } else {
        FeedAppend(step(acc, s[0]), s[1..], t);
        assert (s + t)[1..] == s[1..] + t;
      }
    }

    /** Every byte is fed, in order, through one step each; with `Feed(acc, []) == acc` that says what feeding is. */
    lemma FeedSnoc(acc: U32, s: seq<Byte>, b: Byte)
      ensures Feed(acc, []) == acc && Feed(acc, s + [b]) == step(Feed(acc, s), b)
    {
      FeedAppend(acc, s, [b]);
      assert [b][1..] == [];
    }

    /** No step forgets anything, neither of the state nor of the byte. CRC-32 is of this kind (`Crc32`). */
    ghost predicate Injective() {
      && (forall a, b, x :: step(a, x) == step(b, x) ==> a == b)
      && (forall a, x, y :: step(a, x) == step(a, y) ==> x == y)
      && (forall a, b :: finish(a) == finish(b) ==> a == b)
    }

    lemma {:induction false} FeedInjective(a: U32, b: U32, s: seq<Byte>)
      requires Injective() && Feed(a, s) == Feed(b, s)
      ensures a == b
      decreases |s|
    {
      if s != [] {
        FeedInjective(step(a, s[0]), step(b, s[0]), s[1..]);
      }
    }

    /** Any one byte changed changes the checksum. */
    lemma OneByteShows(s: seq<Byte>, i: nat, x: Byte)
      requires Injective() && i < |s| && s[i] != x
      ensures Hash(s[i := x]) != Hash(s)
    {
      hide Feed;
      var t := s[i := x];
      var acc := Feed(init, s[..i]);
      assert s == s[..i] + [s[i]] + s[i + 1..] && t == s[..i] + [x] + s[i + 1..];
      FeedAppend(init, s[..i] + [s[i]], s[i + 1..]);
      FeedAppend(init, s[..i] + [x], s[i + 1..]);
      FeedSnoc(init, s[..i], s[i]);
      FeedSnoc(init, s[..i], x);
      if Feed(init, s) == Feed(init, t) {
        FeedInjective(step(acc, s[i]), step(acc, x), s[i + 1..]);
      }
    }
  }
}
