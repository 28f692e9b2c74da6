/** CRC-32 (section 8 of RFC 1952), computed bit by bit: an instance of the checksum everything else is proved for. */
module Crc32 {
  import opened Bytes

  const POLYNOMIAL: U32 := 0xEDB8_8320
  const ALL_ONES: U32 := 0xFFFF_FFFF

  /** Two to the `n`. */
  function Pow2(n: nat): (p: nat)
    ensures p >= 1
  {
    if n == 0 then 1 else 2 * Pow2(n - 1)
  }

  /** Exclusive or of the low `n` bits. */
  function Xor(x: nat, y: nat, n: nat): (r: nat)
    ensures r < Pow2(n)
  {
    if n == 0 then 0 else (x + y) % 2 + 2 * Xor(x / 2, y / 2, n - 1)
  }

  lemma Pow2Values()
    ensures Pow2(8) == 0x100 && Pow2(31) == 0x8000_0000 && Pow2(32) == 0x1_0000_0000
  {
    assert Pow2(4) == 0x10;
    assert Pow2(8) == 0x100;
    assert Pow2(12) == 0x1000;
    assert Pow2(16) == 0x1_0000;
    assert Pow2(20) == 0x10_0000;
    assert Pow2(24) == 0x100_0000;
    assert Pow2(28) == 0x1000_0000;
  }

  lemma XorParts(x: nat, y: nat, n: nat)
    requires n > 0
    ensures Xor(x, y, n) % 2 == (x + y) % 2 && Xor(x, y, n) / 2 == Xor(x / 2, y / 2, n - 1)
  {
  }

  lemma Parity(x: nat, y: nat, z: nat)
    requires z % 2 == (x + y) % 2
    ensures (z + y) % 2 == x % 2
  {
  }

  /** What is exclusive-ored twice is back. */
  lemma {:induction false} XorTwice(x: nat, y: nat, n: nat)
    requires x < Pow2(n)
    ensures Xor(Xor(x, y, n), y, n) == x
  {
    if n > 0 {
      XorTwice(x / 2, y / 2, n - 1);
      XorParts(x, y, n);
      XorParts(Xor(x, y, n), y, n);
      Parity(x, y, Xor(x, y, n));
      hide Xor;
    }
  }

  lemma {:induction false} XorCommutes(x: nat, y: nat, n: nat)
    ensures Xor(x, y, n) == Xor(y, x, n)
  {
    if n > 0 {
      XorCommutes(x / 2, y / 2, n - 1);
    }
  }

  /** The highest bit of the result is that of `y` when `x` has none. */
  lemma {:induction false} XorTop(x: nat, y: nat, n: nat)
    requires x < Pow2(n) <= y < 2 * Pow2(n)
    ensures Xor(x, y, n + 1) >= Pow2(n)
  {
    if n == 0 {
      assert x == 0 && y == 1;
      assert Xor(0, 0, 0) == 0;
    } else {
      XorTop(x / 2, y / 2, n - 1);
    }
  }

  function Xor32(x: U32, y: U32): U32 {
    Pow2Values();
    Xor(x, y, 32)
  }

  /** One bit is shifted out; if it was set, the polynomial is taken off. */
  function Shift(c: U32): U32 {
    if c % 2 == 0 then c / 2 else Xor32(c / 2, POLYNOMIAL)
  }

  /** Nothing is lost: the highest bit of the result says which bit was shifted out. */
  lemma ShiftInjective(c: U32, d: U32)
    requires Shift(c) == Shift(d)
    ensures c == d
  {
    hide Xor;
    Pow2Values();
    ShiftTop(c);
    ShiftTop(d);
    XorTwice(c / 2, POLYNOMIAL, 32);
    XorTwice(d / 2, POLYNOMIAL, 32);
  }

  lemma ShiftTop(c: U32)
    ensures Shift(c) >= 0x8000_0000 <==> c % 2 == 1
  {
    hide Xor;
    Pow2Values();
    if c % 2 == 1 {
      XorTop(c / 2, POLYNOMIAL, 31);
    }
  }

  function Shifts(c: U32, n: nat): U32
    decreases n
  {
    if n == 0 then c else Shifts(Shift(c), n - 1)
  }

  lemma {:induction false} ShiftsInjective(c: U32, d: U32, n: nat)
    requires Shifts(c, n) == Shifts(d, n)
    ensures c == d
    decreases n
  {
    hide Shift;
    if n > 0 {
      ShiftsInjective(Shift(c), Shift(d), n - 1);
      ShiftInjective(c, d);
    }
  }

  function Step(c: U32, b: Byte): U32 {
    Shifts(Xor32(c, b), 8)
  }

  function Finish(c: U32): U32 {
    Xor32(c, ALL_ONES)
  }

  const CRC32: Checksum := Checksum(ALL_ONES, Step, Finish)

  lemma XorInjective(x: U32, y: U32, z: U32)
    requires Xor32(x, z) == Xor32(y, z)
    ensures x == y
  {
    hide Xor;
    Pow2Values();
    XorTwice(x, z, 32);
    XorTwice(y, z, 32);
  }

  lemma StepInjective(c: U32, d: U32, x: Byte, y: Byte)
    requires Step(c, x) == Step(d, y)
    ensures x == y ==> c == d
    ensures c == d ==> x == y
  {
    hide Xor, Shifts;
    ShiftsInjective(Xor32(c, x), Xor32(d, y), 8);
    if x == y {
      XorInjective(c, d, x);
    } else if c == d {
      XorCommutes(c, x, 32);
      XorCommutes(c, y, 32);
      XorInjective(x, y, c);
    }
  }

  /** CRC-32 forgets nothing, so every changed byte shows. */
  lemma Crc32Injective()
    ensures CRC32.Injective()
  {
    hide Step, Finish;
    forall a: U32, b: U32, x: Byte | Step(a, x) == Step(b, x)
      ensures a == b
    {
      StepInjective(a, b, x, x);
    }
    forall a: U32, x: Byte, y: Byte | Step(a, x) == Step(a, y)
      ensures x == y
    {
      StepInjective(a, a, x, y);
    }
    forall a: U32, b: U32 | Finish(a) == Finish(b)
      ensures a == b
    {
      FinishInjective(a, b);
    }
  }

  lemma FinishInjective(a: U32, b: U32)
    requires Finish(a) == Finish(b)
    ensures a == b
  {
    XorInjective(a, b, ALL_ONES);
  }

  lemma OnesParts(x: nat, p: nat, r: nat)
    requires r % 2 == (x + (2 * p - 1)) % 2 && r / 2 == p - 1 - x / 2 && p > 0
    ensures r == 2 * p - 1 - x
  {
  }

  /** Exclusive or with all ones is the complement. */
  lemma {:induction false} XorOnes(x: nat, n: nat)
    requires x < Pow2(n)
    ensures Xor(x, Pow2(n) - 1, n) == Pow2(n) - 1 - x
  {
    if n > 0 {
      var p := Pow2(n - 1);
      XorOnes(x / 2, n - 1);
      XorParts(x, 2 * p - 1, n);
      hide Xor;
      assert (2 * p - 1) / 2 == p - 1;
      OnesParts(x, p, Xor(x, 2 * p - 1, n));
    }
  }

  lemma Complement(x: U32)
    ensures Xor32(x, ALL_ONES) == ALL_ONES - x == Xor32(ALL_ONES, x)
  {
    hide Xor;
    Pow2Values();
    XorOnes(x, 32);
    XorCommutes(x, ALL_ONES, 32);
  }

  /** A zero bit is just shifted out. */
  lemma ZeroOut(c: U32, n: nat)
    requires c % 2 == 0
    ensures Shifts(c, n + 1) == Shifts(c / 2, n)
  {
    hide Xor32;
  }

  lemma ZerosOut()
    ensures Shifts(0xFFFF_FF00, 8) == 0xFF_FFFF
  {
    hide Shift;
    ZeroOut(0xFFFF_FF00, 7);
    ZeroOut(0x7FFF_FF80, 6);
    ZeroOut(0x3FFF_FFC0, 5);
    ZeroOut(0x1FFF_FFE0, 4);
    ZeroOut(0x0FFF_FFF0, 3);
    ZeroOut(0x07FF_FFF8, 2);
    ZeroOut(0x03FF_FFFC, 1);
    ZeroOut(0x01FF_FFFE, 0);
  }

  /** The checksum of the byte 255, all of whose bits cancel those of the initial state. */
  lemma KnownHash()
    ensures CRC32.Hash([0xFF]) == 0xFF00_0000
  {
    hide Xor32, Shifts;
    Complement(0xFF);
    ZerosOut();
    Complement(0xFF_FFFF);
    OneByte(0xFF);
  }

  lemma {:induction false} XorZero(y: nat, n: nat)
    requires y < Pow2(n)
    ensures Xor(0, y, n) == y
  {
    if n > 0 {
      XorZero(y / 2, n - 1);
    }
  }

  /** A single bit becomes the polynomial when it is shifted out. */
  lemma KnownStep()
    ensures Step(0, 0x80) == 0xEDB8_8320
  {
    Pow2Values();
    XorZero(0x80, 32);
    XorZero(0xEDB8_8320, 32);
    hide Xor;
    assert Shift(1) == 0xEDB8_8320;
    hide Shift;
    ZeroOut(0x80, 7);
    ZeroOut(0x40, 6);
    ZeroOut(0x20, 5);
    ZeroOut(0x10, 4);
    ZeroOut(0x08, 3);
    ZeroOut(0x04, 2);
    ZeroOut(0x02, 1);
  }

  lemma OneByte(b: Byte)
    ensures CRC32.Hash([b]) == Finish(Step(ALL_ONES, b))
  {
    hide Step, Finish;
    CRC32.FeedSnoc(CRC32.init, [], b);
    assert [] + [b] == [b];
  }
}
