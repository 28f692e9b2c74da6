/** Data and hint file names: twenty decimal digits and a suffix. */
module FileNames {
  import opened Bytes

  const DATA_SUFFIX: string := ".bitcask.data"
  const HINT_SUFFIX: string := ".bitcask.hint"
  const WIDTH: nat := 20

  function Pow10(n: nat): (p: nat)
    ensures p >= 1
  {
    if n == 0 then 1 else 10 * Pow10(n - 1)
  }

  predicate IsDigit(c: char) {
    '0' <= c <= '9'
  }

  predicate AllDigits(s: string) {
    forall i :: 0 <= i < |s| ==> IsDigit(s[i])
  }

  /** `n` in decimal, zero-padded to `width` digits. */
  function Digits(n: nat, width: nat): (s: string)
    ensures |s| == width && AllDigits(s)
  {
    if width == 0 then "" else Digits(n / 10, width - 1) + ['0' + (n % 10) as char]
  }

  function Number(s: string): nat
    requires AllDigits(s)
  {
    if s == "" then 0 else 10 * Number(s[..|s| - 1]) + (s[|s| - 1] - '0') as nat
  }

  lemma {:induction false} NumberOfDigits(n: nat, width: nat)
    requires n < Pow10(width)
    ensures Number(Digits(n, width)) == n
  {
    if width > 0 {
      NumberOfDigits(n / 10, width - 1);
      assert Digits(n, width)[..width - 1] == Digits(n / 10, width - 1);
    }
  }

  lemma {:induction false} DigitsOfNumber(s: string)
    requires AllDigits(s)
    ensures Number(s) < Pow10(|s|) && Digits(Number(s), |s|) == s
  {
    if s != "" {
      var init, d := s[..|s| - 1], (s[|s| - 1] - '0') as nat;
      DigitsOfNumber(init);
      assert Number(s) / 10 == Number(init) && Number(s) % 10 == d;
      assert s == init + [s[|s| - 1]];
    }
  }

  function DataName(id: U32): string {
    Digits(id, WIDTH) + DATA_SUFFIX
  }

  function HintName(id: U32): string {
    Digits(id, WIDTH) + HINT_SUFFIX
  }

  /** The id a data file name stands for; other names, and numbers past 32 bits, stand for none. */
  function ParseDataFileId(name: string): Option<U32> {
    if |name| < |DATA_SUFFIX| || name[|name| - |DATA_SUFFIX|..] != DATA_SUFFIX then None
    else
      var stem := name[..|name| - |DATA_SUFFIX|];
      if |stem| != WIDTH || !AllDigits(stem) then None
      else if Number(stem) >= 0x1_0000_0000 then None
      else Some(Number(stem))
  }

  lemma U32Fits(id: U32)
    ensures id < Pow10(WIDTH)
  {
    assert Pow10(5) == 100_000;
    assert Pow10(10) == 10_000_000_000;
    Pow10Grows(10, WIDTH);
  }

  lemma {:induction false} Pow10Grows(m: nat, n: nat)
    requires m <= n
    ensures Pow10(m) <= Pow10(n)
  {
    if m < n {
      Pow10Grows(m, n - 1);
    }
  }

  /** Printing and parsing are inverse, and no hint file is mistaken for a data file. */
  lemma NamesRoundTrip(name: string, id: U32)
    ensures ParseDataFileId(name) == Some(id) <==> name == DataName(id)
    ensures ParseDataFileId(HintName(id)) == None
  {
    U32Fits(id);
    NumberOfDigits(id, WIDTH);
    var n := DataName(id);
    assert n[|n| - |DATA_SUFFIX|..] == DATA_SUFFIX && n[..|n| - |DATA_SUFFIX|] == Digits(id, WIDTH);
    var h := HintName(id);
    assert h[|h| - |DATA_SUFFIX|..] == HINT_SUFFIX;
    assert HINT_SUFFIX[9] != DATA_SUFFIX[9];
    if ParseDataFileId(name) == Some(id) {
      var stem := name[..|name| - |DATA_SUFFIX|];
      DigitsOfNumber(stem);
      assert name == stem + DATA_SUFFIX;
    }
  }

  /** Comparing names character by character. */
  predicate LexLess(a: string, b: string) {
    exists i :: 0 <= i < |a| && i < |b| && a[..i] == b[..i] && a[i] < b[i]
  }

  lemma {:induction false} LexIsNumeric(a: string, b: string)
    requires |a| == |b| && AllDigits(a) && AllDigits(b)
    ensures Number(a) < Number(b) ==> LexLess(a, b)
    ensures Number(a) == Number(b) ==> a == b
  {
    if a != "" {
      var n := |a| - 1;
      LexIsNumeric(a[..n], b[..n]);
      if Number(a) < Number(b) {
        if Number(a[..n]) < Number(b[..n]) {
          var i :| 0 <= i < n && a[..n][..i] == b[..n][..i] && a[..n][i] < b[..n][i];
          assert a[..i] == a[..n][..i] && b[..i] == b[..n][..i];
        } else {
          assert a[n] < b[n];
        }
      } else if Number(a) == Number(b) {
        assert a == a[..n] + [a[n]] && b == b[..n] + [b[n]];
      }
    }
  }

  lemma SamePrefix(a: string, b: string, n: nat, k: nat)
    requires k < n <= |a| && n <= |b| && a[..n] == b[..n]
    ensures a[k] == b[k]
  {
    assert a[k] == a[..n][k] && b[k] == b[..n][k];
  }

  lemma LexAsymmetric(a: string, b: string)
    requires LexLess(a, b)
    ensures !LexLess(b, a)
  {
    var i :| 0 <= i < |a| && i < |b| && a[..i] == b[..i] && a[i] < b[i];
    if LexLess(b, a) {
      var j :| 0 <= j < |b| && j < |a| && b[..j] == a[..j] && b[j] < a[j];
      if i < j {
        SamePrefix(a, b, j, i);
      } else if j < i {
        SamePrefix(a, b, i, j);
      }
    }
  }

  /** A directory listing in name order is in id order. */
  lemma NameOrderIsIdOrder(x: U32, y: U32)
    ensures LexLess(DataName(x), DataName(y)) <==> x < y
  {
    U32Fits(x);
    U32Fits(y);
    NumberOfDigits(x, WIDTH);
    NumberOfDigits(y, WIDTH);
    if x < y {
      LessName(x, y);
    } else if y < x {
      LessName(y, x);
      LexAsymmetric(DataName(y), DataName(x));
    }
  }

  lemma LessName(x: U32, y: U32)
    requires x < y && Number(Digits(x, WIDTH)) == x && Number(Digits(y, WIDTH)) == y
    ensures LexLess(DataName(x), DataName(y))
  {
    var a, b := Digits(x, WIDTH), Digits(y, WIDTH);
    LexIsNumeric(a, b);
    var i :| 0 <= i < |a| && i < |b| && a[..i] == b[..i] && a[i] < b[i];
    assert DataName(x)[..i] == a[..i] && DataName(y)[..i] == b[..i];
  }
}
