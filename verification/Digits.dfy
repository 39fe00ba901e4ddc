/** Numbers written in decimal and in octal ASCII, and read back. */
module Digits {
  import opened Bytes

  type text = seq<byte>

  /** The number of decimal digits. */
  function Width(n: nat): (d: nat)
    ensures 1 <= d <= n / 2 + 1
  {
    if n < 10 then 1 else 1 + Width(n / 10)
  }

  /** `String(n)` */
  function Decimal(n: nat): (s: text)
    ensures |s| == Width(n)
  {
    if n < 10 then [48 + n] else Decimal(n / 10) + [48 + n % 10]
  }

  predicate IsDigit(b: byte)
  {
    48 <= b < 58
  }

  predicate AllDigits(s: text)
  {
    forall i :: 0 <= i < |s| ==> IsDigit(s[i])
  }

  /** The value of a run of decimal digits. */
  function FromDecimal(s: text): nat
    requires AllDigits(s)
  {
    if s == [] then 0 else 10 * FromDecimal(s[..|s| - 1]) + (s[|s| - 1] - 48)
  }

  lemma {:induction false} DecimalIsReadBack(n: nat)
    ensures AllDigits(Decimal(n)) && FromDecimal(Decimal(n)) == n
  {
    if n < 10 {
      assert Decimal(n)[..0] == [];
    } else {
      DecimalIsReadBack(n / 10);
      var s := Decimal(n);
      assert s[..|s| - 1] == Decimal(n / 10);
    }
  }

  lemma {:induction false} WidthGrows(m: nat, n: nat)
    requires m <= n
    ensures Width(m) <= Width(n)
  {
    if m >= 10 {
      WidthGrows(m / 10, n / 10);
    }
  }

  /** One more than a multiple of the width ends at most one digit further. */
  lemma {:induction false} WidthOfNext(n: nat)
    ensures Width(n + 1) <= Width(n) + 1
  {
    if n >= 10 {
      assert (n + 1) / 10 <= n / 10 + 1;
      WidthOfNext(n / 10);
      WidthGrows((n + 1) / 10, n / 10 + 1);
    }
  }

  function Pow10(n: nat): nat
  {
    if n == 0 then 1 else 10 * Pow10(n - 1)
  }

  lemma {:induction false} WidthBelow(n: nat, k: nat)
    requires k > 0 && n < Pow10(k)
    ensures Width(n) <= k
  {
    if n >= 10 {
      assert k > 1;
      WidthBelow(n / 10, k - 1);
    }
  }

  lemma DecimalSizes()
    ensures Pow10(17) == 100000000000000000
  {
    assert Pow10(4) == 10000;
    assert Pow10(8) == 100000000;
    assert Pow10(12) == 1000000000000;
    assert Pow10(16) == 10000000000000000;
  }

  function Pow8(n: nat): (p: nat)
    ensures p > 0
  {
    if n == 0 then 1 else 8 * Pow8(n - 1)
  }

  /** `value.toString(8).padStart(n, '0')`, for a value that fits. */
  function Octal(v: nat, n: nat): (s: text)
    ensures |s| == n
    ensures forall i :: 0 <= i < n ==> 48 <= s[i] < 56
  {
    if n == 0 then [] else Octal(v / 8, n - 1) + [48 + v % 8]
  }

  predicate IsOctal(b: byte)
  {
    48 <= b < 56
  }

  predicate AllOctal(s: text)
  {
    forall i :: 0 <= i < |s| ==> IsOctal(s[i])
  }

  function FromOctal(s: text): nat
    requires AllOctal(s)
  {
    if s == [] then 0 else 8 * FromOctal(s[..|s| - 1]) + (s[|s| - 1] - 48)
  }

  lemma {:induction false} OctalIsReadBack(v: nat, n: nat)
    requires v < Pow8(n)
    ensures FromOctal(Octal(v, n)) == v
  {
    if n > 0 {
      OctalIsReadBack(v / 8, n - 1);
      var s := Octal(v, n);
      assert s[..|s| - 1] == Octal(v / 8, n - 1);
    }
  }

  lemma OctalSizes()
    ensures Pow8(6) == 262144 && Pow8(7) == 2097152 && Pow8(11) == 8589934592
  {
    assert Pow8(8) == 16777216;
    assert Pow8(9) == 134217728;
    assert Pow8(10) == 1073741824;
  }
}
