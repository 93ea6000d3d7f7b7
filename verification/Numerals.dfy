/** Bytes, and natural numbers written in positional notation, most significant digit first. */
module Numerals {
  import opened Modular

  type Byte = x: int | 0 <= x < 256

  ghost predicate AreDigits(base: nat, ds: seq<nat>) {
    forall i :: 0 <= i < |ds| ==> ds[i] < base
  }

  /** The digits of `n` without leading zeros; zero has none. */
  function ToDigits(base: nat, n: nat): seq<nat>
    requires 2 <= base
  {
    if n == 0 then [] else ToDigits(base, n / base) + [n % base]
  }

  function FromDigits(base: nat, ds: seq<nat>): nat {
    if ds == [] then 0 else FromDigits(base, ds[..|ds| - 1]) * base + ds[|ds| - 1]
  }

  function Zeros(n: nat): (z: seq<nat>)
    ensures |z| == n && forall i :: 0 <= i < n ==> z[i] == 0
  {
    seq(n, _ => 0)
  }

  function Power(base: nat, k: nat): nat {
    if k == 0 then 1 else Power(base, k - 1) * base
  }

  lemma AppendDigit(base: nat, ds: seq<nat>, d: nat)
    ensures FromDigits(base, ds + [d]) == FromDigits(base, ds) * base + d
  {
    assert (ds + [d])[..|ds|] == ds;
  }

  lemma AppendedDigits(base: nat, ds: seq<nat>, d: nat)
    requires AreDigits(base, ds) && d < base
    ensures AreDigits(base, ds + [d])
  {
  }

  lemma Digit(n: nat, base: nat)
    requires 2 <= base && n > 0
    ensures n == n / base * base + n % base && n / base < n && n % base < base
  {
  }

  /** The step of `DigitsOfNumber`. */
  lemma OneMoreDigit(base: nat, n: nat)
    requires 2 <= base && n > 0
    requires FromDigits(base, ToDigits(base, n / base)) == n / base && AreDigits(base, ToDigits(base, n / base))
    ensures FromDigits(base, ToDigits(base, n)) == n && AreDigits(base, ToDigits(base, n))
  {
    hide FromDigits, AreDigits;
    Digit(n, base);
    AppendDigit(base, ToDigits(base, n / base), n % base);
    AppendedDigits(base, ToDigits(base, n / base), n % base);
  }

  lemma {:induction false} DigitsOfNumber(base: nat, n: nat)
    requires 2 <= base
    ensures FromDigits(base, ToDigits(base, n)) == n
    ensures AreDigits(base, ToDigits(base, n))
    ensures n > 0 ==> ToDigits(base, n) != [] && ToDigits(base, n)[0] != 0
  {
    hide FromDigits, AreDigits;
    if n > 0 {
      Digit(n, base);
      DigitsOfNumber(base, n / base);
      OneMoreDigit(base, n);
    } else {
      NoDigits(base);
    }
  }

  lemma NoDigits(base: nat)
    ensures FromDigits(base, []) == 0 && AreDigits(base, [])
  {
  }

  lemma DivModOfDigit(q: nat, base: nat, d: nat)
    requires d < base
    ensures (q * base + d) / base == q && (q * base + d) % base == d
  {
    ModIs(q * base + d, base, q, d);
  }

  /** Digits with no leading zero are the digits of their value. */
  lemma {:induction false} NumberOfDigits(base: nat, ds: seq<nat>)
    requires 2 <= base && AreDigits(base, ds) && (ds != [] ==> ds[0] != 0)
    ensures ToDigits(base, FromDigits(base, ds)) == ds
    ensures ds != [] ==> FromDigits(base, ds) > 0
  {
    if ds != [] {
      var front := ds[..|ds| - 1];
      NumberOfDigits(base, front);
      DivModOfDigit(FromDigits(base, front), base, ds[|ds| - 1]);
      assert front != [] ==> FromDigits(base, front) * base > 0;
      assert ds == front + [ds[|ds| - 1]];
    }
  }

  lemma {:induction false} LeadingZerosAddNothing(base: nat, k: nat, ds: seq<nat>)
    ensures FromDigits(base, Zeros(k) + ds) == FromDigits(base, ds)
  {
    if ds == [] {
      assert Zeros(k) + ds == Zeros(k);
      if k > 0 {
        assert Zeros(k)[..k - 1] == Zeros(k - 1);
        LeadingZerosAddNothing(base, k - 1, []);
        assert Zeros(k - 1) + [] == Zeros(k - 1);
      }
    } else {
      assert (Zeros(k) + ds)[..k + |ds| - 1] == Zeros(k) + ds[..|ds| - 1];
      LeadingZerosAddNothing(base, k, ds[..|ds| - 1]);
    }
  }

  lemma {:induction false} DigitsBound(base: nat, ds: seq<nat>)
    requires 2 <= base && AreDigits(base, ds)
    ensures FromDigits(base, ds) < Power(base, |ds|)
  {
    if ds != [] {
      var front := FromDigits(base, ds[..|ds| - 1]);
      DigitsBound(base, ds[..|ds| - 1]);
      MulIsMonotone(front + 1, Power(base, |ds| - 1), base);
      assert (front + 1) * base == front * base + base;
    }
  }

  /** `n` needs at most `k` digits exactly when it is below base^k. */
  lemma {:induction false} DigitCount(base: nat, n: nat, k: nat)
    requires 2 <= base
    ensures |ToDigits(base, n)| <= k <==> n < Power(base, k)
    decreases k
  {
    PowerIsPositive(base, k);
    if n > 0 && k > 0 {
      DigitCount(base, n / base, k - 1);
      QuotientBelow(n, base, Power(base, k - 1));
    }
  }

  lemma QuotientBelow(n: nat, base: nat, p: nat)
    requires 0 < base
    ensures n / base < p <==> n < p * base
  {
    var q := n / base;
    assert n == q * base + n % base;
    if q < p {
      MulIsMonotone(q + 1, p, base);
      assert (q + 1) * base == q * base + base;
    } else {
      MulIsMonotone(p, q, base);
    }
  }

  lemma {:induction false} PowerIsPositive(base: nat, k: nat)
    requires 0 < base
    ensures 0 < Power(base, k)
  {
    if k > 0 {
      PowerIsPositive(base, k - 1);
    }
  }

  /** Numerals of the same length and value are the same. */
  lemma {:induction false} SameValueSameDigits(base: nat, x: seq<nat>, y: seq<nat>)
    requires 2 <= base && AreDigits(base, x) && AreDigits(base, y) && |x| == |y|
    requires FromDigits(base, x) == FromDigits(base, y)
    ensures x == y
  {
    if x != [] {
      var n := |x| - 1;
      DivModOfDigit(FromDigits(base, x[..n]), base, x[n]);
      DivModOfDigit(FromDigits(base, y[..n]), base, y[n]);
      SameValueSameDigits(base, x[..n], y[..n]);
      assert x == x[..n] + [x[n]] && y == y[..n] + [y[n]];
    }
  }

  // ----- Changing the base and keeping the leading zeros -----

  function LeadingZeros(ds: seq<nat>): (z: nat)
    ensures z <= |ds|
    ensures forall i :: 0 <= i < z ==> ds[i] == 0
    ensures z < |ds| ==> ds[z] != 0
  {
    if ds == [] || ds[0] != 0 then 0 else 1 + LeadingZeros(ds[1..])
  }

  function ChangeBase(source: nat, target: nat, ds: seq<nat>): seq<nat>
    requires 2 <= target
  {
    Zeros(LeadingZeros(ds)) + ToDigits(target, FromDigits(source, ds))
  }

  lemma LeadingZerosOf(k: nat, ds: seq<nat>)
    requires ds != [] ==> ds[0] != 0
    ensures LeadingZeros(Zeros(k) + ds) == k
  {
    var all := Zeros(k) + ds;
    assert forall i :: 0 <= i < k ==> all[i] == 0;
    assert ds != [] ==> all[k] == ds[0] != 0;
  }

  /** Changing the base back gives the numeral one started from, leading zeros included. */
  lemma ChangeBaseBack(source: nat, target: nat, ds: seq<nat>)
    requires 2 <= source && 2 <= target && AreDigits(source, ds)
    ensures AreDigits(target, ChangeBase(source, target, ds))
    ensures ChangeBase(target, source, ChangeBase(source, target, ds)) == ds
  {
    var z, n := LeadingZeros(ds), FromDigits(source, ds);
    var significant := ds[z..];
    assert ds == Zeros(z) + significant;
    LeadingZerosAddNothing(source, z, significant);
    NumberOfDigits(source, significant);
    DigitsOfNumber(target, n);
    LeadingZerosOf(z, ToDigits(target, n));
    LeadingZerosAddNothing(target, z, ToDigits(target, n));
  }

  // ----- Fixed width -----

  /** Left-padded with zeros to `width`; something longer is left as it is. */
  function LeftPad(ds: seq<nat>, width: nat): seq<nat> {
    if |ds| >= width then ds else Zeros(width - |ds|) + ds
  }

  lemma LeftPadKeepsValue(base: nat, ds: seq<nat>, width: nat)
    ensures FromDigits(base, LeftPad(ds, width)) == FromDigits(base, ds)
  {
    if |ds| < width {
      LeadingZerosAddNothing(base, width - |ds|, ds);
    }
  }

  const TWO_256: int := 0x1_00000000_00000000_00000000_00000000_00000000_00000000_00000000_00000000

  lemma {:induction false} PowerSum(base: nat, m: nat, n: nat)
    ensures Power(base, m + n) == Power(base, m) * Power(base, n)
  {
    if n > 0 {
      PowerSum(base, m, n - 1);
      MulIsAssociative(Power(base, m), Power(base, n - 1), base);
      assert Power(base, m + n) == Power(base, m + (n - 1)) * base;
    }
  }

  lemma PowerDouble(n: nat, p: nat)
    requires Power(256, n) == p
    ensures Power(256, n + n) == p * p
  {
    PowerSum(256, n, n);
  }

  lemma ThirtyTwoBytes()
    ensures Power(256, 32) == TWO_256
  {
    hide Power;
    PowerOne(256);
    PowerDouble(1, 256);
    PowerDouble(2, 0x1_0000);
    PowerDouble(4, 0x1_0000_0000);
    PowerDouble(8, 0x1_0000_0000_0000_0000);
    PowerDouble(16, 0x1_00000000_00000000_00000000_00000000);
  }

  lemma PowerOne(base: nat)
    ensures Power(base, 1) == base
  {
    assert Power(base, 0) == 1;
  }

  /** A number fits 32 bytes exactly when it is below 2^256. */
  lemma FitsWord(n: nat)
    ensures |ToDigits(256, n)| <= 32 <==> n < TWO_256
  {
    ThirtyTwoBytes();
    DigitCount(256, n, 32);
  }
}
