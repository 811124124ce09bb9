/** Positional numerals in any base: what a list of digits is worth, and that a list without
    leading zeros is the only one worth that much. */
module Numerals {

  function Pow(base: nat, n: nat): (r: nat)
    ensures base > 0 ==> r > 0
  {
    if n == 0 then 1 else base * Pow(base, n - 1)
  }

  lemma {:induction false} PowSum(base: nat, m: nat, n: nat)
    ensures Pow(base, m + n) == Pow(base, m) * Pow(base, n)
    decreases m
  {
    if m == 0 {
    } else {
      PowSum(base, m - 1, n);
      MulAssociates(base, Pow(base, m - 1), Pow(base, n));
    }
  }

  lemma {:induction false} PowProduct(base: nat, m: nat, n: nat)
    ensures Pow(base, m * n) == Pow(Pow(base, m), n)
    decreases n
  {
    if n == 0 {
    } else {
      assert m * n == m + m * (n - 1);
      PowSum(base, m, m * (n - 1));
      PowProduct(base, m, n - 1);
    }
  }

  lemma {:induction false} PowMonotoneInExponent(base: nat, m: nat, n: nat)
    requires base >= 1 && m <= n
    ensures Pow(base, m) <= Pow(base, n)
    decreases n
  {
    if m == n {
    } else {
      PowMonotoneInExponent(base, m, n - 1);
      MulMonotone(1, base, Pow(base, n - 1));
    }
  }

  lemma {:induction false} PowMonotoneInBase(a: nat, b: nat, n: nat)
    requires a <= b
    ensures Pow(a, n) <= Pow(b, n)
    decreases n
  {
    if n == 0 {
    } else {
      PowMonotoneInBase(a, b, n - 1);
      MulMonotone(a, b, Pow(a, n - 1));
      MulMonotone(Pow(a, n - 1), Pow(b, n - 1), b);
    }
  }

  /** A power that is strictly smaller has a strictly smaller exponent. */
  lemma PowOrderReflected(base: nat, m: nat, n: nat)
    requires base >= 1 && Pow(base, m) < Pow(base, n)
    ensures m < n
  {
    if m >= n {
      PowMonotoneInExponent(base, n, m);
    }
  }

  lemma MulAssociates(a: nat, b: nat, c: nat)
    ensures a * (b * c) == (a * b) * c
  {
  }

  lemma MulMonotone(a: nat, b: nat, c: nat)
    requires a <= b
    ensures a * c <= b * c && c * a <= c * b
  {
  }

  // ----- least significant digit first -----

  ghost predicate Digits(ds: seq<nat>, base: nat) {
    forall i :: 0 <= i < |ds| ==> ds[i] < base
  }

  /** No zero in the most significant place, which is the last. */
  predicate Trimmed(ds: seq<nat>) {
    ds == [] || ds[|ds| - 1] != 0
  }

  function LowValue(ds: seq<nat>, base: nat): nat
    decreases |ds|
  {
    if ds == [] then 0 else ds[0] + base * LowValue(ds[1..], base)
  }

  lemma LowValueCons(d: nat, rest: seq<nat>, base: nat)
    ensures LowValue([d] + rest, base) == d + base * LowValue(rest, base)
  {
    assert ([d] + rest)[1..] == rest;
  }

  lemma {:induction false} LowValueAppend(ds: seq<nat>, d: nat, base: nat)
    ensures LowValue(ds + [d], base) == LowValue(ds, base) + Pow(base, |ds|) * d
    decreases |ds|
  {
    if ds == [] {
      assert ([d])[1..] == [];
      assert LowValue([d], base) == d + base * 0;
    } else {
      assert (ds + [d])[1..] == ds[1..] + [d];
      LowValueAppend(ds[1..], d, base);
      var p := Pow(base, |ds| - 1);
      assert base * (LowValue(ds[1..], base) + p * d) == base * LowValue(ds[1..], base) + (base * p) * d;
    }
  }

  /** The digits of `v`, with no zero in the most significant place. */
  function ToDigits(v: nat, base: nat): (ds: seq<nat>)
    requires base >= 2
    ensures Digits(ds, base) && Trimmed(ds)
    ensures v > 0 ==> |ds| > 0
    decreases v
  {
    if v == 0 then [] else [v % base] + ToDigits(v / base, base)
  }

  lemma ToDigitsUnfolds(v: nat, base: nat)
    requires base >= 2
    ensures v == 0 ==> ToDigits(v, base) == [] && LowValue([], base) == 0
    ensures v > 0 ==> v / base < v && ToDigits(v, base) == [v % base] + ToDigits(v / base, base)
  {
  }

  lemma {:induction false} ToDigitsValue(v: nat, base: nat)
    requires base >= 2
    ensures LowValue(ToDigits(v, base), base) == v
    decreases v
  {
    hide LowValue, ToDigits;
    ToDigitsUnfolds(v, base);
    if v == 0 {
    } else {
      var q := v / base;
      ToDigitsValue(q, base);
      LowValueCons(v % base, ToDigits(q, base), base);
      Euclid(v, base);
    }
  }

  lemma Euclid(v: nat, base: nat)
    requires base >= 2
    ensures v == v % base + base * (v / base)
  {
  }

  /** A trimmed list of digits is the one `ToDigits` builds from its value. */
  lemma {:induction false} TrimmedIsUnique(ds: seq<nat>, base: nat)
    requires base >= 2 && Digits(ds, base) && Trimmed(ds)
    ensures ds == ToDigits(LowValue(ds, base), base)
    decreases |ds|
  {
    if ds == [] {
    } else {
      var rest := ds[1..];
      var v, w := LowValue(ds, base), LowValue(rest, base);
      TrimmedIsUnique(rest, base);
      DivModOfDigit(ds[0], w, base);
      assert v > 0 by {
        if rest == [] {
          assert ds[0] != 0;
        } else {
          assert w > 0;
          MulMonotone(1, w, base);
        }
      }
      assert ds == [ds[0]] + rest;
    }
  }

  lemma DivModOfDigit(d: nat, w: nat, base: nat)
    requires d < base
    ensures (d + base * w) % base == d && (d + base * w) / base == w
  {
    QuotientAndRemainder(d + base * w, base, w, d);
  }

  /** The quotient and the remainder are the only pair that puts the number back together. */
  lemma QuotientAndRemainder(v: int, n: int, q: int, r: int)
    requires 0 <= r < n && v == n * q + r
    ensures v / n == q && v % n == r
  {
    var k := v / n - q;
    assert n * k == r - v % n by {
      assert v == n * (v / n) + v % n;
      assert n * (v / n - q) == n * (v / n) - n * q;
    }
    MultiplesAreApart(n, k);
  }

  lemma MultiplesAreApart(n: int, k: int)
    requires n > 0
    ensures k > 0 ==> n * k >= n
    ensures k < 0 ==> n * k <= -n
  {
  }

  lemma DigitBelow(d: nat, w: nat, base: nat, limit: nat)
    requires d < base && w < limit
    ensures d + base * w < base * limit
  {
    MulMonotone(w + 1, limit, base);
    assert base * (w + 1) == base * w + base;
  }

  /** A trimmed list of `n` digits is worth at least the place of its top digit and less than
      the place above it. */
  lemma {:induction false} LowValueBounds(ds: seq<nat>, base: nat)
    requires base >= 2 && Digits(ds, base)
    ensures LowValue(ds, base) < Pow(base, |ds|)
    ensures ds != [] && Trimmed(ds) ==> LowValue(ds, base) >= Pow(base, |ds| - 1)
    decreases |ds|
  {
    if ds == [] {
    } else {
      var rest := ds[1..];
      var w := LowValue(rest, base);
      LowValueBounds(rest, base);
      DigitBelow(ds[0], w, base, Pow(base, |rest|));
      if Trimmed(ds) && rest != [] {
        assert rest[|rest| - 1] == ds[|ds| - 1];
        MulMonotone(Pow(base, |rest| - 1), w, base);
      }
    }
  }

  // ----- most significant digit first -----

  function Reverse<T>(s: seq<T>): (r: seq<T>)
    ensures |r| == |s|
    ensures forall i :: 0 <= i < |s| ==> r[i] == s[|s| - 1 - i]
    decreases |s|
  {
    if s == [] then [] else Reverse(s[1..]) + [s[0]]
  }

  lemma ReverseTwice<T>(s: seq<T>)
    ensures Reverse(Reverse(s)) == s
  {
    assert forall i :: 0 <= i < |s| ==> Reverse(Reverse(s))[i] == s[i];
  }

  function BigValue(ds: seq<nat>, base: nat): nat
    decreases |ds|
  {
    if ds == [] then 0 else BigValue(ds[..|ds| - 1], base) * base + ds[|ds| - 1]
  }

  lemma {:induction false} BigValueReversed(ds: seq<nat>, base: nat)
    ensures BigValue(Reverse(ds), base) == LowValue(ds, base)
    decreases |ds|
  {
    if ds == [] {
    } else {
      BigValueReversed(ds[1..], base);
      var r := Reverse(ds);
      assert r[..|r| - 1] == Reverse(ds[1..]);
    }
  }

  /** The digits of `v`, most significant first. */
  function ToBigDigits(v: nat, base: nat): (ds: seq<nat>)
    requires base >= 2
    ensures Digits(ds, base)
    ensures ds != [] ==> ds[0] != 0
  {
    Reverse(ToDigits(v, base))
  }

  lemma ToBigDigitsValue(v: nat, base: nat)
    requires base >= 2
    ensures BigValue(ToBigDigits(v, base), base) == v
  {
    BigValueReversed(ToDigits(v, base), base);
    ToDigitsValue(v, base);
  }

  /** A list of digits that does not start with zero is rebuilt from its value. */
  lemma BigDigitsAreUnique(ds: seq<nat>, base: nat)
    requires base >= 2 && Digits(ds, base) && (ds != [] ==> ds[0] != 0)
    ensures ToBigDigits(BigValue(ds, base), base) == ds
  {
    var low := Reverse(ds);
    TrimmedIsUnique(low, base);
    BigValueReversed(low, base);
    ReverseTwice(ds);
  }

  lemma BigValueBounds(ds: seq<nat>, base: nat)
    requires base >= 2 && Digits(ds, base)
    ensures BigValue(ds, base) < Pow(base, |ds|)
    ensures ds != [] && ds[0] != 0 ==> BigValue(ds, base) >= Pow(base, |ds| - 1)
  {
    BigValueReversed(Reverse(ds), base);
    ReverseTwice(ds);
    LowValueBounds(Reverse(ds), base);
  }
}
