/** How long either side of the Base58 codec can be: the buffer capacities `backend/native.rs`
    reserves, and the window of lengths `addr.rs` accepts for a destination. */
module Base58Lengths {
  import opened Base
  import opened Numerals
  import opened Base58

  // ----- the power inequalities -----

  lemma {:induction false} PowStrictInBase(a: nat, b: nat, n: nat)
    requires a < b && n > 0
    ensures Pow(a, n) < Pow(b, n)
    decreases n
  {
    if n == 1 {
      assert Pow(a, 1) == a * Pow(a, 0) == a;
      assert Pow(b, 1) == b * Pow(b, 0) == b;
    } else {
      PowStrictInBase(a, b, n - 1);
      MulMonotone(a, b, Pow(a, n - 1));
      StrictTimes(Pow(a, n - 1), Pow(b, n - 1), b);
    }
  }

  lemma StrictTimes(x: nat, y: nat, k: nat)
    requires x < y && k > 0
    ensures k * x < k * y
  {
  }

  /** When `a^p <= b^q`, fewer than `b^n` many values need fewer than `q*n/p` places in base `a`. */
  lemma PlacesBound(a: nat, p: nat, b: nat, q: nat, m: nat, n: nat)
    requires a >= 1 && b >= 1 && p > 0
    requires Pow(b, p) <= Pow(a, q)
    requires Pow(a, m) < Pow(b, n)
    ensures m * p < n * q
  {
    hide Pow, Product;
    PowStrictInBase(Pow(a, m), Pow(b, n), p);
    PowMonotoneInBase(Pow(b, p), Pow(a, q), n);
    ExponentsMultiply(a, m, p);
    ExponentsMultiply(b, n, p);
    ExponentsMultiply(b, p, n);
    ExponentsMultiply(a, q, n);
    Compare(a, Product(m, p), Product(n, q));
    ProductOrder(m, p, n, q);
  }

  function Product(m: nat, n: nat): nat { m * n }

  lemma ProductOrder(m: nat, p: nat, n: nat, q: nat)
    requires Product(m, p) < Product(n, q)
    ensures m * p < n * q
  {
  }

  lemma ExponentsMultiply(base: nat, m: nat, n: nat)
    ensures Pow(Pow(base, m), n) == Pow(base, Product(m, n)) == Pow(base, Product(n, m))
  {
    assert m * n == n * m;
    PowProduct(base, m, n);
  }

  lemma Compare(base: nat, m: nat, n: nat)
    requires base >= 1 && Pow(base, m) < Pow(base, n)
    ensures m < n
  {
    PowOrderReflected(base, m, n);
  }

  lemma SmallPowers()
    ensures Pow(58, 5) == 656356768 && Pow(58, 6) == 38068692544
    ensures Pow(58, 8) == 128063081718016 && Pow(58, 11) == 24986644000165537792
    ensures Pow(256, 6) == 0x1_0000_0000_0000
    ensures Pow(256, 8) == 0x1_0000_0000_0000_0000
    ensures Pow(256, 12) == 0x1_0000_0000_0000_0000_0000_0000
  {
  }

  lemma Constants()
    ensures Pow(256, 8) <= Pow(58, 11)
    ensures Pow(58, 71) <= Pow(256, 52)
    ensures Pow(58, 30) < Pow(256, 22)
    ensures Pow(58, 39) >= Pow(256, 28)
  {
    hide Pow;
    SmallPowers();
    PowSum(256, 8, 8); PowSum(256, 16, 6); PowSum(256, 16, 12); PowSum(256, 12, 12); PowSum(256, 24, 28);
    PowSum(58, 11, 11); PowSum(58, 22, 8); PowSum(58, 22, 11); PowSum(58, 33, 6); PowSum(58, 33, 33); PowSum(58, 66, 5);
  }

  // ----- encoding -----

  lemma NonZeroHasDigits(v: nat, base: nat)
    requires v > 0 && base >= 2
    ensures ToBigDigits(v, base) != []
  {
  }

  /** Encoded digits: at least as many as the bytes behind them, and within 11/8 of them. */
  lemma EncodedDigits(bytes: seq<nat>)
    requires Digits(bytes, 256) && (bytes != [] ==> bytes[0] != 0)
    ensures var m := |ToBigDigits(BigValue(bytes, 256), 58)|;
            |bytes| <= m && (m - 1) * 8 < |bytes| * 11 + 1
  {
    hide Pow, BigValue, ToBigDigits;
    var v := BigValue(bytes, 256);
    var ds := ToBigDigits(v, 58);
    if bytes == [] {
      NoDigits(256);
      NoDigits(58);
    } else {
      BigValueBounds(bytes, 256);
      PowMonotoneInBase(58, 256, |bytes| - 1);
      assert Pow(256, |bytes| - 1) > 0;
      PlacesOf(v, 58);
      Constants();
      PlacesBound(58, 8, 256, 11, |ds| - 1, |bytes|);
      PowOrderReflected(58, |bytes| - 1, |ds|);
    }
  }

  /** A positive value takes the places its powers say. */
  lemma PlacesOf(v: nat, base: nat)
    requires v > 0 && base >= 2
    ensures var m := |ToBigDigits(v, base)|;
            m > 0 && Pow(base, m - 1) <= v < Pow(base, m)
  {
    NonZeroHasDigits(v, base);
    ToBigDigitsValue(v, base);
    BigValueBounds(ToBigDigits(v, base), base);
  }

  /** The digit buffer is reserved at `len * 138 / 100 + 1` and is never outgrown. */
  lemma EncodeStaysWithinCapacity(input: seq<byte>)
    ensures var zeros := LeadingCount(input, 0);
            |ToBigDigits(BigValue(input[zeros..], 256), 58)| <= |input| * 138 / 100 + 1
  {
    var zeros := LeadingCount(input, 0);
    EncodedDigits(input[zeros..]);
  }

  /** A 22-byte destination payload prints as 22 to 31 characters. */
  lemma PayloadLength(payload: seq<byte>)
    requires |payload| == 22
    ensures 22 <= |Encoded(payload).value| <= 31
  {
    var zeros := LeadingCount(payload, 0);
    EncodedDigits(payload[zeros..]);
  }

  /** Both ends of that window are reached, so it could not be narrower. */
  lemma PayloadLengthIsExact()
    ensures |Encoded(Repeat(0, 22)).value| == 22
    ensures |Encoded(Repeat(255, 22)).value| == 31
  {
    hide Pow, BigValue, ToBigDigits;
    var low, high := Repeat(0, 22), Repeat(255, 22);
    assert LeadingCount(low, 0) == 22 && low[22..] == [];
    NoDigits(256);
    NoDigits(58);
    assert LeadingCount(high, 0) == 0 && high[0..] == high;
    var ds := ToBigDigits(BigValue(high, 256), 58);
    AllOnes(22);
    Constants();
    ToBigDigitsValue(BigValue(high, 256), 58);
    BigValueBounds(ds, 58);
    PowOrderReflected(58, 30, |ds|);
    PayloadLength(high);
  }

  lemma {:induction false} AllOnes(n: nat)
    ensures BigValue(Repeat(255, n), 256) == Pow(256, n) - 1
    decreases n
  {
    if n == 0 {
    } else {
      AllOnes(n - 1);
      assert Repeat(255, n)[..n - 1] == Repeat(255, n - 1);
      assert (Pow(256, n - 1) - 1) * 256 + 255 == 256 * Pow(256, n - 1) - 1;
    }
  }

  // ----- decoding -----

  lemma DecodedBytes(read: seq<nat>)
    requires Digits(read, 58) && (read != [] ==> read[0] != 0)
    ensures var m := |ToBigDigits(BigValue(read, 58), 256)|;
            && (m - 1) * 71 < |read| * 52 + 1
            && (|read| <= 40 ==> m >= |read| - 11)
  {
    hide Pow, BigValue, ToBigDigits;
    var v := BigValue(read, 58);
    var bytes := ToBigDigits(v, 256);
    if read == [] {
      NoDigits(58);
      NoDigits(256);
    } else {
      BigValueBounds(read, 58);
      assert Pow(58, |read| - 1) > 0;
      PlacesOf(v, 256);
      AtMostSo(v, |read|, |bytes|);
      AtLeastAsManyLessEleven(v, |read|, |bytes|);
    }
  }

  lemma AtMostSo(v: nat, read: nat, bytes: nat)
    requires bytes > 0 && Pow(256, bytes - 1) <= v < Pow(58, read)
    ensures (bytes - 1) * 71 < read * 52
  {
    hide Pow;
    Constants();
    PlacesBound(256, 71, 58, 52, bytes - 1, read);
  }

  lemma AtLeastAsManyLessEleven(v: nat, read: nat, bytes: nat)
    requires read > 0 && Pow(58, read - 1) <= v < Pow(256, bytes)
    ensures read <= 40 ==> bytes >= read - 11
  {
    hide Pow;
    if 12 <= read <= 40 {
      PowersBelow40(read);
      PowOrderReflected(256, read - 12, bytes);
    }
  }

  lemma {:induction false} PowersBelow40(m: nat)
    requires 12 <= m <= 40
    ensures Pow(256, m - 12) <= Pow(58, m - 1)
    decreases 40 - m
  {
    if m == 40 {
      Constants();
    } else {
      PowersBelow40(m + 1);
      var x, y := Pow(256, m - 12), Pow(58, m - 1);
      assert Pow(256, m - 11) == 256 * x && Pow(58, m) == 58 * y;
      hide Pow;
    }
  }

  /** The byte buffer is reserved at `n * 733 / 1000 + 1` for the characters after the leading
      '1's, and is never outgrown. */
  lemma DecodeStaysWithinCapacity(s: seq<byte>)
    requires Decoded(s).Ok?
    ensures var zeros := LeadingCount(s, ONE);
            |Decoded(s).value| - zeros <= (|s| - zeros) * 733 / 1000 + 1
  {
    DecodedLength(s);
  }

  lemma DecodedLength(s: seq<byte>)
    requires Decoded(s).Ok?
    ensures var zeros := LeadingCount(s, ONE);
            && (|Decoded(s).value| - zeros - 1) * 71 < (|s| - zeros) * 52 + 1
            && (|s| <= 40 ==> |Decoded(s).value| >= |s| - 11)
  {
    var zeros := LeadingCount(s, ONE);
    var read := DigitsOf(s[zeros..]);
    assert Digits(read, 58) by {
      forall i | 0 <= i < |read| ensures read[i] < 58 {
        assert read[i] in read;
      }
    }
    assert read != [] ==> read[0] != 0;
    DecodedBytes(read);
  }

  /** A 40-character string, the length of a tag in hex, decodes to at least 29 bytes: it can
      never be taken for a 22-byte payload. */
  lemma FortyCharactersAreTooMany(s: seq<byte>)
    requires |s| == 40 && Decoded(s).Ok?
    ensures |Decoded(s).value| >= 29
  {
    DecodedLength(s);
  }
}
