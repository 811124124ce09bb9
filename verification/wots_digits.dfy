/** The digits a WOTS+ signature is made of (`backend/native.rs`; sections 2.6 and 3.1.5 of
    RFC 8391): the message read in base 16, and a checksum that moves the other way. */
module WotsDigits {
  import opened Base
  import opened Numerals
  import opened Primitives

  const WOTSW := 16
  const LEN1 := 64
  const LEN2 := 3
  const LEN := 67

  type i32 = x: int | -0x8000_0000 <= x < 0x8000_0000

  // ----- big-endian bytes of an integer -----

  function BigEndian(value: nat, n: nat): (bytes: seq<byte>)
    ensures |bytes| == n
    decreases n
  {
    if n == 0 then [] else BigEndian(value / 256, n - 1) + [value % 256]
  }

  /** Writing into a narrower buffer drops the top: what is kept is the value modulo its width. */
  lemma {:induction false} BigEndianTruncates(value: nat, n: nat)
    ensures BigValue(BigEndian(value, n), 256) == value % Pow(256, n)
    decreases n
  {
    if n == 0 {
    } else {
      var bytes := BigEndian(value, n);
      BigEndianTruncates(value / 256, n - 1);
      assert bytes[..n - 1] == BigEndian(value / 256, n - 1);
      ModOfProduct(value, 256, Pow(256, n - 1));
    }
  }

  lemma ModOfProduct(v: nat, b: nat, p: nat)
    requires b >= 2 && p > 0
    ensures b * p > 0 && v % (b * p) == (v / b) % p * b + v % b
  {
    var q, r := v / b, v % b;
    var k, m := q / p, q % p;
    Euclid(v, b);
    assert q == p * k + m && 0 <= m < p && 0 <= r < b;
    Recompose(v, b, p, q, r, k, m);
    QuotientAndRemainder(v, b * p, k, m * b + r);
  }

  lemma Recompose(v: nat, b: nat, p: nat, q: nat, r: nat, k: nat, m: nat)
    requires v == r + b * q && q == p * k + m && m < p && r < b
    ensures v == (b * p) * k + (m * b + r) && m * b + r < b * p
  {
    assert b * (p * k + m) == (b * p) * k + m * b;
    MulMonotone(m + 1, p, b);
    assert (m + 1) * b == m * b + b && p * b == b * p;
  }

  method UllToBytes(out: array<byte>, lo: nat, hi: nat, value: u64)
    requires lo < hi <= out.Length
    modifies out
    ensures out[..] == old(out[..lo]) + BigEndian(value, hi - lo) + old(out[hi..])
  {
    var v: nat := value;
    var i := hi;
    ghost var tail: seq<byte> := [];
    while i > lo
      invariant lo <= i <= hi
      invariant |tail| == hi - i && out[i..hi] == tail
      invariant out[..i] == old(out[..i]) && out[hi..] == old(out[hi..])
      invariant BigEndian(v, i - lo) + tail == BigEndian(value, hi - lo)
    {
      i := i - 1;
      assert BigEndian(v, i + 1 - lo) + tail == BigEndian(v / 256, i - lo) + ([v % 256] + tail);
      out[i] := v % 256;
      tail := [v % 256] + tail;
      v := v / 256;
    }
  }

  // ----- reading bytes in base 16 -----

  function Nibble(input: seq<byte>, k: nat): (d: nat)
    requires k < 2 * |input|
    ensures d < 16
  {
    if k % 2 == 0 then input[k / 2] / 16 else input[k / 2] % 16
  }

  function Nibbles(input: seq<byte>, n: nat): (ds: seq<nat>)
    requires n <= 2 * |input|
    ensures |ds| == n
    ensures forall k :: 0 <= k < n ==> ds[k] == Nibble(input, k)
  {
    seq(n, k requires 0 <= k < n => Nibble(input, k))
  }

  method BaseW(output: array<int>, input: seq<byte>)
    requires |input| >= (output.Length + 1) / 2
    modifies output
    ensures output[..] == Nibbles(input, output.Length)
  {
    var inIdx := 0;
    var total: byte := 0;
    var bits := 0;
    var k := 0;
    while k < output.Length
      invariant 0 <= k <= output.Length
      invariant bits == (if k % 2 == 0 then 0 else 4)
      invariant inIdx == (k + 1) / 2
      invariant k % 2 == 1 ==> total == input[k / 2]
      invariant forall j :: 0 <= j < k ==> output[j] == Nibble(input, j)
    {
      if bits == 0 {
        total := input[inIdx];
        inIdx := inIdx + 1;
        bits := bits + 8;
      }
      bits := bits - 4;
      output[k] := total / Pow(2, bits) % WOTSW;
      assert Pow(2, 4) == 16 && Pow(2, 0) == 1;
      k := k + 1;
    }
  }

  /** The nibbles are the base-16 digits of the number the bytes spell in base 256. */
  lemma {:induction false} NibblesAreBase16(input: seq<byte>)
    ensures BigValue(Nibbles(input, 2 * |input|), 16) == BigValue(input, 256)
    decreases |input|
  {
    hide BigValue, Nibbles;
    NothingToRead();
    if input == [] {
    } else {
      var n := |input|;
      var init, last := input[..n - 1], input[n - 1];
      NibblesAreBase16(init);
      NibblesAppend(init, last);
      assert input == init + [last];
      BigValueAppend(init, last, 256);
      BigValueAppend(Nibbles(init, 2 * n - 2) + [last / 16], last % 16, 16);
      BigValueAppend(Nibbles(init, 2 * n - 2), last / 16, 16);
    }
  }

  lemma NothingToRead()
    ensures Nibbles([], 0) == [] && BigValue([], 16) == BigValue([], 256) == 0
  {
  }

  lemma NibblesAppend(init: seq<byte>, last: byte)
    ensures Nibbles(init + [last], 2 * |init| + 2) == Nibbles(init, 2 * |init|) + [last / 16] + [last % 16]
  {
    var k := 2 * |init|;
    assert Nibble(init + [last], k) == last / 16 && Nibble(init + [last], k + 1) == last % 16;
    assert forall j :: 0 <= j < k ==> Nibble(init + [last], j) == Nibble(init, j);
  }

  lemma BigValueAppend(ds: seq<nat>, d: nat, base: nat)
    ensures BigValue(ds + [d], base) == BigValue(ds, base) * base + d
  {
    assert (ds + [d])[..|ds|] == ds;
  }

  lemma NibblesAreInjective(a: seq<byte>, b: seq<byte>)
    requires |a| == |b| && Nibbles(a, 2 * |a|) == Nibbles(b, 2 * |b|)
    ensures a == b
  {
    forall i | 0 <= i < |a| ensures a[i] == b[i] {
      assert Nibble(a, 2 * i) == Nibble(b, 2 * i);
      assert Nibble(a, 2 * i + 1) == Nibble(b, 2 * i + 1);
    }
  }

  // ----- the checksum -----

  /** How far the digits fall short of the largest digit, in total. */
  function Shortfall(digits: seq<int>): int
    decreases |digits|
  {
    if digits == [] then 0 else Shortfall(digits[..|digits| - 1]) + (WOTSW - 1 - digits[|digits| - 1])
  }

  function Wrap32(x: int): i32 {
    (x + 0x8000_0000) % U32_LIMIT - 0x8000_0000
  }

  lemma WrapIsPeriodic(x: int, k: int)
    ensures Wrap32(x + U32_LIMIT * k) == Wrap32(x)
  {
    var y := x + 0x8000_0000;
    QuotientAndRemainder(y + U32_LIMIT * k, U32_LIMIT, y / U32_LIMIT + k, y % U32_LIMIT);
  }

  lemma WrapAbsorbs(x: int, y: int)
    ensures Wrap32(Wrap32(x) + y) == Wrap32(x + y)
    ensures Wrap32(Wrap32(x) * 16) == Wrap32(x * 16)
    ensures Wrap32(x) % U32_LIMIT == x % U32_LIMIT
  {
    var k := (x + 0x8000_0000) / U32_LIMIT;
    assert Wrap32(x) == x - U32_LIMIT * k;
    WrapIsPeriodic(x + y, -k);
    WrapIsPeriodic(x * 16, -(16 * k));
    QuotientAndRemainder(Wrap32(x), U32_LIMIT, x / U32_LIMIT - k, x % U32_LIMIT);
  }

  function ChecksumDigits(sum: int): (ds: seq<nat>)
    ensures |ds| == LEN2 && forall i :: 0 <= i < LEN2 ==> ds[i] < 16
  {
    [sum / 256 % 16, sum / 16 % 16, sum % 16]
  }

  /** Total on any 64 words, through wrapping adds, a shift that may lose the sign, and a two-byte
      buffer that drops the top: what comes out is the sum modulo 4096 in base 16. */
  method WotsChecksum(digits: seq<i32>) returns (out: seq<int>)
    requires |digits| == LEN1
    ensures out == ChecksumDigits(Shortfall(digits))
    ensures |out| == LEN2 && out[0] * 256 + out[1] * 16 + out[2] == Shortfall(digits) % 4096
  {
    var csum: i32 := 0;
    var i := 0;
    while i < |digits|
      invariant 0 <= i <= |digits|
      invariant csum == Wrap32(Shortfall(digits[..i]))
    {
      assert digits[..i + 1][..i] == digits[..i];
      WrapAbsorbs(Shortfall(digits[..i]), Wrap32(WOTSW - 1 - digits[i]));
      WrapAbsorbs(WOTSW - 1 - digits[i], Shortfall(digits[..i]));
      csum := Wrap32(csum + Wrap32(WOTSW - 1 - digits[i]));
      i := i + 1;
    }
    assert digits[..i] == digits;
    ghost var sum := Shortfall(digits);
    WrapAbsorbs(sum, 0);
    csum := Wrap32(csum * 16);
    var bytes := new byte[2](_ => 0);
    UllToBytes(bytes, 0, 2, csum % U32_LIMIT);
    var digitsOut := new int[LEN2];
    ShiftedAndTruncated(sum);
    assert bytes[..] == BigEndian(Wrap32(sum * 16) % U32_LIMIT, 2);
    BaseW(digitsOut, bytes[..]);
    out := digitsOut[..];
  }

  lemma ShiftedAndTruncated(sum: int)
    ensures var bytes := BigEndian(Wrap32(sum * 16) % U32_LIMIT, 2);
            Nibbles(bytes, LEN2) == ChecksumDigits(sum)
    ensures var ds := ChecksumDigits(sum);
            ds[0] * 256 + ds[1] * 16 + ds[2] == sum % 4096
  {
    var k, m := sum / 4096, sum % 4096;
    var v := Wrap32(sum * 16) % U32_LIMIT;
    WrapAbsorbs(sum * 16, 0);
    QuotientAndRemainder(sum * 16, U32_LIMIT, k / 65536, 65536 * (k % 65536) + 16 * m);
    TwoBytesOf(v);
    ThreeNibbles(k % 65536, m);
    DigitsModulo(k, m);
    var bytes := [m / 16, 16 * (m % 16)];
    assert Nibble(bytes, 0) == m / 16 / 16 && Nibble(bytes, 1) == m / 16 % 16 && Nibble(bytes, 2) == m % 16;
  }

  lemma TwoBytesOf(v: nat)
    ensures BigEndian(v, 2) == [v / 256 % 256, v % 256]
  {
    assert BigEndian(v, 2) == BigEndian(v / 256, 1) + [v % 256];
    assert BigEndian(v / 256, 1) == BigEndian(v / 256 / 256, 0) + [v / 256 % 256];
  }

  lemma ThreeNibbles(j: nat, m: nat)
    requires m < 4096
    ensures var v := 65536 * j + 16 * m;
            v / 256 % 256 == m / 16 && v % 256 == 16 * (m % 16)
  {
    QuotientAndRemainder(65536 * j + 16 * m, 256, 256 * j + m / 16, 16 * (m % 16));
    QuotientAndRemainder(256 * j + m / 16, 256, j, m / 16);
  }

  lemma DigitsModulo(k: int, m: nat)
    requires m < 4096
    ensures ChecksumDigits(4096 * k + m) == [m / 16 / 16, m / 16 % 16, m % 16]
    ensures m / 16 / 16 * 256 + m / 16 % 16 * 16 + m % 16 == m
  {
    var sum := 4096 * k + m;
    QuotientAndRemainder(sum, 256, 16 * k + m / 16 / 16, 16 * (m / 16 % 16) + m % 16);
    QuotientAndRemainder(16 * k + m / 16 / 16, 16, k, m / 16 / 16);
    QuotientAndRemainder(sum, 16, 256 * k + m / 16, m % 16);
    QuotientAndRemainder(256 * k + m / 16, 16, 16 * k + m / 16 / 16, m / 16 % 16);
  }

  // ----- the 67 chain lengths -----

  function Lengths(msg: Block): (ds: seq<nat>)
    ensures |ds| == LEN && forall i :: 0 <= i < LEN ==> ds[i] < 16
  {
    Nibbles(msg, LEN1) + ChecksumDigits(Shortfall(Nibbles(msg, LEN1)))
  }

  method ChainLengths(msg: Block) returns (lengths: seq<int>)
    ensures lengths == Lengths(msg)
  {
    var msgDigits := new int[LEN1];
    BaseW(msgDigits, msg);
    var csum := WotsChecksum(msgDigits[..]);
    var buffer := new int[LEN];
    forall i | 0 <= i < LEN1 {
      buffer[i] := msgDigits[i];
    }
    forall i | LEN1 <= i < LEN {
      buffer[i] := csum[i - LEN1];
    }
    lengths := buffer[..];
    assert lengths == Nibbles(msg, LEN1) + ChecksumDigits(Shortfall(Nibbles(msg, LEN1)));
  }

  lemma {:induction false} ShortfallBounds(digits: seq<nat>)
    requires forall i :: 0 <= i < |digits| ==> digits[i] < 16
    ensures 0 <= Shortfall(digits) <= 15 * |digits|
    ensures Shortfall(digits) == 15 * |digits| ==> forall i :: 0 <= i < |digits| ==> digits[i] == 0
    decreases |digits|
  {
    if digits == [] {
    } else {
      ShortfallBounds(digits[..|digits| - 1]);
    }
  }

  /** If every digit of `a` is at least the digit of `b`, then `a` falls short by less, strictly
      unless they are the same. */
  lemma {:induction false} ShortfallReverses(a: seq<nat>, b: seq<nat>)
    requires |a| == |b| && forall i :: 0 <= i < |a| ==> a[i] >= b[i]
    ensures Shortfall(a) <= Shortfall(b)
    ensures Shortfall(a) == Shortfall(b) ==> a == b
    decreases |a|
  {
    if a == [] {
    } else {
      var n := |a| - 1;
      ShortfallReverses(a[..n], b[..n]);
      if Shortfall(a) == Shortfall(b) {
        assert a == a[..n] + [a[n]] && b == b[..n] + [b[n]];
      }
    }
  }

  /** Two messages that differ have chain lengths of which neither dominates the other, so no
      signature can be turned into another by only hashing further along its chains. */
  lemma NeitherDominates(m1: Block, m2: Block)
    requires m1 != m2
    ensures exists i :: 0 <= i < LEN && Lengths(m1)[i] < Lengths(m2)[i]
    ensures exists i :: 0 <= i < LEN && Lengths(m1)[i] > Lengths(m2)[i]
  {
    SomeChainIsShorter(m1, m2);
    SomeChainIsShorter(m2, m1);
  }

  lemma SomeChainIsShorter(m1: Block, m2: Block)
    requires m1 != m2
    ensures exists i :: 0 <= i < LEN && Lengths(m1)[i] < Lengths(m2)[i]
  {
    var a, b := Lengths(m1), Lengths(m2);
    var d1, d2 := Nibbles(m1, LEN1), Nibbles(m2, LEN1);
    if i :| 0 <= i < LEN1 && d1[i] < d2[i] {
      assert a[i] < b[i];
    } else {
      ShortfallReverses(d1, d2);
      if d1 == d2 {
        NibblesAreInjective(m1, m2);
      }
      ShortfallBounds(d1);
      ShortfallBounds(d2);
      var s1, s2 := Shortfall(d1), Shortfall(d2);
      ChecksumOrder(s1, s2);
      var k :| 0 <= k < LEN2 && ChecksumDigits(s1)[k] < ChecksumDigits(s2)[k];
      assert a[LEN1 + k] < b[LEN1 + k];
    }
  }

  lemma ChecksumOrder(s1: int, s2: int)
    requires 0 <= s1 < s2 < 4096
    ensures exists k :: 0 <= k < LEN2 && ChecksumDigits(s1)[k] < ChecksumDigits(s2)[k]
  {
    hide ChecksumDigits;
    var a, b := ChecksumDigits(s1), ChecksumDigits(s2);
    DigitsModulo(0, s1);
    DigitsModulo(0, s2);
    assert a[0] * 256 + a[1] * 16 + a[2] == s1;
    assert b[0] * 256 + b[1] * 16 + b[2] == s2;
    assert a[0] < b[0] || a[1] < b[1] || a[2] < b[2];
  }

  /** Every message leaves some chain short of its end, and moves some chain off its start. */
  lemma SomeDigitBelowTopSomeAboveZero(msg: Block)
    ensures Lengths(msg)[LEN1] < 15
    ensures exists i :: 0 <= i < LEN && Lengths(msg)[i] > 0
  {
    var d := Nibbles(msg, LEN1);
    var ds := Lengths(msg);
    ShortfallBounds(d);
    if exists i :: 0 <= i < LEN1 && d[i] != 0 {
      var i :| 0 <= i < LEN1 && d[i] != 0;
      assert ds[i] > 0;
    } else {
      AllZeroShortfall(d);
      assert ds[LEN1] == Shortfall(d) / 256 % 16 == 3;
    }
  }

  lemma {:induction false} AllZeroShortfall(digits: seq<nat>)
    requires forall i :: 0 <= i < |digits| ==> digits[i] == 0
    ensures Shortfall(digits) == 15 * |digits|
    decreases |digits|
  {
    if digits == [] {
    } else {
      AllZeroShortfall(digits[..|digits| - 1]);
    }
  }

  function Sum(ds: seq<nat>): nat
    decreases |ds|
  {
    if ds == [] then 0 else Sum(ds[..|ds| - 1]) + ds[|ds| - 1]
  }

  lemma {:induction false} ShortfallComplements(ds: seq<nat>)
    ensures Shortfall(ds) + Sum(ds) == 15 * |ds|
    decreases |ds|
  {
    if ds == [] {
    } else {
      ShortfallComplements(ds[..|ds| - 1]);
    }
  }

  /** What the lengths are: each byte's high and then low half, and three digits that make up, most
      significant first, what the others together fall short of 960. */
  lemma LengthsMean(msg: Block)
    ensures var ds := Lengths(msg);
            && (forall k :: 0 <= k < 32 ==> ds[2 * k] == msg[k] / 16 && ds[2 * k + 1] == msg[k] % 16)
            && 256 * ds[64] + 16 * ds[65] + ds[66] + Sum(ds[..64]) == 960
  {
    hide Shortfall, Sum, ChecksumDigits, Nibbles, Lengths;
    var digits := Nibbles(msg, LEN1);
    LengthsInParts(msg);
    NibblesOfBytes(msg);
    ShortfallComplements(digits);
    ShortfallBounds(digits);
    ShiftedAndTruncated(Shortfall(digits));
  }

  lemma LengthsInParts(msg: Block)
    ensures Lengths(msg)[..64] == Nibbles(msg, 64)
    ensures forall j :: 0 <= j < 3 ==> Lengths(msg)[64 + j] == ChecksumDigits(Shortfall(Nibbles(msg, 64)))[j]
    ensures forall i :: 0 <= i < 64 ==> Lengths(msg)[i] == Nibbles(msg, 64)[i]
  {
    hide Shortfall, ChecksumDigits, Nibbles;
  }

  lemma NibblesOfBytes(msg: Block)
    ensures forall k :: 0 <= k < 32 ==> Nibbles(msg,
                                                64)[2 * k] == msg[k] / 16 && Nibbles(msg, 64)[2 * k + 1] == msg[k] % 16
  {
    forall k | 0 <= k < 32
      ensures Nibble(msg, 2 * k) == msg[k] / 16 && Nibble(msg, 2 * k + 1) == msg[k] % 16
    {
    }
  }
}
