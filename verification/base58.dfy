/** The Base58 codec of `backend/native.rs` and `base58.rs`: two in-place carry loops, the
    leading-zero rule that carries over what a positional numeral cannot, and the alphabet. */
module Base58 {
  import opened Base
  import opened Numerals

  function Letters(first: char, n: nat): (run: seq<byte>)
    requires first as int + n <= 128
    ensures |run| == n && forall k :: 0 <= k < n ==> run[k] == first as int + k
  {
    seq(n, k requires 0 <= k < n => first as int + k)
  }

  /** "123456789ABCDEFGHJKLMNPQRSTUVWXYZabcdefghijkmnopqrstuvwxyz", in its six consecutive runs. */
  const ALPHABET: seq<byte> :=
    Letters('1', 9) + Letters('A', 8) + Letters('J', 5) + Letters('P', 11) + Letters('a', 11) + Letters('m', 14)

  /** What the map holds for a byte the alphabet does not contain. */
  const NONE: nat := 0xff

  /** The one refusal of both directions: `Error::Reference` with return code -1. */
  datatype Rejected = Rejected

  // ----- the alphabet and its derived inverse -----

  function Symbol(i: nat): byte
    requires i < 58
  {
    if i < 9 then 49 + i
    else if i < 17 then 56 + i
    else if i < 22 then 57 + i
    else if i < 33 then 58 + i
    else if i < 44 then 64 + i
    else 65 + i
  }

  lemma SymbolsAreTheAlphabet()
    ensures |ALPHABET| == 58
    ensures forall i :: 0 <= i < 58 ==> ALPHABET[i] == Symbol(i)
  {
  }

  /** The digit a byte stands for, or `NONE`. */
  function DigitOf(c: byte): (d: nat)
    ensures d < 58 || d == NONE
    ensures d < 58 ==> Symbol(d) == c
    ensures d == NONE ==> forall i: nat :: i < 58 ==> Symbol(i) != c
  {
    if 49 <= c < 58 then c - 49
    else if 65 <= c < 73 then c - 56
    else if 74 <= c < 79 then c - 57
    else if 80 <= c < 91 then c - 58
    else if 97 <= c < 108 then c - 64
    else if 109 <= c < 123 then c - 65
    else NONE
  }

  /** The map is computed from the alphabet, so the two cannot disagree. */
  method BuildMap() returns (inverse: array<nat>)
    ensures fresh(inverse) && inverse.Length == 256
    ensures forall c :: 0 <= c < 256 ==> inverse[c] == DigitOf(c)
  {
    SymbolsAreTheAlphabet();
    inverse := new nat[256](_ => NONE);
    var i := 0;
    while i < 58
      invariant 0 <= i <= 58
      invariant forall c :: 0 <= c < 256 ==> inverse[c] == if DigitOf(c) < i then DigitOf(c) else NONE
    {
      inverse[ALPHABET[i]] := i;
      i := i + 1;
    }
  }

  // ----- the in-place carry loop -----

  /** The value written so far, with the carry waiting above it, is the value read so far
      multiplied and with the input brought in. */
  ghost predicate Balanced(olds: seq<nat>, news: seq<nat>, carry: nat, multiplier: nat, base: nat, input: nat) {
    LowValue(news, base) + Pow(base, |news|) * carry == LowValue(olds, base) * multiplier + input
  }

  /** One pass of either conversion: multiply the digits in place and bring `input` in at the
      bottom. Encoding runs it at (256, 58) and decoding at (58, 256). */
  method MultiplyAdd(original: seq<nat>, input: nat, multiplier: nat, base: nat) returns (digits: seq<nat>)
    requires 2 <= base && 1 <= multiplier && input < multiplier
    requires Digits(original, base) && Trimmed(original)
    ensures digits == ToDigits(LowValue(original, base) * multiplier + input, base)
  {
    hide Balanced, LowValue, Pow, ToDigits;
    var carry: nat;
    digits, carry := MultiplyInPlace(original, input, multiplier, base);
    while carry > 0
      invariant Digits(digits, base)
      invariant Balanced(original, digits, carry, multiplier, base, input)
      invariant carry == 0 ==> Trimmed(digits)
      decreases carry
    {
      PushStep(original, digits, carry, multiplier, base, input);
      digits := digits + [carry % base];
      carry := carry / base;
    }
    BalancedAtEnd(original, digits, multiplier, base, input);
  }

  /** The carry never reaches the multiplier: within 255 when encoding, within 57 when decoding. */
  method MultiplyInPlace(original: seq<nat>, input: nat, multiplier: nat, base: nat)
    returns (digits: seq<nat>, carry: nat)
    requires 2 <= base && 1 <= multiplier && input < multiplier
    requires Digits(original, base) && Trimmed(original)
    ensures |digits| == |original| && Digits(digits, base)
    ensures carry < multiplier
    ensures Balanced(original, digits, carry, multiplier, base, input)
    ensures carry == 0 ==> Trimmed(digits)
  {
    hide Balanced;
    digits, carry := original, input;
    var k := 0;
    BalancedAtStart(input, multiplier, base);
    assert original[..0] == [] && digits[..0] == [];
    while k < |digits|
      invariant 0 <= k <= |digits| == |original|
      invariant carry < multiplier
      invariant Digits(digits, base)
      invariant forall j :: k <= j < |digits| ==> digits[j] == original[j]
      invariant Balanced(original[..k], digits[..k], carry, multiplier, base, input)
      invariant k == |digits| > 0 && carry == 0 ==> digits[k - 1] != 0
    {
      ghost var sofar := digits[..k];
      ghost var d := original[k];
      CarryStep(original[..k], sofar, d, carry, multiplier, base, input);
      assert original[..k + 1] == original[..k] + [d];
      var sum := carry + digits[k] * multiplier;
      var low := sum % base;
      digits := digits[k := low];
      assert digits[..k + 1] == sofar + [low];
      carry := sum / base;
      k := k + 1;
    }
    assert digits[..k] == digits && original[..k] == original;
  }

  lemma BalancedAtStart(input: nat, multiplier: nat, base: nat)
    ensures Balanced([], [], input, multiplier, base, input)
  {
  }

  lemma BalancedAtEnd(olds: seq<nat>, news: seq<nat>, multiplier: nat, base: nat, input: nat)
    requires 2 <= base && Digits(news, base) && Trimmed(news)
    requires Balanced(olds, news, 0, multiplier, base, input)
    ensures news == ToDigits(LowValue(olds, base) * multiplier + input, base)
  {
    TrimmedIsUnique(news, base);
  }

  lemma CarryStep(olds: seq<nat>, news: seq<nat>, d: nat, carry: nat, multiplier: nat, base: nat, input: nat)
    requires 2 <= base && |olds| == |news|
    requires carry < multiplier && d < base
    requires Balanced(olds, news, carry, multiplier, base, input)
    ensures var sum := carry + d * multiplier;
            && 0 <= sum % base < base && 0 <= sum / base < multiplier
            && Balanced(olds + [d], news + [sum % base], sum / base, multiplier, base, input)
            && (sum / base == 0 && d > 0 ==> sum % base != 0)
  {
    var sum := carry + d * multiplier;
    SumSplits(carry, d, multiplier, base);
    BalancedStep(olds, news, d, carry, multiplier, base, input, sum % base, sum / base);
  }

  lemma SumSplits(carry: nat, d: nat, multiplier: nat, base: nat)
    requires 2 <= base && carry < multiplier && d < base
    ensures var sum := carry + d * multiplier;
            && 0 <= sum % base < base && 0 <= sum / base < multiplier
            && sum % base + base * (sum / base) == sum
            && (sum / base == 0 && d > 0 ==> sum % base != 0)
  {
    Euclid(carry + d * multiplier, base);
    CarryBelow(carry, d, multiplier, base);
    if d > 0 {
      MulMonotone(1, d, multiplier);
    }
  }

  lemma BalancedStep(olds: seq<nat>, news: seq<nat>, d: nat, carry: nat, multiplier: nat, base: nat, input: nat,
                     r: nat, q: nat)
    requires |olds| == |news| && r + base * q == carry + d * multiplier
    requires Balanced(olds, news, carry, multiplier, base, input)
    ensures Balanced(olds + [d], news + [r], q, multiplier, base, input)
  {
    var p := Pow(base, |news|);
    LowValueAppend(news, r, base);
    LowValueAppend(olds, d, base);
    assert Pow(base, |news + [r]|) == base * p;
    hide Pow, LowValue;
    StepAlgebra(LowValue(news, base), LowValue(olds, base), p, r, q, carry, d, multiplier, base, input);
  }

  lemma StepAlgebra(nv: nat, ov: nat, p: nat, r: nat, q: nat, carry: nat, d: nat, multiplier: nat, base: nat,
                    input: nat)
    requires nv + p * carry == ov * multiplier + input
    requires r + base * q == carry + d * multiplier
    ensures nv + p * r + (base * p) * q == (ov + p * d) * multiplier + input
  {
    var s := carry + d * multiplier;
    assert p * r + (base * p) * q == p * s by {
      Distribute(p, r, base * q);
      Regroup(p, base, q);
    }
    assert p * s == p * carry + (p * d) * multiplier by {
      Distribute(p, carry, d * multiplier);
      assert p * (d * multiplier) == (p * d) * multiplier;
    }
    assert (ov + p * d) * multiplier == ov * multiplier + (p * d) * multiplier;
  }

  lemma Distribute(p: nat, x: nat, y: nat)
    ensures p * (x + y) == p * x + p * y
  {
  }

  lemma Regroup(p: nat, base: nat, q: nat)
    ensures p * (base * q) == (base * p) * q
  {
  }

  /** The bound both loops rely on never to overflow their 32-bit carry. */
  lemma CarryBelow(carry: nat, d: nat, multiplier: nat, base: nat)
    requires 2 <= base && carry < multiplier && d < base
    ensures (carry + d * multiplier) / base < multiplier
    ensures carry + d * multiplier < base * multiplier
  {
    var q := (carry + d * multiplier) / base;
    Euclid(carry + d * multiplier, base);
    MulMonotone(d + 1, base, multiplier);
    assert (d + 1) * multiplier == d * multiplier + multiplier;
    if q >= multiplier {
      MulMonotone(multiplier, q, base);
      assert false;
    }
  }

  lemma PushStep(olds: seq<nat>, digits: seq<nat>, carry: nat, multiplier: nat, base: nat, input: nat)
    requires 2 <= base && carry > 0
    requires Balanced(olds, digits, carry, multiplier, base, input)
    ensures 0 <= carry % base < base && 0 <= carry / base < carry
    ensures Balanced(olds, digits + [carry % base], carry / base, multiplier, base, input)
    ensures carry / base == 0 ==> carry % base != 0
  {
    CarryShrinks(carry, base);
    BalancedPush(olds, digits, carry, multiplier, base, input, carry % base, carry / base);
  }

  lemma CarryShrinks(carry: nat, base: nat)
    requires 2 <= base && carry > 0
    ensures 0 <= carry % base < base && 0 <= carry / base < carry
    ensures carry % base + base * (carry / base) == carry
  {
    Euclid(carry, base);
    if carry / base >= carry {
      MulMonotone(2, base, carry / base);
      assert false;
    }
  }

  lemma BalancedPush(olds: seq<nat>, digits: seq<nat>, carry: nat, multiplier: nat, base: nat, input: nat,
                     r: nat, q: nat)
    requires r + base * q == carry
    requires Balanced(olds, digits, carry, multiplier, base, input)
    ensures Balanced(olds, digits + [r], q, multiplier, base, input)
  {
    var p := Pow(base, |digits|);
    LowValueAppend(digits, r, base);
    assert Pow(base, |digits + [r]|) == base * p;
    hide Pow, LowValue;
    Distribute(p, r, base * q);
    Regroup(p, base, q);
  }

  // ----- what the two conversions mean -----

  function LeadingCount(s: seq<nat>, v: nat): (n: nat)
    ensures n <= |s|
    ensures forall i :: 0 <= i < n ==> s[i] == v
    ensures n < |s| ==> s[n] != v
    decreases |s|
  {
    if s != [] && s[0] == v then 1 + LeadingCount(s[1..], v) else 0
  }

  function Repeat(v: byte, n: nat): (r: seq<byte>)
    ensures |r| == n && forall i :: 0 <= i < n ==> r[i] == v
  {
    seq(n, _ => v)
  }

  function AsBytes(ds: seq<nat>): (r: seq<byte>)
    requires Digits(ds, 256)
    ensures r == ds
  {
    seq(|ds|, i requires 0 <= i < |ds| => ds[i])
  }

  function Symbols(ds: seq<nat>): (r: seq<byte>)
    requires Digits(ds, 58)
    ensures |r| == |ds|
    ensures forall i :: 0 <= i < |ds| ==> r[i] == Symbol(ds[i]) && DigitOf(r[i]) == ds[i]
  {
    seq(|ds|, i requires 0 <= i < |ds| => Symbol(ds[i]))
  }

  function DigitsOf(s: seq<byte>): (r: seq<nat>)
    ensures |r| == |s|
    ensures forall i :: 0 <= i < |s| ==> r[i] == DigitOf(s[i])
  {
    seq(|s|, i requires 0 <= i < |s| => DigitOf(s[i]))
  }

  const ONE: byte := 49

  /** The numeral is read after its leading zeros, and each of those becomes one '1'. */
  function Encoded(input: seq<byte>): Result<seq<byte>, Rejected> {
    if input == [] then Err(Rejected)
    else
      var zeros := LeadingCount(input, 0);
      Ok(Repeat(ONE, zeros) + Symbols(ToBigDigits(BigValue(input[zeros..], 256), 58)))
  }

  function Decoded(s: seq<byte>): Result<seq<byte>, Rejected> {
    var zeros := LeadingCount(s, ONE);
    if s == [] || NONE in DigitsOf(s[zeros..]) then Err(Rejected)
    else Ok(Repeat(0, zeros) + AsBytes(ToBigDigits(BigValue(DigitsOf(s[zeros..]), 58), 256)))
  }

  // ----- the two conversions -----

  method CountLeading(s: seq<byte>, v: byte) returns (n: nat)
    ensures n == LeadingCount(s, v)
  {
    n := 0;
    while n < |s| && s[n] == v
      invariant n <= |s|
      invariant LeadingCount(s, v) == n + LeadingCount(s[n..], v)
    {
      assert s[n..][1..] == s[n + 1..];
      n := n + 1;
    }
  }

  lemma EmptyNumeral(from: nat, base: nat)
    requires base >= 2
    ensures ToDigits(BigValue([], from), base) == []
  {
  }

  method Encode(input: seq<byte>) returns (r: Result<seq<byte>, Rejected>)
    ensures r == Encoded(input)
  {
    hide ToDigits, LowValue;
    if input == [] {
      return Err(Rejected);
    }
    var zeros := CountLeading(input, 0);
    var digits: seq<nat> := [];
    var i := zeros;
    ghost var read: seq<nat> := input[zeros..];
    EmptyNumeral(256, 58);
    assert read[..0] == [];
    while i < |input|
      invariant zeros <= i <= |input|
      invariant digits == ToDigits(BigValue(read[..i - zeros], 256), 58)
    {
      ToDigitsValue(BigValue(read[..i - zeros], 256), 58);
      assert read[..i + 1 - zeros][..i - zeros] == read[..i - zeros];
      digits := MultiplyAdd(digits, input[i], 256, 58);
      i := i + 1;
    }
    assert read[..i - zeros] == read;
    var out: seq<byte> := [];
    var n := 0;
    while n < zeros
      invariant 0 <= n <= zeros && out == Repeat(ONE, n)
    {
      out := out + [ONE];
      n := n + 1;
    }
    ghost var big := ToBigDigits(BigValue(read, 256), 58);
    SymbolsAreTheAlphabet();
    var d := |digits|;
    while d > 0
      invariant 0 <= d <= |digits| == |big|
      invariant out == Repeat(ONE, zeros) + Symbols(big)[..|digits| - d]
    {
      d := d - 1;
      out := out + [ALPHABET[digits[d]]];
    }
    assert Symbols(big)[..|digits|] == Symbols(big);
    return Ok(out);
  }

  method BytesReversed(digits: seq<nat>) returns (out: seq<byte>)
    requires Digits(digits, 256)
    ensures out == Reverse(digits)
  {
    out := [];
    var d := |digits|;
    while d > 0
      invariant 0 <= d <= |digits|
      invariant out == Reverse(digits)[..|digits| - d]
    {
      d := d - 1;
      out := out + [digits[d]];
    }
  }

  /** The digits of what follows the leading '1's, or none if a byte is outside the alphabet. */
  method DecodeDigits(rest: seq<byte>) returns (r: Option<seq<nat>>)
    ensures r == if NONE in DigitsOf(rest) then None
                 else Some(ToDigits(BigValue(DigitsOf(rest), 58), 256))
  {
    hide ToDigits, LowValue;
    var inverse := BuildMap();
    var digits: seq<nat> := [];
    var i := 0;
    ghost var read := DigitsOf(rest);
    EmptyNumeral(58, 256);
    assert read[..0] == [];
    while i < |rest|
      invariant 0 <= i <= |rest|
      invariant forall c :: 0 <= c < 256 ==> inverse[c] == DigitOf(c)
      invariant forall k :: 0 <= k < i ==> read[k] != NONE
      invariant digits == ToDigits(BigValue(read[..i], 58), 256)
    {
      var v := inverse[rest[i]];
      assert v == read[i];
      if v == NONE {
        return None;
      }
      ToDigitsValue(BigValue(read[..i], 58), 256);
      assert read[..i + 1][..i] == read[..i];
      digits := MultiplyAdd(digits, v, 58, 256);
      i := i + 1;
    }
    assert read[..i] == read;
    return Some(digits);
  }

  method Decode(s: seq<byte>) returns (r: Result<seq<byte>, Rejected>)
    ensures r == Decoded(s)
  {
    if s == [] {
      return Err(Rejected);
    }
    var zeros := CountLeading(s, ONE);
    var digits := DecodeDigits(s[zeros..]);
    if digits.None? {
      return Err(Rejected);
    }
    var tail := BytesReversed(digits.value);
    return Ok(Repeat(0, zeros) + tail);
  }

  // ----- the codec is a bijection -----

  lemma LeadingCountOfRepeat(v: byte, n: nat, rest: seq<byte>)
    requires rest != [] ==> rest[0] != v
    ensures LeadingCount(Repeat(v, n) + rest, v) == n
    ensures (Repeat(v, n) + rest)[n..] == rest
  {
    var s := Repeat(v, n) + rest;
    var c := LeadingCount(s, v);
    assert forall i :: 0 <= i < n ==> s[i] == v;
    assert n < |s| ==> s[n] == rest[0];
  }

  /** Writing a numeral in another base and back restores it. */
  lemma NumeralRoundTrip(ds: seq<nat>, base: nat, other: nat)
    requires base >= 2 && other >= 2 && Digits(ds, base) && (ds != [] ==> ds[0] != 0)
    ensures var there := ToBigDigits(BigValue(ds, base), other);
            && ToBigDigits(BigValue(there, other), base) == ds
            && (ds != [] <==> there != [])
  {
    ToBigDigitsValue(BigValue(ds, base), other);
    BigDigitsAreUnique(ds, base);
    NoDigits(base);
    NoDigits(other);
  }

  lemma NoDigits(base: nat)
    requires base >= 2
    ensures ToBigDigits(0, base) == [] && BigValue([], base) == 0
  {
  }

  /** Decoding what was encoded gives the bytes back, for every non-empty input: leading zeros,
      and the all-zero input, included. */
  lemma DecodeAfterEncode(input: seq<byte>)
    requires input != []
    ensures Encoded(input).Ok? && Decoded(Encoded(input).value) == Ok(input)
  {
    hide ToBigDigits;
    var zeros := LeadingCount(input, 0);
    var rest := input[zeros..];
    var ds := ToBigDigits(BigValue(rest, 256), 58);
    var symbols := Symbols(ds);
    NumeralRoundTrip(rest, 256, 58);
    LeadingCountOfRepeat(ONE, zeros, symbols);
    assert DigitsOf(symbols) == ds;
    assert input == Repeat(0, zeros) + rest;
    assert rest == [] ==> zeros == |input|;
  }

  /** Encoding what was decoded gives the string back, for every accepted string: leading '1's,
      and the all-'1' string, included. So no two strings decode to the same bytes. */
  lemma EncodeAfterDecode(s: seq<byte>)
    requires Decoded(s).Ok?
    ensures Encoded(Decoded(s).value) == Ok(s)
  {
    hide ToBigDigits;
    var zeros := LeadingCount(s, ONE);
    var rest := s[zeros..];
    var read := DigitsOf(rest);
    AcceptedDigits(rest);
    var bytes := AsBytes(ToBigDigits(BigValue(read, 58), 256));
    NumeralRoundTrip(read, 58, 256);
    LeadingCountOfRepeat(0, zeros, bytes);
    assert Symbols(read) == rest;
    assert s == Repeat(ONE, zeros) + rest;
    assert rest == [] ==> zeros == |s|;
  }

  lemma AcceptedDigits(rest: seq<byte>)
    requires NONE !in DigitsOf(rest)
    ensures Digits(DigitsOf(rest), 58)
    ensures rest != [] && rest[0] != ONE ==> DigitsOf(rest)[0] != 0
  {
    var read := DigitsOf(rest);
    forall i | 0 <= i < |read| ensures read[i] < 58 {
      assert read[i] in read;
    }
  }

  /** A string is refused exactly when it is empty or holds a byte outside the alphabet. */
  lemma DecodeRefuses(s: seq<byte>)
    ensures Decoded(s).Err? <==> s == [] || exists i :: 0 <= i < |s| && DigitOf(s[i]) == NONE
  {
    var zeros := LeadingCount(s, ONE);
    var read := DigitsOf(s[zeros..]);
    if i :| 0 <= i < |s| && DigitOf(s[i]) == NONE {
      assert i >= zeros;
      assert read[i - zeros] == NONE;
    }
    if NONE in read {
      var k :| 0 <= k < |read| && read[k] == NONE;
      assert DigitOf(s[zeros + k]) == NONE;
    }
  }

  lemma {:induction false} ZerosWeighNothing(n: nat, ds: seq<nat>, base: nat)
    ensures BigValue(seq(n, _ => 0) + ds, base) == BigValue(ds, base)
    decreases |ds|
  {
    var whole := seq(n, _ => 0) + ds;
    if ds == [] {
      OnlyZeros(n, base);
      assert whole == seq(n, _ => 0);
    } else {
      var k := |ds| - 1;
      ZerosWeighNothing(n, ds[..k], base);
      BigValueOfLast(whole, base);
      BigValueOfLast(ds, base);
      assert whole[..n + k] == seq(n, _ => 0) + ds[..k];
    }
  }

  lemma {:induction false} OnlyZeros(n: nat, base: nat)
    ensures BigValue(seq(n, _ => 0), base) == 0
    decreases n
  {
    var zeros := seq(n, _ => 0);
    if n == 0 {
      assert zeros == [];
    } else {
      OnlyZeros(n - 1, base);
      BigValueOfLast(zeros, base);
      assert zeros[..n - 1] == seq(n - 1, _ => 0);
    }
  }

  lemma BigValueOfLast(ds: seq<nat>, base: nat)
    requires ds != []
    ensures BigValue(ds, base) == BigValue(ds[..|ds| - 1], base) * base + ds[|ds| - 1]
  {
  }

  /** What a string spells: as many '1's in front as the bytes have zeros in front, and as a
      numeral in base 58 the number the bytes are in base 256, both most significant first. */
  lemma EncodedSpells(input: seq<byte>)
    requires input != []
    ensures var s := Encoded(input).value;
            && LeadingCount(s, ONE) == LeadingCount(input, 0)
            && NONE !in DigitsOf(s)
            && BigValue(DigitsOf(s), 58) == BigValue(input, 256)
  {
    hide BigValue, ToBigDigits;
    var zeros := LeadingCount(input, 0);
    var rest := input[zeros..];
    var ds := ToBigDigits(BigValue(rest, 256), 58);
    var s := Encoded(input).value;
    ToBigDigitsValue(BigValue(rest, 256), 58);
    LeadingCountOfRepeat(ONE, zeros, Symbols(ds));
    assert input == seq(zeros, _ => 0) + rest;
    ZerosWeighNothing(zeros, rest, 256);
    assert DigitsOf(s) == seq(zeros, _ => 0) + ds;
    ZerosWeighNothing(zeros, ds, 58);
  }
}
