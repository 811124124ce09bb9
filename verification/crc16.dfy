/** The CRC-16 of `backend/native.rs`: polynomial 0x1021, initial value zero, most significant
    bit first, driven by a table that is generated rather than written down. */
module Crc16 {

  // ----- bit-by-bit division, the meaning of the checksum -----

  /** One step of dividing by the polynomial: shift the top bit out and reduce if it was set. */
  function BitStep(crc: bv16): bv16 {
    if crc & 0x8000 != 0 then (crc << 1) ^ 0x1021 else crc << 1
  }

  function BitSteps(crc: bv16, n: nat): bv16
    decreases n
  {
    if n == 0 then crc else BitSteps(BitStep(crc), n - 1)
  }

  function Xor(x: bv16, y: bv16): bv16 { x ^ y }

  function Low(b: bv8): bv16 { b as bv16 }

  function High(b: bv8): bv16 { (b as bv16) << 8 }

  /** Eight division steps with one more input byte brought in at the top. */
  function ByteStep(crc: bv16, b: bv8): bv16 {
    BitSteps(Xor(crc, High(b)), 8)
  }

  /** The remainder of dividing `input` by the polynomial, starting from `crc`. */
  function Remainder(crc: bv16, input: seq<bv8>): bv16
    decreases |input|
  {
    if input == [] then crc else Remainder(ByteStep(crc, input[0]), input[1..])
  }

  // ----- the table and the table-driven loop -----

  method BuildTable() returns (table: array<bv16>)
    ensures fresh(table) && table.Length == 256
    ensures forall i :: 0 <= i < 256 ==> table[i] == BitSteps(High(i as bv8), 8)
  {
    hide BitStep, High;
    table := new bv16[256](_ => 0);
    var i := 0;
    while i < 256
      invariant 0 <= i <= 256
      invariant forall k :: 0 <= k < i ==> table[k] == BitSteps(High(k as bv8), 8)
    {
      var crc := High(i as bv8);
      var bit := 0;
      while bit < 8
        invariant 0 <= bit <= 8
        invariant BitSteps(crc, 8 - bit) == BitSteps(High(i as bv8), 8)
      {
        crc := BitStep(crc);
        bit := bit + 1;
      }
      table[i] := crc;
      i := i + 1;
    }
  }

  /** The table-driven loop computes the remainder of bit-by-bit division on every input. */
  method Checksum(input: seq<bv8>) returns (crc: bv16)
    ensures crc == Remainder(0, input)
  {
    hide ByteStep, BitStep, High, TableIndex, TableUpdate;
    var table := BuildTable();
    crc := 0;
    var i := 0;
    while i < |input|
      invariant 0 <= i <= |input|
      invariant forall k :: 0 <= k < 256 ==> table[k] == BitSteps(High(k as bv8), 8)
      invariant Remainder(crc, input[i..]) == Remainder(0, input)
    {
      var index := TableIndex(crc, input[i]);
      IndexRoundTrip(index);
      TableStep(crc, input[i]);
      assert input[i..][1..] == input[i + 1..];
      crc := TableUpdate(crc, table[index as int]);
      i := i + 1;
    }
  }

  function TableIndex(crc: bv16, b: bv8): bv8 { (crc >> 8) as bv8 ^ b }

  function TableUpdate(crc: bv16, entry: bv16): bv16 { (crc << 8) ^ entry }

  lemma IndexRoundTrip(x: bv8)
    ensures (x as int) as bv8 == x
  {
  }

  // ----- linearity, and what one byte does to the state -----

  lemma BitStepIsLinear(x: bv16, y: bv16)
    ensures BitStep(Xor(x, y)) == Xor(BitStep(x), BitStep(y))
  {
    LinearOverXor(x, y);
    hide BitStep;
    assert Xor(BitStep(x), BitStep(y)) == BitStep(x) ^ BitStep(y) && Xor(x, y) == x ^ y;
  }

  lemma LinearOverXor(x: bv16, y: bv16)
    ensures BitStep(x ^ y) == BitStep(x) ^ BitStep(y)
  {
    if x & 0x8000 != 0 {
      if y & 0x8000 != 0 {
        BothReduce(x, y);
      } else {
        FirstReduces(x, y);
      }
    } else if y & 0x8000 != 0 {
      SecondReduces(x, y);
    } else {
      NeitherReduces(x, y);
    }
  }

  lemma BothReduce(x: bv16, y: bv16)
    requires x & 0x8000 != 0 && y & 0x8000 != 0
    ensures BitStep(x ^ y) == BitStep(x) ^ BitStep(y)
  {
  }

  lemma FirstReduces(x: bv16, y: bv16)
    requires x & 0x8000 != 0 && y & 0x8000 == 0
    ensures BitStep(x ^ y) == BitStep(x) ^ BitStep(y)
  {
  }

  lemma SecondReduces(x: bv16, y: bv16)
    requires x & 0x8000 == 0 && y & 0x8000 != 0
    ensures BitStep(x ^ y) == BitStep(x) ^ BitStep(y)
  {
  }

  lemma NeitherReduces(x: bv16, y: bv16)
    requires x & 0x8000 == 0 && y & 0x8000 == 0
    ensures BitStep(x ^ y) == BitStep(x) ^ BitStep(y)
  {
  }

  lemma {:induction false} BitStepsAreLinear(x: bv16, y: bv16, n: nat)
    ensures BitSteps(Xor(x, y), n) == Xor(BitSteps(x, n), BitSteps(y, n))
    decreases n
  {
    hide BitStep, Xor;
    if n == 0 {
    } else {
      BitStepIsLinear(x, y);
      BitStepsAreLinear(BitStep(x), BitStep(y), n - 1);
    }
  }

  /** A byte in the low half is shifted up by eight steps and never reduced. */
  lemma LowByteOnlyMoves(b: bv8)
    ensures BitSteps(Low(b), 8) == High(b)
  {
    hide BitStep;
    var x := Low(b);
    assert BitSteps(x, 8) == BitSteps(BitStep(BitStep(x)), 6);
    LowByteMoves(b);
    assert BitSteps(x << 2, 6) == BitSteps(BitStep(BitStep(x << 2)), 4);
    assert BitSteps(x << 4, 4) == BitSteps(BitStep(BitStep(x << 4)), 2);
    assert BitSteps(x << 6, 2) == BitStep(BitStep(x << 6));
  }

  lemma LowByteMoves(b: bv8)
    ensures var x := Low(b);
            && BitStep(x) == x << 1 && BitStep(x << 1) == x << 2
            && BitStep(x << 2) == x << 3 && BitStep(x << 3) == x << 4
            && BitStep(x << 4) == x << 5 && BitStep(x << 5) == x << 6
            && BitStep(x << 6) == x << 7 && BitStep(x << 7) == x << 8
  {
  }

  /** The eight bits shifted out of `crc` are exactly the table index; the other eight only move. */
  lemma TableStep(crc: bv16, b: bv8)
    ensures TableUpdate(crc, BitSteps(High(TableIndex(crc, b)), 8)) == ByteStep(crc, b)
  {
    hide BitSteps;
    var index: bv8 := (crc >> 8) as bv8 ^ b;
    var low: bv8 := (crc & 0xFF) as bv8;
    HalvesOfTheState(crc, b);
    BitStepsAreLinear(High(index), Low(low), 8);
    LowByteOnlyMoves(low);
    XorCommutes(BitSteps(High(index), 8), High(low));
  }

  lemma HalvesOfTheState(crc: bv16, b: bv8)
    ensures Xor(crc, High(b)) == Xor(High((crc >> 8) as bv8 ^ b), Low((crc & 0xFF) as bv8))
    ensures High((crc & 0xFF) as bv8) == crc << 8
  {
  }

  lemma XorCommutes(x: bv16, y: bv16)
    ensures Xor(x, y) == Xor(y, x)
  {
  }

  lemma XorCancels(x: bv16, y: bv16)
    ensures Xor(Xor(x, y), y) == x
  {
  }

  lemma XorAssociates(x: bv16, y: bv16, z: bv16)
    ensures Xor(Xor(x, y), z) == Xor(x, Xor(y, z))
  {
  }

  // ----- every step is a bijection on the state -----

  function BitStepBack(crc: bv16): bv16 {
    if crc & 1 != 0 then ((crc ^ 0x1021) >> 1) | 0x8000 else crc >> 1
  }

  lemma BitStepIsABijection(crc: bv16)
    ensures BitStepBack(BitStep(crc)) == crc
    ensures BitStep(BitStepBack(crc)) == crc
  {
    if crc & 0x8000 != 0 {
      ReducedStepUndone(crc);
    } else {
      PlainStepUndone(crc);
    }
    BitStepAfterBack(crc);
  }

  lemma ReducedStepUndone(crc: bv16)
    requires crc & 0x8000 != 0
    ensures ((crc << 1) ^ 0x1021) & 1 != 0
    ensures ((((crc << 1) ^ 0x1021) ^ 0x1021) >> 1) | 0x8000 == crc
  {
  }

  lemma PlainStepUndone(crc: bv16)
    requires crc & 0x8000 == 0
    ensures (crc << 1) & 1 == 0 && (crc << 1) >> 1 == crc
  {
  }

  lemma BitStepAfterBack(crc: bv16)
    ensures BitStep(BitStepBack(crc)) == crc
  {
  }

  function BitStepsBack(crc: bv16, n: nat): bv16
    decreases n
  {
    if n == 0 then crc else BitStepBack(BitStepsBack(crc, n - 1))
  }

  lemma {:induction false} BitStepsAreABijection(crc: bv16, n: nat)
    ensures BitStepsBack(BitSteps(crc, n), n) == crc
    ensures BitSteps(BitStepsBack(crc, n), n) == crc
    decreases n
  {
    hide BitStep, BitStepBack;
    if n == 0 {
    } else {
      BitStepIsABijection(crc);
      BitStepsAreABijection(BitStep(crc), n - 1);
      BitStepIsABijection(BitStepsBack(crc, n - 1));
      BitStepsAreABijection(crc, n - 1);
    }
  }

  /** For a fixed byte, the step taken by the loop maps the 65536 states one to one onto
      themselves: every target state has exactly one source. */
  lemma ByteStepIsABijection(b: bv8, target: bv16) returns (source: bv16)
    ensures ByteStep(source, b) == target
    ensures forall other :: ByteStep(other, b) == target ==> other == source
  {
    hide BitSteps, BitStepsBack, Xor, High;
    source := Xor(BitStepsBack(target, 8), High(b));
    XorCancels(BitStepsBack(target, 8), High(b));
    BitStepsAreABijection(target, 8);
    forall other | ByteStep(other, b) == target
      ensures other == source
    {
      BitStepsAreABijection(Xor(other, High(b)), 8);
      XorCancels(other, High(b));
    }
  }

  lemma {:induction false} RemainderIsInjectiveInTheState(a: bv16, b: bv16, input: seq<bv8>)
    requires Remainder(a, input) == Remainder(b, input)
    ensures a == b
    decreases |input|
  {
    hide ByteStep;
    if input == [] {
    } else {
      RemainderIsInjectiveInTheState(ByteStep(a, input[0]), ByteStep(b, input[0]), input[1..]);
      var source := ByteStepIsABijection(input[0], ByteStep(b, input[0]));
    }
  }

  lemma {:induction false} BitStepsCompose(crc: bv16, m: nat, n: nat)
    ensures BitSteps(BitSteps(crc, m), n) == BitSteps(crc, m + n)
    decreases m
  {
    hide BitStep;
    if m == 0 {
    } else {
      BitStepsCompose(BitStep(crc), m - 1, n);
    }
  }

  function Word(a: bv8, b: bv8): bv16 { Xor(High(a), Low(b)) }

  /** Two bytes brought in one after the other are one sixteen-bit word brought in at once. */
  lemma TwoBytes(crc: bv16, a: bv8, b: bv8)
    ensures ByteStep(ByteStep(crc, a), b) == BitSteps(Xor(crc, Word(a, b)), 16)
  {
    hide BitSteps, Xor, High, Low;
    var x := Xor(crc, High(a));
    BitStepsAreLinear(x, Low(b), 8);
    LowByteOnlyMoves(b);
    BitStepsCompose(Xor(x, Low(b)), 8, 8);
    XorAssociates(crc, High(a), Low(b));
  }

  // ----- known values -----

  /** The polynomial itself is the remainder of the one byte 1. */
  lemma RemainderOfOne()
    ensures Remainder(0, [1]) == 0x1021
  {
    assert Xor(0, High(1)) == 0x0100;
    assert BitSteps(0x0100, 8) == BitSteps(0x0200, 7) == BitSteps(0x0400, 6) == BitSteps(0x0800, 5);
    assert BitSteps(0x0800, 5) == BitSteps(0x1000, 4) == BitSteps(0x2000, 3) == BitSteps(0x4000, 2);
    assert BitSteps(0x4000, 2) == BitSteps(0x8000, 1) == BitSteps(0x1021, 0);
    assert Remainder(0, [1]) == Remainder(ByteStep(0, 1), []);
  }

  // ----- burst detection -----

  /** The bits of a byte, most significant first: the order the division takes them in. */
  function ByteBits(b: bv8): (bits: seq<bool>)
    ensures |bits| == 8
  {
    [b & 0x80 != 0, b & 0x40 != 0, b & 0x20 != 0, b & 0x10 != 0,
     b & 0x08 != 0, b & 0x04 != 0, b & 0x02 != 0, b & 0x01 != 0]
  }

  function InputBits(input: seq<bv8>): (bits: seq<bool>)
    ensures |bits| == 8 * |input|
    decreases |input|
  {
    if input == [] then [] else ByteBits(input[0]) + InputBits(input[1..])
  }

  function TopBit(bit: bool): bv16 { if bit then 0x8000 else 0 }

  /** Bit-serial division: each bit is brought in at the top, and one step is taken. */
  function Divided(crc: bv16, bits: seq<bool>): bv16
    decreases |bits|
  {
    if bits == [] then crc else Divided(BitStep(Xor(crc, TopBit(bits[0]))), bits[1..])
  }

  /** Up to sixteen bits as one word, the first of them on top. */
  function Packed(bits: seq<bool>): bv16
    decreases |bits|
  {
    if bits == [] then 0 else Beneath(bits[0], Packed(bits[1..]))
  }

  function Half(x: bv16): bv16 { x >> 1 }

  predicate Even(x: bv16) { x & 1 == 0 }

  function Beneath(bit: bool, rest: bv16): bv16 { Xor(TopBit(bit), Half(rest)) }

  /** The places of a word that `n` packed bits leave empty. */
  function Unused(n: nat): bv16
    decreases n
  {
    if n == 0 then 0xFFFF else Unused(n - 1) >> 1
  }

  lemma {:induction false} PackedLeavesUnused(bits: seq<bool>)
    ensures Packed(bits) & Unused(|bits|) == 0
    decreases |bits|
  {
    if bits == [] {
    } else {
      PackedLeavesUnused(bits[1..]);
      ShiftedApart(bits[0], Packed(bits[1..]), Unused(|bits| - 1));
    }
  }

  lemma ShiftedApart(bit: bool, rest: bv16, unused: bv16)
    requires rest & unused == 0
    ensures Beneath(bit, rest) & (unused >> 1) == 0
  {
    ShiftsTogether(rest, unused);
    if bit {
      TopIsUnused(rest >> 1, unused);
    } else {
      NothingOnTop(rest >> 1);
    }
    assert TopBit(true) == 0x8000 && TopBit(false) == 0;
  }

  lemma ShiftsTogether(x: bv16, y: bv16)
    ensures (x >> 1) & (y >> 1) == (x & y) >> 1
  {
  }

  lemma TopIsUnused(x: bv16, y: bv16)
    ensures (0x8000 ^ x) & (y >> 1) == x & (y >> 1)
  {
  }

  lemma NothingOnTop(x: bv16)
    ensures 0 ^ x == x
  {
  }

  lemma LastPlaceIsUnused(n: nat)
    requires n < 16
    ensures Unused(n) & 1 == 1
  {
    assert Unused(1) == 0x7FFF;
    assert Unused(2) == 0x3FFF;
    assert Unused(3) == 0x1FFF;
    assert Unused(4) == 0x0FFF;
    assert Unused(5) == 0x07FF;
    assert Unused(6) == 0x03FF;
    assert Unused(7) == 0x01FF;
    assert Unused(8) == 0x00FF;
    assert Unused(9) == 0x007F;
    assert Unused(10) == 0x003F;
    assert Unused(11) == 0x001F;
    assert Unused(12) == 0x000F;
    assert Unused(13) == 0x0007;
    assert Unused(14) == 0x0003;
    assert Unused(15) == 0x0001;
  }

  /** Fewer than sixteen packed bits leave the last place of the word empty. */
  lemma PackedIsEven(bits: seq<bool>)
    requires |bits| < 16
    ensures Even(Packed(bits))
  {
    PackedLeavesUnused(bits);
    LastPlaceIsUnused(|bits|);
    EvenOutside(Packed(bits), Unused(|bits|));
  }

  lemma EvenOutside(word: bv16, unused: bv16)
    requires word & unused == 0 && unused & 1 == 1
    ensures Even(word)
  {
  }

  lemma BeneathUndone(a: bool, x: bv16, b: bool, y: bv16)
    requires Even(x) && Even(y) && Beneath(a, x) == Beneath(b, y)
    ensures a == b && x == y
  {
    hide Xor, Half, Even;
    TopTells(x, y);
    TopTells(y, x);
    XorCommutes(TopBit(a), Half(x));
    XorCommutes(TopBit(a), Half(y));
    XorCancels(Half(x), TopBit(a));
    XorCancels(Half(y), TopBit(a));
    HalfTells(x, y);
  }

  lemma TopTells(x: bv16, y: bv16)
    ensures Xor(0x8000, Half(x)) != Xor(0, Half(y))
  {
  }

  lemma HalfTells(x: bv16, y: bv16)
    requires Even(x) && Even(y)
    ensures Half(x) == Half(y) ==> x == y
  {
  }

  lemma {:induction false} PackedIsInjective(p: seq<bool>, q: seq<bool>)
    requires |p| == |q| <= 16 && Packed(p) == Packed(q)
    ensures p == q
    decreases |p|
  {
    if p == [] {
    } else {
      hide Beneath, Even;
      PackedIsEven(p[1..]);
      PackedIsEven(q[1..]);
      BeneathUndone(p[0], Packed(p[1..]), q[0], Packed(q[1..]));
      PackedIsInjective(p[1..], q[1..]);
      assert p == [p[0]] + p[1..] && q == [q[0]] + q[1..];
    }
  }

  lemma HalfSteps(x: bv16)
    requires Even(x)
    ensures BitStep(Half(x)) == x
  {
    EvenShiftsBack(x);
  }

  lemma EvenShiftsBack(x: bv16)
    requires Even(x)
    ensures (x >> 1) << 1 == x && (x >> 1) & 0x8000 == 0
  {
  }

  /** Up to sixteen bits brought in one by one are one word brought in at once. */
  lemma {:induction false} BitsAreOneWord(crc: bv16, bits: seq<bool>)
    requires |bits| <= 16
    ensures Divided(crc, bits) == BitSteps(Xor(crc, Packed(bits)), |bits|)
    decreases |bits|
  {
    hide BitStep, Xor, Half, TopBit, Even;
    if bits == [] {
      NothingIn(crc);
    } else {
      var top, rest := TopBit(bits[0]), Packed(bits[1..]);
      PackedIsEven(bits[1..]);
      HalfSteps(rest);
      XorAssociates(crc, top, Half(rest));
      BitStepIsLinear(Xor(crc, top), Half(rest));
      BitsAreOneWord(BitStep(Xor(crc, top)), bits[1..]);
    }
  }

  lemma NothingIn(crc: bv16)
    ensures Xor(crc, 0) == crc
  {
  }

  lemma PackedFour(b0: bool, b1: bool, b2: bool, b3: bool, rest: seq<bool>)
    ensures Packed([b0, b1, b2, b3] + rest) == Beneath(b0, Beneath(b1, Beneath(b2, Beneath(b3, Packed(rest)))))
  {
    hide Beneath;
    var bits := [b0, b1, b2, b3] + rest;
    assert bits[1..] == [b1, b2, b3] + rest && bits[1..][1..] == [b2, b3] + rest;
    assert ([b2, b3] + rest)[1..] == [b3] + rest && ([b3] + rest)[1..] == rest;
    assert Packed(bits) == Beneath(b0, Packed([b1, b2, b3] + rest));
    assert Packed([b1, b2, b3] + rest) == Beneath(b1, Packed([b2, b3] + rest));
    assert Packed([b2, b3] + rest) == Beneath(b2, Packed([b3] + rest));
  }

  lemma PackedEight(b7: bool, b6: bool, b5: bool, b4: bool, b3: bool, b2: bool, b1: bool, b0: bool)
    ensures Packed([b7, b6, b5, b4, b3, b2, b1, b0])
         == Beneath(b7, Beneath(b6, Beneath(b5, Beneath(b4, Beneath(b3, Beneath(b2, Beneath(b1, Beneath(b0, 0))))))))
  {
    hide Beneath;
    assert Packed([]) == 0;
    PackedFour(b7, b6, b5, b4, [b3, b2, b1, b0]);
    PackedFour(b3, b2, b1, b0, []);
    assert [b7, b6, b5, b4] + [b3, b2, b1, b0] == [b7, b6, b5, b4, b3, b2, b1, b0];
    assert [b3, b2, b1, b0] + [] == [b3, b2, b1, b0];
  }

  lemma PackedByte(b: bv8)
    ensures Packed(ByteBits(b)) == High(b)
  {
    hide High, Beneath, Packed;
    PackedEight(b & 0x80 != 0, b & 0x40 != 0, b & 0x20 != 0, b & 0x10 != 0,
                b & 0x08 != 0, b & 0x04 != 0, b & 0x02 != 0, b & 0x01 != 0);
    BitsUnderHigh(b);
  }

  lemma BitsUnderHigh(b: bv8)
    ensures Beneath(b & 0x80 != 0, Beneath(b & 0x40 != 0, Beneath(b & 0x20 != 0, Beneath(b & 0x10 != 0,
              Beneath(b & 0x08 != 0, Beneath(b & 0x04 != 0, Beneath(b & 0x02 != 0, Beneath(b & 0x01 != 0, 0))))))))
         == High(b)
  {
  }

  lemma {:induction false} DividedInParts(crc: bv16, p: seq<bool>, q: seq<bool>)
    ensures Divided(crc, p + q) == Divided(Divided(crc, p), q)
    decreases |p|
  {
    hide BitStep, Xor, TopBit;
    if p == [] {
      assert p + q == q;
    } else {
      assert (p + q)[1..] == p[1..] + q;
      DividedInParts(BitStep(Xor(crc, TopBit(p[0]))), p[1..], q);
    }
  }

  /** The checksum by bytes is the division of the input's bits, one by one. */
  lemma {:induction false} RemainderIsBitSerial(crc: bv16, input: seq<bv8>)
    ensures Remainder(crc, input) == Divided(crc, InputBits(input))
    decreases |input|
  {
    hide BitSteps, Xor, High, ByteBits;
    if input == [] {
    } else {
      BitsAreOneWord(crc, ByteBits(input[0]));
      PackedByte(input[0]);
      RemainderIsBitSerial(ByteStep(crc, input[0]), input[1..]);
      DividedInParts(crc, ByteBits(input[0]), InputBits(input[1..]));
    }
  }

  lemma {:induction false} DividedIsInjectiveInTheState(a: bv16, b: bv16, bits: seq<bool>)
    requires Divided(a, bits) == Divided(b, bits)
    ensures a == b
    decreases |bits|
  {
    hide BitStep, Xor, TopBit, BitStepBack;
    if bits == [] {
    } else {
      var top := TopBit(bits[0]);
      DividedIsInjectiveInTheState(BitStep(Xor(a, top)), BitStep(Xor(b, top)), bits[1..]);
      BitStepIsABijection(Xor(a, top));
      BitStepIsABijection(Xor(b, top));
      XorCancels(a, top);
      XorCancels(b, top);
    }
  }

  /** Two different runs of up to sixteen bits, from one state, end in different states. */
  lemma ShortBurstSeparates(crc: bv16, p: seq<bool>, q: seq<bool>)
    requires |p| == |q| <= 16 && p != q
    ensures Divided(crc, p) != Divided(crc, q)
  {
    hide Divided, BitSteps, BitStepsBack, Packed, Xor;
    BitsAreOneWord(crc, p);
    BitsAreOneWord(crc, q);
    if Divided(crc, p) == Divided(crc, q) {
      BitStepsAreABijection(Xor(crc, Packed(p)), |p|);
      BitStepsAreABijection(Xor(crc, Packed(q)), |p|);
      XorCommutes(crc, Packed(p));
      XorCommutes(crc, Packed(q));
      XorCancels(Packed(p), crc);
      XorCancels(Packed(q), crc);
      PackedIsInjective(p, q);
    }
  }

  lemma ByteBitsAreInjective(a: bv8, b: bv8)
    requires ByteBits(a) == ByteBits(b)
    ensures a == b
  {
    var p, q := ByteBits(a), ByteBits(b);
    assert p[0] == q[0] && p[1] == q[1] && p[2] == q[2] && p[3] == q[3];
    assert p[4] == q[4] && p[5] == q[5] && p[6] == q[6] && p[7] == q[7];
  }

  lemma {:induction false} InputBitsAreInjective(x: seq<bv8>, y: seq<bv8>)
    requires |x| == |y| && InputBits(x) == InputBits(y)
    ensures x == y
    decreases |x|
  {
    hide ByteBits;
    if x == [] {
    } else {
      assert InputBits(x)[..8] == ByteBits(x[0]) && InputBits(x)[8..] == InputBits(x[1..]);
      assert InputBits(y)[..8] == ByteBits(y[0]) && InputBits(y)[8..] == InputBits(y[1..]);
      ByteBitsAreInjective(x[0], y[0]);
      InputBitsAreInjective(x[1..], y[1..]);
      assert x == [x[0]] + x[1..] && y == [y[0]] + y[1..];
    }
  }

  /** The two inputs agree in every bit outside sixteen consecutive ones. */
  ghost predicate DifferWithin16(x: seq<bv8>, y: seq<bv8>, first: nat)
    requires |x| == |y|
  {
    forall i :: 0 <= i < 8 * |x| && !(first <= i < first + 16) ==> InputBits(x)[i] == InputBits(y)[i]
  }

  /** Any change confined to sixteen consecutive bits, wherever they start and however many bytes
      they straddle, changes the checksum. */
  lemma BurstsAreDetected(x: seq<bv8>, y: seq<bv8>, first: nat)
    requires |x| == |y| && x != y && DifferWithin16(x, y, first)
    ensures Remainder(0, x) != Remainder(0, y)
  {
    hide InputBits, Divided, Remainder;
    var p, q := InputBits(x), InputBits(y);
    RemainderIsBitSerial(0, x);
    RemainderIsBitSerial(0, y);
    if p == q {
      InputBitsAreInjective(x, y);
    } else {
      var before, there, here, after := SplitAround(p, q, first);
      BurstInside(before, there, here, after);
    }
  }

  lemma SplitAround(p: seq<bool>, q: seq<bool>, first: nat)
    returns (before: seq<bool>, there: seq<bool>, here: seq<bool>, after: seq<bool>)
    requires |p| == |q| && p != q
    requires forall i :: 0 <= i < |p| && !(first <= i < first + 16) ==> p[i] == q[i]
    ensures p == before + there + after && q == before + here + after
    ensures |there| == |here| <= 16 && there != here
  {
    var last := if first + 16 <= |p| then first + 16 else |p|;
    var i :| 0 <= i < |p| && p[i] != q[i];
    assert first <= i < last;
    before, there, here, after := p[..first], p[first..last], q[first..last], p[last..];
    assert there[i - first] == p[i] && here[i - first] == q[i];
    assert q[..first] == before;
    SameFrom(p, q, last);
    InThree(p, first, last);
    InThree(q, first, last);
  }

  lemma SameFrom(p: seq<bool>, q: seq<bool>, last: nat)
    requires |p| == |q| && last <= |p|
    requires forall i :: last <= i < |p| ==> p[i] == q[i]
    ensures p[last..] == q[last..]
  {
  }

  lemma InThree(p: seq<bool>, first: nat, last: nat)
    requires first <= last <= |p|
    ensures p == p[..first] + p[first..last] + p[last..]
  {
  }

  lemma BurstInside(before: seq<bool>, p: seq<bool>, q: seq<bool>, after: seq<bool>)
    requires |p| == |q| <= 16 && p != q
    ensures Divided(0, before + p + after) != Divided(0, before + q + after)
  {
    hide Divided;
    var s := Divided(0, before);
    DividedInParts(0, before + p, after);
    DividedInParts(0, before, p);
    DividedInParts(0, before + q, after);
    DividedInParts(0, before, q);
    ShortBurstSeparates(s, p, q);
    if Divided(0, before + p + after) == Divided(0, before + q + after) {
      DividedIsInjectiveInTheState(Divided(s, p), Divided(s, q), after);
    }
  }

  /** In particular any change confined to two adjacent bytes. */
  lemma AdjacentBytesAlwaysDetected(before: seq<bv8>, a: bv8, b: bv8, c: bv8, d: bv8, after: seq<bv8>)
    requires a != c || b != d
    ensures Remainder(0, before + [a, b] + after) != Remainder(0, before + [c, d] + after)
  {
    hide InputBits, Remainder;
    var x, y := before + [a, b] + after, before + [c, d] + after;
    assert x[|before|] == a && x[|before| + 1] == b && y[|before|] == c && y[|before| + 1] == d;
    InputBitsInParts(before, [a, b], after);
    InputBitsInParts(before, [c, d], after);
    BurstsAreDetected(x, y, 8 * |before|);
  }

  lemma InputBitsInParts(before: seq<bv8>, middle: seq<bv8>, after: seq<bv8>)
    ensures InputBits(before + middle + after) == InputBits(before) + InputBits(middle) + InputBits(after)
  {
    InputBitsOfConcatenation(before + middle, after);
    InputBitsOfConcatenation(before, middle);
  }

  lemma {:induction false} InputBitsOfConcatenation(x: seq<bv8>, y: seq<bv8>)
    ensures InputBits(x + y) == InputBits(x) + InputBits(y)
    decreases |x|
  {
    hide ByteBits;
    if x == [] {
      assert x + y == y;
    } else {
      assert (x + y)[1..] == x[1..] + y;
      InputBitsOfConcatenation(x[1..], y);
    }
  }
}
