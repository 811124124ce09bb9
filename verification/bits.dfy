/** A byte as the eight bits the CRC is computed in. */
module Bits {
  import opened Base

  function Bit(on: bool, mask: bv8): bv8 { if on then mask else 0 }

  function Below(a: nat, weight: nat): nat { if a >= weight then a - weight else a }

  function BitsOfByte(a: byte): bv8 {
    var a6 := Below(a, 128);
    var a5 := Below(a6, 64);
    var a4 := Below(a5, 32);
    var a3 := Below(a4, 16);
    var a2 := Below(a3, 8);
    var a1 := Below(a2, 4);
    var a0 := Below(a1, 2);
    Bit(a >= 128, 0x80) | Bit(a6 >= 64, 0x40) | Bit(a5 >= 32, 0x20) | Bit(a4 >= 16, 0x10)
    | Bit(a3 >= 8, 0x08) | Bit(a2 >= 4, 0x04) | Bit(a1 >= 2, 0x02) | Bit(a0 >= 1, 0x01)
  }

  lemma BitsRecovered(b7: bool, b6: bool, b5: bool, b4: bool, b3: bool, b2: bool, b1: bool, b0: bool)
    ensures var x := Bit(b7, 0x80) | Bit(b6, 0x40) | Bit(b5, 0x20) | Bit(b4, 0x10)
                     | Bit(b3, 0x08) | Bit(b2, 0x04) | Bit(b1, 0x02) | Bit(b0, 0x01);
            && (b7 <==> x & 0x80 != 0) && (b6 <==> x & 0x40 != 0)
            && (b5 <==> x & 0x20 != 0) && (b4 <==> x & 0x10 != 0)
            && (b3 <==> x & 0x08 != 0) && (b2 <==> x & 0x04 != 0)
            && (b1 <==> x & 0x02 != 0) && (b0 <==> x & 0x01 != 0)
  {
  }

  /** Different bytes have different bits. */
  lemma BytesDistinct(a: byte, b: byte)
    requires a != b
    ensures BitsOfByte(a) != BitsOfByte(b)
  {
    BitsOfByteRecovered(a);
    BitsOfByteRecovered(b);
    hide BitsOfByte;
  }

  function Part(on: bool, weight: nat): nat { if on then weight else 0 }

  function Weight(b7: bool, b6: bool, b5: bool, b4: bool, b3: bool, b2: bool, b1: bool, b0: bool): int {
    Part(b7, 128) + Part(b6, 64) + Part(b5, 32) + Part(b4, 16) + Part(b3, 8) + Part(b2, 4) + Part(b1, 2) + Part(b0, 1)
  }

  function Read(x: bv8): int {
    Weight(x & 0x80 != 0, x & 0x40 != 0, x & 0x20 != 0, x & 0x10 != 0,
           x & 0x08 != 0, x & 0x04 != 0, x & 0x02 != 0, x & 0x01 != 0)
  }

  lemma BitsOfByteRecovered(a: byte)
    ensures Read(BitsOfByte(a)) == a
  {
    hide Bit, Weight, Below;
    var a6 := Below(a, 128);
    var a5 := Below(a6, 64);
    var a4 := Below(a5, 32);
    var a3 := Below(a4, 16);
    var a2 := Below(a3, 8);
    var a1 := Below(a2, 4);
    var a0 := Below(a1, 2);
    BitsRecovered(a >= 128, a6 >= 64, a5 >= 32, a4 >= 16, a3 >= 8, a2 >= 4, a1 >= 2, a0 >= 1);
    WeightOfParts(a);
  }

  lemma WeightOfParts(a: byte)
    ensures var a6 := Below(a, 128);
            var a5 := Below(a6, 64);
            var a4 := Below(a5, 32);
            var a3 := Below(a4, 16);
            var a2 := Below(a3, 8);
            var a1 := Below(a2, 4);
            var a0 := Below(a1, 2);
            Weight(a >= 128, a6 >= 64, a5 >= 32, a4 >= 16, a3 >= 8, a2 >= 4, a1 >= 2, a0 >= 1) == a
  {
    hide Below, Part;
    var a6 := Below(a, 128);
    var a5 := Below(a6, 64);
    var a4 := Below(a5, 32);
    var a3 := Below(a4, 16);
    var a2 := Below(a3, 8);
    var a1 := Below(a2, 4);
    PartOf(a, 128);
    PartOf(a6, 64);
    PartOf(a5, 32);
    PartOf(a4, 16);
    PartOf(a3, 8);
    PartOf(a2, 4);
    PartOf(a1, 2);
    PartOf(Below(a1, 2), 1);
  }

  lemma PartOf(a: nat, weight: nat)
    requires a < 2 * weight
    ensures a == Part(a >= weight, weight) + Below(a, weight) && Below(a, weight) < weight
  {
  }

  lemma StateBits(x: bv16)
    ensures (x as int) as bv16 == x
  {
  }
}
