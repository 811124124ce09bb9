/** Destination strings (`addr.rs`, `base58.rs`): a 20-byte tag and its CRC-16, in Base58. */
module TagCodec {
  import opened Base
  import opened Base58
  import opened Base58Lengths
  import Bits
  import Crc16

  const TAG_LEN := 20
  const MIN_CHARS := 22
  const MAX_CHARS := 31

  type Tag = t: seq<byte> | |t| == TAG_LEN witness seq(TAG_LEN, _ => 0)

  datatype NotATag =
    | Length(chars: nat)
    | NotBase58(cause: Rejected)
    | PayloadLen(got: nat)
    | Checksum(found: u16, computed: u16)

  // ----- text and its bytes -----

  function Utf8Char(c: char): (bytes: seq<byte>)
    ensures |bytes| >= 1
    ensures c as int < 128 ==> bytes == [c as int]
    ensures c as int >= 128 ==> bytes[0] >= 128
  {
    var n := c as int;
    if n < 0x80 then [n]
    else if n < 0x800 then [0xC0 + n / 64, 0x80 + n % 64]
    else if n < 0x1_0000 then [0xE0 + n / 4096, 0x80 + n / 64 % 64, 0x80 + n % 64]
    else [0xF0 + n / 0x4_0000, 0x80 + n / 4096 % 64, 0x80 + n / 64 % 64, 0x80 + n % 64]
  }

  function Utf8(text: string): seq<byte>
    decreases |text|
  {
    if text == [] then [] else Utf8Char(text[0]) + Utf8(text[1..])
  }

  function Ascii(bytes: seq<byte>): (text: string)
    ensures |text| == |bytes|
    ensures forall i :: 0 <= i < |bytes| ==> text[i] as int == bytes[i]
  {
    seq(|bytes|, i requires 0 <= i < |bytes| => bytes[i] as char)
  }

  ghost predicate Plain(bytes: seq<byte>) {
    forall i :: 0 <= i < |bytes| ==> bytes[i] < 128
  }

  lemma PlainParts(a: seq<byte>, b: seq<byte>)
    requires Plain(a + b)
    ensures Plain(a) && Plain(b)
  {
    assert forall i :: 0 <= i < |a| ==> a[i] == (a + b)[i];
    assert forall i :: 0 <= i < |b| ==> b[i] == (a + b)[|a| + i];
  }

  lemma AsciiCons(c: char, rest: seq<byte>)
    requires c as int < 128
    ensures Ascii([c as int] + rest) == [c] + Ascii(rest)
  {
  }

  lemma {:induction false} Utf8OfAscii(bytes: seq<byte>)
    requires Plain(bytes)
    ensures Utf8(Ascii(bytes)) == bytes
    decreases |bytes|
  {
    if bytes == [] {
    } else {
      Utf8OfAscii(bytes[1..]);
      assert Ascii(bytes)[1..] == Ascii(bytes[1..]);
      assert bytes == [bytes[0]] + bytes[1..];
    }
  }

  /** Text whose bytes are all plain ASCII is those bytes, character by character. */
  lemma {:induction false} AsciiOfUtf8(text: string)
    requires Plain(Utf8(text))
    ensures Ascii(Utf8(text)) == text
    decreases |text|
  {
    if text == [] {
    } else {
      var head, rest := Utf8Char(text[0]), Utf8(text[1..]);
      hide Utf8Char, Plain, Ascii;
      PlainParts(head, rest);
      AsciiOfUtf8(text[1..]);
      PlainHead(text[0]);
      AsciiCons(text[0], rest);
      assert text == [text[0]] + text[1..];
    }
  }

  lemma PlainHead(c: char)
    requires Plain(Utf8Char(c))
    ensures c as int < 128 && Utf8Char(c) == [c as int]
  {
    assert Utf8Char(c)[0] < 128;
  }

  // ----- base58.rs: two arms, one codec -----

  /** The all-'1' strings take one arm and everything else the other. Both arms are the codec. */
  method DecodeText(text: string) returns (r: Result<seq<byte>, Rejected>)
    ensures r == Decoded(Utf8(text))
    ensures text != [] && (forall c :: c in text ==> c == '1') ==> r == Ok(Repeat(0, |text|))
  {
    if text != [] && forall c :: c in text ==> c == '1' {
      AllOnesText(text);
      r := Decode(Utf8(text));
    } else {
      r := Decode(Utf8(text));
    }
  }

  /** The reference faults on this class; here its value is one zero byte per character. */
  lemma AllOnesText(text: string)
    requires text != [] && forall c :: c in text ==> c == '1'
    ensures Decoded(Utf8(text)) == Ok(Repeat(0, |text|))
  {
    var ones := Repeat(ONE, |text|);
    forall i | 0 <= i < |text| ensures text[i] == '1' {
      assert text[i] in text;
    }
    assert Ascii(ones) == text;
    Utf8OfAscii(ones);
    LeadingCountOfRepeat(ONE, |text|, []);
    assert ones + [] == ones;
    NoDigits(58);
    NoDigits(256);
    assert DigitsOf([]) == [];
    assert Repeat(0, |text|) + [] == Repeat(0, |text|);
  }

  // ----- the checksum and the payload -----

  function BitsOf(bytes: seq<byte>): (bits: seq<bv8>)
    ensures |bits| == |bytes|
    ensures forall i :: 0 <= i < |bytes| ==> bits[i] == Bits.BitsOfByte(bytes[i])
  {
    seq(|bytes|, i requires 0 <= i < |bytes| => Bits.BitsOfByte(bytes[i]))
  }

  function ChecksumOf(tag: seq<byte>): u16 {
    Crc16.Remainder(0, BitsOf(tag)) as int
  }

  function Put16(v: u16): (bytes: seq<byte>)
    ensures |bytes| == 2
  {
    [v % 256, v / 256]
  }

  function Get16(bytes: seq<byte>): u16
    requires |bytes| == 2
  {
    bytes[0] as int + 256 * (bytes[1] as int)
  }

  lemma PutAndGetAreInverse(v: u16, bytes: seq<byte>)
    requires |bytes| == 2
    ensures Get16(Put16(v)) == v
    ensures Put16(Get16(bytes)) == bytes
  {
  }

  function Payload(tag: Tag): (p: seq<byte>)
    ensures |p| == TAG_LEN + 2
  {
    tag + Put16(ChecksumOf(tag))
  }

  // ----- printing and parsing -----

  function Printed(tag: Tag): string {
    Ascii(Encoded(Payload(tag)).value)
  }

  function Parsed(text: string): Result<Tag, NotATag> {
    if !(MIN_CHARS <= |text| <= MAX_CHARS) then Err(Length(|text|))
    else match Decoded(Utf8(text))
      case Err(e) => Err(NotBase58(e))
      case Ok(raw) =>
        if |raw| != TAG_LEN + 2 then Err(PayloadLen(|raw|))
        else
          var found, computed := Get16(raw[TAG_LEN..]), ChecksumOf(raw[..TAG_LEN]);
          if found != computed then Err(Checksum(found, computed)) else Ok(raw[..TAG_LEN])
  }

  method TagToBase58(tag: Tag) returns (text: string)
    ensures text == Printed(tag)
  {
    var payload := new byte[TAG_LEN + 2](_ => 0);
    forall i | 0 <= i < TAG_LEN {
      payload[i] := tag[i];
    }
    assert payload[..TAG_LEN] == tag;
    var crc := Crc16.Checksum(BitsOf(tag));
    var checksum := Put16(crc as int);
    payload[TAG_LEN], payload[TAG_LEN + 1] := checksum[0], checksum[1];
    assert payload[..] == Payload(tag);
    var encoded := Encode(payload[..]);
    text := Ascii(encoded.value);
  }

  method TagFromBase58(text: string) returns (r: Result<Tag, NotATag>)
    ensures r == Parsed(text)
  {
    var chars := |text|;
    if !(MIN_CHARS <= chars <= MAX_CHARS) {
      return Err(Length(chars));
    }
    var raw := DecodeText(text);
    if raw.Err? {
      return Err(NotBase58(raw.error));
    }
    if |raw.value| != TAG_LEN + 2 {
      return Err(PayloadLen(|raw.value|));
    }
    var body, checksum := raw.value[..TAG_LEN], raw.value[TAG_LEN..];
    var found := Get16(checksum);
    var crc := Crc16.Checksum(BitsOf(body));
    var computed: u16 := crc as int;
    if found != computed {
      return Err(Checksum(found, computed));
    }
    return Ok(body);
  }

  lemma SymbolsAreAscii(bytes: seq<byte>)
    requires bytes != []
    ensures forall i :: 0 <= i < |Encoded(bytes).value| ==> Encoded(bytes).value[i] < 128
  {
  }

  /** What is printed for a payload parses back to that payload, and is never refused for its
      length or its characters. */
  lemma ParsedPayload(payload: seq<byte>)
    requires |payload| == TAG_LEN + 2
    ensures var found, computed := Get16(payload[TAG_LEN..]), ChecksumOf(payload[..TAG_LEN]);
            Parsed(Ascii(Encoded(payload).value))
            == if found == computed then Ok(payload[..TAG_LEN]) else Err(Checksum(found, computed))
  {
    hide Encoded, Decoded;
    DecodeAfterEncode(payload);
    SymbolsAreAscii(payload);
    Utf8OfAscii(Encoded(payload).value);
    PayloadLength(payload);
  }

  /** What is printed: the tag, then its checksum's low byte, then the high one, in Base58. */
  lemma PrintedSpells(tag: Tag)
    ensures var c := Crc16.Remainder(0, BitsOf(tag)) as int;
            Utf8(Printed(tag)) == Encoded(tag + [c % 256, c / 256]).value
  {
    hide Encoded, Decoded, Crc16.Remainder;
    DecodeAfterEncode(Payload(tag));
    SymbolsAreAscii(Payload(tag));
    Utf8OfAscii(Encoded(Payload(tag)).value);
  }

  /** A text is accepted exactly when it has 22 to 31 characters and decodes to a tag and its own
      checksum, low byte first; and otherwise the first thing wrong with it is named. */
  lemma ParsedMeans(text: string)
    ensures var r := Parsed(text);
            var raw := Decoded(Utf8(text));
            match r
            case Ok(tag) =>
              var c := Crc16.Remainder(0, BitsOf(tag)) as int;
              22 <= |text| <= 31 && raw == Ok(tag + [c % 256, c / 256])
            case Err(Length(n)) => n == |text| && !(22 <= |text| <= 31)
            case Err(NotBase58(e)) => 22 <= |text| <= 31 && raw == Err(e)
            case Err(PayloadLen(n)) => 22 <= |text| <= 31 && raw.Ok? && n == |raw.value| != 22
            case Err(Checksum(found, computed)) =>
              && 22 <= |text| <= 31 && raw.Ok? && |raw.value| == 22 && found != computed
              && found == raw.value[20] as int + 256 * (raw.value[21] as int)
              && computed == Crc16.Remainder(0, BitsOf(raw.value[..20])) as int
  {
    hide Decoded, Crc16.Remainder;
    var raw := Decoded(Utf8(text));
    if raw.Ok? && |raw.value| == 22 {
      PutAndGetAreInverse(0, raw.value[20..]);
      assert raw.value == raw.value[..20] + raw.value[20..];
    }
  }

  /** Every tag survives being printed and parsed. */
  lemma ParseAfterPrint(tag: Tag)
    ensures Parsed(Printed(tag)) == Ok(tag)
  {
    var payload := Payload(tag);
    assert payload[..TAG_LEN] == tag && payload[TAG_LEN..] == Put16(ChecksumOf(tag));
    PutAndGetAreInverse(ChecksumOf(tag), Put16(0));
    ParsedPayload(payload);
  }

  /** Every accepted string is the one string that prints for the tag it yields. */
  lemma PrintAfterParse(text: string)
    requires Parsed(text).Ok?
    ensures Printed(Parsed(text).value) == text
  {
    var bytes := Utf8(text);
    var raw := Decoded(bytes).value;
    var tag := Parsed(text).value;
    assert raw == raw[..TAG_LEN] + raw[TAG_LEN..];
    PutAndGetAreInverse(0, raw[TAG_LEN..]);
    assert Payload(tag) == raw;
    EncodeAfterDecode(bytes);
    SymbolsAreAscii(raw);
    AsciiOfUtf8(text);
  }

  /** A tag changed only within sixteen consecutive bits, while its old checksum is carried, is
      always refused, and refused as a checksum mismatch. */
  lemma DamagedTagIsRefused(tag: Tag, damaged: Tag, first: nat)
    requires tag != damaged && Crc16.DifferWithin16(BitsOf(tag), BitsOf(damaged), first)
    ensures Parsed(Ascii(Encoded(damaged + Put16(ChecksumOf(tag))).value))
         == Err(Checksum(ChecksumOf(tag), ChecksumOf(damaged)))
  {
    hide Encoded, Decoded, Parsed, Crc16.Remainder;
    var payload := damaged + Put16(ChecksumOf(tag));
    assert payload[..TAG_LEN] == damaged && payload[TAG_LEN..] == Put16(ChecksumOf(tag));
    PutAndGetAreInverse(ChecksumOf(tag), Put16(0));
    ParsedPayload(payload);
    DamageChangesTheChecksum(tag, damaged, first);
  }

  lemma DamageChangesTheChecksum(tag: seq<byte>, damaged: seq<byte>, first: nat)
    requires |tag| == |damaged| && tag != damaged
    requires Crc16.DifferWithin16(BitsOf(tag), BitsOf(damaged), first)
    ensures ChecksumOf(tag) != ChecksumOf(damaged)
  {
    hide Crc16.Remainder, Bits.BitsOfByte, Crc16.DifferWithin16;
    var i :| 0 <= i < |tag| && tag[i] != damaged[i];
    Bits.BytesDistinct(tag[i], damaged[i]);
    assert BitsOf(tag)[i] != BitsOf(damaged)[i];
    Crc16.BurstsAreDetected(BitsOf(tag), BitsOf(damaged), first);
    StatesDistinct(Crc16.Remainder(0, BitsOf(tag)), Crc16.Remainder(0, BitsOf(damaged)));
  }

  lemma StatesDistinct(x: bv16, y: bv16)
    requires x != y
    ensures x as int != y as int
  {
    Bits.StateBits(x);
    Bits.StateBits(y);
  }
}
