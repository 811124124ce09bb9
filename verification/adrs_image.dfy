/** The address words as stored bytes (`wots.rs`): eight little-endian words, unlike the
    big-endian bytes that are hashed. */
module AdrsImage {
  import opened Base
  import opened Numerals
  import opened Primitives
  import opened Wots

  function LeWord(w: u32): (bytes: seq<byte>)
    ensures |bytes| == 4
  {
    [w % 256, w / 256 % 256, w / 256 / 256 % 256, w / 256 / 256 / 256]
  }

  function WordOf(bytes: seq<byte>): u32
    requires |bytes| == 4
  {
    bytes[0] as int + 256 * (bytes[1] as int + 256 * (bytes[2] as int + 256 * (bytes[3] as int)))
  }

  lemma WordRoundTrip(w: u32)
    ensures WordOf(LeWord(w)) == w
  {
  }

  lemma BytesRoundTrip(bytes: seq<byte>)
    requires |bytes| == 4
    ensures LeWord(WordOf(bytes)) == bytes
  {
    var a, b, c, d: int := bytes[0], bytes[1], bytes[2], bytes[3];
    QuotientAndRemainder(WordOf(bytes), 256, b + 256 * (c + 256 * d), a);
    QuotientAndRemainder(b + 256 * (c + 256 * d), 256, c + 256 * d, b);
    QuotientAndRemainder(c + 256 * d, 256, d, c);
  }

  function LeImage(words: seq<u32>): (image: seq<byte>)
    ensures |image| == 4 * |words|
    decreases |words|
  {
    if words == [] then [] else LeImage(words[..|words| - 1]) + LeWord(words[|words| - 1])
  }

  function FromLeImage(image: seq<byte>): (words: seq<u32>)
    requires |image| % 4 == 0
    ensures |words| == |image| / 4
    decreases |image|
  {
    if image == [] then [] else FromLeImage(image[..|image| - 4]) + [WordOf(image[|image| - 4..])]
  }

  method ImageToWords(image: Block) returns (words: array<u32>)
    ensures fresh(words) && words.Length == 8 && words[..] == FromLeImage(image)
  {
    hide WordOf;
    words := new u32[8](_ => 0);
    var i := 0;
    assert image[..0] == [];
    while i < 8
      invariant 0 <= i <= 8
      invariant words[..i] == FromLeImage(image[..4 * i])
    {
      words[i] := WordOf(image[4 * i..4 * i + 4]);
      assert image[..4 * i + 4][..4 * i] == image[..4 * i];
      assert image[..4 * i + 4][4 * i..] == image[4 * i..4 * i + 4];
      i := i + 1;
    }
    assert image[..32] == image && words[..8] == words[..];
  }

  method WordsToImage(words: array<u32>) returns (image: Block)
    requires words.Length == 8
    ensures image == LeImage(words[..])
  {
    hide LeWord, LeImage;
    var out := new byte[32](_ => 0);
    var i := 0;
    assert words[..0] == [];
    NoImage();
    while i < 8
      invariant 0 <= i <= 8
      invariant out[..4 * i] == LeImage(words[..i])
    {
      var chunk := LeWord(words[i]);
      ImageAppend(words[..i], words[i]);
      out[4 * i], out[4 * i + 1], out[4 * i + 2], out[4 * i + 3] := chunk[0], chunk[1], chunk[2], chunk[3];
      assert words[..i + 1] == words[..i] + [words[i]];
      assert out[..4 * i + 4] == out[..4 * i] + chunk;
      i := i + 1;
    }
    assert out[..32] == out[..] && words[..8] == words[..];
    image := out[..];
  }

  lemma NoImage()
    ensures LeImage([]) == []
  {
  }

  lemma ImageAppend(words: seq<u32>, w: u32)
    ensures LeImage(words + [w]) == LeImage(words) + LeWord(w)
  {
    assert (words + [w])[..|words|] == words;
  }

  lemma WordsAppend(image: seq<byte>, chunk: seq<byte>)
    requires |image| % 4 == 0 && |chunk| == 4
    ensures FromLeImage(image + chunk) == FromLeImage(image) + [WordOf(chunk)]
  {
    assert (image + chunk)[..|image|] == image && (image + chunk)[|image|..] == chunk;
  }

  /** Stored words read back as themselves. */
  lemma {:induction false} WordsOfImage(words: seq<u32>)
    ensures FromLeImage(LeImage(words)) == words
    decreases |words|
  {
    hide LeWord, WordOf;
    if words == [] {
    } else {
      var init, w := words[..|words| - 1], words[|words| - 1];
      WordsOfImage(init);
      WordRoundTrip(w);
      WordsAppend(LeImage(init), LeWord(w));
      assert words == init + [w];
    }
  }

  /** And every image is the image of the words it reads as, so none is out of reach. */
  lemma {:induction false} ImageOfWords(image: seq<byte>)
    requires |image| % 4 == 0
    ensures LeImage(FromLeImage(image)) == image
    decreases |image|
  {
    hide LeWord, WordOf;
    if image == [] {
    } else {
      var init, chunk := image[..|image| - 4], image[|image| - 4..];
      ImageOfWords(init);
      BytesRoundTrip(chunk);
      ImageAppend(FromLeImage(init), WordOf(chunk));
      assert image == init + chunk;
    }
  }

  /** The first words of an image are those of its first bytes: later bytes do not reach them. */
  lemma {:induction false} PrefixOfImage(head: seq<byte>, tail: seq<byte>)
    requires |head| % 4 == 0 && |tail| % 4 == 0
    ensures FromLeImage(head + tail)[..|head| / 4] == FromLeImage(head)
    decreases |tail|
  {
    hide WordOf;
    if tail == [] {
      assert head + tail == head;
    } else {
      var init, chunk := tail[..|tail| - 4], tail[|tail| - 4..];
      PrefixOfImage(head, init);
      WordsAppend(head + init, chunk);
      assert head + tail == (head + init) + chunk;
    }
  }

  /** Each word is stored least byte first, where its number says. */
  lemma {:induction false} ImageHoldsWords(words: seq<u32>, k: nat)
    requires k < |words|
    ensures var w, image := words[k], LeImage(words);
            && image[4 * k] == w % 256 && image[4 * k + 1] == w / 0x100 % 256
            && image[4 * k + 2] == w / 0x1_0000 % 256 && image[4 * k + 3] == w / 0x100_0000
    decreases |words|
  {
    var last := |words| - 1;
    if k < last {
      ImageHoldsWords(words[..last], k);
    }
  }
}
