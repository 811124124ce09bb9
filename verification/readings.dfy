/** What the hashed inputs are, told from outside. Two kinds of result say it. The closed forms give
    a derived secret, an expanded chunk and a chain step as nested hashes of literal bytes, for
    every hash function. The readings choose hash functions that hand back one part of what they
    are given, and so show that the part gets there and where. */
module Readings {
  import opened Base
  import opened Primitives
  import opened Numerals
  import opened WotsDigits
  import opened Wots
  import opened WotsKeys
  import opened AdrsImage
  import opened Generator
  import opened Derivation
  import opened Accounts

  function Zeros(n: nat): (z: seq<byte>)
    ensures |z| == n && forall i :: 0 <= i < n ==> z[i] == 0
  {
    seq(n, _ => 0)
  }

  // ----- bytes of numbers -----

  lemma FourBytes(v: u32)
    ensures BigEndian(v, 4) == [v / 0x100_0000, v / 0x1_0000 % 256, v / 256 % 256, v % 256]
  {
    assert BigEndian(v / 256 / 256 / 256, 1) == [v / 256 / 256 / 256 % 256];
    assert BigEndian(v / 256 / 256, 2) == BigEndian(v / 256 / 256 / 256, 1) + [v / 256 / 256 % 256];
    assert BigEndian(v / 256, 3) == BigEndian(v / 256 / 256, 2) + [v / 256 % 256];
    assert v / 256 / 256 == v / 0x1_0000 && v / 256 / 256 / 256 == v / 0x100_0000;
  }

  lemma {:induction false} NoBytes(n: nat)
    ensures BigEndian(0, n) == Zeros(n)
    decreases n
  {
    if n == 0 {
    } else {
      NoBytes(n - 1);
    }
  }

  lemma SmallBytes(v: byte, n: nat)
    requires n > 0
    ensures BigEndian(v, n) == Zeros(n - 1) + [v]
  {
    NoBytes(n - 1);
  }

  lemma FourBytesDiffer(a: u32, b: u32)
    requires a != b
    ensures BigEndian(a, 4) != BigEndian(b, 4)
  {
    FourBytes(a);
    FourBytes(b);
    Composed(a);
    Composed(b);
    hide BigEndian;
  }

  lemma Composed(v: u32)
    ensures v == v / 0x100_0000 * 0x100_0000 + v / 0x1_0000 % 256 * 0x1_0000 + v / 256 % 256 * 256 + v % 256
  {
    assert v / 256 / 256 == v / 0x1_0000 && v / 256 / 256 / 256 == v / 0x100_0000;
    Euclid(v, 256);
    Euclid(v / 256, 256);
    Euclid(v / 256 / 256, 256);
  }

  // ----- a derived secret -----

  /** Every secret is drawn from the seed and the number, hashed together, each in its place. */
  lemma SecretIsDrawn(h: Hashes, seed: Block, id: u32)
    ensures var number := [id / 0x100_0000, id / 0x1_0000 % 256, id / 256 % 256, id % 256];
            DeriveSeed(h, seed, id).secret
            == h.sha512([1, 0, 0, 0, 0, 0, 0, 0] + Zeros(64) + h.sha512(h.sha512(seed + number) + Zeros(64)))[..32]
  {
    FourBytes(id);
    hide BigEndian;
    assert Zero64() == Zeros(64);
    assert CounterBytes(1) == [1, 0, 0, 0, 0, 0, 0, 0];
    var g := SeededGen(h, seed, id);
    assert Filled(h, g, 32) == NextState(h, g).state[..32];
  }

  function Other(b: byte): byte { if b == 0 then 1 else 0 }

  /** Hands back the number of a derivation, and a byte the seed does not have there. */
  function IdRead(x: seq<byte>): Block64 {
    if |x| == 36 then x[32..36] + [Other(x[4])] + Zeros(59)
    else if |x| == 128 then x[..64]
    else if |x| == 136 then x[72..136]
    else Zeros(64)
  }

  function ReadingIds(): Hashes {
    Hashes(_ => Zeros(32), x => IdRead(x), _ => Zeros(64), _ => Zeros(20))
  }

  lemma SecretReadsBack(seed: Block, id: u32)
    ensures DeriveSeed(ReadingIds(), seed, id).secret == BigEndian(id, 4) + [Other(seed[4])] + Zeros(27)
  {
    SecretIsDrawn(ReadingIds(), seed, id);
    FourBytes(id);
    hide BigEndian, DeriveSeed;
    var number := BigEndian(id, 4);
    var inner := number + [Other(seed[4])] + Zeros(59);
    assert |seed + number| == 36 && (seed + number)[32..36] == number && (seed + number)[4] == seed[4];
    assert IdRead(seed + number) == inner;
    assert (inner + Zeros(64))[..64] == inner;
    assert IdRead(inner + Zeros(64)) == inner;
    var drawn := [1, 0, 0, 0, 0, 0, 0, 0] + Zeros(64) + inner;
    assert drawn[72..136] == inner;
    assert IdRead(drawn) == inner;
    assert inner[..32] == number + [Other(seed[4])] + Zeros(27);
  }

  /** For every seed, different numbers give different secrets, different accounts have different
      seeds, and different positions of a seed, its own first one included, different secrets. */
  ghost predicate SeparatesNumbers(h: Hashes) {
    && (forall seed: Block, a: u32, b: u32 :: a != b ==>
          DeriveSeed(h, seed, a).secret != DeriveSeed(h, seed, b).secret
          && DeriveAccount(h, seed, a).seed != DeriveAccount(h, seed, b).seed)
    && (forall seed: Block, p: u32, q: u32 :: p != q ==> SecretAt(h, seed, p) != SecretAt(h, seed, q))
  }

  /** Nothing collapses in derivation itself: there are hash functions that keep all of these
      apart. */
  lemma NumbersReachTheSecrets()
    ensures exists h: Hashes :: SeparatesNumbers(h)
  {
    hide DeriveSeed, DeriveAccount, SecretAt, ReadingIds;
    var h := ReadingIds();
    forall seed: Block, a: u32, b: u32 | a != b
      ensures DeriveSeed(h, seed, a).secret != DeriveSeed(h, seed, b).secret
      ensures DeriveAccount(h, seed, a).seed != DeriveAccount(h, seed, b).seed
    {
      NumbersDiffer(seed, a, b);
    }
    forall seed: Block, p: u32, q: u32 | p != q
      ensures SecretAt(h, seed, p) != SecretAt(h, seed, q)
    {
      PositionsDiffer(seed, p, q);
    }
    assert SeparatesNumbers(h);
  }

  lemma NumbersDiffer(seed: Block, a: u32, b: u32)
    requires a != b
    ensures DeriveSeed(ReadingIds(), seed, a).secret != DeriveSeed(ReadingIds(), seed, b).secret
    ensures DeriveAccount(ReadingIds(), seed, a).seed != DeriveAccount(ReadingIds(), seed, b).seed
  {
    hide DeriveSeed, FirstKey;
    SecretReadsBack(seed, a);
    SecretReadsBack(seed, b);
    FourBytesDiffer(a, b);
    assert DeriveSeed(ReadingIds(), seed, a).secret[..4] == BigEndian(a, 4);
    assert DeriveSeed(ReadingIds(), seed, b).secret[..4] == BigEndian(b, 4);
  }

  lemma PositionsDiffer(seed: Block, p: u32, q: u32)
    requires p != q
    ensures SecretAt(ReadingIds(), seed, p) != SecretAt(ReadingIds(), seed, q)
  {
    hide SecretAt, DeriveSeed, DeriveAccount, ReadingIds;
    SecretAtPosition(ReadingIds(), seed, p);
    SecretAtPosition(ReadingIds(), seed, q);
    if p > 0 {
      NotTheSeed(seed, p - 1);
    }
    if q > 0 {
      NotTheSeed(seed, q - 1);
    }
    if p > 0 && q > 0 {
      NumbersDiffer(seed, p - 1, q - 1);
    }
  }

  lemma NotTheSeed(seed: Block, id: u32)
    ensures DeriveSeed(ReadingIds(), seed, id).secret != seed
  {
    SecretReadsBack(seed, id);
    hide DeriveSeed, BigEndian;
    assert DeriveSeed(ReadingIds(), seed, id).secret[4] == Other(seed[4]);
  }

  /** The first position is the seed's own; position `p` is rotation `p - 1`. */
  lemma SecretAtPosition(h: Hashes, seed: Block, p: u32)
    ensures p == 0 ==> SecretAt(h, seed, p) == seed
    ensures p > 0 ==> SecretAt(h, seed, p) == DeriveSeed(h, seed, p - 1).secret
  {
    hide DeriveSeed, PublicKey;
  }

  /** Different seeds give different secrets, whatever the number. */
  ghost predicate SeparatesSeeds(h: Hashes) {
    forall s: Block, t: Block, id: u32 :: s != t ==> DeriveSeed(h, s, id).secret != DeriveSeed(h, t, id).secret
  }

  lemma SeedsReachTheSecrets()
    ensures exists h: Hashes :: SeparatesSeeds(h)
  {
    hide DeriveSeed, ReadingSeeds;
    var h := ReadingSeeds();
    forall s: Block, t: Block, id: u32 | s != t
      ensures DeriveSeed(h, s, id).secret != DeriveSeed(h, t, id).secret
    {
      SeedReadsBack(s, id);
      SeedReadsBack(t, id);
    }
    assert SeparatesSeeds(h);
  }

  function ReadingSeeds(): Hashes {
    Hashes(_ => Zeros(32), x => SeedRead(x), _ => Zeros(64), _ => Zeros(20))
  }

  function SeedRead(x: seq<byte>): Block64 {
    if |x| == 36 then x[..32] + Zeros(32)
    else if |x| == 128 then x[..64]
    else if |x| == 136 then x[72..136]
    else Zeros(64)
  }

  lemma SeedReadsBack(seed: Block, id: u32)
    ensures DeriveSeed(ReadingSeeds(), seed, id).secret == seed
  {
    SecretIsDrawn(ReadingSeeds(), seed, id);
    FourBytes(id);
    hide BigEndian, DeriveSeed;
    var number := BigEndian(id, 4);
    var inner := seed + Zeros(32);
    assert |seed + number| == 36 && (seed + number)[..32] == seed;
    assert SeedRead(seed + number) == inner;
    assert (inner + Zeros(64))[..64] == inner;
    assert SeedRead(inner + Zeros(64)) == inner;
    var drawn := [1, 0, 0, 0, 0, 0, 0, 0] + Zeros(64) + inner;
    assert drawn[72..136] == inner;
    assert SeedRead(drawn) == inner;
    assert inner[..32] == seed;
  }

  // ----- the generator -----

  /** The eight bytes a counter is hashed as: its low 32 bits, little-endian, and four zeros. */
  function CounterImage(v: u64): seq<byte> {
    var low := v % 0x1_0000_0000;
    [low % 256, low / 256 % 256, low / 0x1_0000 % 256, low / 0x100_0000, 0, 0, 0, 0]
  }

  lemma CounterBytesAre(v: u64)
    ensures CounterBytes(v) == CounterImage(v)
  {
    LittleEndian(v % U32_LIMIT);
    hide LeWord;
  }

  lemma LittleEndian(w: u32)
    ensures LeWord(w) == [w % 256, w / 256 % 256, w / 0x1_0000 % 256, w / 0x100_0000]
  {
  }

  /** One state: what is hashed, and when and how the seed is cycled. */
  lemma StateIsHashed(h: Hashes, g: Gen)
    ensures var next := NextState(h, g);
            && next.state == h.sha512(CounterImage(g.stateCounter) + g.state + g.seed)
            && next.stateCounter == (g.stateCounter + 1) % 0x1_0000_0000_0000_0000
            && if next.stateCounter % 10 == 0 then
                 next.seed == h.sha512(g.seed + CounterImage(g.seedCounter))
                 && next.seedCounter == (g.seedCounter + 1) % 0x1_0000_0000_0000_0000
               else
                 next.seed == g.seed && next.seedCounter == g.seedCounter
  {
    CounterBytesAre(g.stateCounter);
    CounterBytesAre(g.seedCounter);
    hide CounterBytes;
  }

  /** Byte `j` of a fill is byte `j % 64` of the state generated for it. */
  lemma {:induction false} FilledFromStates(h: Hashes, g: Gen, n: nat, j: nat)
    requires j < n
    ensures Filled(h, g, n)[j] == States(h, g, j / 64 + 1).state[j % 64]
    decreases n
  {
    hide NextState;
    if j < 64 {
      assert States(h, g, 1) == NextState(h, g);
    } else {
      FilledFromStates(h, NextState(h, g), n - 64, j - 64);
      assert (j - 64) / 64 + 1 == j / 64 && (j - 64) % 64 == j % 64;
    }
  }

  /** The key 2208 drawn bytes stand for: the first 2144 are not used, then comes the public seed,
      then the image of the words, and the public key is the one they generate. */
  ghost predicate StandFor(h: Hashes, drawn: seq<byte>, secret: Block, key: WotsKey)
    requires |drawn| == 2208
  {
    && key.secret == secret
    && key.pubSeed == drawn[2144..2176]
    && LeImage(key.adrs) == drawn[2176..]
    && key.pk == PublicKey(h, secret, key.pubSeed, key.adrs[..5])
  }

  lemma FirstKeyIsDrawn(h: Hashes, derived: DerivedSeed)
    ensures StandFor(h, Filled(h, derived.prng, 2208), derived.secret, FirstKey(h, derived))
  {
    hide Filled, PublicKey;
    ImageOfWords(Filled(h, derived.prng, 2208)[2176..]);
  }

  /** The generator a secret leaves behind: one state further, its seed as it was. */
  lemma GeneratorLeft(h: Hashes, seed: Block, id: u32)
    ensures var number := [id / 0x100_0000, id / 0x1_0000 % 256, id / 256 % 256, id % 256];
            var left := DeriveSeed(h, seed, id).prng;
            && left.state[..32] == DeriveSeed(h, seed, id).secret
            && left.seed == h.sha512(h.sha512(seed + number) + Zeros(64))
            && left.stateCounter == 2 && left.seedCounter == 1
  {
    FourBytes(id);
    hide BigEndian, CounterBytes;
    assert Zero64() == Zeros(64);
    var g := SeededGen(h, seed, id);
    assert States(h, g, 1) == NextState(h, g) && Drawn(32) == 1;
    assert Filled(h, g, 32) == NextState(h, g).state[..32];
  }

  // ----- addresses -----

  /** Whatever the account, its first address is its tag twice: the tag is its first key's hash. */
  lemma FirstAddressIsTheTagTwice(h: Hashes, roots: set<Block>, a: AccountValue, access: KeyAccess)
    requires Built(h, a) && AddressAt(h, roots, a, 0, access).Ok?
    ensures AddressAt(h, roots, a, 0, access) == Ok(a.tag + a.tag)
  {
    hide PublicKey, StreamId, DeriveSeed, DeriveWotsKey;
    match a.key {
      case Derived(_, _) => hide AddrHash;
      case Imported(_, first, _) =>
        FirstRoundTrip(first);
        hide AddrHash, FirstFrom, FirstBytes;
    }
  }

  /** And its second address is its tag and its key stream: the stream is that key's hash. */
  lemma SecondAddressNamesTheStream(h: Hashes, roots: set<Block>, a: AccountValue, access: KeyAccess)
    requires Built(h, a) && AddressAt(h, roots, a, 1, access).Ok?
    ensures AddressAt(h, roots, a, 1, access) == Ok(a.tag + a.key.stream)
  {
    hide PublicKey, DeriveWotsKey, DeriveAccount, AddrHash, FirstFrom, FirstBytes, ImportedParts;
  }

  /** An address is the tag, and the key's SHA3-512 hashed again by RIPEMD-160. */
  lemma AddressIsHashed(h: Hashes, roots: set<Block>, a: AccountValue, position: u32, access: KeyAccess)
    ensures KeyAt(h, roots, a, position, access).Ok? ==>
              AddressAt(h, roots, a, position, access)
              == Ok(a.tag + h.ripemd160(h.sha3_512(KeyAt(h, roots, a, position, access).value.pk)))
  {
    hide KeyAt;
  }

  // ----- chains -----

  /** Where a chain starts: the pseudorandom function, prefix 3, of the chain's number under the
      secret. */
  lemma ChunkIsHashed(h: Hashes, secret: Block, i: nat)
    requires i < 67
    ensures Expanded(h, secret)[i] == h.sha256(Zeros(31) + [3] + secret + Zeros(31) + [i])
  {
    SmallBytes(3, 32);
    SmallBytes(i, 32);
    hide BigEndian;
    assert Zeros(31) + [3] + secret + (Zeros(31) + [i]) == Zeros(31) + [3] + secret + Zeros(31) + [i];
  }

  /** One step of a chain: the key and the mask from the public seed and the address with 0 and 1
      in its last word, and the masked value hashed under the key, prefix 0. */
  lemma StepIsHashed(h: Hashes, x: Block, pubSeed: Block, words: Words)
    ensures var key := h.sha256(Zeros(31) + [3] + pubSeed + AddressBytes(words[..7] + [0]));
            var mask := h.sha256(Zeros(31) + [3] + pubSeed + AddressBytes(words[..7] + [1]));
            Thash(h, x, pubSeed, words) == h.sha256(Zeros(32) + key + XorBlocks(x, mask))
  {
    SmallBytes(3, 32);
    NoBytes(32);
    hide BigEndian, AddressBytes, XorBlocks;
    assert words[7 := 0] == words[..7] + [0] && words[7 := 1] == words[..7] + [1];
  }

  /** The words lie in an address one after another, each in four bytes, high one first. */
  lemma {:induction false} AddressHoldsWords(words: seq<u32>, k: nat)
    requires k < |words|
    ensures var w := words[k];
            AddressBytes(words)[4 * k..4 * k + 4] == [w / 0x100_0000, w / 0x1_0000 % 256, w / 256 % 256, w % 256]
    decreases |words|
  {
    hide BigEndian;
    var n := |words| - 1;
    if k == n {
      FourBytes(words[n]);
    } else {
      AddressHoldsWords(words[..n], k);
      assert AddressBytes(words)[4 * k..4 * k + 4] == AddressBytes(words[..n])[4 * k..4 * k + 4];
    }
  }

  /** Masking is byte by byte, and bit by bit. */
  lemma MaskedByBits(x: Block, y: Block, i: nat)
    requires i < 32
    ensures XorBlocks(x, y)[i] as bv8 == x[i] as bv8 ^ y[i] as bv8
  {
    BitsOfByteBack(x[i] as bv8 ^ y[i] as bv8);
  }

  lemma BitsOfByteBack(z: bv8)
    ensures (z as int) as bv8 == z
  {
  }

  // ----- readings of a chain -----

  datatype Part = Middle | Last

  /** Hands back the middle or the last third of 96 bytes: `prf` says which for inputs that start
      with the pseudorandom function's prefix, `step` for the others. */
  function PartRead(step: Part, prf: Part, x: seq<byte>): Block {
    if |x| != 96 then Zeros(32)
    else if (if x[31] == 3 then prf else step) == Middle then x[32..64] else x[64..96]
  }

  function Reading(step: Part, prf: Part): Hashes {
    Hashes(x => PartRead(step, prf, x), _ => Zeros(64), _ => Zeros(64), _ => Zeros(20))
  }

  /** What a step is made of, part by part: the address with 0 in its last word reaches the key,
      the one with 1 the mask, the public seed both, and the value itself the masked third. */
  lemma StepReads(step: Part, prf: Part, x: Block, pubSeed: Block, words: Words)
    ensures Thash(Reading(step, prf), x, pubSeed, words)
         == match (step, prf)
            case (Middle, Middle) => pubSeed
            case (Middle, Last) => AddressBytes(words[..7] + [0])
            case (Last, Middle) => XorBlocks(x, pubSeed)
            case (Last, Last) => XorBlocks(x, AddressBytes(words[..7] + [1]))
  {
    StepIsHashed(Reading(step, prf), x, pubSeed, words);
    hide Thash, XorBlocks, AddressBytes;
    PrfReads(step, prf, AddressBytes(words[..7] + [0]), pubSeed);
    PrfReads(step, prf, AddressBytes(words[..7] + [1]), pubSeed);
    var h := Reading(step, prf);
    var key := h.sha256(Zeros(31) + [3] + pubSeed + AddressBytes(words[..7] + [0]));
    var mask := h.sha256(Zeros(31) + [3] + pubSeed + AddressBytes(words[..7] + [1]));
    var whole := Zeros(32) + key + XorBlocks(x, mask);
    assert whole[31] == 0 && whole[32..64] == key && whole[64..96] == XorBlocks(x, mask);
  }

  lemma PrfReads(step: Part, prf: Part, input: Block, key: Block)
    ensures Reading(step, prf).sha256(Zeros(31) + [3] + key + input) == if prf == Middle then key else input
  {
    var whole := Zeros(31) + [3] + key + input;
    assert |whole| == 96 && whole[31] == 3 && whole[32..64] == key && whole[64..96] == input;
  }

  lemma LastStep(h: Hashes, x: Block, i: nat, n: nat, pubSeed: Block, prefix: seq<u32>)
    requires |prefix| == 6 && n > 0 && i + n <= 16
    ensures Chain(h, x, i, n, pubSeed, prefix)
         == Thash(h, Chain(h, x, i, n - 1, pubSeed, prefix), pubSeed, prefix + [i + n - 1, 1])
  {
    hide Thash;
    ChainExtends(h, x, i, n - 1, pubSeed, prefix);
  }

  /** A chain's last step is named by its own words and the last position it walks. */
  lemma ChainReads(x: Block, i: nat, n: nat, pubSeed: Block, prefix: seq<u32>)
    requires |prefix| == 6 && n > 0 && i + n <= 16
    ensures Chain(Reading(Middle, Last), x, i, n, pubSeed, prefix) == AddressBytes(prefix + [i + n - 1, 0])
  {
    hide Chain, Thash, AddressBytes, Reading;
    var words: Words := prefix + [i + n - 1, 1];
    LastStep(Reading(Middle, Last), x, i, n, pubSeed, prefix);
    StepReads(Middle, Last, Chain(Reading(Middle, Last), x, i, n - 1, pubSeed, prefix), pubSeed, words);
    assert words[..7] + [0] == prefix + [i + n - 1, 0];
  }

  /** The address of position `last` of chain `i`, with 0 in its last word. */
  function Named(fixed: Fixed, i: nat, last: nat): Block
    requires i < 67 && last < 16
  {
    AddressBytes(fixed + [i, last, 0])
  }

  lemma ChainOfReads(x: Block, start: nat, n: nat, pubSeed: Block, fixed: Fixed, i: nat)
    requires i < 67 && start + n < 16
    ensures ChainOf(Reading(Middle, Last), x, start, n, pubSeed, fixed,
                    i) == if n == 0 then x else Named(fixed, i, start + n - 1)
  {
    hide AddressBytes, Thash, Reading;
    if n > 0 {
      ChainReads(x, start, n, pubSeed, fixed + [i]);
      assert fixed + [i] + [start + n - 1, 0] == fixed + [i, start + n - 1, 0];
    }
  }

  /** Under that reading every part of a public key says which step made it: chain `i`, walked to
      position 14. */
  lemma PublicChainIsNamed(secret: Block, pubSeed: Block, fixed: Fixed, i: nat)
    requires i < 67
    ensures PublicChain(Reading(Middle, Last), secret, pubSeed, fixed, i) == Named(fixed, i, 14)
  {
    hide ChainOf, Named, Reading, SeedAt;
    ChainOfReads(SeedAt(Reading(Middle, Last), secret, i), 0, 15, pubSeed, fixed, i);
  }

  /** Of a signature, chain `i` is walked to one below its digit, or not at all; and in recovery,
      on from there to 14, or not at all. */
  lemma SignedChainIsNamed(msg: Block, secret: Block, pubSeed: Block, fixed: Fixed, x: Block, i: nat)
    requires i < 67
    ensures var d := Lengths(msg)[i];
            && SignatureChain(Reading(Middle, Last), msg, secret, pubSeed, fixed, i)
               == (if d == 0 then Expanded(Reading(Middle, Last), secret)[i] else Named(fixed, i, d - 1))
            && RecoveredChain(Reading(Middle, Last), x, msg, pubSeed, fixed,
                              i) == (if d == 15 then x else Named(fixed, i, 14))
  {
    hide ChainOf, Named, Reading, SeedAt, Lengths;
    var d := Lengths(msg)[i];
    ChainOfReads(SeedAt(Reading(Middle, Last), secret, i), 0, d, pubSeed, fixed, i);
    ChainOfReads(x, d, 15 - d, pubSeed, fixed, i);
  }

  /** So no two chains of a public key end alike under it. */
  lemma PublicChainsDiffer(secret: Block, pubSeed: Block, fixed: Fixed, i: nat, j: nat)
    requires i < j < 67
    ensures PublicChain(Reading(Middle, Last), secret, pubSeed, fixed, i)
         != PublicChain(Reading(Middle, Last), secret, pubSeed, fixed, j)
  {
    hide PublicChain, Reading, Named;
    PublicChainIsNamed(secret, pubSeed, fixed, i);
    PublicChainIsNamed(secret, pubSeed, fixed, j);
    NamedApart(fixed, i, j);
  }

  lemma NamedApart(fixed: Fixed, i: nat, j: nat)
    requires i < j < 67
    ensures Named(fixed, i, 14) != Named(fixed, j, 14)
  {
    hide AddressBytes;
    AddressesApart(fixed + [i, 14, 0], fixed + [j, 14, 0], 5);
  }

  lemma AddressesApart(a: Words, b: Words, k: nat)
    requires k < 8 && a[k] != b[k]
    ensures AddressBytes(a) != AddressBytes(b)
  {
    AddressHoldsWords(a, k);
    AddressHoldsWords(b, k);
    hide AddressBytes;
    Composed(a[k]);
    Composed(b[k]);
  }

  /** Under some hash functions the 67 starts of any secret are pairwise different, and under some
      two secrets start every chain differently. */
  ghost predicate SeparatesStarts(h: Hashes) {
    forall secret: Block, i: nat, j: nat :: i < j < 67 ==> Expanded(h, secret)[i] != Expanded(h, secret)[j]
  }

  ghost predicate SeparatesSecrets(h: Hashes) {
    forall s: Block, t: Block, i: nat :: s != t && i < 67 ==> Expanded(h, s)[i] != Expanded(h, t)[i]
  }

  lemma StartsAreSeparate()
    ensures exists h: Hashes :: SeparatesStarts(h)
    ensures exists h: Hashes :: SeparatesSecrets(h)
  {
    hide Expanded;
    forall secret: Block, i: nat, j: nat | i < j < 67
      ensures Expanded(Reading(Last, Last), secret)[i] != Expanded(Reading(Last, Last), secret)[j]
    {
      StartReads(Last, secret, i);
      StartReads(Last, secret, j);
      assert (Zeros(31) + [i])[31] == i && (Zeros(31) + [j])[31] == j;
    }
    assert SeparatesStarts(Reading(Last, Last));
    forall s: Block, t: Block, i: nat | s != t && i < 67
      ensures Expanded(Reading(Middle, Middle), s)[i] != Expanded(Reading(Middle, Middle), t)[i]
    {
      StartReads(Middle, s, i);
      StartReads(Middle, t, i);
    }
    assert SeparatesSecrets(Reading(Middle, Middle));
  }

  lemma StartReads(part: Part, secret: Block, i: nat)
    requires i < 67
    ensures Expanded(Reading(part, part), secret)[i] == if part == Middle then secret else Zeros(31) + [i]
  {
    ChunkIsHashed(Reading(part, part), secret, i);
    PrfReads(part, part, Zeros(31) + [i], secret);
    hide Expanded, Reading;
    assert Zeros(31) + [3] + secret + (Zeros(31) + [i]) == Zeros(31) + [3] + secret + Zeros(31) + [i];
  }

  /** The `i`-th 32 bytes. */
  ghost function Piece(bytes: seq<byte>, i: nat): Block
    requires 32 * i + 32 <= |bytes|
  {
    bytes[32 * i..32 * i + 32]
  }

  lemma PieceOfPrefix(bytes: seq<byte>, more: seq<byte>, i: nat)
    requires 32 * i + 32 <= |bytes|
    ensures Piece(bytes + more, i) == Piece(bytes, i)
  {
    assert (bytes + more)[..|bytes|] == bytes;
    assert (bytes + more)[32 * i..32 * i + 32] == bytes[32 * i..32 * i + 32];
  }

  lemma {:induction false} BlockInPlace(blocks: seq<Block>, i: nat)
    requires i < |blocks|
    ensures Piece(Flatten(blocks), i) == blocks[i]
    decreases |blocks|
  {
    var last := |blocks| - 1;
    var init := Flatten(blocks[..last]);
    assert Flatten(blocks) == init + blocks[last] && |init| == 32 * last;
    if i == last {
      assert (init + blocks[last])[32 * last..32 * last + 32] == blocks[last];
    } else {
      BlockInPlace(blocks[..last], i);
      PieceOfPrefix(init, blocks[last], i);
    }
  }

  lemma {:induction false} ChunkInPlace(bytes: seq<byte>, n: nat, i: nat)
    requires |bytes| == 32 * n && i < n
    ensures Chunks(bytes, n)[i] == Piece(bytes, i)
    decreases n
  {
    var init := bytes[..32 * (n - 1)];
    if i == n - 1 {
      assert bytes[32 * i..] == bytes[32 * i..32 * i + 32];
    } else {
      ChunkInPlace(init, n - 1, i);
      assert bytes == init + bytes[32 * (n - 1)..];
      PieceOfPrefix(init, bytes[32 * (n - 1)..], i);
    }
  }

  /** A public key is its 67 chains in order, 32 bytes each, and so is a signature; recovery takes
      them from the same places. */
  lemma PublicInOrder(h: Hashes, secret: Block, pubSeed: Block, fixed: Fixed, i: nat)
    requires i < 67
    ensures Piece(PublicKey(h, secret, pubSeed, fixed), i) == PublicChain(h, secret, pubSeed, fixed, i)
  {
    hide PublicChain, Flatten, Piece;
    BlockInPlace(seq(67, k requires 0 <= k < 67 => PublicChain(h, secret, pubSeed, fixed, k)), i);
  }

  lemma SignedInOrder(h: Hashes, msg: Block, secret: Block, pubSeed: Block, fixed: Fixed, i: nat)
    requires i < 67
    ensures Piece(Signature(h, msg, secret, pubSeed, fixed), i) == SignatureChain(h, msg, secret, pubSeed, fixed, i)
  {
    hide SignatureChain, Flatten, Piece;
    BlockInPlace(seq(67, k requires 0 <= k < 67 => SignatureChain(h, msg, secret, pubSeed, fixed, k)), i);
  }

  lemma RecoveredInOrder(h: Hashes, msg: Block, sig: KeyBytes, pubSeed: Block, fixed: Fixed, i: nat)
    requires i < 67
    ensures Piece(Recovered(h, sig, msg, pubSeed, fixed), i)
         == RecoveredChain(h, Piece(sig, i), msg, pubSeed, fixed, i)
  {
    hide RecoveredChain, Flatten, Chunks, Piece;
    var chunks := Chunks(sig, 67);
    BlockInPlace(seq(67, k requires 0 <= k < 67 => RecoveredChain(h, chunks[k], msg, pubSeed, fixed, k)), i);
    ChunkInPlace(sig, 67, i);
  }
}
