/** Key derivation (`derive.rs`): every key is drawn from a generator seeded with a seed and a
    number, and an account's first key has its public seed and address words drawn with it. */
module Derivation {
  import opened Base
  import opened Primitives
  import opened WotsDigits
  import opened Wots
  import opened WotsKeys
  import opened AdrsImage
  import opened Generator

  const SEED_LEN := 32
  const WOTS_ADDR_LEN := 2208
  const LEGACY_TAG_LEN := 12

  type LegacyAddress = b: seq<byte> | |b| == WOTS_ADDR_LEN witness seq(WOTS_ADDR_LEN, _ => 0)
  type Address = b: seq<byte> | |b| == 40 witness seq(40, _ => 0)

  datatype DerivedSeed = DerivedSeed(secret: Block, prng: Gen)

  datatype WotsKey = WotsKey(secret: Block, pubSeed: Block, adrs: Words, pk: KeyBytes)

  function SeededGen(h: Hashes, seed: seq<byte>, id: u32): Gen {
    var g := Fresh();
    g.(seed := h.sha512(h.sha512(seed + BigEndian(id, 4)) + g.seed))
  }

  function DeriveSeed(h: Hashes, seed: seq<byte>, id: u32): DerivedSeed {
    var g := SeededGen(h, seed, id);
    DerivedSeed(Filled(h, g, SEED_LEN), States(h, g, Drawn(SEED_LEN)))
  }

  /** The key the generator's next bytes stand for; the first 2144 of them are not used. */
  function FirstKey(h: Hashes, derived: DerivedSeed): WotsKey {
    var buf := Filled(h, derived.prng, WOTS_ADDR_LEN);
    KeyFromComponents(h, derived.secret, buf[PK_LEN..PK_LEN + SEED_LEN], FromLeImage(buf[PK_LEN + SEED_LEN..]))
  }

  function KeyFromComponents(h: Hashes, secret: Block, pubSeed: Block, adrs: Words): WotsKey {
    WotsKey(secret, pubSeed, adrs, PublicKey(h, secret, pubSeed, adrs[..5]))
  }

  function TagOf(h: Hashes, key: WotsKey): Block20 { AddrHash(h, key.pk) }

  function AddressOf(h: Hashes, key: WotsKey, tag: Block20): Address { tag + AddrHash(h, key.pk) }

  /** The stored form of a key, its last twelve bytes overwritten with the account's old tag:
      they are where address words 5, 6 and 7 lie. */
  function LegacyAddressOf(key: WotsKey, tag12: seq<byte>): LegacyAddress
    requires |tag12| == LEGACY_TAG_LEN
  {
    var whole := key.pk + key.pubSeed + LeImage(key.adrs);
    whole[..WOTS_ADDR_LEN - LEGACY_TAG_LEN] + tag12
  }

  function DeriveWotsKey(h: Hashes, seed: Block, rotation: u32): WotsKey {
    FirstKey(h, DeriveSeed(h, seed, rotation))
  }

  function StreamId(h: Hashes, seed: Block): Block20 { TagOf(h, DeriveWotsKey(h, seed, 0)) }

  datatype DerivedAccount = DerivedAccount(tag: Block20, seed: Block, first: WotsKey)

  function DeriveAccount(h: Hashes, master: Block, index: u32): DerivedAccount {
    var derived := DeriveSeed(h, master, index);
    var first := FirstKey(h, derived);
    DerivedAccount(TagOf(h, first), derived.secret, first)
  }

  // ----- the running form -----

  method DeriveSeedRunning(h: Hashes, seed: seq<byte>, id: u32) returns (secret: Block, prng: DigestRandomGenerator)
    ensures fresh(prng)
    ensures DerivedSeed(secret, prng.Value()) == DeriveSeed(h, seed, id)
  {
    hide Filled, States, Drawn;
    var local := h.sha512(seed + BigEndian(id, 4));
    prng := new DigestRandomGenerator();
    prng.AddSeedMaterial(h, local);
    assert prng.Value() == SeededGen(h, seed, id);
    var buf := new byte[SEED_LEN](_ => 0);
    prng.Fill(h, buf);
    secret := buf[..];
  }

  method FirstKeyRunning(h: Hashes, secret: Block, prng: DigestRandomGenerator) returns (key: WotsKey)
    modifies prng
    ensures key == FirstKey(h, DerivedSeed(secret, old(prng.Value())))
  {
    hide Filled, PublicKey, AddressBytes;
    var buf := new byte[WOTS_ADDR_LEN](_ => 0);
    prng.Fill(h, buf);
    var bytes := buf[..];
    var pubSeed := bytes[PK_LEN..PK_LEN + SEED_LEN];
    var image := bytes[PK_LEN + SEED_LEN..];
    var working := ImageToWords(image);
    var adrs := working[..];
    var pk := Pkgen(h, secret, pubSeed, working);
    key := WotsKey(secret, pubSeed, adrs, pk);
  }

  lemma DeriveAccountKeepsItsSeed(h: Hashes, master: Block, index: u32)
    ensures var a := DeriveAccount(h, master, index);
            && a.first.secret == a.seed && a.tag == TagOf(h, a.first)
            && a.first.pk == PublicKey(h, a.seed, a.first.pubSeed, a.first.adrs[..5])
  {
  }
}
