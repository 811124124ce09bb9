/** WOTS+ (`backend/native.rs`, `wots.rs`): the construction of section 3.1 of RFC 8391, with the
    eight mutable address words of section 2.5. Words 0 to 4 are the caller's; words 5, 6 and 7
    (chain, position, key or mask) are scratch, overwritten as the chains run. */
module Wots {
  import opened Base
  import opened Primitives
  import opened WotsDigits

  const PARAMSN := 32
  const PK_LEN := 2144

  type Words = w: seq<u32> | |w| == 8 witness seq(8, _ => 0)
  type Fixed = w: seq<u32> | |w| == 5 witness seq(5, _ => 0)

  // ----- address words and bytes -----

  function AddressBytes(words: seq<u32>): (bytes: seq<byte>)
    ensures |bytes| == 4 * |words|
    decreases |words|
  {
    if words == [] then [] else AddressBytes(words[..|words| - 1]) + BigEndian(words[|words| - 1], 4)
  }

  method AddrToBytes(adrs: array<u32>) returns (bytes: Block)
    requires adrs.Length == 8
    ensures bytes == AddressBytes(adrs[..])
  {
    var buffer := new byte[32](_ => 0);
    var i := 0;
    assert buffer[..0] == AddressBytes(adrs[..0]);
    while i < 8
      invariant 0 <= i <= 8
      invariant buffer[..4 * i] == AddressBytes(adrs[..i])
    {
      UllToBytes(buffer, 4 * i, 4 * i + 4, adrs[i]);
      assert adrs[..i + 1][..i] == adrs[..i];
      i := i + 1;
    }
    assert adrs[..8] == adrs[..];
    assert buffer[..32] == buffer[..];
    bytes := buffer[..];
  }

  // ----- the keyed hash -----

  function Prf(h: Hashes, input: Block, key: Block): Block {
    h.sha256(BigEndian(3, PARAMSN) + key + input)
  }

  function Xor(a: byte, b: byte): byte {
    (a as bv8 ^ b as bv8) as int
  }

  function XorBlocks(a: Block, b: Block): Block {
    seq(32, i requires 0 <= i < 32 => Xor(a[i], b[i]))
  }

  /** The compression step at the address `words` names, whatever word 7 held before. */
  function Thash(h: Hashes, input: Block, pubSeed: Block, words: Words): Block {
    var key := Prf(h, AddressBytes(words[7 := 0]), pubSeed);
    var mask := Prf(h, AddressBytes(words[7 := 1]), pubSeed);
    h.sha256(BigEndian(0, PARAMSN) + key + XorBlocks(input, mask))
  }

  method PrfOf(h: Hashes, input: Block, key: Block) returns (out: Block)
    ensures out == Prf(h, input, key)
  {
    hide BigEndian;
    var buf := new byte[96](_ => 0);
    UllToBytes(buf, 0, 32, 3);
    forall i | 0 <= i < 32 {
      buf[32 + i] := key[i];
    }
    forall i | 0 <= i < 32 {
      buf[64 + i] := input[i];
    }
    assert buf[..] == BigEndian(3, PARAMSN) + key + input;
    out := h.sha256(buf[..]);
  }

  method ThashF(h: Hashes, input: Block, pubSeed: Block, adrs: array<u32>) returns (out: Block)
    requires adrs.Length == 8
    modifies adrs
    ensures out == Thash(h, input, pubSeed, old(adrs[..]))
    ensures adrs[..] == old(adrs[..])[7 := 1]
  {
    hide BigEndian, Prf, AddressBytes, Xor;
    ghost var words := adrs[..];
    var buf := new byte[96](_ => 0);
    UllToBytes(buf, 0, 32, 0);
    adrs[7] := 0;
    assert adrs[..] == words[7 := 0];
    var keyAddress := AddrToBytes(adrs);
    var key := PrfOf(h, keyAddress, pubSeed);
    forall i | 0 <= i < 32 {
      buf[32 + i] := key[i];
    }
    adrs[7] := 1;
    assert adrs[..] == words[7 := 1];
    var maskAddress := AddrToBytes(adrs);
    var mask := PrfOf(h, maskAddress, pubSeed);
    forall i | 0 <= i < 32 {
      buf[64 + i] := Xor(input[i], mask[i]);
    }
    assert buf[..] == BigEndian(0, PARAMSN) + key + XorBlocks(input, mask);
    out := h.sha256(buf[..]);
  }

  // ----- chains -----

  /** The step at position `i` of the chain that words 0 to 5 name. */
  function Step(h: Hashes, x: Block, i: u32, pubSeed: Block, prefix: seq<u32>): Block
    requires |prefix| == 6
  {
    Thash(h, x, pubSeed, prefix + [i, 1])
  }

  lemma ThashIgnoresWordSeven(h: Hashes, x: Block, pubSeed: Block, words: Words)
    ensures Thash(h, x, pubSeed, words) == Step(h, x, words[6], pubSeed, words[..6])
  {
    var named := words[..6] + [words[6], 1];
    assert named[7 := 0] == words[7 := 0];
    assert named[7 := 1] == words[7 := 1];
    hide AddressBytes, BigEndian, Prf, XorBlocks;
  }

  /** `n` steps along that chain, from position `i`. */
  function Chain(h: Hashes, x: Block, i: nat, n: nat, pubSeed: Block, prefix: seq<u32>): Block
    requires |prefix| == 6 && i + n <= WOTSW
    decreases n
  {
    if n == 0 then x else Chain(h, Step(h, x, i, pubSeed, prefix), i + 1, n - 1, pubSeed, prefix)
  }

  /** Walking part of a chain and then the rest is walking all of it. */
  lemma {:induction false} ChainsCompose(h: Hashes, x: Block, i: nat, m: nat, n: nat, pubSeed: Block, prefix: seq<u32>)
    requires |prefix| == 6 && i + m + n <= WOTSW
    ensures Chain(h, Chain(h, x, i, m, pubSeed, prefix), i + m, n, pubSeed, prefix)
         == Chain(h, x, i, m + n, pubSeed, prefix)
    decreases m
  {
    hide Step;
    if m == 0 {
    } else {
      ChainsCompose(h, Step(h, x, i, pubSeed, prefix), i + 1, m - 1, n, pubSeed, prefix);
    }
  }

  lemma ChainExtends(h: Hashes, x: Block, i: nat, m: nat, pubSeed: Block, prefix: seq<u32>)
    requires |prefix| == 6 && i + m + 1 <= WOTSW
    ensures Step(h, Chain(h, x, i, m, pubSeed, prefix), i + m, pubSeed, prefix)
         == Chain(h, x, i, m + 1, pubSeed, prefix)
  {
    hide Step;
    var y := Chain(h, x, i, m, pubSeed, prefix);
    assert Chain(h, y, i + m, 1, pubSeed, prefix) == Step(h, y, i + m, pubSeed, prefix);
    ChainsCompose(h, x, i, m, 1, pubSeed, prefix);
  }

  /** How many steps a request for `steps` from `start` really takes: the end wraps at 32 bits and
      the chain stops at its top. */
  function StepCount(start: u32, steps: u32): (n: nat)
    ensures n > 0 ==> start + n <= WOTSW
  {
    var end := (start + steps) % U32_LIMIT;
    if end <= start || start >= WOTSW then 0 else Min(end, WOTSW) - start
  }

  /** What `n` steps from `start` leave in the words: the scratch words name the last step taken. */
  function After(words: Words, start: nat, n: nat): Words
    requires n > 0 ==> start + n <= WOTSW
  {
    if n == 0 then words else words[6 := start + n - 1][7 := 1]
  }

  function Reached(h: Hashes, input: Block, start: nat, n: nat, pubSeed: Block, words: Words): Block
    requires n > 0 ==> start + n <= WOTSW
  {
    if n == 0 then input else Chain(h, input, start, n, pubSeed, words[..6])
  }

  lemma ReachedExtends(h: Hashes, input: Block, start: nat, n: nat, pubSeed: Block, words: Words, now: Words)
    requires start + n + 1 <= WOTSW
    requires now == After(words, start, n)[6 := start + n]
    ensures Thash(h, Reached(h, input, start, n, pubSeed, words), pubSeed, now)
         == Reached(h, input, start, n + 1, pubSeed, words)
    ensures now[7 := 1] == After(words, start, n + 1)
  {
    hide Step, Thash;
    assert now[..6] == words[..6];
    ThashIgnoresWordSeven(h, Reached(h, input, start, n, pubSeed, words), pubSeed, now);
    ChainExtends(h, input, start, n, pubSeed, words[..6]);
  }

  method GenChainCounted(h: Hashes, input: Block, start: u32, steps: u32, pubSeed: Block, adrs: array<u32>)
    returns (out: Block, count: u32)
    requires adrs.Length == 8
    modifies adrs
    ensures count == StepCount(start, steps)
    ensures out == Reached(h, input, start, count, pubSeed, old(adrs[..]))
    ensures adrs[..] == After(old(adrs[..]), start, count)
  {
    hide Thash, Reached;
    ghost var words := adrs[..];
    out, count := input, 0;
    NothingReached(h, input, start, pubSeed, words);
    var end := (start + steps) % U32_LIMIT;
    var i := start;
    while i < end && i < WOTSW
      invariant i == start + count
      invariant count <= StepCount(start, steps)
      invariant i < end && i < WOTSW ==> count < StepCount(start, steps)
      invariant out == Reached(h, input, start, count, pubSeed, words)
      invariant adrs[..] == After(words, start, count)
      decreases WOTSW - i
    {
      adrs[6] := i;
      ReachedExtends(h, input, start, count, pubSeed, words, adrs[..]);
      out := ThashF(h, out, pubSeed, adrs);
      i := i + 1;
      count := count + 1;
    }
  }

  method GenChain(h: Hashes, input: Block, start: u32, steps: u32, pubSeed: Block, adrs: array<u32>)
    returns (out: Block)
    requires adrs.Length == 8
    modifies adrs
    ensures out == Reached(h, input, start, StepCount(start, steps), pubSeed, old(adrs[..]))
    ensures adrs[..] == After(old(adrs[..]), start, StepCount(start, steps))
  {
    hide Thash, Reached;
    ghost var words := adrs[..];
    out := input;
    NothingReached(h, input, start, pubSeed, words);
    var end := (start + steps) % U32_LIMIT;
    var i := start;
    while i < end && i < WOTSW
      invariant start <= i <= start + StepCount(start, steps)
      invariant i < end && i < WOTSW ==> i < start + StepCount(start, steps)
      invariant out == Reached(h, input, start, i - start, pubSeed, words)
      invariant adrs[..] == After(words, start, i - start)
      decreases WOTSW - i
    {
      adrs[6] := i;
      ReachedExtends(h, input, start, i - start, pubSeed, words, adrs[..]);
      out := ThashF(h, out, pubSeed, adrs);
      i := i + 1;
    }
  }

  lemma NothingReached(h: Hashes, input: Block, start: nat, pubSeed: Block, words: Words)
    ensures Reached(h, input, start, 0, pubSeed, words) == input
  {
  }
}
