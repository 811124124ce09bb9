/** Key generation, signing and recovery over the 67 chains (`backend/native.rs`), what they leave
    in the address words, and the checks `mesh/spend.rs` makes with them. Buffers are held as the
    32-byte chunks the loops take them in. */
module WotsKeys {
  import opened Base
  import opened Primitives
  import opened WotsDigits
  import opened Wots

  // ----- 32-byte chunks -----

  type KeyBytes = b: seq<byte> | |b| == PK_LEN witness seq(PK_LEN, _ => 0)

  function Flatten(blocks: seq<Block>): (bytes: seq<byte>)
    ensures |bytes| == PARAMSN * |blocks|
    decreases |blocks|
  {
    if blocks == [] then [] else Flatten(blocks[..|blocks| - 1]) + blocks[|blocks| - 1]
  }

  function Chunks(bytes: seq<byte>, n: nat): (blocks: seq<Block>)
    requires |bytes| == PARAMSN * n
    ensures |blocks| == n
    decreases n
  {
    if n == 0 then [] else Chunks(bytes[..PARAMSN * (n - 1)], n - 1) + [bytes[PARAMSN * (n - 1)..]]
  }

  lemma {:induction false} ChunksOfFlatten(blocks: seq<Block>)
    ensures Chunks(Flatten(blocks), |blocks|) == blocks
    decreases |blocks|
  {
    if blocks == [] {
    } else {
      var n := |blocks|;
      var init := blocks[..n - 1];
      ChunksOfFlatten(init);
      var bytes, k := Flatten(init), PARAMSN * (n - 1);
      assert (bytes + blocks[n - 1])[..k] == bytes;
      assert (bytes + blocks[n - 1])[k..] == blocks[n - 1];
      assert blocks == init + [blocks[n - 1]];
    }
  }

  // ----- the meaning of the three operations -----

  /** The chain length of chain `i`: how far signing `msg` walks it. */
  function Digit(msg: Block, i: nat): (d: nat)
    requires i < LEN
    ensures d < 16
  {
    Lengths(msg)[i]
  }

  function SeedAt(h: Hashes, secret: Block, i: nat): Block {
    Prf(h, BigEndian(i, PARAMSN), secret)
  }

  /** `n` steps of chain `i` from position `start`, for the caller's words `fixed`. */
  function ChainOf(h: Hashes, x: Block, start: nat, n: nat, pubSeed: Block, fixed: Fixed, i: nat): Block
    requires start + n < WOTSW && i < LEN
  {
    Chain(h, x, start, n, pubSeed, fixed + [i])
  }

  function PublicChain(h: Hashes, secret: Block, pubSeed: Block, fixed: Fixed, i: nat): Block
    requires i < LEN
  {
    ChainOf(h, SeedAt(h, secret, i), 0, 15, pubSeed, fixed, i)
  }

  function SignatureChain(h: Hashes, msg: Block, secret: Block, pubSeed: Block, fixed: Fixed, i: nat): Block
    requires i < LEN
  {
    ChainOf(h, SeedAt(h, secret, i), 0, Digit(msg, i), pubSeed, fixed, i)
  }

  function RecoveredChain(h: Hashes, x: Block, msg: Block, pubSeed: Block, fixed: Fixed, i: nat): Block
    requires i < LEN
  {
    ChainOf(h, x, Digit(msg, i), 15 - Digit(msg, i), pubSeed, fixed, i)
  }

  function Expanded(h: Hashes, secret: Block): (seeds: seq<Block>)
    ensures |seeds| == LEN && forall i :: 0 <= i < LEN ==> seeds[i] == SeedAt(h, secret, i)
  {
    seq(LEN, i requires 0 <= i < LEN => SeedAt(h, secret, i))
  }

  function PublicKey(h: Hashes, secret: Block, pubSeed: Block, fixed: Fixed): KeyBytes {
    Flatten(seq(LEN, i requires 0 <= i < LEN => PublicChain(h, secret, pubSeed, fixed, i)))
  }

  function Signature(h: Hashes, msg: Block, secret: Block, pubSeed: Block, fixed: Fixed): KeyBytes {
    Flatten(seq(LEN, i requires 0 <= i < LEN => SignatureChain(h, msg, secret, pubSeed, fixed, i)))
  }

  function Recovered(h: Hashes, sig: KeyBytes, msg: Block, pubSeed: Block, fixed: Fixed): KeyBytes {
    var chunks := Chunks(sig, LEN);
    Flatten(seq(LEN, i requires 0 <= i < LEN => RecoveredChain(h, chunks[i], msg, pubSeed, fixed, i)))
  }

  // ----- what the runs leave in the words -----

  /** One chain's run: where it starts and how many steps it takes. */
  datatype Run = Run(start: nat, steps: nat)

  ghost predicate Runs(runs: seq<Run>) {
    |runs| <= LEN && forall k :: 0 <= k < |runs| ==> runs[k].start + runs[k].steps < WOTSW
  }

  /** The words once the first `|runs|` chains have run, one after the other. */
  ghost function WordsAfter(words: Words, runs: seq<Run>): Words
    requires Runs(runs)
    decreases |runs|
  {
    if runs == [] then words
    else
      var k := |runs| - 1;
      After(WordsAfter(words, runs[..k])[5 := k], runs[k].start, runs[k].steps)
  }

  /** The caller's words are never written; word 5 names the last chain; words 6 and 7 name the
      last step taken, which is in the last chain that took one. */
  lemma {:induction false} WordsAfterRuns(words: Words, runs: seq<Run>, last: nat)
    requires Runs(runs) && last < |runs| && runs[last].steps > 0
    requires forall k :: last < k < |runs| ==> runs[k].steps == 0
    ensures WordsAfter(words, runs)
         == words[..5] + [|runs| - 1, runs[last].start + runs[last].steps - 1, 1]
    decreases |runs|
  {
    var k := |runs| - 1;
    var before := WordsAfter(words, runs[..k]);
    FixedWordsKept(words, runs[..k]);
    if k == last {
    } else {
      WordsAfterRuns(words, runs[..k], last);
    }
  }

  lemma {:induction false} FixedWordsKept(words: Words, runs: seq<Run>)
    requires Runs(runs)
    ensures WordsAfter(words, runs)[..5] == words[..5]
    decreases |runs|
  {
    if runs == [] {
    } else {
      FixedWordsKept(words, runs[..|runs| - 1]);
    }
  }

  ghost function PkgenRuns(): seq<Run> { seq(LEN, i => Run(0, 15)) }

  ghost function SignRuns(msg: Block): seq<Run> {
    seq(LEN, i requires 0 <= i < LEN => Run(0, Digit(msg, i)))
  }

  ghost function RecoverRuns(msg: Block): seq<Run> {
    seq(LEN, i requires 0 <= i < LEN => Run(Digit(msg, i), 15 - Digit(msg, i)))
  }

  /** The words after key generation and after recovery: the last chain, its top step, the mask. */
  function Terminal(fixed: Fixed): Words { fixed + [66, 14, 1] }

  /** The last chain that signing `msg` moves. */
  function LastMoved(msg: Block, n: nat): (k: nat)
    requires n <= LEN && exists i :: 0 <= i < n && Digit(msg, i) > 0
    ensures k < n && Digit(msg, k) > 0
    ensures forall j :: k < j < n ==> Digit(msg, j) == 0
    decreases n
  {
    if Digit(msg, n - 1) > 0 then n - 1 else LastMoved(msg, n - 1)
  }

  lemma SomeChainMoves(msg: Block)
    ensures exists i :: 0 <= i < LEN && Digit(msg, i) > 0
    ensures Digit(msg, LEN1) < 15
  {
    SomeDigitBelowTopSomeAboveZero(msg);
    var i :| 0 <= i < LEN && Lengths(msg)[i] > 0;
    assert Digit(msg, i) > 0;
  }

  /** The words after signing: word 6 is one below the last non-zero digit of the message. */
  function TerminalSigned(fixed: Fixed, msg: Block): Words {
    SomeChainMoves(msg);
    fixed + [66, Digit(msg, LastMoved(msg, LEN)) - 1, 1]
  }

  lemma TerminalWords(words: Words, msg: Block)
    ensures WordsAfter(words, PkgenRuns()) == Terminal(words[..5])
    ensures WordsAfter(words, SignRuns(msg)) == TerminalSigned(words[..5], msg)
    ensures WordsAfter(words, RecoverRuns(msg)) == Terminal(words[..5])
  {
    hide Digit;
    SomeChainMoves(msg);
    WordsAfterRuns(words, PkgenRuns(), 66);
    WordsAfterRuns(words, SignRuns(msg), LastMoved(msg, LEN));
    RecoveryTerminal(words, msg, LEN - 1);
  }

  lemma RecoveryTerminal(words: Words, msg: Block, top: nat)
    requires LEN1 <= top < LEN
    requires forall k :: top < k < LEN ==> Digit(msg, k) == 15
    ensures WordsAfter(words, RecoverRuns(msg)) == Terminal(words[..5])
    decreases top
  {
    hide Digit;
    SomeChainMoves(msg);
    if Digit(msg, top) == 15 {
      RecoveryTerminal(words, msg, top - 1);
    } else {
      WordsAfterRuns(words, RecoverRuns(msg), top);
    }
  }

  // ----- the in-place loops -----

  method ExpandSeedInto(h: Hashes, out: array<Block>, inseed: Block)
    requires out.Length == LEN
    modifies out
    ensures out[..] == Expanded(h, inseed)
  {
    hide BigEndian, Prf;
    var ctr := new byte[32](_ => 0);
    var i := 0;
    while i < LEN
      invariant 0 <= i <= LEN
      invariant forall k :: 0 <= k < i ==> out[k] == SeedAt(h, inseed, k)
    {
      UllToBytes(ctr, 0, 32, i);
      assert ctr[..] == BigEndian(i, PARAMSN);
      var seed := PrfOf(h, ctr[..], inseed);
      out[i] := seed;
      i := i + 1;
    }
  }

  /** One turn of the loop that generates: name the chain in word 5 and run all of it. */
  method RunWholeChain(h: Hashes, x: Block, i: u32, pubSeed: Block, adrs: array<u32>) returns (out: Block)
    requires adrs.Length == 8 && i < LEN
    modifies adrs
    ensures out == ChainOf(h, x, 0, WOTSW - 1, pubSeed, old(adrs[..5]), i)
    ensures adrs[..] == After(old(adrs[..])[5 := i], 0, WOTSW - 1)
  {
    hide Thash, Step;
    ghost var words := adrs[..];
    adrs[5] := i;
    assert adrs[..] == words[5 := i];
    assert words[5 := i][..6] == words[..5] + [i];
    out := GenChain(h, x, 0, WOTSW - 1, pubSeed, adrs);
  }

  /** One turn of the loops that sign and recover, which count the steps taken. */
  method RunChain(h: Hashes, x: Block, i: u32, start: u32, steps: u32, pubSeed: Block, adrs: array<u32>)
    returns (out: Block, n: u32)
    requires adrs.Length == 8 && i < LEN && start + steps < WOTSW
    modifies adrs
    ensures out == ChainOf(h, x, start, steps, pubSeed, old(adrs[..5]), i)
    ensures n == steps
    ensures adrs[..] == After(old(adrs[..])[5 := i], start, steps)
  {
    hide Thash, Step;
    ghost var words := adrs[..];
    adrs[5] := i;
    assert adrs[..] == words[5 := i];
    assert words[5 := i][..6] == words[..5] + [i];
    out, n := GenChainCounted(h, x, start, steps, pubSeed, adrs);
    assert StepCount(start, steps) == steps;
  }

  method Pkgen(h: Hashes, secret: Block, pubSeed: Block, adrs: array<u32>) returns (pk: KeyBytes)
    requires adrs.Length == 8
    modifies adrs
    ensures pk == PublicKey(h, secret, pubSeed, old(adrs[..5]))
    ensures adrs[..] == Terminal(old(adrs[..5]))
  {
    hide ChainOf, SeedAt, After, Flatten, Terminal, LastMoved;
    ghost var words := adrs[..];
    ghost var runs := PkgenRuns();
    var chains := new Block[LEN](_ => seq(32, _ => 0));
    ExpandSeedInto(h, chains, secret);
    var i := 0;
    while i < LEN
      invariant 0 <= i <= LEN
      invariant adrs[..] == WordsAfter(words, runs[..i])
      invariant forall k :: 0 <= k < i ==> chains[k] == PublicChain(h, secret, pubSeed, words[..5], k)
      invariant forall k :: i <= k < LEN ==> chains[k] == SeedAt(h, secret, k)
    {
      NextRun(words, runs, i, adrs[..]);
      chains[i] := RunWholeChain(h, chains[i], i, pubSeed, adrs);
      i := i + 1;
    }
    assert runs[..LEN] == runs;
    TerminalWords(words, secret);
    assert chains[..] == seq(LEN, k requires 0 <= k < LEN => PublicChain(h, secret, pubSeed, words[..5], k));
    pk := Flatten(chains[..]);
  }

  lemma NextRun(words: Words, runs: seq<Run>, i: nat, now: Words)
    requires Runs(runs) && i < |runs| && now == WordsAfter(words, runs[..i])
    ensures now[..5] == words[..5]
    ensures WordsAfter(words, runs[..i + 1]) == After(now[5 := i], runs[i].start, runs[i].steps)
  {
    FixedWordsKept(words, runs[..i]);
    assert runs[..i + 1][..i] == runs[..i];
  }

  method SignCounted(h: Hashes, msg: Block, secret: Block, pubSeed: Block, adrs: array<u32>)
    returns (sig: KeyBytes, counts: seq<u32>)
    requires adrs.Length == 8
    modifies adrs
    ensures sig == Signature(h, msg, secret, pubSeed, old(adrs[..5]))
    ensures counts == Lengths(msg)
    ensures adrs[..] == TerminalSigned(old(adrs[..5]), msg)
  {
    hide ChainOf, SeedAt, After, Lengths, Flatten, LastMoved, TerminalSigned;
    ghost var words := adrs[..];
    ghost var runs := SignRuns(msg);
    var lengths := ChainLengths(msg);
    var chains := new Block[LEN](_ => seq(32, _ => 0));
    ExpandSeedInto(h, chains, secret);
    counts := [];
    var i := 0;
    while i < LEN
      invariant 0 <= i <= LEN
      invariant counts == lengths[..i]
      invariant adrs[..] == WordsAfter(words, runs[..i])
      invariant forall k :: 0 <= k < i ==> chains[k] == SignatureChain(h, msg, secret, pubSeed, words[..5], k)
      invariant forall k :: i <= k < LEN ==> chains[k] == SeedAt(h, secret, k)
    {
      NextRun(words, runs, i, adrs[..]);
      var n;
      chains[i], n := RunChain(h, chains[i], i, 0, lengths[i], pubSeed, adrs);
      counts := counts + [n];
      i := i + 1;
    }
    assert lengths[..LEN] == lengths;
    assert runs[..LEN] == runs;
    TerminalWords(words, msg);
    assert chains[..] == seq(LEN, k requires 0 <= k < LEN => SignatureChain(h, msg, secret, pubSeed, words[..5], k));
    sig := Flatten(chains[..]);
  }

  method PkFromSigCounted(h: Hashes, sig: KeyBytes, msg: Block, pubSeed: Block, adrs: array<u32>)
    returns (pk: KeyBytes, bounds: seq<(u32, u32)>)
    requires adrs.Length == 8
    modifies adrs
    ensures pk == Recovered(h, sig, msg, pubSeed, old(adrs[..5]))
    ensures |bounds| == LEN
    ensures forall i :: 0 <= i < LEN ==> bounds[i] == (Lengths(msg)[i], 15 - Lengths(msg)[i])
    ensures adrs[..] == Terminal(old(adrs[..5]))
  {
    hide ChainOf, After, Lengths, Flatten, Chunks, Terminal, LastMoved;
    ghost var words := adrs[..];
    ghost var runs := RecoverRuns(msg);
    var lengths := ChainLengths(msg);
    var sigChains := Chunks(sig, LEN);
    var pkChains := new Block[LEN](_ => seq(32, _ => 0));
    bounds := [];
    var i := 0;
    while i < LEN
      invariant 0 <= i <= LEN
      invariant |bounds| == i
      invariant forall k :: 0 <= k < i ==> bounds[k] == (lengths[k], 15 - lengths[k])
      invariant adrs[..] == WordsAfter(words, runs[..i])
      invariant forall k :: 0 <= k < i ==> pkChains[k] == RecoveredChain(h, sigChains[k], msg, pubSeed, words[..5], k)
    {
      NextRun(words, runs, i, adrs[..]);
      var start := lengths[i];
      var n;
      pkChains[i], n := RunChain(h, sigChains[i], i, start, WOTSW - 1 - start, pubSeed, adrs);
      bounds := bounds + [(start, n)];
      i := i + 1;
    }
    assert runs[..LEN] == runs;
    TerminalWords(words, msg);
    assert pkChains[..]
        == seq(LEN, k requires 0 <= k < LEN => RecoveredChain(h, sigChains[k], msg, pubSeed, words[..5], k));
    pk := Flatten(pkChains[..]);
  }

  // ----- a signature recovers the key that made it -----

  /** Recovering from a signature gives the key that signed, for every message and whatever the
      scratch words held: the operations take words 0 to 4 and nothing else from the address. */
  lemma SignatureRecovers(h: Hashes, secret: Block, pubSeed: Block, msg: Block, fixed: Fixed)
    ensures Recovered(h, Signature(h, msg, secret, pubSeed, fixed), msg, pubSeed, fixed)
         == PublicKey(h, secret, pubSeed, fixed)
  {
    hide Chain, Digit, SeedAt;
    var sig := seq(LEN, i requires 0 <= i < LEN => SignatureChain(h, msg, secret, pubSeed, fixed, i));
    ChunksOfFlatten(sig);
    var chunks := Chunks(Signature(h, msg, secret, pubSeed, fixed), LEN);
    assert chunks == sig;
    forall i | 0 <= i < LEN
      ensures RecoveredChain(h, chunks[i], msg, pubSeed, fixed, i) == PublicChain(h, secret, pubSeed, fixed, i)
    {
      var n := Digit(msg, i);
      ChainsCompose(h, SeedAt(h, secret, i), 0, n, 15 - n, pubSeed, fixed + [i]);
    }
    assert seq(LEN, i requires 0 <= i < LEN => RecoveredChain(h, chunks[i], msg, pubSeed, fixed, i))
        == seq(LEN, i requires 0 <= i < LEN => PublicChain(h, secret, pubSeed, fixed, i));
  }

  /** The same through the running code, from three unrelated sets of scratch words: the steps
      counted by signing and by recovery add up to the whole of every chain. */
  method GenerateSignRecover(h: Hashes, secret: Block, pubSeed: Block, msg: Block,
                             a: array<u32>, b: array<u32>, c: array<u32>)
    returns (pk: KeyBytes, recovered: KeyBytes, counts: seq<u32>, bounds: seq<(u32, u32)>)
    requires a.Length == 8 && b.Length == 8 && c.Length == 8
    requires a != b && a != c && b != c
    requires a[..5] == b[..5] == c[..5]
    modifies a, b, c
    ensures recovered == pk
    ensures |counts| == |bounds| == LEN
    ensures forall i :: 0 <= i < LEN ==> counts[i] as int + bounds[i].1 as int == 15
    ensures a[..] == c[..]
  {
    ghost var fixed: Fixed := a[..5];
    ghost var wordsB, wordsC := b[..], c[..];
    pk := Pkgen(h, secret, pubSeed, a);
    assert b[..] == wordsB && c[..] == wordsC;
    var sig;
    sig, counts := SignCounted(h, msg, secret, pubSeed, b);
    assert c[..] == wordsC;
    recovered, bounds := PkFromSigCounted(h, sig, msg, pubSeed, c);
    SignatureRecovers(h, secret, pubSeed, msg, fixed);
  }
}
