/** The deterministic byte generator of `derive.rs`: a SHA-512 state that is refreshed for every
    64 bytes, and a seed that is cycled each time the state counter reaches a multiple of ten. */
module Generator {
  import opened Base
  import opened Primitives
  import opened AdrsImage

  const STATE_LEN := 64
  const CYCLE_COUNT := 10

  datatype Gen = Gen(seed: Block64, state: Block64, stateCounter: u64, seedCounter: u64)

  function Zero64(): Block64 { seq(64, _ => 0) }

  function Fresh(): Gen { Gen(Zero64(), Zero64(), 1, 1) }

  /** Only the low 32 bits of a counter reach the hash. */
  function CounterBytes(counter: u64): seq<byte> {
    LeWord(counter % U32_LIMIT) + [0, 0, 0, 0]
  }

  function Bump(counter: u64): u64 { (counter + 1) % U64_LIMIT }

  function CycledSeed(h: Hashes, g: Gen): Gen {
    g.(seed := h.sha512(g.seed + CounterBytes(g.seedCounter)), seedCounter := Bump(g.seedCounter))
  }

  function NextState(h: Hashes, g: Gen): Gen {
    var g1 := g.(state := h.sha512(CounterBytes(g.stateCounter) + g.state + g.seed),
                 stateCounter := Bump(g.stateCounter));
    if g1.stateCounter % CYCLE_COUNT == 0 then CycledSeed(h, g1) else g1
  }

  function States(h: Hashes, g: Gen, n: nat): Gen
    decreases n
  {
    if n == 0 then g else States(h, NextState(h, g), n - 1)
  }

  /** How many states it takes to draw `n` bytes in one call. */
  function Drawn(n: nat): nat { (n + STATE_LEN - 1) / STATE_LEN }

  /** The bytes one call for `n` bytes yields: whole states, the last one cut short. */
  function Filled(h: Hashes, g: Gen, n: nat): (bytes: seq<byte>)
    ensures |bytes| == n
    decreases n
  {
    if n == 0 then []
    else if n <= STATE_LEN then NextState(h, g).state[..n]
    else NextState(h, g).state + Filled(h, NextState(h, g), n - STATE_LEN)
  }

  /** What is left of a fill of `total` bytes that has written `done` so far. */
  ghost predicate Remaining(h: Hashes, g: Gen, total: nat, done: seq<byte>, now: Gen) {
    && |done| <= total
    && done + Filled(h, now, total - |done|) == Filled(h, g, total)
    && States(h, now, Drawn(total - |done|)) == States(h, g, Drawn(total))
  }

  lemma RemainingAtStart(h: Hashes, g: Gen, total: nat)
    ensures Remaining(h, g, total, [], g)
  {
  }

  lemma RemainingStep(h: Hashes, g: Gen, total: nat, done: seq<byte>, now: Gen)
    requires Remaining(h, g, total, done, now) && |done| < total
    ensures var next := NextState(h, now);
            Remaining(h, g, total, done + next.state[..Min(STATE_LEN, total - |done|)], next)
  {
    hide NextState;
    var next := NextState(h, now);
    var chunk := next.state[..Min(STATE_LEN, total - |done|)];
    var rest := Filled(h, next, total - |done| - |chunk|);
    FilledUnfolds(h, now, total - |done|);
    assert done + (chunk + rest) == (done + chunk) + rest;
  }

  lemma RemainingAtEnd(h: Hashes, g: Gen, done: seq<byte>, now: Gen)
    requires Remaining(h, g, |done|, done, now)
    ensures done == Filled(h, g, |done|) && now == States(h, g, Drawn(|done|))
  {
    assert Drawn(0) == 0;
    assert done + [] == done;
  }

  class DigestRandomGenerator {
    var seed: Block64
    var state: Block64
    var stateCounter: u64
    var seedCounter: u64

    function Value(): Gen
      reads this
    {
      Gen(seed, state, stateCounter, seedCounter)
    }

    constructor ()
      ensures Value() == Fresh()
    {
      seed, state, stateCounter, seedCounter := Zero64(), Zero64(), 1, 1;
    }

    method CycleSeed(h: Hashes)
      modifies this
      ensures Value() == CycledSeed(h, old(Value()))
    {
      var ctr := CounterBytes(seedCounter);
      seedCounter := Bump(seedCounter);
      seed := h.sha512(seed + ctr);
    }

    method GenerateState(h: Hashes)
      modifies this
      ensures Value() == NextState(h, old(Value()))
    {
      var ctr := CounterBytes(stateCounter);
      stateCounter := Bump(stateCounter);
      state := h.sha512(ctr + state + seed);
      if stateCounter % CYCLE_COUNT == 0 {
        CycleSeed(h);
      }
    }

    method AddSeedMaterial(h: Hashes, material: seq<byte>)
      modifies this
      ensures Value() == old(Value()).(seed := h.sha512(material + old(seed)))
    {
      seed := h.sha512(material + seed);
    }

    /** One turn of `fill`: a new state, as much of it as the chunk takes. */
    method FillChunk(h: Hashes, out: array<byte>, at: nat, n: nat)
      requires at + n <= out.Length && n <= STATE_LEN
      modifies this, out
      ensures Value() == NextState(h, old(Value()))
      ensures out[..at + n] == old(out[..at]) + NextState(h, old(Value())).state[..n]
    {
      hide NextState;
      GenerateState(h);
      var chunk := state[..n];
      forall k | 0 <= k < n {
        out[at + k] := chunk[k];
      }
    }

    method Fill(h: Hashes, out: array<byte>)
      modifies this, out
      ensures out[..] == Filled(h, old(Value()), out.Length)
      ensures Value() == States(h, old(Value()), Drawn(out.Length))
    {
      hide NextState, Remaining, Filled, States, Drawn;
      ghost var g := Value();
      var i := 0;
      assert out[..0] == [];
      RemainingAtStart(h, g, out.Length);
      while i < out.Length
        invariant 0 <= i <= out.Length
        invariant Remaining(h, g, out.Length, out[..i], Value())
      {
        RemainingStep(h, g, out.Length, out[..i], Value());
        var n := Min(STATE_LEN, out.Length - i);
        FillChunk(h, out, i, n);
        i := i + n;
      }
      assert out[..i] == out[..];
      RemainingAtEnd(h, g, out[..], Value());
    }

    method SeedCycles() returns (n: nat)
      ensures n == SaturatingSub(seedCounter, 1)
    {
      n := SaturatingSub(seedCounter, 1);
    }

    method StatesGenerated() returns (n: nat)
      ensures n == SaturatingSub(stateCounter, 1)
    {
      n := SaturatingSub(stateCounter, 1);
    }
  }

  lemma FilledUnfolds(h: Hashes, g: Gen, n: nat)
    requires n > 0
    ensures var k, g1 := Min(STATE_LEN, n), NextState(h, g);
            && Filled(h, g, n) == g1.state[..k] + Filled(h, g1, n - k)
            && Drawn(n) == 1 + Drawn(n - k)
            && States(h, g, Drawn(n)) == States(h, g1, Drawn(n - k))
  {
    hide NextState;
  }

  lemma NothingFilled(h: Hashes, g: Gen)
    ensures Drawn(0) == 0 && Filled(h, g, 0) == [] && States(h, g, 0) == g
  {
  }

  // ----- the law of consecutive fills -----

  lemma {:induction false} StatesCompose(h: Hashes, g: Gen, m: nat, n: nat)
    ensures States(h, States(h, g, m), n) == States(h, g, m + n)
    decreases m
  {
    hide NextState;
    if m == 0 {
    } else {
      StatesCompose(h, NextState(h, g), m - 1, n);
    }
  }

  /** Two calls are one longer call, in output and in what they leave behind, whenever the first
      ends on a state boundary. */
  lemma {:induction false} FillsCompose(h: Hashes, g: Gen, a: nat, b: nat)
    requires a % STATE_LEN == 0
    ensures Filled(h, g, a) + Filled(h, States(h, g, Drawn(a)), b) == Filled(h, g, a + b)
    ensures States(h, States(h, g, Drawn(a)), Drawn(b)) == States(h, g, Drawn(a + b))
    decreases a
  {
    hide NextState, Filled, States, Drawn;
    if a == 0 {
      NothingFilled(h, g);
      assert [] + Filled(h, g, b) == Filled(h, g, b);
    } else {
      var g1 := NextState(h, g);
      FilledUnfolds(h, g, a);
      FilledUnfolds(h, g, a + b);
      FillsCompose(h, g1, a - STATE_LEN, b);
      assert (g1.state + Filled(h, g1, a - STATE_LEN)) + Filled(h, States(h, g, Drawn(a)), b)
          == g1.state + (Filled(h, g1, a - STATE_LEN) + Filled(h, States(h, g, Drawn(a)), b));
    }
  }

  // ----- counting -----

  function TotalDrawn(fills: seq<nat>): nat
    decreases |fills|
  {
    if fills == [] then 0 else TotalDrawn(fills[..|fills| - 1]) + Drawn(fills[|fills| - 1])
  }

  function AfterFills(h: Hashes, g: Gen, fills: seq<nat>): Gen
    decreases |fills|
  {
    if fills == [] then g else States(h, AfterFills(h, g, fills[..|fills| - 1]), Drawn(fills[|fills| - 1]))
  }

  lemma CountersAfterState(h: Hashes, g: Gen)
    requires g.stateCounter >= 1 && g.seedCounter == 1 + g.stateCounter / CYCLE_COUNT
    requires g.stateCounter + 1 < U64_LIMIT
    ensures var g' := NextState(h, g);
            g'.stateCounter == g.stateCounter + 1 && g'.seedCounter == 1 + g'.stateCounter / CYCLE_COUNT
  {
    hide CounterBytes;
    assert Bump(g.stateCounter) == g.stateCounter + 1;
    assert Bump(g.seedCounter) == g.seedCounter + 1;
  }

  lemma {:induction false} CountersAfterStates(h: Hashes, g: Gen, n: nat)
    requires g.stateCounter >= 1 && g.seedCounter == 1 + g.stateCounter / CYCLE_COUNT
    requires g.stateCounter + n < U64_LIMIT
    ensures var g' := States(h, g, n);
            g'.stateCounter == g.stateCounter + n && g'.seedCounter == 1 + g'.stateCounter / CYCLE_COUNT
    decreases n
  {
    if n == 0 {
    } else {
      CountersAfterState(h, g);
      hide NextState;
      CountersAfterStates(h, NextState(h, g), n - 1);
    }
  }

  /** From a fresh generator, through any calls of any sizes, with or without seed material added
      before them: the states generated are the chunks drawn, and the seed has cycled once for
      every ten values the counter passed. The counter starts at one, so the first cycle comes
      after the ninth state. It holds until the 64-bit counter wraps. */
  lemma {:induction false} GeneratorLaw(h: Hashes, g: Gen, fills: seq<nat>)
    requires g.stateCounter == 1 && g.seedCounter == 1
    requires 1 + TotalDrawn(fills) < U64_LIMIT
    ensures var g' := AfterFills(h, g, fills);
            && SaturatingSub(g'.stateCounter, 1) == TotalDrawn(fills)
            && SaturatingSub(g'.seedCounter, 1) == (TotalDrawn(fills) + 1) / CYCLE_COUNT
    decreases |fills|
  {
    AfterFillsIsOneRun(h, g, fills);
    CountersAfterStates(h, g, TotalDrawn(fills));
  }

  lemma {:induction false} AfterFillsIsOneRun(h: Hashes, g: Gen, fills: seq<nat>)
    ensures AfterFills(h, g, fills) == States(h, g, TotalDrawn(fills))
    decreases |fills|
  {
    if fills == [] {
    } else {
      var init := fills[..|fills| - 1];
      AfterFillsIsOneRun(h, g, init);
      StatesCompose(h, g, TotalDrawn(init), Drawn(fills[|fills| - 1]));
    }
  }
}
