/** Stopping a long operation (`recon.rs`): the caller's predicate, asked once per position and
    between steps, and the two wrappers that count its askings and remember its answers. */
module Cancellation {
  import opened Base

  const PROGRESS_EVERY := 256

  datatype Progress = Progress(account: u32, accounts: u32, position: u32, ceiling: u32)

  /** The caller's predicate. It may answer anything, and change its answer from one asking to the
      next: it may say stop exactly once. `Cancel::NEVER` is the one that always answers no. */
  class Predicate {
    const answers: nat -> bool
    var asked: nat

    constructor (answers: nat -> bool)
      ensures this.answers == answers && asked == 0
    {
      this.answers, asked := answers, 0;
    }

    method Ask() returns (stop: bool)
      modifies this
      ensures stop == answers(old(asked)) && asked == old(asked) + 1
    {
      stop := answers(asked);
      asked := asked + 1;
    }
  }

  /** The caller's progress callback. */
  class Observer {
    var reports: seq<Progress>

    constructor ()
      ensures reports == []
    {
      reports := [];
    }

    method Report(p: Progress)
      modifies this
      ensures reports == old(reports) + [p]
    {
      reports := reports + [p];
    }
  }

  /** A `Cancel` as an operation holds it: the predicate, and the closures of `watched` and
      `remembered` around it when they are asked for. */
  class Cancel {
    const asker: Predicate
    const observer: Observer?
    const at: Progress
    const remembers: bool
    var reached: u32
    var saidStop: bool

    constructor (asker: Predicate)
      ensures this.asker == asker && observer == null && !remembers && !saidStop
    {
      this.asker, observer, at, remembers, reached, saidStop := asker, null, Progress(0, 0, 0, 0), false, 0, false;
    }

    /** The closures of `watched`, and of `remembered` within it, around the same predicate. */
    constructor Wrapping(asker: Predicate, observer: Observer?, at: Progress, remembers: bool)
      ensures this.asker == asker && this.observer == observer && this.at == at && this.remembers == remembers
      ensures reached == 0 && !saidStop
    {
      this.asker, this.observer, this.at, this.remembers, reached, saidStop := asker, observer, at, remembers, 0, false;
    }

    /** What the predicate answers at its `n`-th asking, whoever asks. */
    function Stops(): nat -> bool { asker.answers }

    function Asked(): nat
      reads asker
    {
      asker.asked
    }

    /** The observer has been told of this many more askings. */
    ghost predicate Told(before: seq<Progress>, reachedBefore: u32, asks: nat)
      requires observer != null
      reads this, observer
    {
      && observer.reports == before + Reports(at, reachedBefore, asks)
      && reached == Reached(reachedBefore, asks)
    }

    /** The answer is the predicate's, whoever watches or remembers. */
    method Stop() returns (stop: bool)
      modifies this, asker, observer
      ensures stop == Stops()(old(Asked()))
      ensures Asked() == old(Asked()) + 1
      ensures saidStop == (old(saidStop) || (remembers && stop))
      ensures observer != null ==> Told(old(observer.reports), old(reached), 1)
    {
      if observer != null {
        reached := Min(reached + 1, U32_MAX);
        if reached % PROGRESS_EVERY == 0 {
          observer.Report(at.(position := reached));
        }
        assert Reports(at, old(reached), 0) == [];
      }
      stop := asker.Ask();
      if remembers && stop {
        saidStop := true;
      }
    }
  }

  function Reached(before: u32, asks: nat): u32 { Min(before + asks, U32_MAX) }

  /** The report owed once so many positions are reached: one for every 256 of them. */
  function Due(at: Progress, reached: u32): seq<Progress> {
    if reached % PROGRESS_EVERY == 0 then [at.(position := reached)] else []
  }

  /** What so many askings, from the count `before`, have an observer told. */
  function Reports(at: Progress, before: u32, asks: nat): seq<Progress>
    decreases asks
  {
    if asks == 0 then [] else Reports(at, before, asks - 1) + Due(at, Reached(before, asks))
  }

  lemma ReportsOneMore(at: Progress, before: u32, asks: nat)
    ensures Reports(at, before, asks + 1) == Reports(at, before, asks) + Reports(at, Reached(before, asks), 1)
    ensures Reached(before, asks + 1) == Reached(Reached(before, asks), 1)
    ensures Reports(at, before, 0) == [] && Reached(before, 0) == before
  {
    var now := Reached(before, asks);
    assert Reports(at, now, 1) == Reports(at, now, 0) + Due(at, Reached(now, 1));
  }

  /** A walk reports at its 256th position, its 512th, and so on, and at no other. */
  lemma {:induction false} ReportsEvery256(at: Progress, asks: u32)
    ensures |Reports(at, 0, asks)| == asks / PROGRESS_EVERY
    ensures forall i :: 0 <= i < asks / PROGRESS_EVERY ==>
              (i + 1) * PROGRESS_EVERY <= asks && Reports(at, 0, asks)[i] == at.(position := (i + 1) * PROGRESS_EVERY)
    decreases asks
  {
    if asks == 0 {
    } else {
      ReportsEvery256(at, asks - 1);
    }
  }

  /** A list of reports that starts with what is ahead, and then goes up by 256 without passing it. */
  ghost predicate Climbs(reports: seq<Progress>) {
    && reports != []
    && forall i :: 0 < i < |reports| ==>
         i * PROGRESS_EVERY <= reports[0].ceiling && reports[i] == reports[0].(position := i * PROGRESS_EVERY)
  }

  lemma ReportsClimb(at: Progress, asks: nat)
    requires asks <= at.ceiling
    ensures Climbs([at] + Reports(at, 0, asks))
  {
    ReportsEvery256(at, asks);
    hide Reports;
    var reports := [at] + Reports(at, 0, asks);
    forall i | 0 < i < |reports|
      ensures i * PROGRESS_EVERY <= at.ceiling && reports[i] == at.(position := i * PROGRESS_EVERY)
    {
      assert reports[i] == Reports(at, 0, asks)[i - 1];
    }
  }

  function Never(n: nat): bool { false }

  /** Some asking from `first` up to but not including `past` was answered stop. */
  ghost predicate SaidStop(stop: nat -> bool, first: nat, past: nat) {
    exists n :: first <= n < past && stop(n)
  }

  lemma SaidStopSplits(stop: nat -> bool, first: nat, middle: nat, past: nat)
    requires first <= middle <= past
    ensures SaidStop(stop, first, past) <==> SaidStop(stop, first, middle) || SaidStop(stop, middle, past)
  {
  }

  lemma SaidStopOnce(stop: nat -> bool, n: nat)
    ensures !SaidStop(stop, n, n)
    ensures SaidStop(stop, n, n + 1) <==> stop(n)
  {
  }

  /** What a cancellable operation returns in place of its result. */
  datatype Unfinished<+E> = Cancelled | Refused(cause: E)
}
