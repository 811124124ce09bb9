/** Opening a wallet against the chain (`Wallet::open_asking` in `wallet.rs`): every account is
    reconciled in the store's order, and those that disagree are kept aside. */
module Opening {
  import opened Base
  import opened Primitives
  import opened Accounts
  import opened Cancellation
  import opened Scan
  import opened Store
  import opened Recon

  datatype Outcome =
    | Opened(accounts: seq<(Tag, AccountStatus)>, diverged: seq<Divergence>)
    | Unopened(why: Unfinished<seq<Divergence>>)

  /** Where the loop over the accounts is: still going, or stopped. */
  datatype Pass = Going(ok: seq<(Tag, AccountStatus)>, diverged: seq<Divergence>, c: Counts) | Halted(c: Counts)

  /** One account: ask, reconcile, and keep what came of it. `NEVER` cannot cancel the form that
      takes no predicate, whose refusal has no room for it. */
  function Step(h: Hashes, handle: Handle, node: Script, tag: Tag, master: Option<Block>, cancellable: bool,
                stop: nat -> bool, pass: Pass): Pass
    requires pass.Going?
  {
    var c := pass.c.(asked := pass.c.asked + 1);
    if stop(pass.c.asked) && cancellable then Halted(c)
    else
      var (r, c') := ReconcileNext(h, handle, node, tag, master, DIAGNOSTIC, stop, c);
      match r
      case Ok(status) => Going(pass.ok + [(tag, status)], pass.diverged, c')
      case Err(d) =>
        if WasStopped(d) && cancellable then Halted(c') else Going(pass.ok, pass.diverged + [d], c')
  }

  function Passed(h: Hashes, handle: Handle, node: Script, tags: seq<Tag>, master: Option<Block>, cancellable: bool,
                  stop: nat -> bool, pass: Pass): Pass
    decreases |tags|
  {
    if pass.Halted? || tags == [] then pass
    else Passed(h, handle, node, tags[1..], master, cancellable, stop,
                Step(h, handle, node, tags[0], master, cancellable, stop, pass))
  }

  /** A refusal only when no account reconciled. */
  function Finished(pass: Pass): Outcome {
    match pass
    case Halted(_) => Unopened(Cancelled)
    case Going(ok, diverged,
               _) => if ok == [] && diverged != [] then Unopened(Refused(diverged)) else Opened(ok, diverged)
  }

  const NO_TAG: Tag := [0, 0, 0, 0, 0, 0, 0, 0, 0, 0, 0, 0, 0, 0, 0, 0, 0, 0, 0, 0]

  function OpenRun(h: Hashes, handle: Handle, node: Script, master: Option<Block>, cancellable: bool,
                   stop: nat -> bool, c: Counts): (Outcome, Counts)
  {
    match handle
    case Dead(first) => (Unopened(Refused([CannotReconcile(NO_TAG, Poisoned(first))])), c)
    case Live(image) =>
      var pass := Passed(h, handle, node, image.order, master, cancellable, stop, Going([], [], c));
      (Finished(pass), pass.c)
  }

  /** All an observer is told from the `n`-th account on. */
  function PassReports(h: Hashes, handle: Handle, node: Script, tags: seq<Tag>, n: nat, of: nat, master: Option<Block>,
                       cancellable: bool, stop: nat -> bool, pass: Pass): seq<Progress>
    decreases |tags|
  {
    if pass.Halted? || tags == [] then []
    else StepReports(h, handle, node, tags[0], n, of, master, cancellable, stop, pass)
         + PassReports(h, handle, node, tags[1..], n + 1, of, master, cancellable, stop,
                       Step(h, handle, node, tags[0], master, cancellable, stop, pass))
  }

  function StepReports(h: Hashes, handle: Handle, node: Script, tag: Tag, n: nat, of: nat, master: Option<Block>,
                       cancellable: bool, stop: nat -> bool, pass: Pass): seq<Progress>
    requires pass.Going?
  {
    if stop(pass.c.asked) && cancellable then []
    else NextReports(h, handle, node, tag, master, DIAGNOSTIC, stop, pass.c.(asked := pass.c.asked + 1), n, of)
  }

  function OpenReports(h: Hashes, handle: Handle, node: Script, master: Option<Block>, cancellable: bool,
                       stop: nat -> bool, c: Counts): seq<Progress>
  {
    match handle
    case Dead(_) => []
    case Live(image) =>
      PassReports(h, handle, node, image.order, 0, |image.order|, master, cancellable, stop, Going([], [], c))
  }

  /** With what is still to come, the pass ends as `total` and the observer is told `toTell`. */
  ghost predicate Remaining(h: Hashes, handle: Handle, node: Script, tags: seq<Tag>, n: nat, master: Option<Block>,
                            cancellable: bool, stop: nat -> bool, pass: Pass, told: seq<Progress>,
                            total: Pass, toTell: seq<Progress>)
    requires n <= |tags|
  {
    && Passed(h, handle, node, tags[n..], master, cancellable, stop, pass) == total
    && told + PassReports(h, handle, node, tags[n..], n, |tags|, master, cancellable, stop, pass) == toTell
  }

  lemma RemainingStep(h: Hashes, handle: Handle, node: Script, tags: seq<Tag>, n: nat, master: Option<Block>,
                      cancellable: bool, stop: nat -> bool, pass: Pass, told: seq<Progress>,
                      total: Pass, toTell: seq<Progress>)
    requires n < |tags| && pass.Going?
    requires Remaining(h, handle, node, tags, n, master, cancellable, stop, pass, told, total, toTell)
    ensures var next := Step(h, handle, node, tags[n], master, cancellable, stop, pass);
            var heard := told + StepReports(h, handle, node, tags[n], n, |tags|, master, cancellable, stop, pass);
            && Remaining(h, handle, node, tags, n + 1, master, cancellable, stop, next, heard, total, toTell)
            && (next.Halted? ==> total == next && toTell == heard)
  {
    hide Step, StepReports;
    assert tags[n..][0] == tags[n] && tags[n..][1..] == tags[n + 1..];
  }

  lemma RemainingEnds(h: Hashes, handle: Handle, node: Script, tags: seq<Tag>, master: Option<Block>,
                      cancellable: bool, stop: nat -> bool, start: Pass, pass: Pass, told: seq<Progress>,
                      total: Pass, toTell: seq<Progress>)
    ensures Remaining(h, handle, node, tags, 0, master, cancellable, stop, start, [],
                      Passed(h, handle, node, tags, master, cancellable, stop, start),
                      PassReports(h, handle, node, tags, 0, |tags|, master, cancellable, stop, start))
    ensures Remaining(h, handle, node, tags, |tags|, master, cancellable, stop, pass, told, total, toTell) ==>
              total == pass && toTell == told
  {
    assert tags[0..] == tags;
  }

  method OpenAsking(store: Keystore, node: Node, master: Option<Block>, cancel: Cancel, observer: Observer?,
                    cancellable: bool)
    returns (r: Outcome)
    requires cancel.observer == null && !cancel.remembers
    modifies node, cancel, cancel.asker, observer
    ensures var run := OpenRun(store.h, store.handle, node.script, master, cancellable, cancel.Stops(),
                               Counts(old(node.calls), old(cancel.Asked())));
            && r == run.0 && node.calls == run.1.calls && cancel.Asked() == run.1.asked
    ensures observer != null ==>
              observer.reports == old(observer.reports)
                + OpenReports(store.h, store.handle, node.script, master, cancellable, cancel.Stops(),
                              Counts(old(node.calls), old(cancel.Asked())))
  {
    hide Step, StepReports, Remaining, Passed, PassReports;
    var tags := store.Tags();
    if tags.Err? {
      return Unopened(Refused([CannotReconcile(NO_TAG, tags.error)]));
    }
    var ok: seq<(Tag, AccountStatus)> := [];
    var diverged: seq<Divergence> := [];
    ghost var stop, start := cancel.Stops(), Going([], [], Counts(node.calls, cancel.Asked()));
    ghost var total := Passed(store.h, store.handle, node.script, tags.value, master, cancellable, stop, start);
    ghost var toTell := PassReports(store.h, store.handle, node.script, tags.value, 0, |tags.value|, master,
                                    cancellable, stop, start);
    ghost var told: seq<Progress> := [];
    RemainingEnds(store.h, store.handle, node.script, tags.value, master, cancellable, stop, start, start, told, total,
                  toTell);
    var n := 0;
    while n < |tags.value|
      invariant 0 <= n <= |tags.value|
      invariant Remaining(store.h, store.handle, node.script, tags.value, n, master, cancellable, stop,
                          Going(ok, diverged, Counts(node.calls, cancel.Asked())), told, total, toTell)
      invariant observer != null ==> observer.reports == old(observer.reports) + told
    {
      ghost var pass := Going(ok, diverged, Counts(node.calls, cancel.Asked()));
      RemainingStep(store.h, store.handle, node.script, tags.value, n, master, cancellable, stop, pass, told, total,
                    toTell);
      told := told + StepReports(store.h, store.handle, node.script, tags.value[n], n, |tags.value|, master,
                                 cancellable, stop, pass);
      var halted;
      halted, ok, diverged := OpenOne(store, node, tags.value[n], n, |tags.value|, master, cancel, observer,
                                      cancellable, ok, diverged);
      if halted {
        return Unopened(Cancelled);
      }
      n := n + 1;
    }
    RemainingEnds(store.h, store.handle, node.script, tags.value, master, cancellable, stop, start,
                  Going(ok, diverged, Counts(node.calls, cancel.Asked())), told, total, toTell);
    if ok == [] && diverged != [] {
      return Unopened(Refused(diverged));
    }
    return Opened(ok, diverged);
  }

  /** One turn of the loop. */
  method OpenOne(store: Keystore, node: Node, tag: Tag, n: nat, of: nat, master: Option<Block>, cancel: Cancel,
                 observer: Observer?, cancellable: bool, ok: seq<(Tag, AccountStatus)>, diverged: seq<Divergence>)
    returns (halted: bool, ok': seq<(Tag, AccountStatus)>, diverged': seq<Divergence>)
    requires cancel.observer == null && !cancel.remembers
    modifies node, cancel, cancel.asker, observer
    ensures var pass := Going(ok, diverged, Counts(old(node.calls), old(cancel.Asked())));
            var c := Counts(node.calls, cancel.Asked());
            && Step(store.h, store.handle, node.script, tag, master, cancellable, cancel.Stops(), pass)
               == (if halted then Halted(c) else Going(ok', diverged', c))
            && (observer != null ==>
                  observer.reports == old(observer.reports)
                    + StepReports(store.h, store.handle, node.script, tag, n, of, master, cancellable, cancel.Stops(),
                                  pass))
  {
    hide ReconcileNext, NextReports;
    halted, ok', diverged' := true, ok, diverged;
    var stopped := cancel.Stop();
    if stopped && cancellable {
      return;
    }
    var reconciled := DoReconcileNext(store, node, tag, master, DIAGNOSTIC, cancel, observer, n, of);
    if reconciled.Ok? {
      ok' := ok + [(tag, reconciled.value)];
    } else {
      if WasStopped(reconciled.error) && cancellable {
        return;
      }
      diverged' := diverged + [reconciled.error];
    }
    halted := false;
  }

  // ----- stopping is transparent -----

  lemma StepTransparent(h: Hashes, handle: Handle, node: Script, tag: Tag, master: Option<Block>, stop: nat -> bool,
                        pass: Pass)
    requires pass.Going?
    ensures var next := Step(h, handle, node, tag, master, true, stop, pass);
            && pass.c.asked <= next.c.asked
            && (SaidStop(stop, pass.c.asked, next.c.asked) <==> next.Halted?)
            && (next.Going? ==> next == Step(h, handle, node, tag, master, false, Never, pass))
  {
    hide ReconcileNext, WasStopped, SaidStop;
    var c := pass.c.(asked := pass.c.asked + 1);
    NextTransparent(h, handle, node, tag, master, DIAGNOSTIC, stop, c);
    SaidStopOnce(stop, pass.c.asked);
    var next := Step(h, handle, node, tag, master, true, stop, pass);
    if !stop(pass.c.asked) {
      SaidStopSplits(stop, pass.c.asked, c.asked, next.c.asked);
    }
  }

  lemma {:induction false} PassedTransparent(h: Hashes, handle: Handle, node: Script, tags: seq<Tag>,
                                             master: Option<Block>, stop: nat -> bool, pass: Pass)
    requires pass.Going?
    ensures var end := Passed(h, handle, node, tags, master, true, stop, pass);
            && pass.c.asked <= end.c.asked
            && (SaidStop(stop, pass.c.asked, end.c.asked) <==> end.Halted?)
            && (end.Going? ==> end == Passed(h, handle, node, tags, master, false, Never, pass))
    decreases |tags|
  {
    hide Step, SaidStop;
    SaidStopOnce(stop, pass.c.asked);
    if tags == [] {
    } else {
      StepTransparent(h, handle, node, tags[0], master, stop, pass);
      var next := Step(h, handle, node, tags[0], master, true, stop, pass);
      if next.Going? {
        PassedTransparent(h, handle, node, tags[1..], master, stop, next);
        var end := Passed(h, handle, node, tags, master, true, stop, pass);
        SaidStopSplits(stop, pass.c.asked, next.c.asked, end.c.asked);
      }
    }
  }

  /** Opening ends as cancelled exactly when some asking was answered stop, even if only one was,
      and otherwise ends as the form that cannot be cancelled does, on the same answers. */
  lemma OpenTransparent(h: Hashes, handle: Handle, node: Script, master: Option<Block>, stop: nat -> bool, c: Counts)
    ensures var (r, c') := OpenRun(h, handle, node, master, true, stop, c);
            && c.asked <= c'.asked
            && (SaidStop(stop, c.asked, c'.asked) <==> r == Unopened(Cancelled))
            && (!SaidStop(stop, c.asked, c'.asked) ==> (r, c') == OpenRun(h, handle, node, master, false, Never, c))
  {
    if handle.Live? {
      PassedTransparent(h, handle, node, handle.image.order, master, stop, Going([], [], c));
    }
  }

  // ----- nobody is lost -----

  /** The accounts seen so far, one way or the other. */
  function Everyone(ok: seq<(Tag, AccountStatus)>, diverged: seq<Divergence>): multiset<Tag> {
    multiset(seq(|ok|, i requires 0 <= i < |ok| => ok[i].0))
    + multiset(seq(|diverged|, i requires 0 <= i < |diverged| => diverged[i].tag))
  }

  lemma EveryoneAndOneMore(ok: seq<(Tag, AccountStatus)>, diverged: seq<Divergence>, tag: Tag,
                           r: Result<AccountStatus, Divergence>)
    ensures r.Ok? ==> Everyone(ok + [(tag, r.value)], diverged) == Everyone(ok, diverged) + multiset{tag}
    ensures r.Err? && r.error.tag == tag ==> Everyone(ok,
                                                      diverged + [r.error]) == Everyone(ok, diverged) + multiset{tag}
  {
    if r.Ok? {
      var ok' := ok + [(tag, r.value)];
      assert seq(|ok'|, i requires 0 <= i < |ok'| => ok'[i].0)
          == seq(|ok|, i requires 0 <= i < |ok| => ok[i].0) + [tag];
    } else if r.error.tag == tag {
      var diverged' := diverged + [r.error];
      assert seq(|diverged'|, i requires 0 <= i < |diverged'| => diverged'[i].tag)
          == seq(|diverged|, i requires 0 <= i < |diverged| => diverged[i].tag) + [tag];
    }
  }

  lemma StepAddsOne(h: Hashes, handle: Handle, node: Script, tag: Tag, master: Option<Block>, stop: nat -> bool,
                    pass: Pass)
    requires pass.Going?
    ensures var next := Step(h, handle, node, tag, master, false, stop, pass);
            && next.Going?
            && Everyone(next.ok, next.diverged) == Everyone(pass.ok, pass.diverged) + multiset{tag}
  {
    hide ReconcileNext, WasStopped, Everyone;
    var c := pass.c.(asked := pass.c.asked + 1);
    NextTag(h, handle, node, tag, master, DIAGNOSTIC, stop, c);
    var r := ReconcileNext(h, handle, node, tag, master, DIAGNOSTIC, stop, c).0;
    EveryoneAndOneMore(pass.ok, pass.diverged, tag, r);
  }

  lemma {:induction false} PassedAddsAll(h: Hashes, handle: Handle, node: Script, tags: seq<Tag>, master: Option<Block>,
                                         stop: nat -> bool, pass: Pass)
    requires pass.Going?
    ensures var end := Passed(h, handle, node, tags, master, false, stop, pass);
            && end.Going?
            && Everyone(end.ok, end.diverged) == Everyone(pass.ok, pass.diverged) + multiset(tags)
    decreases |tags|
  {
    hide Step, Everyone;
    if tags == [] {
    } else {
      StepAddsOne(h, handle, node, tags[0], master, stop, pass);
      PassedAddsAll(h, handle, node, tags[1..], master, stop,
                    Step(h, handle, node, tags[0], master, false, stop, pass));
      assert tags == [tags[0]] + tags[1..];
    }
  }

  /** Every account of the store ends up exactly once: reconciled, or set aside under its own tag;
      the wallet is refused only when there are accounts and not one of them reconciled. */
  lemma OpenPartitions(h: Hashes, handle: Handle, node: Script, master: Option<Block>, stop: nat -> bool, c: Counts)
    requires handle.Live?
    ensures var r := OpenRun(h, handle, node, master, false, stop, c).0;
            && (r.Opened? ==> Everyone(r.accounts, r.diverged) == multiset(handle.image.order)
                              && (r.accounts == [] ==> handle.image.order == []))
            && (r.Unopened? ==> r.why.Refused? && Everyone([], r.why.cause) == multiset(handle.image.order)
                                && handle.image.order != [])
  {
    PassedAddsAll(h, handle, node, handle.image.order, master, stop, Going([], [], c));
    var end := Passed(h, handle, node, handle.image.order, master, false, stop, Going([], [], c));
    hide Passed;
    assert |Everyone(end.ok, end.diverged)| == |end.ok| + |end.diverged| == |handle.image.order|;
  }
}
