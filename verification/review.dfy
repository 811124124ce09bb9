/** The acknowledged advance of one account (`review_asking` in `cli/reconcile.rs`): the whole
    store is reconciled first, and one write follows only if nothing in it says not to. */
module Review {
  import opened Base
  import opened Primitives
  import opened Accounts
  import opened Cancellation
  import opened Scan
  import opened Store
  import opened Recon

  datatype Outcome =
    | MovedOn(index: u32)
    | NothingToDo(status: AccountStatus)
    | NoAdvance(target: Option<u32>)
    | SecondInstanceSignal(other: Tag)
    | NotHeld

  datatype Reviewed = Reviewed(reports: seq<Divergence>, accounts: nat, outcome: Outcome)

  type Finding = Result<AccountStatus, Divergence>

  /** Far enough that the walk reaches the position named. */
  function ScopeTo(to: u32): ScanScope { DIAGNOSTIC.(ceiling := SaturatingAdd32(to, 1)) }

  // ----- the review -----

  datatype Pass = Going(reports: seq<Divergence>, named: Option<Finding>, c: Counts) | Halted(c: Counts)

  /** The wider scope is for the account under review; the others are walked as usual. */
  function ScopeFor(t: Tag, tag: Tag, to: u32): ScanScope { if t == tag then ScopeTo(to) else DIAGNOSTIC }

  function Step(h: Hashes, handle: Handle, node: Script, tag: Tag, to: u32, t: Tag, master: Option<Block>,
                cancellable: bool, stop: nat -> bool, pass: Pass): Pass
    requires pass.Going?
  {
    var c := pass.c.(asked := pass.c.asked + 1);
    if stop(pass.c.asked) && cancellable then Halted(c)
    else
      var (r, c') := ReconcileNext(h, handle, node, t, master, ScopeFor(t, tag, to), stop, c);
      if r.Err? && WasStopped(r.error) && cancellable then Halted(c')
      else Going(if r.Err? then pass.reports + [r.error] else pass.reports,
                 if t == tag then Some(r) else pass.named, c')
  }

  function Passed(h: Hashes, handle: Handle, node: Script, tag: Tag, to: u32, tags: seq<Tag>, master: Option<Block>,
                  cancellable: bool, stop: nat -> bool, pass: Pass): Pass
    decreases |tags|
  {
    if pass.Halted? || tags == [] then pass
    else Passed(h, handle, node, tag, to, tags[1..], master, cancellable, stop,
                Step(h, handle, node, tag, to, tags[0], master, cancellable, stop, pass))
  }

  // ----- what follows from it -----

  /** Another account whose reservation the chain does not explain: two copies may be running. */
  function SecondInstance(reports: seq<Divergence>, tag: Tag): Option<Tag>
    decreases |reports|
  {
    if reports == [] then None
    else if reports[0].tag != tag && reports[0].ReservationUnexplained? then Some(reports[0].tag)
    else SecondInstance(reports[1..], tag)
  }

  datatype Decision = Report(outcome: Outcome) | Acknowledged(ack: Acknowledgement)

  function Decide(reports: seq<Divergence>, named: Option<Finding>, tag: Tag, to: u32): Decision {
    match named
    case None => Report(NotHeld)
    case Some(Ok(status)) => Report(NothingToDo(status))
    case Some(Err(d)) =>
      if SecondInstance(reports, tag).Some? then Report(SecondInstanceSignal(SecondInstance(reports, tag).value))
      else match Acknowledges(d)
        case None => Report(NoAdvance(None))
        case Some(ack) => if ack.target != to then Report(NoAdvance(Some(ack.target))) else Acknowledged(ack)
  }

  type Conclusion = Result<Reviewed, Unfinished<Error>>

  function ReviewRun(h: Hashes, s: StoreState, medium: Medium, node: Script, tag: Tag, master: Option<Block>, to: u32,
                     cancellable: bool, stop: nat -> bool, c: Counts): (Conclusion, StoreState, Counts)
  {
    match s.handle
    case Dead(first) => (Err(Refused(Poisoned(first))), s, c)
    case Live(image) =>
      if tag !in image.order then (Ok(Reviewed([], |image.order|, NotHeld)), s, c)
      else
        var pass := Passed(h, s.handle, node, tag, to, image.order, master, cancellable, stop, Going([], None, c));
        if pass.Halted? then (Err(Cancelled), s, pass.c)
        else Concluded(h, s, medium, node, tag, master, to, |image.order|, cancellable, stop, pass)
  }

  function Concluded(h: Hashes, s: StoreState, medium: Medium, node: Script, tag: Tag, master: Option<Block>, to: u32,
                     accounts: nat, cancellable: bool, stop: nat -> bool, pass: Pass): (Conclusion, StoreState, Counts)
    requires pass.Going?
  {
    match Decide(pass.reports, pass.named, tag, to)
    case Report(outcome) => (Ok(Reviewed(pass.reports, accounts, outcome)), s, pass.c)
    case Acknowledged(ack) =>
      match AccessFor(s.handle, tag, master)
      case Err(d) => (Ok(Reviewed(pass.reports + [d], accounts, NoAdvance(None))), s, pass.c)
      case Ok(access) =>
        var c := pass.c.(asked := pass.c.asked + 1);
        if stop(pass.c.asked) && cancellable then (Err(Cancelled), s, c)
        else Acted(h, s, medium, node, tag, access, ack, to, accounts, cancellable, stop, pass.reports, c)
  }

  /** The acknowledged advance itself, and what its own stops become. */
  function Acted(h: Hashes, s: StoreState, medium: Medium, node: Script, tag: Tag, access: KeyAccess,
                 ack: Acknowledgement, to: u32, accounts: nat, cancellable: bool, stop: nat -> bool,
                 reports: seq<Divergence>, c: Counts)
    : (Conclusion, StoreState, Counts)
  {
    var (r, s', c') := GuardedAdvanceRun(h, s, medium, node, tag, access, ack, ScopeTo(to), true, stop, c);
    var walkStopped := WalkSaidStop(h, s.handle, node, tag, access, ack, ScopeTo(to), stop, c);
    (match r
     case Ok(index) => Ok(Reviewed(reports, accounts, MovedOn(index)))
     case Err(e) =>
       if cancellable && (e == WasCancelled || (e == AcknowledgementDoesNotMatch && walkStopped)) then Err(Cancelled)
       else Err(Refused(e)),
     s', c')
  }

  // ----- what an observer is told -----

  function PositionOf(tags: seq<Tag>, tag: Tag): nat
    decreases |tags|
  {
    if tags == [] || tags[0] == tag then 0 else 1 + PositionOf(tags[1..], tag)
  }

  function StepReports(h: Hashes, handle: Handle, node: Script, tag: Tag, to: u32, t: Tag, n: nat, of: nat,
                       master: Option<Block>, cancellable: bool, stop: nat -> bool, pass: Pass): seq<Progress>
    requires pass.Going?
  {
    if stop(pass.c.asked) && cancellable then []
    else NextReports(h, handle, node, t, master, ScopeFor(t, tag, to), stop, pass.c.(asked := pass.c.asked + 1), n, of)
  }

  function PassReports(h: Hashes, handle: Handle, node: Script, tag: Tag, to: u32, tags: seq<Tag>, n: nat, of: nat,
                       master: Option<Block>, cancellable: bool, stop: nat -> bool, pass: Pass): seq<Progress>
    decreases |tags|
  {
    if pass.Halted? || tags == [] then []
    else StepReports(h, handle, node, tag, to, tags[0], n, of, master, cancellable, stop, pass)
         + PassReports(h, handle, node, tag, to, tags[1..], n + 1, of, master, cancellable, stop,
                       Step(h, handle, node, tag, to, tags[0], master, cancellable, stop, pass))
  }

  /** The announcement before the second walk, and that walk's own reports. */
  function ConcludedReports(h: Hashes, handle: Handle, node: Script, tag: Tag, master: Option<Block>, to: u32,
                            tags: seq<Tag>,
                            cancellable: bool, stop: nat -> bool, pass: Pass): seq<Progress>
    requires pass.Going?
  {
    var decision, access := Decide(pass.reports, pass.named, tag, to), AccessFor(handle, tag, master);
    if decision.Report? || access.Err? || (stop(pass.c.asked) && cancellable) then []
    else ActedReports(h, handle, node, tag, access.value, decision.ack, to, tags, stop,
                      pass.c.(asked := pass.c.asked + 1))
  }

  function ActedReports(h: Hashes, handle: Handle, node: Script, tag: Tag, access: KeyAccess, ack: Acknowledgement,
                        to: u32, tags: seq<Tag>, stop: nat -> bool, c: Counts): seq<Progress>
  {
    var at := Announcement(handle, tag, ScopeTo(to), PositionOf(tags, tag), |tags|);
    [at] + Reports(at, 0, GuardedAsks(h, handle, node, tag, access, ack, ScopeTo(to), stop, c))
  }

  function ReviewReports(h: Hashes, handle: Handle, node: Script, tag: Tag, master: Option<Block>, to: u32,
                         cancellable: bool, stop: nat -> bool, c: Counts): seq<Progress>
  {
    if handle.Dead? || tag !in handle.image.order then []
    else
      var order, start := handle.image.order, Pass.Going([], None, c);
      var pass := Passed(h, handle, node, tag, to, order, master, cancellable, stop, start);
      PassReports(h, handle, node, tag, to, order, 0, |order|, master, cancellable, stop, start)
      + if pass.Halted? then [] else ConcludedReports(h, handle, node, tag, master, to, order, cancellable, stop, pass)
  }

  // ----- the review, running -----

  method ReviewAsking(store: Keystore, node: Node, tag: Tag, master: Option<Block>, to: u32, cancel: Cancel,
                      observer: Observer?, cancellable: bool) returns (r: Conclusion)
    requires cancel.observer == null && !cancel.remembers
    modifies store, node, cancel, cancel.asker, observer
    ensures var run := ReviewRun(store.h, old(store.Value()), store.medium, node.script, tag, master, to, cancellable,
                                 cancel.Stops(), Counts(old(node.calls), old(cancel.Asked())));
            && r == run.0 && store.Value() == run.1 && node.calls == run.2.calls && cancel.Asked() == run.2.asked
    ensures observer != null ==>
              observer.reports == old(observer.reports)
                + ReviewReports(store.h, old(store.handle), node.script, tag, master, to, cancellable, cancel.Stops(),
                                Counts(old(node.calls), old(cancel.Asked())))
  {
    hide Passed, PassReports, Concluded, ConcludedReports;
    var tags := store.Tags();
    if tags.Err? {
      return Err(Refused(tags.error));
    }
    if tag !in tags.value {
      return Ok(Reviewed([], |tags.value|, NotHeld));
    }
    var halted, reports, named := ReviewAll(store, node, tag, to, tags.value, master, cancel, observer, cancellable);
    if halted {
      return Err(Cancelled);
    }
    r := Conclude(store, node, tag, master, to, tags.value, cancel, observer, cancellable, reports, named);
  }

  /** With what is still to come, the pass ends as `total` and the observer is told `toTell`. */
  ghost predicate Remaining(h: Hashes, handle: Handle, node: Script, tag: Tag, to: u32, tags: seq<Tag>, n: nat,
                            master: Option<Block>, cancellable: bool, stop: nat -> bool, pass: Pass,
                            told: seq<Progress>,
                            total: Pass, toTell: seq<Progress>)
    requires n <= |tags|
  {
    && Passed(h, handle, node, tag, to, tags[n..], master, cancellable, stop, pass) == total
    && told + PassReports(h, handle, node, tag, to, tags[n..], n, |tags|, master, cancellable, stop, pass) == toTell
  }

  lemma RemainingStep(h: Hashes, handle: Handle, node: Script, tag: Tag, to: u32, tags: seq<Tag>, n: nat,
                      master: Option<Block>, cancellable: bool, stop: nat -> bool, pass: Pass, told: seq<Progress>,
                      total: Pass, toTell: seq<Progress>)
    requires n < |tags| && pass.Going?
    requires Remaining(h, handle, node, tag, to, tags, n, master, cancellable, stop, pass, told, total, toTell)
    ensures var next := Step(h, handle, node, tag, to, tags[n], master, cancellable, stop, pass);
            var heard := told + StepReports(h, handle, node, tag, to, tags[n], n, |tags|, master, cancellable, stop,
                                            pass);
            && Remaining(h, handle, node, tag, to, tags, n + 1, master, cancellable, stop, next, heard, total, toTell)
            && (next.Halted? ==> total == next && toTell == heard)
  {
    hide Step, StepReports;
    assert tags[n..][0] == tags[n] && tags[n..][1..] == tags[n + 1..];
  }

  lemma RemainingEnds(h: Hashes, handle: Handle, node: Script, tag: Tag, to: u32, tags: seq<Tag>, master: Option<Block>,
                      cancellable: bool, stop: nat -> bool, start: Pass, pass: Pass, told: seq<Progress>,
                      total: Pass, toTell: seq<Progress>)
    ensures Remaining(h, handle, node, tag, to, tags, 0, master, cancellable, stop, start, [],
                      Passed(h, handle, node, tag, to, tags, master, cancellable, stop, start),
                      PassReports(h, handle, node, tag, to, tags, 0, |tags|, master, cancellable, stop, start))
    ensures Remaining(h, handle, node, tag, to, tags, |tags|, master, cancellable, stop, pass, told, total, toTell) ==>
              total == pass && toTell == told
  {
    assert tags[0..] == tags;
  }

  method ReviewAll(store: Keystore, node: Node, tag: Tag, to: u32, tags: seq<Tag>, master: Option<Block>,
                   cancel: Cancel,
                   observer: Observer?, cancellable: bool)
    returns (halted: bool, reports: seq<Divergence>, named: Option<Finding>)
    requires cancel.observer == null && !cancel.remembers
    modifies node, cancel, cancel.asker, observer
    ensures var c := Counts(node.calls, cancel.Asked());
            Passed(store.h, store.handle, node.script, tag, to, tags, master, cancellable, cancel.Stops(),
                   Going([], None, Counts(old(node.calls), old(cancel.Asked()))))
            == if halted then Halted(c) else Going(reports, named, c)
    ensures observer != null ==>
              observer.reports == old(observer.reports)
                + PassReports(store.h, store.handle, node.script, tag, to, tags, 0, |tags|, master, cancellable,
                              cancel.Stops(),
                              Going([], None, Counts(old(node.calls), old(cancel.Asked()))))
  {
    hide Step, StepReports, Remaining, Passed, PassReports;
    halted, reports, named := false, [], None;
    ghost var h, handle, script, stop := store.h, store.handle, node.script, cancel.Stops();
    ghost var start := Pass.Going([], None, Counts(node.calls, cancel.Asked()));
    ghost var total := Passed(h, handle, script, tag, to, tags, master, cancellable, stop, start);
    ghost var toTell := PassReports(h, handle, script, tag, to, tags, 0, |tags|, master, cancellable, stop, start);
    ghost var told: seq<Progress> := [];
    RemainingEnds(h, handle, script, tag, to, tags, master, cancellable, stop, start, start, told, total, toTell);
    var n := 0;
    while n < |tags|
      invariant 0 <= n <= |tags| && !halted
      invariant Remaining(h, handle, script, tag, to, tags, n, master, cancellable, stop,
                          Going(reports, named, Counts(node.calls, cancel.Asked())), told, total, toTell)
      invariant observer != null ==> observer.reports == old(observer.reports) + told
    {
      ghost var pass := Pass.Going(reports, named, Counts(node.calls, cancel.Asked()));
      RemainingStep(h, handle, script, tag, to, tags, n, master, cancellable, stop, pass, told, total, toTell);
      told := told + StepReports(h, handle, script, tag, to, tags[n], n, |tags|, master, cancellable, stop, pass);
      halted, reports, named := ReviewOne(store, node, tag, to, tags[n], n, |tags|, master, cancel, observer,
                                          cancellable, reports, named);
      if halted {
        return;
      }
      n := n + 1;
    }
    RemainingEnds(h, handle, script, tag, to, tags, master, cancellable, stop, start,
                  Going(reports, named, Counts(node.calls, cancel.Asked())), told, total, toTell);
  }

  /** One turn of the loop. */
  method ReviewOne(store: Keystore, node: Node, tag: Tag, to: u32, t: Tag, n: nat, of: nat, master: Option<Block>,
                   cancel: Cancel, observer: Observer?, cancellable: bool, reports: seq<Divergence>,
                   named: Option<Finding>)
    returns (halted: bool, reports': seq<Divergence>, named': Option<Finding>)
    requires cancel.observer == null && !cancel.remembers
    modifies node, cancel, cancel.asker, observer
    ensures var pass := Pass.Going(reports, named, Counts(old(node.calls), old(cancel.Asked())));
            var c := Counts(node.calls, cancel.Asked());
            && Step(store.h, store.handle, node.script, tag, to, t, master, cancellable, cancel.Stops(), pass)
               == (if halted then Halted(c) else Going(reports', named', c))
            && (observer != null ==>
                  observer.reports == old(observer.reports)
                    + StepReports(store.h, store.handle, node.script, tag, to, t, n, of, master, cancellable,
                                  cancel.Stops(), pass))
  {
    hide ReconcileNext, NextReports, WasStopped, ScopeTo;
    halted, reports', named' := true, reports, named;
    var stopped := cancel.Stop();
    if stopped && cancellable {
      return;
    }
    var walked := if t == tag then ScopeTo(to) else DIAGNOSTIC;
    var result := DoReconcileNext(store, node, t, master, walked, cancel, observer, n, of);
    if result.Err? {
      if WasStopped(result.error) && cancellable {
        return;
      }
      reports' := reports + [result.error];
    }
    if t == tag {
      named' := Some(result);
    }
    halted := false;
  }

  method Conclude(store: Keystore, node: Node, tag: Tag, master: Option<Block>, to: u32, tags: seq<Tag>, cancel: Cancel,
                  observer: Observer?, cancellable: bool, reports: seq<Divergence>, named: Option<Finding>)
    returns (r: Conclusion)
    requires cancel.observer == null && !cancel.remembers
    modifies store, node, cancel, cancel.asker, observer
    ensures var run := Concluded(store.h, old(store.Value()), store.medium, node.script, tag, master, to, |tags|,
                                 cancellable,
                                 cancel.Stops(), Going(reports, named, Counts(old(node.calls), old(cancel.Asked()))));
            && r == run.0 && store.Value() == run.1 && node.calls == run.2.calls && cancel.Asked() == run.2.asked
    ensures observer != null ==>
              observer.reports == old(observer.reports)
                + ConcludedReports(store.h, old(store.handle), node.script, tag, master, to, tags, cancellable,
                                   cancel.Stops(),
                                   Going(reports, named, Counts(old(node.calls), old(cancel.Asked()))))
  {
    hide Acted, ActedReports, Decide, AccessFor;
    var decision := Decide(reports, named, tag, to);
    if decision.Report? {
      return Ok(Reviewed(reports, |tags|, decision.outcome));
    }
    var access := AccessFor(store.handle, tag, master);
    if access.Err? {
      return Ok(Reviewed(reports + [access.error], |tags|, NoAdvance(None)));
    }
    var stopped := cancel.Stop();
    if stopped && cancellable {
      return Err(Cancelled);
    }
    r := Act(store, node, tag, access.value, decision.ack, to, tags, cancel, observer, cancellable, reports);
  }

  method Act(store: Keystore, node: Node, tag: Tag, access: KeyAccess, ack: Acknowledgement, to: u32, tags: seq<Tag>,
             cancel: Cancel, observer: Observer?, cancellable: bool, reports: seq<Divergence>) returns (r: Conclusion)
    requires cancel.observer == null && !cancel.remembers
    modifies store, node, cancel, cancel.asker, observer
    ensures var run := Acted(store.h, old(store.Value()), store.medium, node.script, tag, access, ack, to, |tags|,
                             cancellable, cancel.Stops(), reports, Counts(old(node.calls), old(cancel.Asked())));
            && r == run.0 && store.Value() == run.1 && node.calls == run.2.calls && cancel.Asked() == run.2.asked
    ensures observer != null ==>
              observer.reports == old(observer.reports)
                + ActedReports(store.h, old(store.handle), node.script, tag, access, ack, to, tags, cancel.Stops(),
                               Counts(old(node.calls), old(cancel.Asked())))
  {
    hide ReconcileRun, GuardedAdvanceRun, GuardedAsks, WalkSaidStop, ScopeTo, PositionOf, Announcement, Reports;
    var at := Announced(store, tag, ScopeTo(to), observer, PositionOf(tags, tag), |tags|);
    var walking := new Cancel.Wrapping(cancel.asker, observer, at, true);
    var advanced := GuardedAdvance(store, node, tag, access, ack, ScopeTo(to), walking, cancel);
    match advanced {
      case Ok(index) =>
        r := Ok(Reviewed(reports, |tags|, MovedOn(index)));
      case Err(e) =>
        if e == AcknowledgementDoesNotMatch && walking.saidStop && cancellable {
          return Err(Cancelled);
        }
        if e == WasCancelled && cancellable {
          return Err(Cancelled);
        }
        r := Err(Refused(e));
    }
  }
}
