/** What a review promises: it can be stopped at any asking and has then written nothing; it writes
    only what it was asked to and only where the chain is; and if nothing is in the way it does
    write, and the account then agrees with the chain. */
module ReviewLaws {
  import opened Base
  import opened Primitives
  import opened Derivation
  import opened Accounts
  import opened Cancellation
  import opened Scan
  import opened Store
  import opened Recon
  import opened Review
  import Settling
  import SpendingLaws

  // ----- stopping is transparent -----

  lemma StepTransparent(h: Hashes, handle: Handle, node: Script, tag: Tag, to: u32, t: Tag, master: Option<Block>,
                        stop: nat -> bool, pass: Pass)
    requires pass.Going?
    ensures var next := Step(h, handle, node, tag, to, t, master, true, stop, pass);
            && pass.c.asked <= next.c.asked
            && (SaidStop(stop, pass.c.asked, next.c.asked) <==> next.Halted?)
            && (next.Going? ==> next == Step(h, handle, node, tag, to, t, master, false, Never, pass))
  {
    hide ReconcileNext, WasStopped, SaidStop, ScopeFor;
    var c := pass.c.(asked := pass.c.asked + 1);
    NextTransparent(h, handle, node, t, master, ScopeFor(t, tag, to), stop, c);
    SaidStopOnce(stop, pass.c.asked);
    var next := Step(h, handle, node, tag, to, t, master, true, stop, pass);
    if !stop(pass.c.asked) {
      SaidStopSplits(stop, pass.c.asked, c.asked, next.c.asked);
    }
  }

  lemma {:induction false} PassedTransparent(h: Hashes, handle: Handle, node: Script, tag: Tag, to: u32, tags: seq<Tag>,
                                             master: Option<Block>, stop: nat -> bool, pass: Pass)
    requires pass.Going?
    ensures var end := Passed(h, handle, node, tag, to, tags, master, true, stop, pass);
            && pass.c.asked <= end.c.asked
            && (SaidStop(stop, pass.c.asked, end.c.asked) <==> end.Halted?)
            && (end.Going? ==> end == Passed(h, handle, node, tag, to, tags, master, false, Never, pass))
    decreases |tags|
  {
    hide Step, SaidStop;
    SaidStopOnce(stop, pass.c.asked);
    if tags == [] {
    } else {
      StepTransparent(h, handle, node, tag, to, tags[0], master, stop, pass);
      var next := Step(h, handle, node, tag, to, tags[0], master, true, stop, pass);
      if next.Going? {
        PassedTransparent(h, handle, node, tag, to, tags[1..], master, stop, next);
        var end := Passed(h, handle, node, tag, to, tags, master, true, stop, pass);
        SaidStopSplits(stop, pass.c.asked, next.c.asked, end.c.asked);
      }
    }
  }

  lemma MoveRefusals(s: StoreState, tag: Tag, target: u32, medium: Medium)
    ensures var (s', r) := PersistAdvanceTo(s, tag, target, medium);
            r.Err? ==> r.error != WasCancelled && r.error != AcknowledgementDoesNotMatch
  {
  }

  lemma GuardedTransparent(h: Hashes, s: StoreState, medium: Medium, node: Script, tag: Tag, access: KeyAccess,
                           ack: Acknowledgement, scope: ScanScope, stop: nat -> bool, c: Counts)
    ensures var (r, s', c') := GuardedAdvanceRun(h, s, medium, node, tag, access, ack, scope, true, stop, c);
            var walkStopped := WalkSaidStop(h, s.handle, node, tag, access, ack, scope, stop, c);
            var said := SaidStop(stop, c.asked, c'.asked);
            && c.asked <= c'.asked
            && (said <==> r == Err(WasCancelled) || (r == Err(AcknowledgementDoesNotMatch) && walkStopped))
            && (said ==> s' == s)
            && (!said ==> (r, s', c') == GuardedAdvanceRun(h, s, medium, node, tag, access, ack, scope, true, Never, c))
  {
    hide ReconcileRun, PersistAdvanceTo, SaidStop;
    SaidStopOnce(stop, c.asked);
    ReconcileTransparent(h, s.handle, node, tag, access, scope, stop, c);
    MoveRefusals(s, tag, ack.target, medium);
    var (_, c1) := ReconcileRun(h, s.handle, node, tag, access, scope, stop, c);
    SaidStopSplits(stop, c.asked, c1.asked, c1.asked + 1);
    SaidStopOnce(stop, c1.asked);
    var moved := PersistAdvanceTo(s, tag, ack.target, medium).1;
    var r := GuardedAdvanceRun(h, s, medium, node, tag, access, ack, scope, true, stop, c).0;
    assert r == Err(WasCancelled) ==> moved.Err? ==> moved.error != WasCancelled;
  }

  lemma ConcludedTransparent(h: Hashes, s: StoreState, medium: Medium, node: Script, tag: Tag, master: Option<Block>,
                             to: u32, accounts: nat, stop: nat -> bool, pass: Pass)
    requires pass.Going?
    ensures var (r, s', c') := Concluded(h, s, medium, node, tag, master, to, accounts, true, stop, pass);
            var said := SaidStop(stop, pass.c.asked, c'.asked);
            && pass.c.asked <= c'.asked
            && (said <==> r == Err(Cancelled))
            && (said ==> s' == s)
            && (!said ==> (r, s', c') == Concluded(h, s, medium, node, tag, master, to, accounts, false, Never, pass))
  {
    hide GuardedAdvanceRun, WalkSaidStop, SaidStop, Decide, ScopeTo, AccessFor;
    SaidStopOnce(stop, pass.c.asked);
    var decision, access := Decide(pass.reports, pass.named, tag, to), AccessFor(s.handle, tag, master);
    if decision.Acknowledged? && access.Ok? {
      var c := pass.c.(asked := pass.c.asked + 1);
      GuardedTransparent(h, s, medium, node, tag, access.value, decision.ack, ScopeTo(to), stop, c);
      var end := GuardedAdvanceRun(h, s, medium, node, tag, access.value, decision.ack, ScopeTo(to), true, stop, c).2;
      SaidStopSplits(stop, pass.c.asked, c.asked, end.asked);
    }
  }

  /** A review ends as cancelled exactly when some asking was answered stop: before an account,
      within a walk, before the second walk, within it, or before the write. It has then written
      nothing. Otherwise it is the review nobody can stop, on the same answers. */
  lemma ReviewTransparent(h: Hashes, s: StoreState, medium: Medium, node: Script, tag: Tag, master: Option<Block>,
                          to: u32,
                          stop: nat -> bool, c: Counts)
    ensures var (r, s', c') := ReviewRun(h, s, medium, node, tag, master, to, true, stop, c);
            var said := SaidStop(stop, c.asked, c'.asked);
            && c.asked <= c'.asked
            && (said <==> r == Err(Cancelled))
            && (said ==> s' == s)
            && (!said ==> (r, s', c') == ReviewRun(h, s, medium, node, tag, master, to, false, Never, c))
  {
    hide Concluded, SaidStop;
    SaidStopOnce(stop, c.asked);
    if s.handle.Live? && tag in s.handle.image.order {
      var order, pass := s.handle.image.order, Pass.Going([], None, c);
      PassedTransparent(h, s.handle, node, tag, to, order, master, stop, pass);
      var end := Passed(h, s.handle, node, tag, to, order, master, true, stop, pass);
      if end.Going? {
        ConcludedTransparent(h, s, medium, node, tag, master, to, |order|, stop, end);
        var c' := Concluded(h, s, medium, node, tag, master, to, |order|, true, stop, end).2;
        SaidStopSplits(stop, c.asked, end.c.asked, c'.asked);
      }
    }
  }

  // ----- what is written is where the chain is -----

  lemma {:induction false} FoundMatches(target: Address, ps: seq<u32>, at: Addresses, stop: nat -> bool, asked: nat)
    ensures var r := WalkRun(target, ps, at, stop, asked).0;
            r.Found? ==> r.position in ps && at(r.position) == Ok(target)
    decreases |ps|
  {
    if ps == [] {
    } else {
      FoundMatches(target, ps[1..], at, stop, asked + 1);
    }
  }

  /** The chain, at the answer numbered `call`, sits at `target`, strictly ahead of an account with
      nothing reserved. */
  ghost predicate SitsAhead(h: Hashes, handle: Handle, node: Script, tag: Tag, access: KeyAccess, target: u32,
                            call: nat) {
    && SlotOf(handle, tag).Ok?
    && var slot := SlotOf(handle, tag).value;
       && slot.pending.None? && slot.account.index < target < U32_MAX
       && node.resolve(call, tag).Entry?
       && AddressesOf(h, handle.image, slot, access)(target) == Ok(node.resolve(call, tag).address)
  }

  lemma AheadIsReal(h: Hashes, handle: Handle, node: Script, tag: Tag, access: KeyAccess, scope: ScanScope,
                    stop: nat -> bool, c: Counts)
    ensures var (r, c') := ReconcileRun(h, handle, node, tag, access, scope, stop, c);
            r.Err? && AdvanceTarget(r.error).Some? ==>
              SitsAhead(h, handle, node, tag, access, AdvanceTarget(r.error).value, c.calls) && c'.calls == c.calls + 1
  {
    hide AddressesOf, Positions;
    var found, reply := SlotOf(handle, tag), node.resolve(c.calls, tag);
    if found.Ok? && reply.Entry? {
      var slot := found.value;
      var at := AddressesOf(h, handle.image, slot, access);
      FoundMatches(reply.address, Positions(scope, Some(slot.account.index)), at, stop, c.asked);
      PositionsEnumerate(scope, Some(slot.account.index));
    }
    hide WalkRun;
  }

  /** An acknowledged advance writes only the move it was asked for, and only where its own walk
      has just found the chain, ahead of an account with nothing reserved. */
  lemma GuardedAdvanceSound(h: Hashes, s: StoreState, medium: Medium, node: Script, tag: Tag, access: KeyAccess,
                            ack: Acknowledgement, scope: ScanScope, writeAsks: bool, stop: nat -> bool, c: Counts)
    ensures var (r, s', c') := GuardedAdvanceRun(h, s, medium, node, tag, access, ack, scope, writeAsks, stop, c);
            && (s' != s ==> s' == PersistAdvanceTo(s, tag, ack.target, medium).0)
            && (s' != s || r.Ok? ==>
                  ack.tag == tag && c'.calls == c.calls + 1
                  && SitsAhead(h, s.handle, node, tag, access, ack.target, c.calls))
  {
    hide ReconcileRun, PersistAdvanceTo, SitsAhead, AdvanceTarget;
    AheadIsReal(h, s.handle, node, tag, access, scope, stop, c);
    var (found, c') := ReconcileRun(h, s.handle, node, tag, access, scope, stop, c);
    if found.Err? && AdvanceTarget(found.error) == Some(ack.target) {
      assert SitsAhead(h, s.handle, node, tag, access, ack.target, c.calls);
    }
  }

  ghost predicate Unexplained(r: Finding) { r.Err? && r.error.ReservationUnexplained? }

  /** What the review found of the `n`-th account. */
  ghost function FindingAt(h: Hashes, handle: Handle, node: Script, tag: Tag, to: u32, order: seq<Tag>,
                           master: Option<Block>,
                           cancellable: bool, stop: nat -> bool, c: Counts, n: nat): Option<Finding>
    requires n < |order|
  {
    var before := Passed(h, handle, node, tag, to, order[..n], master, cancellable, stop, Going([], None, c));
    if before.Halted? then None
    else Some(ReconcileNext(h, handle, node, order[n], master, ScopeFor(order[n], tag, to), stop,
                            before.c.(asked := before.c.asked + 1)).0)
  }

  /** No other account was found with a reservation the chain does not explain. */
  ghost predicate NoOtherUnexplained(h: Hashes, handle: Handle, node: Script, tag: Tag, to: u32, order: seq<Tag>,
                                     master: Option<Block>, cancellable: bool, stop: nat -> bool, c: Counts)
  {
    forall n :: 0 <= n < |order| && order[n] != tag ==>
      var found := FindingAt(h, handle, node, tag, to, order, master, cancellable, stop, c, n);
      found.Some? && !Unexplained(found.value)
  }

  lemma {:induction false} PassedInParts(h: Hashes, handle: Handle, node: Script, tag: Tag, to: u32, first: seq<Tag>,
                                         second: seq<Tag>, master: Option<Block>, cancellable: bool, stop: nat -> bool,
                                         pass: Pass)
    ensures Passed(h, handle, node, tag, to, first + second, master, cancellable, stop, pass)
         == Passed(h, handle, node, tag, to, second, master, cancellable, stop,
                   Passed(h, handle, node, tag, to, first, master, cancellable, stop, pass))
    decreases |first|
  {
    hide Step;
    if first == [] {
      assert first + second == second;
    } else if pass.Going? {
      assert (first + second)[1..] == first[1..] + second;
      PassedInParts(h, handle, node, tag, to, first[1..], second, master, cancellable, stop,
                    Step(h, handle, node, tag, to, first[0], master, cancellable, stop, pass));
    }
  }

  ghost function Findings(h: Hashes, handle: Handle, node: Script, tag: Tag, to: u32, order: seq<Tag>,
                          master: Option<Block>,
                          cancellable: bool, stop: nat -> bool, c: Counts, upTo: nat): seq<Option<Finding>>
    requires upTo <= |order|
  {
    seq(upTo, n requires 0 <= n < upTo => FindingAt(h, handle, node, tag, to, order, master, cancellable, stop, c, n))
  }

  /** The reports are the findings that went against their account, and nothing else. */
  ghost predicate Lists(reports: seq<Divergence>, findings: seq<Option<Finding>>, order: seq<Tag>)
    requires |findings| <= |order|
  {
    && (forall n :: 0 <= n < |findings| ==>
          && findings[n].Some?
          && (findings[n].value.Err? ==> findings[n].value.error in reports && findings[n].value.error.tag == order[n]))
    && (forall d :: d in reports ==> Some(Err(d)) in findings)
  }

  lemma ListsOneMore(reports: seq<Divergence>, findings: seq<Option<Finding>>, order: seq<Tag>, r: Finding)
    requires |findings| < |order| && Lists(reports, findings, order)
    requires r.Err? ==> r.error.tag == order[|findings|]
    ensures Lists(if r.Err? then reports + [r.error] else reports, findings + [Some(r)], order)
  {
    var reports' := if r.Err? then reports + [r.error] else reports;
    forall d | d in reports' ensures Some(Err(d)) in findings + [Some(r)] {
      if d !in reports {
        assert (findings + [Some(r)])[|findings|] == Some(Err(d));
      }
    }
  }

  lemma {:induction false} ReportsAreFindings(h: Hashes, handle: Handle, node: Script, tag: Tag, to: u32,
                                              order: seq<Tag>,
                                              master: Option<Block>, cancellable: bool, stop: nat -> bool, c: Counts,
                                              upTo: nat)
    requires upTo <= |order|
    requires Passed(h, handle, node, tag, to, order[..upTo], master, cancellable, stop, Going([], None, c)).Going?
    ensures Lists(Passed(h, handle, node, tag, to, order[..upTo], master, cancellable, stop,
                         Going([], None, c)).reports,
                  Findings(h, handle, node, tag, to, order, master, cancellable, stop, c, upTo), order)
    decreases upTo
  {
    hide Lists, ReconcileNext, ScopeFor, Step;
    var findings := Findings(h, handle, node, tag, to, order, master, cancellable, stop, c, upTo);
    if upTo == 0 {
      assert Lists([], [], order) by {
        NothingListed(order);
      }
      assert findings == [];
    } else {
      var k := upTo - 1;
      assert order[..upTo] == order[..k] + [order[k]];
      var start := Pass.Going([], None, c);
      PassedInParts(h, handle, node, tag, to, order[..k], [order[k]], master, cancellable, stop, start);
      var before := Passed(h, handle, node, tag, to, order[..k], master, cancellable, stop, start);
      assert before.Going?;
      ReportsAreFindings(h, handle, node, tag, to, order, master, cancellable, stop, c, k);
      var asked := before.c.(asked := before.c.asked + 1);
      var r := ReconcileNext(h, handle, node, order[k], master, ScopeFor(order[k], tag, to), stop, asked).0;
      NextTag(h, handle, node, order[k], master, ScopeFor(order[k], tag, to), stop, asked);
      OneMorePassed(h, handle, node, tag, to, order[k], master, cancellable, stop, before);
      assert findings == Findings(h, handle, node, tag, to, order, master, cancellable, stop, c, k) + [Some(r)];
      ListsOneMore(before.reports, Findings(h, handle, node, tag, to, order, master, cancellable, stop, c, k), order,
                   r);
    }
  }

  lemma NothingListed(order: seq<Tag>)
    ensures Lists([], [], order)
  {
  }

  lemma OneMorePassed(h: Hashes, handle: Handle, node: Script, tag: Tag, to: u32, t: Tag, master: Option<Block>,
                      cancellable: bool, stop: nat -> bool, before: Pass)
    requires before.Going? && Passed(h, handle, node, tag, to, [t], master, cancellable, stop, before).Going?
    ensures var r := ReconcileNext(h, handle, node, t, master, ScopeFor(t, tag, to), stop,
                                   before.c.(asked := before.c.asked + 1)).0;
            Passed(h, handle, node, tag, to, [t], master, cancellable, stop, before).reports
            == if r.Err? then before.reports + [r.error] else before.reports
  {
    hide ReconcileNext, ScopeFor, WasStopped;
    assert Passed(h, handle, node, tag, to, [t], master, cancellable, stop, before)
        == Passed(h, handle, node, tag, to, [], master, cancellable, stop,
                  Step(h, handle, node, tag, to, t, master, cancellable, stop, before));
  }

  lemma {:induction false} SecondInstanceMeans(reports: seq<Divergence>, tag: Tag)
    ensures SecondInstance(reports, tag).None? <==>
              forall d :: d in reports ==> d.tag == tag || !d.ReservationUnexplained?
    decreases |reports|
  {
    if reports == [] {
    } else {
      SecondInstanceMeans(reports[1..], tag);
      assert reports == [reports[0]] + reports[1..];
    }
  }

  lemma SecondInstanceIsFound(h: Hashes, handle: Handle, node: Script, tag: Tag, to: u32, order: seq<Tag>,
                              master: Option<Block>, cancellable: bool, stop: nat -> bool, c: Counts)
    requires Passed(h, handle, node, tag, to, order, master, cancellable, stop, Going([], None, c)).Going?
    ensures var reports := Passed(h, handle, node, tag, to, order, master, cancellable, stop,
                                  Going([], None, c)).reports;
            SecondInstance(reports, tag).None? <==>
              NoOtherUnexplained(h, handle, node, tag, to, order, master, cancellable, stop, c)
  {
    hide Passed, FindingAt, SecondInstance;
    var reports := Passed(h, handle, node, tag, to, order, master, cancellable, stop, Going([], None, c)).reports;
    assert order[..|order|] == order;
    ReportsAreFindings(h, handle, node, tag, to, order, master, cancellable, stop, c, |order|);
    var findings := Findings(h, handle, node, tag, to, order, master, cancellable, stop, c, |order|);
    SecondInstanceMeans(reports, tag);
    if SecondInstance(reports, tag).Some? {
      var d :| d in reports && d.tag != tag && d.ReservationUnexplained?;
      var n :| 0 <= n < |findings| && findings[n] == Some(Err(d));
      assert FindingAt(h, handle, node, tag, to, order, master, cancellable, stop, c,
                       n) == Some(Err(d)) && order[n] != tag;
    } else {
      forall n | 0 <= n < |order| && order[n] != tag
        ensures var found := FindingAt(h, handle, node, tag, to, order, master, cancellable, stop, c, n);
                found.Some? && !Unexplained(found.value)
      {
        assert findings[n] == FindingAt(h, handle, node, tag, to, order, master, cancellable, stop, c, n);
      }
    }
  }

  /** However it ends, a review changes the store only by the move it was asked for, of the account
      it was asked about; that account has nothing reserved, the node's last answer puts the chain
      at that very position, strictly ahead and not the last one, and no other account was found
      with a reservation the chain does not explain. */
  lemma ReviewSound(h: Hashes, s: StoreState, medium: Medium, node: Script, tag: Tag, master: Option<Block>, to: u32,
                    cancellable: bool, stop: nat -> bool, c: Counts)
    ensures var (r, s', c') := ReviewRun(h, s, medium, node, tag, master, to, cancellable, stop, c);
            s' != s || (r.Ok? && r.value.outcome.MovedOn?) ==>
              && s' == PersistAdvanceTo(s, tag, to, medium).0
              && s.handle.Live? && c'.calls > 0
              && AccessFor(s.handle, tag, master).Ok?
              && SitsAhead(h, s.handle, node, tag, AccessFor(s.handle, tag, master).value, to, c'.calls - 1)
              && NoOtherUnexplained(h, s.handle, node, tag, to, s.handle.image.order, master, cancellable, stop, c)
  {
    hide GuardedAdvanceRun, WalkSaidStop, ScopeTo, AccessFor, PersistAdvanceTo, SitsAhead, Passed, NoOtherUnexplained,
         SecondInstance;
    if s.handle.Live? && tag in s.handle.image.order {
      var order := s.handle.image.order;
      var pass := Passed(h, s.handle, node, tag, to, order, master, cancellable, stop, Going([], None, c));
      if pass.Going? {
        SecondInstanceIsFound(h, s.handle, node, tag, to, order, master, cancellable, stop, c);
        var decision, access := Decide(pass.reports, pass.named, tag, to), AccessFor(s.handle, tag, master);
        if decision.Acknowledged? && access.Ok? {
          GuardedAdvanceSound(h, s, medium, node, tag, access.value, decision.ack, ScopeTo(to), true, stop,
                              pass.c.(asked := pass.c.asked + 1));
          AdvancedMeans(h, s, medium, node, tag, access.value, decision.ack, ScopeTo(to), true, stop,
                        pass.c.(asked := pass.c.asked + 1));
        }
      }
    }
  }

  lemma AdvancedMeans(h: Hashes, s: StoreState, medium: Medium, node: Script, tag: Tag, access: KeyAccess,
                      ack: Acknowledgement, scope: ScanScope, writeAsks: bool, stop: nat -> bool, c: Counts)
    ensures var (r, s', c') := GuardedAdvanceRun(h, s, medium, node, tag, access, ack, scope, writeAsks, stop, c);
            r.Ok? ==> s' == PersistAdvanceTo(s, tag, ack.target, medium).0
  {
    hide ReconcileRun, PersistAdvanceTo;
  }

  // ----- when nothing is in the way, it is written -----

  /** Only `position` has its address, and every answer of the node about the account is that
      address: the chain stays there. */
  ghost predicate StaysAt(h: Hashes, image: Image, node: Script, tag: Tag, access: KeyAccess, position: u32)
    requires tag in image.slots
  {
    var at := AddressesOf(h, image, image.slots[tag], access);
    && at(position).Ok? && Settling.Unique(at, position)
    && forall call :: node.resolve(call, tag).Entry? && at(position) == Ok(node.resolve(call, tag).address)
  }

  lemma LocateAhead(position: u32, local: u32, at: Addresses, asked: nat)
    requires forall p: u32 :: at(p).Ok?
    requires local < position < U32_MAX && Settling.Unique(at, position)
    ensures LocateRun(at(position).value, local, ScopeTo(position), at, Never,
                      asked).0 == Ahead(position, position - local)
  {
    var target, scope := at(position).value, ScopeTo(position);
    assert at(position) == Ok(target);
    WalkIsComplete(target, scope, Some(local), at, asked);
    WalkFindsTheFirst(target, Positions(scope, Some(local)), at, asked);
    var r := WalkRun(target, Positions(scope, Some(local)), at, Never, asked).0;
    hide WalkRun, Positions, WindowEdges;
    if r.Found? {
      assert at(r.position) == at(position);
    } else {
      assert false;
    }
  }

  lemma SteadyFinding(h: Hashes, image: Image, node: Script, tag: Tag, access: KeyAccess, to: u32, c: Counts)
    requires tag in image.slots && StaysAt(h, image, node, tag, access, to)
    requires image.slots[tag].pending.None? && image.slots[tag].account.index < to < U32_MAX
    ensures var r := ReconcileRun(h, Live(image), node, tag, access, ScopeTo(to), Never, c).0;
            r.Err? && r.error.tag == tag && AdvanceTarget(r.error) == Some(to)
  {
    hide AddressesOf, Compare;
    var slot := image.slots[tag];
    var at := AddressesOf(h, image, slot, access);
    AddressesRefuseTogether(h, image, slot, access);
    Settling.ReconcileOfSlot(h, image, node, tag, access, ScopeTo(to), Never, c);
    Settling.SameAddresses(at, at, to);
    CompareAhead(tag, slot, node.resolve(c.calls, tag).balance, at, to, node, c.(calls := c.calls + 1));
  }

  lemma CompareAhead(tag: Tag, slot: Slot, balance: u64, at: Addresses, to: u32, node: Script, c: Counts)
    requires slot.pending.None? && slot.account.index < to < U32_MAX
    requires (forall p: u32 :: at(p).Ok?) && Settling.Unique(at, to)
    ensures var r := Compare(tag, slot, at(to).value, balance, at, ScopeTo(to), node, Never, c).0;
            r.Err? && r.error.tag == tag && AdvanceTarget(r.error) == Some(to)
  {
    LocateAhead(to, slot.account.index, at, c.asked);
    hide LocateRun, StreamOf, ScopeTo;
    assert at(slot.account.index) != at(to);
  }

  ghost predicate Names(named: Option<Finding>, tag: Tag, to: u32) {
    named.Some? && named.value.Err? && named.value.error.tag == tag && AdvanceTarget(named.value.error) == Some(to)
  }

  lemma {:induction false} PassedNames(h: Hashes, image: Image, node: Script, tag: Tag, to: u32, tags: seq<Tag>,
                                       master: Option<Block>, pass: Pass)
    requires pass.Going? && (tag in tags || Names(pass.named, tag, to))
    requires tag in image.slots && AccessFor(Live(image), tag, master).Ok?
    requires StaysAt(h, image, node, tag, AccessFor(Live(image), tag, master).value, to)
    requires image.slots[tag].pending.None? && image.slots[tag].account.index < to < U32_MAX
    ensures var end := Passed(h, Live(image), node, tag, to, tags, master, false, Never, pass);
            end.Going? && Names(end.named, tag, to)
    decreases |tags|
  {
    hide StaysAt, Names, AccessFor, ReconcileRun, ScopeTo, WasStopped;
    if tags == [] {
    } else {
      var c := pass.c.(asked := pass.c.asked + 1);
      var access := AccessFor(Live(image), tag, master).value;
      SteadyFinding(h, image, node, tag, access, to, c);
      NamesFinding(ReconcileRun(h, Live(image), node, tag, access, ScopeTo(to), Never, c).0, tag, to);
      var next := Step(h, Live(image), node, tag, to, tags[0], master, false, Never, pass);
      assert tags[0] == tag ==> Names(next.named, tag, to);
      hide Step;
      PassedNames(h, image, node, tag, to, tags[1..], master, next);
    }
  }

  lemma NamesFinding(r: Finding, tag: Tag, to: u32)
    requires r.Err? && r.error.tag == tag && AdvanceTarget(r.error) == Some(to)
    ensures Names(Some(r), tag, to)
  {
  }

  lemma MoveLands(s: StoreState, medium: Medium, tag: Tag, to: u32)
    requires s.handle.Live? && tag in s.handle.image.slots
    requires var slot := s.handle.image.slots[tag]; slot.pending.None? && slot.account.index < to
    ensures var slot := s.handle.image.slots[tag];
            var (s', moved) := PersistAdvanceTo(s, tag, to, medium);
            && (moved.Ok? <==> NextGeneration(s.handle.image).Some? && medium(s.commits) == Landed)
            && (moved.Ok? ==>
                  && s'.handle == Live(s'.disk)
                  && s'.disk.slots == s.handle.image.slots[tag := Slot(slot.account.(index := to), None, None)])
  {
  }

  /** For an account with nothing reserved, and a chain that stays at the position named, strictly
      ahead of it: the review moves the account there exactly when no other account's reservation
      is unexplained and the write reaches the disk. Only the very last position is out of reach. */
  lemma ReviewAdvances(h: Hashes, s: StoreState, medium: Medium, node: Script, tag: Tag, master: Option<Block>,
                       to: u32, c: Counts)
    requires s.handle.Live? && tag in s.handle.image.order && tag in s.handle.image.slots
    requires AccessFor(s.handle, tag, master).Ok?
    requires StaysAt(h, s.handle.image, node, tag, AccessFor(s.handle, tag, master).value, to)
    requires s.handle.image.slots[tag].pending.None? && s.handle.image.slots[tag].account.index < to < U32_MAX
    ensures var (r, s', c') := ReviewRun(h, s, medium, node, tag, master, to, false, Never, c);
            var slot := s.handle.image.slots[tag];
            && (r.Ok? && r.value.outcome == MovedOn(to) <==>
                  && NoOtherUnexplained(h, s.handle, node, tag, to, s.handle.image.order, master, false, Never, c)
                  && NextGeneration(s.handle.image).Some? && medium(s.commits) == Landed)
            && (r.Ok? && r.value.outcome == MovedOn(to) ==>
                  && s'.handle == Live(s'.disk)
                  && s'.disk.slots == s.handle.image.slots[tag := Slot(slot.account.(index := to), None, None)])
  {
    hide GuardedAdvanceRun, WalkSaidStop, ScopeTo, PersistAdvanceTo, StaysAt, Passed, NoOtherUnexplained,
         SecondInstance,
         NextGeneration, AccessFor;
    var order, start := s.handle.image.order, Pass.Going([], None, c);
    PassedNames(h, s.handle.image, node, tag, to, order, master, start);
    var pass := Passed(h, s.handle, node, tag, to, order, master, false, Never, start);
    SecondInstanceIsFound(h, s.handle, node, tag, to, order, master, false, Never, c);
    var asked := pass.c.(asked := pass.c.asked + 1);
    GuardedSteady(h, s, medium, node, tag, AccessFor(s.handle, tag, master).value, to, asked);
    MoveLands(s, medium, tag, to);
  }

  lemma GuardedSteady(h: Hashes, s: StoreState, medium: Medium, node: Script, tag: Tag, access: KeyAccess, to: u32,
                      c: Counts)
    requires s.handle.Live? && tag in s.handle.image.slots
    requires StaysAt(h, s.handle.image, node, tag, access, to)
    requires s.handle.image.slots[tag].pending.None? && s.handle.image.slots[tag].account.index < to < U32_MAX
    ensures var (r, s', _) := GuardedAdvanceRun(h, s, medium, node, tag, access, Acknowledgement(tag, to), ScopeTo(to),
                                                true, Never, c);
            var (s1, moved) := PersistAdvanceTo(s, tag, to, medium);
            && s' == s1
            && r == (match moved case Ok(_) => Ok(to) case Err(e) => Err(e))
  {
    hide ReconcileRun, PersistAdvanceTo, StaysAt, AdvanceTarget, ScopeTo;
    SteadyFinding(h, s.handle.image, node, tag, access, to, c);
  }

  /** And then the account is in sync at that position, for whoever reconciles it next. */
  lemma AdvancedThenInSync(h: Hashes, image: Image, next: Image, node: Script, tag: Tag, access: KeyAccess, to: u32,
                           scope: ScanScope, stop: nat -> bool, c: Counts)
    requires tag in image.slots && StaysAt(h, image, node, tag, access, to)
    requires next.slots == image.slots[tag := Slot(image.slots[tag].account.(index := to), None, None)]
    ensures var reply := node.resolve(c.calls, tag);
            ReconcileRun(h, Live(next), node, tag, access, scope, stop,
                         c).0 == Ok(InSync(to, reply.address, reply.balance))
  {
    hide KeyAt, Roots, AddressOf, LocateRun;
    SpendingLaws.RootsUnchanged(image, tag, next.slots[tag]);
    SpendingLaws.KeyIgnoresIndex(h, Roots(image.slots), image.slots[tag].account, to, to, access);
    Settling.ReconcileOfSlot(h, next, node, tag, access, scope, stop, c);
    assert AddressesOf(h, image, image.slots[tag], access)(to) == Ok(node.resolve(c.calls, tag).address);
    assert AddressesOf(h, next, next.slots[tag], access)(to) == AddressesOf(h, image, image.slots[tag], access)(to);
  }
}
