/** What a review comes to, arm by arm, stated over the findings of its accounts: what is reported,
    which outcome, and what the second look allows to be written. */
module ReviewOutcomes {
  import opened Base
  import opened Primitives
  import opened Derivation
  import opened Accounts
  import opened Cancellation
  import opened Scan
  import opened Store
  import opened Writes
  import opened Recon
  import opened Findings
  import opened Review

  /** How far each account is walked: in the usual window and range, and the one under review as far
      as the position named. */
  ghost function Reviewing(tag: Tag, to: u32): Scopes {
    (t: Tag) => if t != tag then ScanScope(10_000, Some(20))
                else ScanScope(if to == 0xFFFF_FFFF then to else to + 1, Some(20))
  }

  ghost function FoundBy(h: Hashes, image: Image, node: Script, tag: Tag, to: u32, master: Option<Block>,
                         c: Counts): seq<Finding>
  {
    FindingsOf(h, Live(image), node, image.order, master, Reviewing(tag, to), c)
  }

  // ----- the pass over the accounts -----

  lemma StepReviews(h: Hashes, handle: Handle, node: Script, tag: Tag, to: u32, t: Tag, master: Option<Block>,
                    pass: Pass)
    requires pass.Going?
    ensures var (r, c') := ReconcileNext(h, handle, node, t, master, Reviewing(tag, to)(t), Never,
                                         pass.c.(asked := pass.c.asked + 1));
            Step(h, handle, node, tag, to, t, master, false, Never, pass)
            == Going(if r.Err? then pass.reports + [r.error] else pass.reports,
                     if t == tag then Some(r) else pass.named, c')
  {
    hide ReconcileNext;
  }

  lemma {:induction false} PassReviews(h: Hashes, handle: Handle, node: Script, tag: Tag, to: u32, tags: seq<Tag>,
                                       master: Option<Block>, pass: Pass)
    requires pass.Going?
    ensures var found := FindingsOf(h, handle, node, tags, master, Reviewing(tag, to), pass.c);
            var end := Passed(h, handle, node, tag, to, tags, master, false, Never, pass);
            && |found| == |tags|
            && end.Going?
            && end.reports == pass.reports + SetAside(found)
            && end.c == CountsAfter(h, handle, node, tags, master, Reviewing(tag, to), pass.c)
    decreases |tags|
  {
    hide ReconcileNext, Step, SetAside, Reviewing;
    if tags == [] {
      FiledNone();
    } else {
      var (r, c') := ReconcileNext(h, handle, node, tags[0], master, Reviewing(tag, to)(tags[0]), Never,
                                   pass.c.(asked := pass.c.asked + 1));
      StepReviews(h, handle, node, tag, to, tags[0], master, pass);
      PassReviews(h, handle, node, tag, to, tags[1..], master,
                  Step(h, handle, node, tag, to, tags[0], master, false, Never, pass));
      FiledFirst(tags, r, FindingsOf(h, handle, node, tags[1..], master, Reviewing(tag, to), c'), [], pass.reports);
    }
  }

  lemma {:induction false} PassNames(h: Hashes, handle: Handle, node: Script, tag: Tag, to: u32, tags: seq<Tag>,
                                     master: Option<Block>, pass: Pass)
    requires pass.Going? && Distinct(tags)
    ensures var found := FindingsOf(h, handle, node, tags, master, Reviewing(tag, to), pass.c);
            var end := Passed(h, handle, node, tag, to, tags, master, false, Never, pass);
            && |found| == |tags| && end.Going?
            && (tag !in tags ==> end.named == pass.named)
            && forall k :: 0 <= k < |tags| && tags[k] == tag ==> end.named == Some(found[k])
    decreases |tags|
  {
    hide ReconcileNext, Step, Reviewing;
    if tags == [] {
    } else {
      StepReviews(h, handle, node, tag, to, tags[0], master, pass);
      PassNames(h, handle, node, tag, to, tags[1..], master,
                Step(h, handle, node, tag, to, tags[0], master, false, Never, pass));
      assert tag in tags[1..] ==> tag != tags[0];
      assert forall k :: 0 < k < |tags| ==> tags[1..][k - 1] == tags[k];
    }
  }

  lemma {:induction false} PassTells(h: Hashes, handle: Handle, node: Script, tag: Tag, to: u32, tags: seq<Tag>, n: nat,
                                     of: nat, master: Option<Block>, pass: Pass)
    requires pass.Going?
    ensures PassReports(h, handle, node, tag, to, tags, n, of, master, false, Never, pass)
         == ToldOf(h, handle, node, tags, n, of, master, Reviewing(tag, to), pass.c)
    decreases |tags|
  {
    hide ReconcileNext, Step, NextReports;
    if tags == [] {
    } else {
      StepReviews(h, handle, node, tag, to, tags[0], master, pass);
      PassTells(h, handle, node, tag, to, tags[1..], n + 1, of, master,
                Step(h, handle, node, tag, to, tags[0], master, false, Never, pass));
    }
  }

  // ----- what follows -----

  /** Another account, the first in the store's order, has a reservation the chain does not explain. */
  ghost predicate FirstUnexplained(order: seq<Tag>, found: seq<Finding>, tag: Tag, n: nat)
    requires |order| == |found|
  {
    && n < |order| && order[n] != tag && Unexplained(found[n])
    && forall m :: 0 <= m < n && order[m] != tag ==> !Unexplained(found[m])
  }

  ghost predicate Unexplained(r: Finding) { r.Err? && r.error.ReservationUnexplained? }

  /** The chain is ahead of the account, at this position. */
  ghost predicate AheadAt(r: Finding, position: u32) {
    r.Err? && r.error.IndexMismatch? && r.error.found.Ahead? && r.error.found.index == position
  }

  /** What the findings alone decide: nothing to do, a second instance, no advance, or, when it is
      none of these, an advance to the position named. */
  ghost predicate Decides(outcome: Outcome, order: seq<Tag>, found: seq<Finding>, tag: Tag, k: nat)
    requires |order| == |found| && k < |order|
  {
    if found[k].Ok? then outcome == NothingToDo(found[k].value)
    else if exists n: nat :: FirstUnexplained(order, found, tag, n) then
      exists n: nat :: FirstUnexplained(order, found, tag, n) && outcome == SecondInstanceSignal(order[n])
    else match outcome
      case NoAdvance(Some(p)) => AheadAt(found[k], p)
      case NoAdvance(None) => forall p :: !AheadAt(found[k], p)
      case _ => false
  }

  /** The account is found ahead at the position named, and nothing else stands in the way. */
  ghost predicate Advances(order: seq<Tag>, found: seq<Finding>, tag: Tag, k: nat, to: u32)
    requires |order| == |found| && k < |order|
  {
    AheadAt(found[k], to) && !exists n: nat :: FirstUnexplained(order, found, tag, n)
  }

  lemma {:induction false} SecondInstanceNames(order: seq<Tag>, found: seq<Finding>, tag: Tag)
    requires |order| == |found|
    requires forall n :: 0 <= n < |order| && found[n].Err? ==> found[n].error.tag == order[n]
    ensures match SecondInstance(SetAside(found), tag)
            case None => forall n: nat :: !FirstUnexplained(order, found, tag, n)
            case Some(other) => exists n: nat :: FirstUnexplained(order, found, tag, n) && order[n] == other
    decreases |order|
  {
    if order == [] {
    } else {
      SecondInstanceNames(order[1..], found[1..], tag);
      var here := order[0] != tag && Unexplained(found[0]);
      FirstOfReports(found, tag);
      if here {
        assert FirstUnexplained(order, found, tag, 0);
      } else {
        forall n: nat | n > 0
          ensures FirstUnexplained(order, found, tag, n) <==> FirstUnexplained(order[1..], found[1..], tag, n - 1)
        {
          LaterUnexplained(order, found, tag, n);
        }
        if n: nat :| FirstUnexplained(order[1..], found[1..], tag, n) {
          assert FirstUnexplained(order, found, tag, n + 1);
        }
      }
    }
  }

  lemma FirstOfReports(found: seq<Finding>, tag: Tag)
    requires found != []
    ensures SecondInstance(SetAside(found), tag)
         == if found[0].Err? && found[0].error.tag != tag && found[0].error.ReservationUnexplained? then
              Some(found[0].error.tag)
            else SecondInstance(SetAside(found[1..]), tag)
  {
    assert found[0].Err? ==> SetAside(found)[1..] == SetAside(found[1..]);
    assert found[0].Ok? ==> SetAside(found) == SetAside(found[1..]);
  }

  lemma LaterUnexplained(order: seq<Tag>, found: seq<Finding>, tag: Tag, n: nat)
    requires |order| == |found| > 0 && !(order[0] != tag && Unexplained(found[0])) && n > 0
    ensures FirstUnexplained(order, found, tag, n) <==> FirstUnexplained(order[1..], found[1..], tag, n - 1)
  {
    hide Unexplained;
    if n < |order| {
      assert order[1..][n - 1] == order[n] && found[1..][n - 1] == found[n];
      forall m | 0 < m < n ensures order[1..][m - 1] == order[m] && found[1..][m - 1] == found[m] {
      }
      if FirstUnexplained(order[1..], found[1..], tag, n - 1) {
        forall m | 0 <= m < n && order[m] != tag ensures !Unexplained(found[m]) {
          assert m > 0 ==> order[1..][m - 1] == order[m] && found[1..][m - 1] == found[m];
        }
      }
      if FirstUnexplained(order, found, tag, n) {
        forall m | 0 <= m < n - 1 && order[1..][m] != tag ensures !Unexplained(found[1..][m]) {
          assert order[m + 1] != tag;
        }
      }
    }
  }

  lemma DecisionMeans(order: seq<Tag>, found: seq<Finding>, tag: Tag, k: nat, to: u32)
    requires |order| == |found| && k < |order| && order[k] == tag
    requires forall n :: 0 <= n < |order| && found[n].Err? ==> found[n].error.tag == order[n]
    ensures var d := Decide(SetAside(found), Some(found[k]), tag, to);
            && (d.Report? ==> !Advances(order, found, tag, k, to) && Decides(d.outcome, order, found, tag, k))
            && (d.Acknowledged? ==> Advances(order, found, tag, k, to) && d.ack == Acknowledgement(tag, to))
  {
    hide SetAside, SecondInstance, FirstUnexplained;
    SecondInstanceNames(order, found, tag);
  }

  /** What the second look comes to: only a chain found again at the position named is followed, by
      one write of this account's index. */
  ghost predicate LooksAgain(r: Conclusion, s': StoreState, s: StoreState, medium: Medium, tag: Tag, to: u32,
                             reports: seq<Divergence>, accounts: nat, again: Finding)
    requires s.handle.Live? && tag in s.handle.image.slots
  {
    if again.Ok? then s' == s && r == Err(Refused(NothingToReconcile))
    else if !AheadAt(again, to) then s' == s && r == Err(Refused(AcknowledgementDoesNotMatch))
    else
      var a := s.handle.image.slots[tag].account;
      && (r.Ok? ==> r.value == Reviewed(reports, accounts, MovedOn(to)))
      && (r.Err? ==> r.error.Refused?)
      && SlotWritten(s, medium, tag, Slot(AccountValue(a.tag, a.key, to), None, None), s',
                     if r.Err? then Some(r.error.cause) else None)
  }

  /** What the review comes to with these findings, and with this one at the second look. */
  ghost predicate ComesTo(r: Conclusion, s': StoreState, s: StoreState, medium: Medium, tag: Tag, k: nat, to: u32,
                          found: seq<Finding>, again: Finding)
    requires s.handle.Live? && k < |s.handle.image.order| == |found| && tag in s.handle.image.slots
  {
    var order := s.handle.image.order;
    if Advances(order, found, tag, k, to) then LooksAgain(r, s', s, medium, tag, to, SetAside(found), |order|, again)
    else
      && s' == s && r.Ok? && r.value.reports == SetAside(found) && r.value.accounts == |order|
      && Decides(r.value.outcome, order, found, tag, k)
  }

  /** What is found of the account once more, after the whole pass. */
  ghost function FoundAgain(h: Hashes, image: Image, node: Script, tag: Tag, to: u32, master: Option<Block>,
                            c: Counts): Finding
  {
    var past := CountsAfter(h, Live(image), node, image.order, master, Reviewing(tag, to), c);
    ReconcileNext(h, Live(image), node, tag, master, Reviewing(tag, to)(tag), Never, past.(asked := past.asked + 1)).0
  }

  /** Every review nobody stops is one of these: a dead handle or an account that is not held ends it
      at once; otherwise every account is reconciled, what went against them is reported, and the
      findings decide. */
  lemma ReviewMeans(h: Hashes, s: StoreState, medium: Medium, node: Script, tag: Tag, master: Option<Block>, to: u32,
                    c: Counts, k: nat)
    requires s.handle.Live? ==> Distinct(s.handle.image.order)
    requires s.handle.Live? ==> forall t :: t in s.handle.image.order ==> t in s.handle.image.slots
    requires s.handle.Live? && tag in s.handle.image.order ==>
               k < |s.handle.image.order| && s.handle.image.order[k] == tag
    ensures var (r, s', c') := ReviewRun(h, s, medium, node, tag, master, to, false, Never, c);
            match s.handle
            case Dead(first) => s' == s && r == Err(Refused(Poisoned(first)))
            case Live(image) =>
              if tag !in image.order then s' == s && r == Ok(Reviewed([], |image.order|, NotHeld))
              else
                var found := FoundBy(h, image, node, tag, to, master, c);
                && |found| == |image.order|
                && ComesTo(r, s', s, medium, tag, k, to, found, FoundAgain(h, image, node, tag, to, master, c))
  {
    hide Passed, FindingsOf, CountsAfter, Concluded, ComesTo, Reviewing, SetAside, Answered, FoundToAdvance,
         ReconcileNext;
    if s.handle.Live? && tag in s.handle.image.order {
      var order, start := s.handle.image.order, Pass.Going([], None, c);
      PassReviews(h, s.handle, node, tag, to, order, master, start);
      PassNames(h, s.handle, node, tag, to, order, master, start);
      var found := FindingsOf(h, s.handle, node, order, master, Reviewing(tag, to), c);
      assert [] + SetAside(found) == SetAside(found);
      FindingsAnswered(h, s.handle.image, node, order, master, Reviewing(tag, to), c);
      AnsweredToAdvance(h, s.handle.image, node, tag, master, Reviewing(tag, to)(tag), found[k], c.calls,
                        CountsAfter(h, s.handle, node, order, master, Reviewing(tag, to), c).calls);
      ConcludedMeans(h, s, medium, node, tag, master, to, k, found,
                     Passed(h, s.handle, node, tag, to, order, master, false, Never, start));
    }
  }

  /** A finding that calls for an advance is of an account whose keys can be had, that has nothing
      reserved, and that the chain is ahead of. */
  ghost predicate FoundToAdvance(image: Image, tag: Tag, master: Option<Block>, r: Finding)
    requires tag in image.slots
  {
    r.Err? && r.error.IndexMismatch? && r.error.found.Ahead? ==>
      && AccessFor(Live(image), tag, master).Ok?
      && image.slots[tag].pending.None? && image.slots[tag].account.index < r.error.found.index
  }

  lemma AnsweredToAdvance(h: Hashes, image: Image, node: Script, tag: Tag, master: Option<Block>, scope: ScanScope,
                          r: Finding, first: nat, past: nat)
    requires tag in image.slots && Answered(h, image, node, tag, master, scope, r, first, past)
    ensures FoundToAdvance(image, tag, master, r)
  {
    hide OwnAddresses, FirstWalked;
  }

  lemma ConcludedMeans(h: Hashes, s: StoreState, medium: Medium, node: Script, tag: Tag, master: Option<Block>, to: u32,
                       k: nat, found: seq<Finding>, pass: Pass)
    requires s.handle.Live? && k < |s.handle.image.order| == |found| && s.handle.image.order[k] == tag
    requires tag in s.handle.image.slots
    requires forall n :: 0 <= n < |found| && found[n].Err? ==> found[n].error.tag == s.handle.image.order[n]
    requires pass.Going? && pass.reports == SetAside(found) && pass.named == Some(found[k])
    requires FoundToAdvance(s.handle.image, tag, master, found[k])
    ensures var accounts := |s.handle.image.order|;
            var (r, s', _) := Concluded(h, s, medium, node, tag, master, to, accounts, false, Never, pass);
            ComesTo(r, s', s, medium, tag, k, to, found,
                    ReconcileNext(h, s.handle, node, tag, master, Reviewing(tag, to)(tag), Never,
                                  pass.c.(asked := pass.c.asked + 1)).0)
  {
    hide Acted, Decide, Decides, SetAside, Advances, LooksAgain, AccessFor, ReconcileNext;
    DecisionMeans(s.handle.image.order, found, tag, k, to);
    if Advances(s.handle.image.order, found, tag, k, to) {
      AdvanceFound(s.handle.image.order, found, tag, k, to);
      ActedMeans(h, s, medium, node, tag, master, to, |s.handle.image.order|, SetAside(found),
                 pass.c.(asked := pass.c.asked + 1));
    }
  }

  lemma AdvanceFound(order: seq<Tag>, found: seq<Finding>, tag: Tag, k: nat, to: u32)
    requires |order| == |found| && k < |order| && Advances(order, found, tag, k, to)
    ensures AheadAt(found[k], to)
  {
  }

  lemma ActedMeans(h: Hashes, s: StoreState, medium: Medium, node: Script, tag: Tag, master: Option<Block>, to: u32,
                   accounts: nat, reports: seq<Divergence>, c: Counts)
    requires s.handle.Live? && tag in s.handle.image.slots && AccessFor(s.handle, tag, master).Ok?
    requires s.handle.image.slots[tag].pending.None? && s.handle.image.slots[tag].account.index < to
    ensures var access := AccessFor(s.handle, tag, master).value;
            var (r, s', _) := Acted(h, s, medium, node, tag, access, Acknowledgement(tag, to), to, accounts, false,
                                    Never, reports, c);
            var again := ReconcileNext(h, s.handle, node, tag, master, Reviewing(tag, to)(tag), Never, c).0;
            LooksAgain(r, s', s, medium, tag, to, reports, accounts, again)
  {
    hide ReconcileRun, PersistAdvanceTo, SlotWritten, AccessFor;
    MovingMeans(s, tag, to, medium);
    assert Reviewing(tag, to)(tag) == ScopeTo(to);
    var again := ReconcileNext(h, s.handle, node, tag, master, Reviewing(tag, to)(tag), Never, c).0;
    assert AheadAt(again, to) <==> again.Err? && AdvanceTarget(again.error) == Some(to);
    var moved := PersistAdvanceTo(s, tag, to, medium).1;
    assert FailureOf(moved) == if moved.Err? then Some(moved.error) else None;
  }

  /** The acknowledged advance of one account, by itself: an acknowledgement of another account is
      refused before anything is asked; one that the chain no longer bears out, after; and otherwise
      this account's index is written, and nothing else. */
  lemma GuardedMeans(h: Hashes, s: StoreState, medium: Medium, node: Script, tag: Tag, access: KeyAccess,
                     ack: Acknowledgement, scope: ScanScope, writeAsks: bool, c: Counts)
    ensures var (r, s', c') := GuardedAdvanceRun(h, s, medium, node, tag, access, ack, scope, writeAsks, Never, c);
            var (found, after) := ReconcileRun(h, s.handle, node, tag, access, scope, Never, c);
            if ack.tag != tag then r == Err(AcknowledgementDoesNotMatch) && s' == s && c' == c
            else if found.Ok? then r == Err(NothingToReconcile) && s' == s && c' == after
            else if !AheadAt(found, ack.target) then r == Err(AcknowledgementDoesNotMatch) && s' == s && c' == after
            else
              && s.handle.Live? && tag in s.handle.image.slots
              && var a := s.handle.image.slots[tag].account;
                 && a.index < ack.target
                 && (r.Ok? ==> r == Ok(ack.target))
                 && SlotWritten(s, medium, tag, Slot(AccountValue(a.tag, a.key, ack.target), None, None), s',
                                FailureOf(r))
                 && c' == after.(asked := after.asked + if writeAsks then 1 else 0)
  {
    hide ReconcileRun, PersistAdvanceTo, SlotWritten, AddressesOf, RecordIs, RevertIs, FirstWalked;
    FindingFits(h, s.handle, node, tag, access, scope, c);
    var found := ReconcileRun(h, s.handle, node, tag, access, scope, Never, c).0;
    if AheadAt(found, ack.target) {
      MovingMeans(s, tag, ack.target, medium);
      var moved := PersistAdvanceTo(s, tag, ack.target, medium).1;
      assert FailureOf(moved) == if moved.Err? then Some(moved.error) else None;
    }
  }

  // ----- what an observer is told -----

  lemma {:induction false} PositionMeans(tags: seq<Tag>, k: nat)
    requires Distinct(tags) && k < |tags|
    ensures PositionOf(tags, tags[k]) == k
    decreases k
  {
    if k == 0 {
    } else {
      PositionMeans(tags[1..], k - 1);
    }
  }

  /** An observer is told of each account in turn, by its number, and once more, under the same
      number, of the one that is looked at again. */
  lemma ReviewTells(h: Hashes, image: Image, node: Script, tag: Tag, master: Option<Block>, to: u32, c: Counts, k: nat)
    requires Distinct(image.order) && forall t :: t in image.order ==> t in image.slots
    requires k < |image.order| && image.order[k] == tag
    ensures var found := FoundBy(h, image, node, tag, to, master, c);
            var past := CountsAfter(h, Live(image), node, image.order, master, Reviewing(tag, to), c);
            && |found| == |image.order|
            && ReviewReports(h, Live(image), node, tag, master, to, false, Never, c)
               == ToldOf(h, Live(image), node, image.order, 0, |image.order|, master, Reviewing(tag, to), c)
                + if Advances(image.order, found, tag, k, to) then
                    NextReports(h, Live(image), node, tag, master, Reviewing(tag, to)(tag), Never,
                                past.(asked := past.asked + 1), k, |image.order|)
                  else []
  {
    hide Passed, PassReports, FindingsOf, CountsAfter, ToldOf, SetAside, Answered, FoundToAdvance, Decide, Decides,
         Advances, ActedReports, AccessFor, NextReports, Reviewing;
    var order, start := image.order, Pass.Going([], None, c);
    PassReviews(h, Live(image), node, tag, to, order, master, start);
    PassNames(h, Live(image), node, tag, to, order, master, start);
    PassTells(h, Live(image), node, tag, to, order, 0, |order|, master, start);
    var found := FindingsOf(h, Live(image), node, order, master, Reviewing(tag, to), c);
    assert [] + SetAside(found) == SetAside(found);
    FindingsAnswered(h, image, node, order, master, Reviewing(tag, to), c);
    AnsweredToAdvance(h, image, node, tag, master, Reviewing(tag, to)(tag), found[k], c.calls,
                      CountsAfter(h, Live(image), node, order, master, Reviewing(tag, to), c).calls);
    DecisionMeans(order, found, tag, k, to);
    if Advances(order, found, tag, k, to) {
      AdvanceFound(order, found, tag, k, to);
      AdvanceHasAccess(image, tag, master, found[k], to);
      PositionMeans(order, k);
      var past := CountsAfter(h, Live(image), node, order, master, Reviewing(tag, to), c);
      ActedTells(h, image, node, tag, master, to, order, past.(asked := past.asked + 1));
    }
  }

  lemma AdvanceHasAccess(image: Image, tag: Tag, master: Option<Block>, r: Finding, to: u32)
    requires tag in image.slots && FoundToAdvance(image, tag, master, r) && AheadAt(r, to)
    ensures AccessFor(Live(image), tag, master).Ok?
  {
    hide AccessFor;
  }

  lemma ActedTells(h: Hashes, image: Image, node: Script, tag: Tag, master: Option<Block>, to: u32, tags: seq<Tag>,
                   c: Counts)
    requires AccessFor(Live(image), tag, master).Ok?
    ensures ActedReports(h, Live(image), node, tag, AccessFor(Live(image), tag, master).value,
                         Acknowledgement(tag, to), to, tags, Never, c)
         == NextReports(h, Live(image), node, tag, master, Reviewing(tag, to)(tag), Never, c, PositionOf(tags, tag),
                        |tags|)
  {
    hide ReconcileRun, AccessFor, Reports, Announcement;
    assert Reviewing(tag, to)(tag) == ScopeTo(to);
  }
}
