/** What every spending operation comes to, arm by arm, stated over the slots, the keys' addresses
    and the node's answers: who is refused and for what, what a reservation records, and what is
    reported of it later. */
module SpendingOutcomes {
  import opened Base
  import opened Primitives
  import opened Derivation
  import opened Accounts
  import opened Cancellation
  import opened Scan
  import opened Store
  import opened Writes
  import opened Recon
  import opened Findings
  import opened Attach
  import opened Spending
  import SpendingLaws
  import Settling

  /** The wallet set the account aside when it was opened. */
  ghost predicate Aside(diverged: seq<Divergence>, tag: Tag) {
    exists d :: d in diverged && d.tag == tag
  }

  /** The first divergence looked for is there exactly when the account was set aside. */
  lemma {:induction false} FirstForMeans(diverged: seq<Divergence>, tag: Tag)
    ensures FirstFor(diverged, tag).Some? <==> Aside(diverged, tag)
    ensures FirstFor(diverged, tag).Some? ==>
              FirstFor(diverged, tag).value in diverged && FirstFor(diverged, tag).value.tag == tag
    decreases |diverged|
  {
    if diverged == [] {
    } else {
      FirstForMeans(diverged[1..], tag);
      assert diverged == [diverged[0]] + diverged[1..];
    }
  }

  // ----- planning -----

  /** The account can spend: it is held, nothing is reserved, and a position is left for the change. */
  ghost predicate CanSpend(handle: Handle, tag: Tag) {
    && handle.Live? && tag in handle.image.slots
    && handle.image.slots[tag].pending.None? && handle.image.slots[tag].account.index < 0xFFFF_FFFF
  }

  /** Why it cannot, or why its two addresses cannot be derived. */
  ghost predicate CannotSpend(e: Error, h: Hashes, handle: Handle, tag: Tag, access: KeyAccess) {
    match e
    case Poisoned(first) => handle == Dead(first)
    case NoSuchAccount => handle.Live? && tag !in handle.image.slots
    case PendingUnresolved(spent) =>
      handle.Live? && tag in handle.image.slots && handle.image.slots[tag].pending.Some?
      && spent == handle.image.slots[tag].pending.value.spent
    case IndexRange(min, got) =>
      handle.Live? && tag in handle.image.slots && handle.image.slots[tag].pending.None?
      && handle.image.slots[tag].account.index == 0xFFFF_FFFF && min == 0 && got == 0xFFFF_FFFF
    case Key(cause) =>
      && CanSpend(handle, tag)
      && var slot := handle.image.slots[tag];
         var at := AddressesOf(h, handle.image, slot, access);
         at(slot.account.index) == Err(cause)
         || (at(slot.account.index).Ok? && at(slot.account.index + 1) == Err(cause))
    case _ => false
  }

  /** A spend comes from the address at the stored index, and its change goes to the next one. */
  lemma NextMeans(h: Hashes, handle: Handle, tag: Tag, access: KeyAccess)
    ensures match NextAddresses(h, handle, tag, access)
            case Err(e) => CannotSpend(e, h, handle, tag, access)
            case Ok(SpendAddresses(t, position, source, change)) =>
              && CanSpend(handle, tag)
              && var slot := handle.image.slots[tag];
                 var at := AddressesOf(h, handle.image, slot, access);
                 && t == tag && position == slot.account.index
                 && at(position) == Ok(source) && at(position + 1) == Ok(change)
  {
    hide AddressesOf;
  }

  /** What a plan is made of, and why there is none: in the order the wallet finds out. */
  ghost predicate PlanIs(r: Result<SpendPlan, Error>, h: Hashes, handle: Handle, reply: Reply,
                         diverged: seq<Divergence>, tag: Tag, access: KeyAccess, draft: Draft, blkToLive: u64)
  {
    var addresses := NextAddresses(h, handle, tag, access);
    var ready := !Aside(diverged, tag) && addresses.Ok?;
    match r
    case Ok(plan) =>
      && ready
      && addresses.value == SpendAddresses(tag, plan.position, plan.source, plan.change)
      && reply == Entry(plan.source, plan.balance) && plan.blkToLive == blkToLive
      && draft(addresses.value, plan.balance) == Ok(plan.digest)
    case Err(e) =>
      if e.ReconciliationRefused? then Aside(diverged, tag)
      else if e.Mesh? then ready && reply == Failure(e.code)
      else if e.ChainAddressMismatch? then
        ready && reply.Entry? && reply.address != addresses.value.source && e.position == addresses.value.position
      else if e.PlanRefused? then
        && ready && reply.Entry? && reply.address == addresses.value.source
        && draft(addresses.value, reply.balance) == Err(e.code)
      else !Aside(diverged, tag) && CannotSpend(e, h, handle, tag, access)
  }

  lemma PlanMeans(h: Hashes, handle: Handle, node: Script, diverged: seq<Divergence>, tag: Tag, access: KeyAccess,
                  draft: Draft, blkToLive: u64, calls: nat)
    ensures PlanIs(PlanRun(h, handle, node, diverged, tag, access, draft, blkToLive, calls), h, handle,
                   node.resolve(calls, tag), diverged, tag, access, draft, blkToLive)
  {
    hide FirstFor, Aside, NextAddresses, CannotSpend, CanSpend, AddressesOf;
    FirstForMeans(diverged, tag);
    NextIsFor(h, handle, tag, access);
    WhyNotNext(h, handle, tag, access);
  }

  lemma WhyNotNext(h: Hashes, handle: Handle, tag: Tag, access: KeyAccess)
    ensures NextAddresses(h, handle, tag, access).Err? ==>
              var e := NextAddresses(h, handle, tag, access).error;
              CannotSpend(e, h, handle, tag, access) && !ToldLater(e)
  {
    hide AddressesOf;
  }

  /** The refusals that are not about the account alone. */
  ghost predicate ToldLater(e: Error) {
    || e.ReconciliationRefused? || e.Mesh? || e.ChainAddressMismatch? || e.PlanRefused? || e.StaleSpendPlan?
    || e.SpendPlanAddressMismatch? || e.InvalidExpiry? || e.BalanceChanged?
  }

  // ----- reserving -----

  /** The plan is still for the account's next spend. */
  ghost predicate Current(h: Hashes, handle: Handle, plan: SpendPlan, access: KeyAccess) {
    var tag := plan.source[..20];
    && CanSpend(handle, tag)
    && var slot := handle.image.slots[tag];
       var at := AddressesOf(h, handle.image, slot, access);
       && slot.account.index == plan.position
       && at(plan.position) == Ok(plan.source) && at(plan.position + 1) == Ok(plan.change)
  }

  /** No expiry, or one the tip has not reached and is at most 256 blocks away. */
  ghost predicate InTime(plan: SpendPlan, tip: TipReply) {
    plan.blkToLive == 0 || (tip.Tip? && tip.index < plan.blkToLive <= tip.index + 256)
  }

  /** What the wallet objects to, and when: each objection has its own cause. */
  ghost predicate ObjectsTo(e: Error, h: Hashes, handle: Handle, node: Script, diverged: seq<Divergence>,
                            plan: SpendPlan, access: KeyAccess, calls: nat)
  {
    var tag := plan.source[..20];
    var tip := node.tip(calls);
    var reply := node.resolve(if plan.blkToLive == 0 then calls else calls + 1, tag);
    if e.ReconciliationRefused? then Aside(diverged, tag)
    else
      && !Aside(diverged, tag)
      && match e
         case StaleSpendPlan(planned, stored) =>
           CanSpend(handle, tag) && planned == plan.position && planned != stored
           && stored == handle.image.slots[tag].account.index
         case SpendPlanAddressMismatch =>
           CanSpend(handle, tag) && handle.image.slots[tag].account.index == plan.position
           && !Current(h, handle, plan, access)
         case InvalidExpiry(expiry, t) =>
           Current(h, handle, plan, access) && tip == Tip(t) && expiry == plan.blkToLive && !InTime(plan, tip)
         case Mesh(code) =>
           && Current(h, handle, plan, access)
           && (if plan.blkToLive != 0 && tip.TipFailure? then tip == TipFailure(code)
               else InTime(plan, tip) && reply == Failure(code))
         case ChainAddressMismatch(position) =>
           && Current(h, handle, plan, access) && InTime(plan, tip)
           && reply.Entry? && reply.address != plan.source && position == plan.position
         case BalanceChanged(before, current) =>
           && Current(h, handle, plan, access) && InTime(plan, tip)
           && reply == Entry(plan.source, current) && before == plan.balance && before != current
         case _ => CannotSpend(e, h, handle, tag, access)
  }

  /** The account was not set aside, the plan is for its next spend, its expiry is in time, and the
      node still gives its address and its balance. */
  ghost predicate Unopposed(h: Hashes, handle: Handle, node: Script, diverged: seq<Divergence>, plan: SpendPlan,
                            access: KeyAccess, calls: nat)
  {
    var tag := plan.source[..20];
    && !Aside(diverged, tag) && Current(h, handle, plan, access) && InTime(plan, node.tip(calls))
    && node.resolve(if plan.blkToLive == 0 then calls else calls + 1, tag) == Entry(plan.source, plan.balance)
  }

  ghost predicate ObjectionIs(r: Option<Error>, h: Hashes, handle: Handle, node: Script, diverged: seq<Divergence>,
                              plan: SpendPlan, access: KeyAccess, calls: nat)
  {
    if r.Some? then ObjectsTo(r.value, h, handle, node, diverged, plan, access, calls)
    else Unopposed(h, handle, node, diverged, plan, access, calls)
  }

  /** So a plan is objected to exactly when it is not unopposed, and each objection is due. */
  lemma ObjectionMeans(h: Hashes, handle: Handle, node: Script, diverged: seq<Divergence>, plan: SpendPlan,
                       access: KeyAccess, calls: nat)
    ensures ObjectionIs(Objection(h, handle, node, diverged, plan, access, calls), h, handle, node, diverged, plan,
                        access, calls)
  {
    hide FirstFor, Aside, NextAddresses, CannotSpend, AddressesOf, Current;
    var tag := TagIn(plan.source);
    FirstForMeans(diverged, tag);
    WhyNotNext(h, handle, tag, access);
    NextIsCurrent(h, handle, plan, access);
  }

  lemma NextIsCurrent(h: Hashes, handle: Handle, plan: SpendPlan, access: KeyAccess)
    ensures var tag := plan.source[..20];
            var next := NextAddresses(h, handle, tag, access);
            next.Ok? ==>
              && CanSpend(handle, tag) && next.value.position == handle.image.slots[tag].account.index
              && (Current(h, handle, plan, access) <==>
                    next.value.position == plan.position && next.value.source == plan.source
                    && next.value.change == plan.change)
  {
    hide AddressesOf;
  }

  /** Whenever a plan is reserved and signed, what is on the disk, and in the handle, is the image it
      started from with one slot changed: the plan's key is reserved for its digest, with the balance
      and the expiry it was made for, and the account stands past it. */
  lemma ReservedAsPlanned(h: Hashes, s: StoreState, medium: Medium, node: Script, diverged: seq<Divergence>,
                          plan: SpendPlan, access: KeyAccess, calls: nat)
    requires ReserveRun(h, s, medium, node, diverged, plan, access, calls).0.Ok?
    ensures var s' := ReserveRun(h, s, medium, node, diverged, plan, access, calls).1;
            var tag := plan.source[..20];
            && CanSpend(s.handle, tag) && s.handle.image.generation < 0xFFFF_FFFF_FFFF_FFFF
            && var image, slot := s.handle.image, s.handle.image.slots[tag];
               && slot.account.index == plan.position
               && s'.handle == Live(s'.disk) && s'.commits == s.commits + 1
               && s'.disk == Image(image.generation + 1, image.order,
                                   image.slots[tag := Slot(slot.account.(index := plan.position + 1),
                                                           Some(Pending(plan.position, plan.digest,
                                                                        Some(Figures(plan.balance, plan.blkToLive)))),
                                                           None)],
                                   image.master)
  {
    hide Objection, PersistAdvance, SignReserved, SlotWritten, AddressesOf;
    ObjectionMeans(h, s.handle, node, diverged, plan, access, calls);
    var tag := TagIn(plan.source);
    ReservingMeans(s, tag, plan.digest, PlanFigures(plan), medium);
    var (s', r) := PersistAdvance(s, tag, plan.digest, PlanFigures(plan), medium);
    WrittenMeans(s, medium, tag, ReservationOf(s.handle.image.slots[tag], plan.digest, PlanFigures(plan)), s');
  }

  lemma WrittenMeans(s: StoreState, medium: Medium, tag: Tag, slot: Slot, s': StoreState)
    requires s.handle.Live? && SlotWritten(s, medium, tag, slot, s', None)
    ensures var image := s.handle.image;
            && image.generation < 0xFFFF_FFFF_FFFF_FFFF && medium(s.commits) == Landed
            && s'.handle == Live(s'.disk) && s'.commits == s.commits + 1
            && s'.disk == Image(image.generation + 1, image.order, image.slots[tag := slot], image.master)
  {
  }

  /** A spend outstanding since this plan was reserved: with the balance and the expiry the plan had,
      whether the balance has moved from the plan's, and where the tip stands to the plan's expiry. */
  ghost predicate OutstandingSince(r: Finding, plan: SpendPlan, now: u64, tip: TipReply) {
    && r.Ok? && r.value.SpendOutstanding? && r.value.spent == plan.position && r.value.balance == now
    && var record := r.value.reservation;
       && record.Recorded? && record.figures == Figures(plan.balance, plan.blkToLive)
       && record.balanceNow == now && (record.balanceMoved <==> now != plan.balance)
       && (record.expiry == NoExpiry <==> plan.blkToLive == 0)
       && (forall t: u64 :: record.expiry == ReachedTip(t) <==>
             plan.blkToLive != 0 && tip == Tip(t) && t >= plan.blkToLive)
       && (forall t: u64 :: record.expiry == BelowTip(t) <==>
             plan.blkToLive != 0 && tip == Tip(t) && t < plan.blkToLive)
       && (forall code :: record.expiry == Unreadable(code) <==> plan.blkToLive != 0 && tip == TipFailure(code))
  }

  /** Until the chain moves, every reconciliation after a reservation reports it as outstanding since
      its plan. */
  lemma ReservedThenOutstanding(h: Hashes, s: StoreState, medium: Medium, node: Script, diverged: seq<Divergence>,
                                plan: SpendPlan, access: KeyAccess, calls: nat, later: Script, scope: ScanScope,
                                c: Counts, now: u64)
    requires ReserveRun(h, s, medium, node, diverged, plan, access, calls).0.Ok?
    requires later.resolve(c.calls, plan.source[..20]) == Entry(plan.source, now)
    ensures var s' := ReserveRun(h, s, medium, node, diverged, plan, access, calls).1;
            var r := ReconcileRun(h, s'.handle, later, plan.source[..20], access, scope, Never, c).0;
            OutstandingSince(r, plan, now, later.tip(c.calls + 1))
  {
    hide ReserveRun, ReconcileRun, AddressesOf, Fits, OutstandingSince, Objection;
    ReservedAsPlanned(h, s, medium, node, diverged, plan, access, calls);
    ReservedIsCurrent(h, s, medium, node, diverged, plan, access, calls);
    var s' := ReserveRun(h, s, medium, node, diverged, plan, access, calls).1;
    var tag := plan.source[..20];
    var figures := Figures(plan.balance, plan.blkToLive);
    SourceStays(h, s.handle.image, s'.disk, plan, access, figures);
    FindingFits(h, s'.handle, later, tag, access, scope, c);
    FitsOutstanding(ReconcileRun(h, s'.handle, later, tag, access, scope, Never, c).0, plan, s'.disk.slots[tag], now,
                    later.tip(c.calls + 1), AddressesOf(h, s'.disk, s'.disk.slots[tag], access), scope);
  }

  lemma ReservedIsCurrent(h: Hashes, s: StoreState, medium: Medium, node: Script, diverged: seq<Divergence>,
                          plan: SpendPlan, access: KeyAccess, calls: nat)
    requires ReserveRun(h, s, medium, node, diverged, plan, access, calls).0.Ok?
    ensures Current(h, s.handle, plan, access)
  {
    hide Objection, PersistAdvance, SignReserved, Current, Aside;
    ObjectionMeans(h, s.handle, node, diverged, plan, access, calls);
  }

  /** Reserving does not change what the account's addresses are. */
  lemma SourceStays(h: Hashes, image: Image, next: Image, plan: SpendPlan, access: KeyAccess, figures: Figures)
    requires Current(h, Live(image), plan, access)
    requires var tag := plan.source[..20];
             next.slots == image.slots[tag := ReservationOf(image.slots[tag], plan.digest, figures)]
    ensures AddressesOf(h, next, next.slots[plan.source[..20]], access)(plan.position) == Ok(plan.source)
  {
    hide KeyAt, Roots, AddressOf;
    var tag := plan.source[..20];
    var a := image.slots[tag].account;
    SpendingLaws.RootsUnchanged(image, tag, next.slots[tag]);
    SpendingLaws.KeyIgnoresIndex(h, Roots(image.slots), a, a.index + 1, plan.position, access);
  }

  lemma FitsOutstanding(r: Finding, plan: SpendPlan, slot: Slot, now: u64, tip: TipReply, at: Addresses,
                        scope: ScanScope)
    requires slot.pending == Some(Pending(plan.position, plan.digest, Some(Figures(plan.balance, plan.blkToLive))))
    requires at(plan.position) == Ok(plan.source)
    requires Fits(r, plan.source[..20], slot, Entry(plan.source, now), tip, at, scope)
    ensures OutstandingSince(r, plan, now, tip)
  {
  }

  // ----- settling -----

  /** What a settle comes to, by the one answer it is given: only an address that is the change key's
      and not the reserved key's is written. */
  ghost predicate SettleIs(r: Result<Settlement, Error>, s': StoreState, s: StoreState, medium: Medium, tag: Tag,
                           slot: Slot, at: Addresses, reply: Reply, tip: TipReply)
    requires s.handle.Live?
  {
    var index := slot.account.index;
    if slot.pending.None? then
      && s' == s
      && r == if reply.Entry? && at(index) == Ok(reply.address) then Ok(NoReservationHeld(index))
              else Err(ReconciliationRefused)
    else
      var spent := slot.pending.value.spent;
      if reply.Entry? && at(spent) == Ok(reply.address) then
        && s' == s
        && r.Ok? && r.value.StillOutstanding? && r.value.spent == spent
        && RecordIs(r.value.reservation, slot.pending.value.figures, reply.balance, tip)
      else if reply.Entry? && at(spent).Ok? && at(index) == Ok(reply.address) then
        && SlotWritten(s, medium, tag, Slot(slot.account, None, slot.pending), s', FailureOf(r))
        && (r.Ok? ==> r.value == Settled(spent, index))
      else s' == s && r == Err(ReconciliationRefused)
  }

  lemma SettleMeans(h: Hashes, s: StoreState, medium: Medium, node: Script, tag: Tag, access: KeyAccess, c: Counts)
    ensures var (r, s') := SettleRun(h, s, medium, node, tag, access, c);
            if s.handle.Dead? || tag !in s.handle.image.slots then s' == s && r == Err(ReconciliationRefused)
            else
              var slot := s.handle.image.slots[tag];
              SettleIs(r, s', s, medium, tag, slot, AddressesOf(h, s.handle.image, slot, access),
                       node.resolve(c.calls, tag), node.tip(c.calls + 1))
  {
    hide ReconcileRun, PersistSettled, AddressesOf, RecordIs, SlotWritten, PutAt, RevertIs;
    FindingFits(h, s.handle, node, tag, access, DIAGNOSTIC, c);
    if s.handle.Live? && tag in s.handle.image.slots && s.handle.image.slots[tag].pending.Some? {
      SettlingMeans(s, tag, medium);
      var slot := s.handle.image.slots[tag];
      var at, reply := AddressesOf(h, s.handle.image, slot, access), node.resolve(c.calls, tag);
      var (r, s') := SettleRun(h, s, medium, node, tag, access, c);
      if reply.Entry? && at(slot.pending.value.spent) == Ok(reply.address) {
        assert SettleIs(r, s', s, medium, tag, slot, at, reply, node.tip(c.calls + 1));
      } else if reply.Entry? && at(slot.pending.value.spent).Ok? && at(slot.account.index) == Ok(reply.address) {
        assert ReconcileRun(h, s.handle, node, tag, access, DIAGNOSTIC, Never, c).0.Ok?;
        assert FailureOf(PersistSettled(s, tag, medium).1) == FailureOf(r);
        assert SettleIs(r, s', s, medium, tag, slot, at, reply, node.tip(c.calls + 1));
      } else {
        assert SettleIs(r, s', s, medium, tag, slot, at, reply, node.tip(c.calls + 1));
      }
    }
  }

  // ----- signing a reservation again -----

  /** What signing a reservation again comes to before the key is used, by the answers it is given:
      `reply` about the account, and `again` for the comparison that follows when the address is not
      the reserved key's, which says whether the spend has landed. */
  ghost predicate ResignIs(r: Result<WotsVal, Error>, h: Hashes, handle: Handle, tag: Tag, access: KeyAccess,
                           slot: Slot, pending: Pending, at: Addresses, reply: Reply, again: Reply, draft: Draft,
                           blkToLive: u64)
  {
    var spent, index := pending.spent, slot.account.index;
    if at(spent).Err? then r == Err(Key(at(spent).error))
    else if at(index).Err? then r == Err(Key(at(index).error))
    else if reply.Failure? then r == Err(Mesh(reply.code))
    else if Ok(reply.address) != at(spent) then
      r == Err(if again.Entry? && at(index) == Ok(again.address) && at(spent) != Ok(again.address) then
                 ReservationLanded(spent, index)
               else ChainAddressMismatch(spent))
    else
      var addresses := SpendAddresses(tag, spent, at(spent).value, at(index).value);
      match draft(addresses, reply.balance)
      case Err(code) => r == Err(PlanRefused(code))
      case Ok(digest) =>
        if digest != pending.digest then r == Err(DigestMismatch)
        else r == SignedAgain(h, handle, tag, access,
                              SpendPlan(spent, addresses.source, addresses.change, reply.balance, blkToLive, digest))
  }

  /** The reservation's own key over its own digest, in the form a transaction carries. */
  ghost function SignedAgain(h: Hashes, handle: Handle, tag: Tag, access: KeyAccess,
                             plan: SpendPlan): Result<WotsVal, Error> {
    match Resigned(h, handle, tag, access)
    case Err(e) => Err(e)
    case Ok(sig) => AttachedTo(h, plan, sig)
  }

  lemma ResignMeans(h: Hashes, handle: Handle, node: Script, diverged: seq<Divergence>, tag: Tag, access: KeyAccess,
                    draft: Draft, blkToLive: u64, c: Counts)
    ensures var r := ResignRun(h, handle, node, diverged, tag, access, draft, blkToLive, c);
            if Aside(diverged, tag) then r == Err(ReconciliationRefused)
            else if handle.Dead? then r == Err(Poisoned(handle.first))
            else if tag !in handle.image.slots then r == Err(NoSuchAccount)
            else if handle.image.slots[tag].pending.None? then r == Err(NothingPending)
            else
              var slot := handle.image.slots[tag];
              ResignIs(r, h, handle, tag, access, slot, slot.pending.value,
                       AddressesOf(h, handle.image, slot, access), node.resolve(c.calls, tag),
                       node.resolve(c.calls + 1, tag), draft, blkToLive)
  {
    hide FirstFor, Aside, ReconcileRun, AddressesOf, Resigned, AttachedTo;
    FirstForMeans(diverged, tag);
    if SlotOf(handle, tag).Ok? {
      LandedAgain(h, handle, node, tag, access, c.(calls := c.calls + 1));
    }
  }

  /** The comparison says landed exactly when the address it is given is the change key's and not the
      reserved key's. */
  lemma LandedAgain(h: Hashes, handle: Handle, node: Script, tag: Tag, access: KeyAccess, c: Counts)
    requires SlotOf(handle, tag).Ok?
    ensures var r := ReconcileRun(h, handle, node, tag, access, COMPARISON_ONLY, Never, c).0;
            var slot, reply := SlotOf(handle, tag).value, node.resolve(c.calls, tag);
            var at := AddressesOf(h, handle.image, slot, access);
            && (r.Ok? && r.value.SpendLanded? <==>
                  && slot.pending.Some? && reply.Entry? && at(slot.pending.value.spent).Ok?
                  && at(slot.pending.value.spent) != Ok(reply.address) && at(slot.account.index) == Ok(reply.address))
            && (r.Ok? && r.value.SpendLanded? ==>
                  r.value.spent == slot.pending.value.spent && r.value.settledIndex == slot.account.index)
  {
    hide ReconcileRun, AddressesOf, RecordIs, PutAt, RevertIs;
    FindingFits(h, handle, node, tag, access, COMPARISON_ONLY, c);
    LandedMeans(h, handle, node, tag, access, COMPARISON_ONLY, Never, c);
  }

  // ----- how often the node is asked -----

  /** A reservation asks for the tip when the plan is current and has an expiry, and for the address
      when that is in time; signing again asks for the address once the keys are known, and again when
      it is not the reserved key's. */
  lemma ReserveAsks(h: Hashes, handle: Handle, node: Script, diverged: seq<Divergence>, plan: SpendPlan,
                    access: KeyAccess, calls: nat)
    ensures ReserveCalls(h, handle, node, diverged, plan, access, calls)
         == calls + if Aside(diverged, plan.source[..20]) || !Current(h, handle, plan, access) then 0
                    else if plan.blkToLive != 0 && InTime(plan, node.tip(calls)) then 2
                    else 1
  {
    hide FirstFor, Aside, NextAddresses, AddressesOf, Current;
    var tag := TagIn(plan.source);
    FirstForMeans(diverged, tag);
    NextIsFor(h, handle, tag, access);
    NextIsCurrent(h, handle, plan, access);
    CurrentIsNext(h, handle, plan, access);
  }

  lemma CurrentIsNext(h: Hashes, handle: Handle, plan: SpendPlan, access: KeyAccess)
    ensures Current(h, handle, plan, access) ==> NextAddresses(h, handle, plan.source[..20], access).Ok?
  {
    hide AddressesOf;
  }

  lemma ResignAsks(h: Hashes, handle: Handle, node: Script, diverged: seq<Divergence>, tag: Tag, access: KeyAccess,
                   c: Counts)
    ensures var past := ResignCalls(h, handle, node, diverged, tag, access, c);
            if Aside(diverged, tag) || handle.Dead? || tag !in handle.image.slots
               || handle.image.slots[tag].pending.None? then past == c.calls
            else
              var slot := handle.image.slots[tag];
              var at, reply := AddressesOf(h, handle.image, slot, access), node.resolve(c.calls, tag);
              if at(slot.pending.value.spent).Err? || at(slot.account.index).Err? then past == c.calls
              else if reply.Failure? || Ok(reply.address) == at(slot.pending.value.spent) then past == c.calls + 1
              else
                past == c.calls + 1 + CallsFor(ReconcileRun(h, handle, node, tag, access, COMPARISON_ONLY, Never,
                                                            c.(calls := c.calls + 1)).0)
  {
    hide FirstFor, Aside, ReconcileRun, AddressesOf, CallsFor;
    FirstForMeans(diverged, tag);
    FindingCalls(h, handle, node, tag, access, COMPARISON_ONLY, Never, c.(calls := c.calls + 1));
  }
}
