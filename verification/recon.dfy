/** Reconciliation (`recon.rs`): what the chain says about an account, what the store says, and the
    one acknowledged write when they disagree. The node may answer anything at each call. */
module Recon {
  import opened Base
  import opened Primitives
  import opened Derivation
  import opened Accounts
  import opened Cancellation
  import opened Scan
  import opened Store

  // ----- the node -----

  const CODE_NOT_FOUND := 4

  datatype Reply = Entry(address: Address, balance: u64) | Failure(code: nat)

  datatype TipReply = Tip(index: u64) | TipFailure(code: nat)

  datatype SubmitReply = Accepted(id: seq<byte>) | SubmitFailure(code: nat)

  /** What the node answers at its `n`-th call. */
  datatype Script = Script(resolve: (nat, Tag) -> Reply, tip: nat -> TipReply, submit: (nat, seq<byte>) -> SubmitReply)

  class Node {
    const script: Script
    var calls: nat

    constructor (script: Script)
      ensures this.script == script && calls == 0
    {
      this.script, calls := script, 0;
    }

    method ResolveTag(tag: Tag) returns (r: Reply)
      modifies this
      ensures r == script.resolve(old(calls), tag) && calls == old(calls) + 1
    {
      r := script.resolve(calls, tag);
      calls := calls + 1;
    }

    method Submit(wire: seq<byte>) returns (r: SubmitReply)
      modifies this
      ensures r == script.submit(old(calls), wire) && calls == old(calls) + 1
    {
      r := script.submit(calls, wire);
      calls := calls + 1;
    }

    method NetworkStatus() returns (r: TipReply)
      modifies this
      ensures r == script.tip(old(calls)) && calls == old(calls) + 1
    {
      r := script.tip(calls);
      calls := calls + 1;
    }
  }

  // ----- findings -----

  datatype Expiry = NoExpiry | BelowTip(tip: u64) | ReachedTip(tip: u64) | Unreadable(code: nat)

  datatype Reservation =
    | Unrecorded
    | Recorded(figures: Figures, balanceMoved: bool, balanceNow: u64, expiry: Expiry)

  datatype AccountStatus =
    | InSync(index: u32, address: Address, balance: u64)
    | SpendOutstanding(spent: u32, balance: u64, reservation: Reservation)
    | SpendLanded(spent: u32, settledIndex: u32, balance: u64)

  datatype Divergence =
    | IndexMismatch(tag: Tag, local: u32, localAddress: Address, chainAddress: Address, balance: u64,
                    stream: Block20, found: ChainPosition, revertedSettle: Option<Pending>)
    | ReservationUnexplained(tag: Tag, spent: u32, chainAddress: Address, balance: u64,
                             stream: Block20, found: ChainPosition)
    | TagUnresolved(tag: Tag, local: u32)
    | ChainUnreachable(tag: Tag, code: nat)
    | NoMasterForDerivedAccount(tag: Tag)
    | CannotReconcile(tag: Tag, cause: Error)

  function AdvanceTarget(d: Divergence): Option<u32> {
    if d.IndexMismatch? && d.found.Ahead? then Some(d.found.index) else None
  }

  predicate WasStopped(d: Divergence) {
    && (d.IndexMismatch? || d.ReservationUnexplained?)
    && d.found.Unlocated? && d.found.stopped.Some? && d.found.stopped.value.cause == ByCancel
  }

  // ----- reconciling one account -----

  /** How often the node was called and the caller asked, so far. */
  datatype Counts = Counts(calls: nat, asked: nat)

  function ExpiryRun(node: Script, blkToLive: u64, c: Counts): (Expiry, Counts) {
    if blkToLive == 0 then (NoExpiry, c)
    else
      var c' := c.(calls := c.calls + 1);
      match node.tip(c.calls)
      case Tip(index) => (if index >= blkToLive then ReachedTip(index) else BelowTip(index), c')
      case TipFailure(code) => (Unreadable(code), c')
  }

  function ReservationRun(node: Script, figures: Option<Figures>, balance: u64, c: Counts): (Reservation, Counts) {
    match figures
    case None => (Unrecorded, c)
    case Some(fig) =>
      var (expiry, c') := ExpiryRun(node, fig.blkToLive, c);
      (Recorded(fig, balance != fig.reservedBalance, balance, expiry), c')
  }

  /** A settle the chain no longer shows: the retained block, if the chain sits where it was spent. */
  function RevertedSettle(found: ChainPosition, settled: Option<Pending>): Option<Pending> {
    if found.Behind? && settled.Some? && settled.value.spent == found.index then settled else None
  }

  /** Nothing is reserved: the chain is where local state is, or somewhere else. */
  function CompareIndex(tag: Tag, slot: Slot, address: Address, balance: u64, at: Addresses, scope: ScanScope,
                        stop: nat -> bool, c: Counts): (Result<AccountStatus, Divergence>, Counts)
  {
    var local := slot.account.index;
    match at(local)
    case Err(e) => (Err(CannotReconcile(tag, Key(e))), c)
    case Ok(localAddress) =>
      if address == localAddress then (Ok(InSync(local, address, balance)), c)
      else
        var (found, asked) := LocateRun(address, local, scope, at, stop, c.asked);
        (Err(IndexMismatch(tag, local, localAddress, address, balance, StreamOf(slot), found,
                           RevertedSettle(found, slot.settled))), c.(asked := asked))
  }

  /** A key is reserved: the chain is still at it, or at its change key, or somewhere else. */
  function CompareReserved(tag: Tag, slot: Slot, pending: Pending, address: Address, balance: u64, at: Addresses,
                           scope: ScanScope, node: Script, stop: nat -> bool, c: Counts)
    : (Result<AccountStatus, Divergence>, Counts)
  {
    match at(pending.spent)
    case Err(e) => (Err(CannotReconcile(tag, Key(e))), c)
    case Ok(spentAddress) =>
      if address == spentAddress then
        var (reservation, c') := ReservationRun(node, pending.figures, balance, c);
        (Ok(SpendOutstanding(pending.spent, balance, reservation)), c')
      else match at(slot.account.index)
        case Err(e) => (Err(CannotReconcile(tag, Key(e))), c)
        case Ok(changeAddress) =>
          if address == changeAddress then (Ok(SpendLanded(pending.spent, slot.account.index, balance)), c)
          else
            var (found, asked) := LocateRun(address, slot.account.index, scope, at, stop, c.asked);
            (Err(ReservationUnexplained(tag, pending.spent, address, balance, StreamOf(slot), found)),
             c.(asked := asked))
  }

  function Compare(tag: Tag, slot: Slot, address: Address, balance: u64, at: Addresses, scope: ScanScope,
                   node: Script, stop: nat -> bool, c: Counts): (Result<AccountStatus, Divergence>, Counts)
  {
    match slot.pending
    case None => CompareIndex(tag, slot, address, balance, at, scope, stop, c)
    case Some(pending) => CompareReserved(tag, slot, pending, address, balance, at, scope, node, stop, c)
  }

  function ReconcileRun(h: Hashes, handle: Handle, node: Script, tag: Tag, access: KeyAccess, scope: ScanScope,
                        stop: nat -> bool, c: Counts): (Result<AccountStatus, Divergence>, Counts)
  {
    match SlotOf(handle, tag)
    case Err(e) => (Err(CannotReconcile(tag, e)), c)
    case Ok(slot) =>
      var c' := c.(calls := c.calls + 1);
      match node.resolve(c.calls, tag)
      case Failure(code) =>
        (Err(if code == CODE_NOT_FOUND then TagUnresolved(tag, slot.account.index)
             else ChainUnreachable(tag, code)), c')
      case Entry(address, balance) =>
        Compare(tag, slot, address, balance, AddressesOf(h, handle.image, slot, access), scope, node, stop, c')
  }

  method ExpiryOf(node: Node, blkToLive: u64) returns (e: Expiry)
    modifies node
    ensures var run := ExpiryRun(node.script, blkToLive, Counts(old(node.calls), 0));
            e == run.0 && node.calls == run.1.calls
  {
    if blkToLive == 0 {
      return NoExpiry;
    }
    var tip := node.NetworkStatus();
    match tip {
      case Tip(index) =>
        e := if index >= blkToLive then ReachedTip(index) else BelowTip(index);
      case TipFailure(code) =>
        e := Unreadable(code);
    }
  }

  method DoCompareIndex(tag: Tag, slot: Slot, address: Address, balance: u64, at: Addresses, scope: ScanScope,
                        cancel: Cancel) returns (r: Result<AccountStatus, Divergence>)
    modifies cancel, cancel.asker, cancel.observer
    ensures var run := CompareIndex(tag, slot, address, balance, at, scope, cancel.Stops(),
                                    Counts(0, old(cancel.Asked())));
            && r == run.0 && cancel.Asked() == run.1.asked
    ensures old(cancel.Asked()) <= cancel.Asked()
    ensures cancel.observer != null ==>
              cancel.Told(old(cancel.observer.reports), old(cancel.reached), cancel.Asked() - old(cancel.Asked()))
    ensures cancel.saidStop == (old(cancel.saidStop) || (cancel.remembers && r.Err? && WasStopped(r.error)))
  {
    hide LocateRun;
    var local := slot.account.index;
    var localAddress := at(local);
    if localAddress.Err? {
      return Err(CannotReconcile(tag, Key(localAddress.error)));
    }
    if address == localAddress.value {
      return Ok(InSync(local, address, balance));
    }
    var position := Locate(address, local, scope, at, cancel);
    return Err(IndexMismatch(tag, local, localAddress.value, address, balance, StreamOf(slot), position,
                             RevertedSettle(position, slot.settled)));
  }

  method DoCompareReserved(tag: Tag, slot: Slot, pending: Pending, address: Address, balance: u64, at: Addresses,
                           scope: ScanScope, node: Node, cancel: Cancel) returns (r: Result<AccountStatus, Divergence>)
    modifies node, cancel, cancel.asker, cancel.observer
    ensures var run := CompareReserved(tag, slot, pending, address, balance, at, scope, node.script, cancel.Stops(),
                                       Counts(old(node.calls), old(cancel.Asked())));
            && r == run.0 && node.calls == run.1.calls && cancel.Asked() == run.1.asked
    ensures old(cancel.Asked()) <= cancel.Asked()
    ensures cancel.observer != null ==>
              cancel.Told(old(cancel.observer.reports), old(cancel.reached), cancel.Asked() - old(cancel.Asked()))
    ensures cancel.saidStop == (old(cancel.saidStop) || (cancel.remembers && r.Err? && WasStopped(r.error)))
  {
    hide LocateRun;
    var spentAddress := at(pending.spent);
    if spentAddress.Err? {
      return Err(CannotReconcile(tag, Key(spentAddress.error)));
    }
    if address == spentAddress.value {
      if pending.figures.None? {
        return Ok(SpendOutstanding(pending.spent, balance, Unrecorded));
      }
      var fig := pending.figures.value;
      var expiry := ExpiryOf(node, fig.blkToLive);
      return Ok(SpendOutstanding(pending.spent, balance,
                                 Recorded(fig, balance != fig.reservedBalance, balance, expiry)));
    }
    var changeAddress := at(slot.account.index);
    if changeAddress.Err? {
      return Err(CannotReconcile(tag, Key(changeAddress.error)));
    }
    if address == changeAddress.value {
      return Ok(SpendLanded(pending.spent, slot.account.index, balance));
    }
    var position := Locate(address, slot.account.index, scope, at, cancel);
    return Err(ReservationUnexplained(tag, pending.spent, address, balance, StreamOf(slot), position));
  }

  method Reconcile(store: Keystore, node: Node, tag: Tag, access: KeyAccess, scope: ScanScope, cancel: Cancel)
    returns (r: Result<AccountStatus, Divergence>)
    modifies node, cancel, cancel.asker, cancel.observer
    ensures var run := ReconcileRun(store.h, store.handle, node.script, tag, access, scope, cancel.Stops(),
                                    Counts(old(node.calls), old(cancel.Asked())));
            && r == run.0 && node.calls == run.1.calls
            && cancel.Asked() == run.1.asked
    ensures old(cancel.Asked()) <= cancel.Asked()
    ensures cancel.observer != null ==>
              cancel.Told(old(cancel.observer.reports), old(cancel.reached), cancel.Asked() - old(cancel.Asked()))
    ensures cancel.saidStop == (old(cancel.saidStop) || (cancel.remembers && r.Err? && WasStopped(r.error)))
  {
    hide LocateRun, AddressesOf;
    var found := SlotOf(store.handle, tag);
    if found.Err? {
      return Err(CannotReconcile(tag, found.error));
    }
    var slot := found.value;
    var reply := node.ResolveTag(tag);
    if reply.Failure? {
      if reply.code == CODE_NOT_FOUND {
        return Err(TagUnresolved(tag, slot.account.index));
      }
      return Err(ChainUnreachable(tag, reply.code));
    }
    var at := AddressesOf(store.h, store.handle.image, slot, access);
    if slot.pending.None? {
      CompareIndexIgnoresCalls(tag, slot, reply.address, reply.balance, at, scope, cancel.Stops(),
                               Counts(node.calls, cancel.Asked()));
      r := DoCompareIndex(tag, slot, reply.address, reply.balance, at, scope, cancel);
    } else {
      r := DoCompareReserved(tag, slot, slot.pending.value, reply.address, reply.balance, at, scope, node, cancel);
    }
  }

  lemma CompareIndexIgnoresCalls(tag: Tag, slot: Slot, address: Address, balance: u64, at: Addresses, scope: ScanScope,
                                 stop: nat -> bool, c: Counts)
    ensures var (r, c0) := CompareIndex(tag, slot, address, balance, at, scope, stop, Counts(0, c.asked));
            CompareIndex(tag, slot, address, balance, at, scope, stop, c) == (r, Counts(c.calls, c0.asked))
  {
    hide LocateRun;
  }

  // ----- what a reconciliation establishes -----

  lemma CompareTransparent(tag: Tag, slot: Slot, address: Address, balance: u64, at: Addresses, scope: ScanScope,
                           node: Script, stop: nat -> bool, c: Counts)
    ensures var (r, c') := Compare(tag, slot, address, balance, at, scope, node, stop, c);
            && c.asked <= c'.asked
            && (SaidStop(stop, c.asked, c'.asked) <==> r.Err? && WasStopped(r.error))
            && (!SaidStop(stop, c.asked, c'.asked) ==>
                  (r, c') == Compare(tag, slot, address, balance, at, scope, node, Never, c))
  {
    LocateTransparent(address, slot.account.index, scope, at, stop, c.asked);
    hide LocateRun;
  }

  /** A reconciliation ends as stopped exactly when one of its own askings was answered stop, and
      otherwise finds what it would have found with nobody to ask. */
  lemma ReconcileTransparent(h: Hashes, handle: Handle, node: Script, tag: Tag, access: KeyAccess, scope: ScanScope,
                             stop: nat -> bool, c: Counts)
    ensures var (r, c') := ReconcileRun(h, handle, node, tag, access, scope, stop, c);
            && c.asked <= c'.asked
            && (SaidStop(stop, c.asked, c'.asked) <==> r.Err? && WasStopped(r.error))
            && (!SaidStop(stop, c.asked, c'.asked) ==>
                  (r, c') == ReconcileRun(h, handle, node, tag, access, scope, Never, c))
  {
    hide Compare, AddressesOf;
    var slot := SlotOf(handle, tag);
    var reply := node.resolve(c.calls, tag);
    if slot.Ok? && reply.Entry? {
      CompareTransparent(tag, slot.value, reply.address, reply.balance,
                         AddressesOf(h, handle.image, slot.value, access), scope, node, stop, c.(calls := c.calls + 1));
    }
  }

  /** An account reads as in sync exactly when nothing is reserved and the chain's address is its
      key's at the stored index. */
  lemma InSyncMeans(h: Hashes, handle: Handle, node: Script, tag: Tag, access: KeyAccess, scope: ScanScope,
                    stop: nat -> bool, c: Counts)
    ensures var r := ReconcileRun(h, handle, node, tag, access, scope, stop, c).0;
            r.Ok? && r.value.InSync? <==>
              && SlotOf(handle, tag).Ok? && SlotOf(handle, tag).value.pending.None?
              && node.resolve(c.calls, tag).Entry?
              && var slot := SlotOf(handle, tag).value;
                 AddressesOf(h, handle.image, slot, access)(slot.account.index)
                 == Ok(node.resolve(c.calls, tag).address)
  {
    hide LocateRun, AddressesOf;
  }

  /** A reservation reads as landed exactly when the chain's address is the change key's and not
      the spent key's. */
  lemma LandedMeans(h: Hashes, handle: Handle, node: Script, tag: Tag, access: KeyAccess, scope: ScanScope,
                    stop: nat -> bool, c: Counts)
    requires SlotOf(handle, tag).Ok?
    ensures var r := ReconcileRun(h, handle, node, tag, access, scope, stop, c).0;
            var slot := SlotOf(handle, tag).value;
            var at := AddressesOf(h, handle.image, slot, access);
            r.Ok? && r.value.SpendLanded? <==>
              && slot.pending.Some? && node.resolve(c.calls, tag).Entry?
              && at(slot.pending.value.spent).Ok?
              && at(slot.pending.value.spent) != Ok(node.resolve(c.calls, tag).address)
              && at(slot.account.index) == Ok(node.resolve(c.calls, tag).address)
  {
    hide LocateRun, AddressesOf;
  }

  /** Where a divergence says the chain sits, if it walked to find out. */
  function Walked(r: Result<AccountStatus, Divergence>): Option<ChainPosition> {
    if r.Err? && (r.error.IndexMismatch? || r.error.ReservationUnexplained?) then Some(r.error.found) else None
  }

  ghost predicate StoppedOnDerivation(r: Result<AccountStatus, Divergence>) {
    Walked(r).Some? && Walked(r).value.Unlocated? && Walked(r).value.stopped.Some?
    && Walked(r).value.stopped.value.cause == ByDerivation
  }

  /** A walk over a store's keys never stops on a derivation error: what refuses a key refuses it
      for the account, and the comparison before the walk has already derived one. */
  lemma DerivationNeverStopsAWalk(h: Hashes, handle: Handle, node: Script, tag: Tag, access: KeyAccess,
                                  scope: ScanScope, stop: nat -> bool, c: Counts)
    ensures !StoppedOnDerivation(ReconcileRun(h, handle, node, tag, access, scope, stop, c).0)
  {
    hide Compare, AddressesOf, RefusesTogether;
    var found := SlotOf(handle, tag);
    var reply := node.resolve(c.calls, tag);
    if found.Ok? && reply.Entry? {
      var slot := found.value;
      var at := AddressesOf(h, handle.image, slot, access);
      AddressesRefuseTogether(h, handle.image, slot, access);
      CompareNeverStopsOnDerivation(tag, slot, reply.address, reply.balance, at, scope, node, stop,
                                    c.(calls := c.calls + 1));
    }
  }

  ghost predicate RefusesTogether(at: Addresses) {
    forall p: u32, q: u32 :: at(q).Ok? ==> at(p).Ok?
  }

  lemma AddressesRefuseTogether(h: Hashes, image: Image, slot: Slot, access: KeyAccess)
    ensures RefusesTogether(AddressesOf(h, image, slot, access))
  {
    hide AddressAt;
    forall p: u32, q: u32
      ensures AddressesOf(h, image, slot, access)(q).Ok? ==> AddressesOf(h, image, slot, access)(p).Ok?
    {
      RefusalIgnoresPosition(h, Roots(image.slots), slot.account, q, p, access);
    }
  }

  lemma CompareNeverStopsOnDerivation(tag: Tag, slot: Slot, address: Address, balance: u64, at: Addresses,
                                      scope: ScanScope, node: Script, stop: nat -> bool, c: Counts)
    requires RefusesTogether(at)
    ensures !StoppedOnDerivation(Compare(tag, slot, address, balance, at, scope, node, stop, c).0)
  {
    hide WalkRun, Positions;
    if at(slot.account.index).Ok? {
      WalkWithoutRefusals(address, Positions(scope, Some(slot.account.index)), at, stop, c.asked);
    }
  }

  lemma {:induction false} WalkWithoutRefusals(target: Address, ps: seq<u32>, at: Addresses, stop: nat -> bool,
                                               asked: nat)
    requires forall p: u32 :: at(p).Ok?
    ensures var r := WalkRun(target, ps, at, stop, asked).0;
            r.Failed? ==> r.cause.WalkCancelled?
    decreases |ps|
  {
    if ps == [] {
    } else {
      WalkWithoutRefusals(target, ps[1..], at, stop, asked + 1);
    }
  }

  // ----- access -----

  function AccessFor(handle: Handle, tag: Tag, master: Option<Block>): Result<KeyAccess, Divergence> {
    match SlotOf(handle, tag)
    case Err(e) => Err(CannotReconcile(tag, e))
    case Ok(slot) =>
      if slot.account.key.Imported? then Ok(StoredRoot)
      else if master.Some? then Ok(Master(master.value))
      else Err(NoMasterForDerivedAccount(tag))
  }

  // ----- one account of a whole store -----

  /** What opening and reviewing both do for each account: the access its kind needs, then the
      reconciliation. */
  function ReconcileNext(h: Hashes, handle: Handle, node: Script, tag: Tag, master: Option<Block>, scope: ScanScope,
                         stop: nat -> bool, c: Counts): (Result<AccountStatus, Divergence>, Counts)
  {
    match AccessFor(handle, tag, master)
    case Err(d) => (Err(d), c)
    case Ok(access) => ReconcileRun(h, handle, node, tag, access, scope, stop, c)
  }

  /** `watched`: with an observer the predicate is wrapped in a counting one, and without it the
      caller's own is passed on. */
  method Watched(cancel: Cancel, observer: Observer?, at: Progress) returns (wrapped: Cancel)
    requires cancel.observer == null && !cancel.remembers
    ensures wrapped.asker == cancel.asker && wrapped.observer == observer && !wrapped.remembers
    ensures observer != null ==> wrapped.at == at && wrapped.reached == 0
    ensures wrapped == cancel || fresh(wrapped)
  {
    if observer == null {
      return cancel;
    }
    wrapped := new Cancel.Wrapping(cancel.asker, observer, at, false);
  }

  /** The report owed before an account is walked, with how far the walk could reach. */
  function Announcement(handle: Handle, tag: Tag, scope: ScanScope, n: nat, of: nat): Progress {
    var slot := SlotOf(handle, tag);
    Progress(Min(n, U32_MAX), Min(of, U32_MAX), 0, Reach(scope,
                                                         if slot.Ok? then Some(slot.value.account.index) else None))
  }

  /** How far the walk could reach is looked up only when somebody watches. */
  method Announced(store: Keystore, tag: Tag, scope: ScanScope, observer: Observer?, n: nat, of: nat)
    returns (at: Progress)
    modifies observer
    ensures observer != null ==>
              && at == Announcement(store.handle, tag, scope, n, of)
              && observer.reports == old(observer.reports) + [at]
  {
    at := Progress(Min(n, U32_MAX), Min(of, U32_MAX), 0, 0);
    if observer != null {
      var slot := SlotOf(store.handle, tag);
      at := at.(ceiling := Reach(scope, if slot.Ok? then Some(slot.value.account.index) else None));
      observer.Report(at);
    }
  }

  /** All an observer is told of one account: the announcement, then the walk's own reports. */
  function NextReports(h: Hashes, handle: Handle, node: Script, tag: Tag, master: Option<Block>, scope: ScanScope,
                       stop: nat -> bool, c: Counts, n: nat, of: nat): seq<Progress>
  {
    var at := Announcement(handle, tag, scope, n, of);
    [at] + Reports(at, 0, AsksOf(c, ReconcileNext(h, handle, node, tag, master, scope, stop, c).1))
  }

  function AsksOf(before: Counts, after: Counts): nat { SaturatingSub(after.asked, before.asked) }

  method DoReconcileNext(store: Keystore, node: Node, tag: Tag, master: Option<Block>, scope: ScanScope, cancel: Cancel,
                         observer: Observer?, n: nat, of: nat) returns (r: Result<AccountStatus, Divergence>)
    requires cancel.observer == null && !cancel.remembers
    modifies node, cancel, cancel.asker, observer
    ensures var run := ReconcileNext(store.h, store.handle, node.script, tag, master, scope, cancel.Stops(),
                                     Counts(old(node.calls), old(cancel.Asked())));
            && r == run.0 && node.calls == run.1.calls && cancel.Asked() == run.1.asked
    ensures observer != null ==>
              observer.reports == old(observer.reports)
                + NextReports(store.h, store.handle, node.script, tag, master, scope, cancel.Stops(),
                              Counts(old(node.calls), old(cancel.Asked())), n, of)
  {
    hide ReconcileRun, Announcement;
    var at := Announced(store, tag, scope, observer, n, of);
    var access := AccessFor(store.handle, tag, master);
    if access.Err? {
      return Err(access.error);
    }
    var watching := Watched(cancel, observer, at);
    ghost var told := if observer == null then [] else observer.reports;
    r := Reconcile(store, node, tag, access.value, scope, watching);
    assert observer != null ==> observer.reports == told + Reports(at, 0, cancel.Asked() - old(cancel.Asked()));
  }

  /** What is reported of an account is as the code promises: its walk never gets past the count
      announced for it. */
  lemma ReportsStayWithinReach(h: Hashes, handle: Handle, node: Script, tag: Tag, master: Option<Block>,
                               scope: ScanScope,
                               stop: nat -> bool, c: Counts, n: nat, of: nat)
    ensures Climbs(NextReports(h, handle, node, tag, master, scope, stop, c, n, of))
  {
    hide ReconcileNext, Announcement, Climbs, Reports;
    NextAsksWithinReach(h, handle, node, tag, master, scope, stop, c, n, of);
    ReportsClimb(Announcement(handle, tag, scope, n, of),
                 AsksOf(c, ReconcileNext(h, handle, node, tag, master, scope, stop, c).1));
  }

  lemma NextAsksWithinReach(h: Hashes, handle: Handle, node: Script, tag: Tag, master: Option<Block>, scope: ScanScope,
                            stop: nat -> bool, c: Counts, n: nat, of: nat)
    ensures AsksOf(c, ReconcileNext(h, handle, node, tag, master, scope, stop, c).1)
         <= Announcement(handle, tag, scope, n, of).ceiling
  {
    hide Positions, Reach, AddressesOf;
    var found := SlotOf(handle, tag);
    if found.Ok? {
      var local := Some(found.value.account.index);
      ReachCounts(scope, local);
      forall target: Address, at: Addresses, asked: nat
        ensures asked <= WalkRun(target, Positions(scope, local), at, stop,
                                 asked).1 <= asked + |Positions(scope, local)|
      {
        WalkAsksAtMost(target, Positions(scope, local), at, stop, asked);
      }
    }
    hide WalkRun;
  }

  lemma NextTransparent(h: Hashes, handle: Handle, node: Script, tag: Tag, master: Option<Block>, scope: ScanScope,
                        stop: nat -> bool, c: Counts)
    ensures var (r, c') := ReconcileNext(h, handle, node, tag, master, scope, stop, c);
            && c.asked <= c'.asked
            && (SaidStop(stop, c.asked, c'.asked) <==> r.Err? && WasStopped(r.error))
            && (!SaidStop(stop, c.asked, c'.asked) ==>
                  (r, c') == ReconcileNext(h, handle, node, tag, master, scope, Never, c))
  {
    hide ReconcileRun;
    var access := AccessFor(handle, tag, master);
    if access.Ok? {
      ReconcileTransparent(h, handle, node, tag, access.value, scope, stop, c);
    }
  }

  /** A finding is about the account it was made for. */
  lemma NextTag(h: Hashes, handle: Handle, node: Script, tag: Tag, master: Option<Block>, scope: ScanScope,
                stop: nat -> bool, c: Counts)
    ensures var r := ReconcileNext(h, handle, node, tag, master, scope, stop, c).0;
            r.Err? ==> r.error.tag == tag
  {
    hide LocateRun, AddressesOf;
  }

  // ----- the acknowledged advance -----

  datatype Acknowledgement = Acknowledgement(tag: Tag, target: u32)

  function Acknowledges(d: Divergence): Option<Acknowledgement> {
    if AdvanceTarget(d).Some? then Some(Acknowledgement(TagOfDivergence(d), AdvanceTarget(d).value)) else None
  }

  function TagOfDivergence(d: Divergence): Tag { d.tag }

  /** Reconcile again, and move the account only if the chain still sits at the acknowledged
      position. `writeAsks` is what the caller does before the write: ask once more, or not. */
  function GuardedAdvanceRun(h: Hashes, s: StoreState, medium: Medium, node: Script, tag: Tag, access: KeyAccess,
                             ack: Acknowledgement, scope: ScanScope, writeAsks: bool, stop: nat -> bool, c: Counts)
    : (Result<u32, Error>, StoreState, Counts)
  {
    if ack.tag != tag then (Err(AcknowledgementDoesNotMatch), s, c)
    else
      var (r, c') := ReconcileRun(h, s.handle, node, tag, access, scope, stop, c);
      match r
      case Ok(_) => (Err(NothingToReconcile), s, c')
      case Err(d) =>
        if AdvanceTarget(d) != Some(ack.target) then (Err(AcknowledgementDoesNotMatch), s, c')
        else
          var c'' := if writeAsks then c'.(asked := c'.asked + 1) else c';
          if writeAsks && stop(c'.asked) then (Err(WasCancelled), s, c'')
          else
            var (s', w) := PersistAdvanceTo(s, tag, ack.target, medium);
            (match w case Ok(_) => Ok(ack.target) case Err(e) => Err(e), s', c'')
  }

  /** How often the walk within an acknowledged advance asks. */
  function GuardedAsks(h: Hashes, handle: Handle, node: Script, tag: Tag, access: KeyAccess, ack: Acknowledgement,
                       scope: ScanScope, stop: nat -> bool, c: Counts): nat
  {
    if ack.tag != tag then 0 else AsksOf(c, ReconcileRun(h, handle, node, tag, access, scope, stop, c).1)
  }

  /** The walk within an acknowledged advance was told to stop. */
  predicate WalkSaidStop(h: Hashes, handle: Handle, node: Script, tag: Tag, access: KeyAccess, ack: Acknowledgement,
                         scope: ScanScope, stop: nat -> bool, c: Counts)
  {
    && ack.tag == tag
    && var r := ReconcileRun(h, handle, node, tag, access, scope, stop, c).0;
       r.Err? && WasStopped(r.error)
  }

  /** `walking` is asked by the walk; `direct`, when there is one, before the write. */
  method GuardedAdvance(store: Keystore, node: Node, tag: Tag, access: KeyAccess, ack: Acknowledgement,
                        scope: ScanScope, walking: Cancel, direct: Cancel?)
    returns (r: Result<u32, Error>)
    requires direct != null ==> direct.asker == walking.asker && direct.observer == null && direct != walking
    modifies store, node, walking, walking.asker, walking.observer, direct
    ensures var run := GuardedAdvanceRun(store.h, old(store.Value()), store.medium, node.script, tag, access, ack,
                                         scope, direct != null, walking.Stops(),
                                         Counts(old(node.calls), old(walking.Asked())));
            && r == run.0 && store.Value() == run.1 && node.calls == run.2.calls
            && walking.Asked() == run.2.asked
    ensures walking.observer != null ==>
              walking.Told(old(walking.observer.reports), old(walking.reached),
                           GuardedAsks(store.h, old(store.handle), node.script, tag, access, ack, scope,
                                       walking.Stops(), Counts(old(node.calls), old(walking.Asked()))))
    ensures walking.remembers && !old(walking.saidStop) ==>
              (walking.saidStop <==>
                 WalkSaidStop(store.h, old(store.handle), node.script, tag, access, ack, scope, walking.Stops(),
                              Counts(old(node.calls), old(walking.Asked()))))
  {
    hide ReconcileRun, PersistAdvanceTo, WasStopped;
    if ack.tag != tag {
      return Err(AcknowledgementDoesNotMatch);
    }
    var reconciled := Reconcile(store, node, tag, access, scope, walking);
    if reconciled.Ok? {
      return Err(NothingToReconcile);
    }
    if AdvanceTarget(reconciled.error) != Some(ack.target) {
      return Err(AcknowledgementDoesNotMatch);
    }
    if direct != null {
      var stopped := direct.Stop();
      if stopped {
        return Err(WasCancelled);
      }
    }
    var moved := store.DoPersistAdvanceTo(tag, ack.target);
    if moved.Err? {
      return Err(moved.error);
    }
    return Ok(moved.value.index);
  }
}
