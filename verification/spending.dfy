/** Spending (`wallet.rs`, `mesh/spend.rs`): planning, reserving and signing, settling, and signing
    a standing reservation again. What a transaction is made of beyond its two addresses, its
    balance, its expiry and its digest is not modelled: a `Draft` stands for the destinations and
    the fee, and says for each source, change and balance what digest they give or why not. */
module Spending {
  import opened Base
  import opened Primitives
  import opened Wots
  import opened WotsKeys
  import opened Derivation
  import opened Accounts
  import opened Cancellation
  import opened Scan
  import opened Store
  import opened Recon
  import opened Attach

  const TAG_LEN := 20
  const MAX_BLOCKS_TO_LIVE := 256

  function TagIn(address: Address): Tag { address[..TAG_LEN] }

  function HashIn(address: Address): Block20 { address[TAG_LEN..] }

  // ----- plans -----

  datatype SpendAddresses = SpendAddresses(tag: Tag, position: u32, source: Address, change: Address)

  type Draft = (SpendAddresses, u64) -> Result<Block, nat>

  datatype SpendPlan = SpendPlan(position: u32, source: Address, change: Address, balance: u64, blkToLive: u64,
                                 digest: Block)

  /** Where the next spend would come from and where its change would go. */
  function NextAddresses(h: Hashes, handle: Handle, tag: Tag, access: KeyAccess): Result<SpendAddresses, Error> {
    match SlotOf(handle, tag)
    case Err(e) => Err(e)
    case Ok(slot) =>
      if slot.pending.Some? then Err(PendingUnresolved(slot.pending.value.spent))
      else if slot.account.index == U32_MAX then Err(IndexRange(0, slot.account.index))
      else AddressPair(AddressesOf(h, handle.image, slot, access), tag, slot.account.index, slot.account.index + 1)
  }

  function AddressPair(at: Addresses, tag: Tag, position: u32, next: u32): Result<SpendAddresses, Error> {
    match at(position)
    case Err(e) => Err(Key(e))
    case Ok(source) =>
      match at(next)
      case Err(e) => Err(Key(e))
      case Ok(change) => Ok(SpendAddresses(tag, position, source, change))
  }

  /** `SpendPlan::new`: only for the address the node gives. */
  function Planned(addresses: SpendAddresses, address: Address, balance: u64, draft: Draft,
                   blkToLive: u64): Result<SpendPlan, Error> {
    if address != addresses.source then Err(ChainAddressMismatch(addresses.position))
    else match draft(addresses, balance)
      case Err(code) => Err(PlanRefused(code))
      case Ok(digest) => Ok(SpendPlan(addresses.position, addresses.source, addresses.change, balance, blkToLive,
                                      digest))
  }

  function PlanFigures(plan: SpendPlan): Figures { Figures(plan.balance, plan.blkToLive) }

  function AttachedTo(h: Hashes, plan: SpendPlan, sig: SpendSignature): Result<WotsVal, Error> {
    match Attached(h, plan.position, plan.digest, HashIn(plan.source), sig)
    case Ok(wots) => Ok(wots)
    case Err(why) => Err(AttachRefused(why))
  }

  function FirstFor(diverged: seq<Divergence>, tag: Tag): Option<Divergence>
    decreases |diverged|
  {
    if diverged == [] then None
    else if diverged[0].tag == tag then Some(diverged[0])
    else FirstFor(diverged[1..], tag)
  }

  function PlanRun(h: Hashes, handle: Handle, node: Script, diverged: seq<Divergence>, tag: Tag, access: KeyAccess,
                   draft: Draft, blkToLive: u64, calls: nat): Result<SpendPlan, Error>
  {
    if FirstFor(diverged, tag).Some? then Err(ReconciliationRefused)
    else match NextAddresses(h, handle, tag, access)
      case Err(e) => Err(e)
      case Ok(addresses) =>
        match node.resolve(calls, tag)
        case Failure(code) => Err(Mesh(code))
        case Entry(address, balance) => Planned(addresses, address, balance, draft, blkToLive)
  }

  // ----- reserving and signing -----

  function TipAllows(node: Script, blkToLive: u64, calls: nat): Result<nat, Error> {
    if blkToLive == 0 then Ok(calls)
    else match node.tip(calls)
      case TipFailure(code) => Err(Mesh(code))
      case Tip(tip) =>
        if 1 <= blkToLive - tip <= MAX_BLOCKS_TO_LIVE then Ok(calls + 1) else Err(InvalidExpiry(blkToLive, tip))
  }

  /** What stands between a plan and its reservation. */
  function Objection(h: Hashes, handle: Handle, node: Script, diverged: seq<Divergence>, plan: SpendPlan,
                     access: KeyAccess,
                     calls: nat): Option<Error>
  {
    var tag := TagIn(plan.source);
    if FirstFor(diverged, tag).Some? then Some(ReconciliationRefused)
    else match NextAddresses(h, handle, tag, access)
      case Err(e) => Some(e)
      case Ok(addresses) =>
        if addresses.position != plan.position then Some(StaleSpendPlan(plan.position, addresses.position))
        else if addresses.source != plan.source || addresses.change != plan.change then Some(SpendPlanAddressMismatch)
        else match TipAllows(node, plan.blkToLive, calls)
          case Err(e) => Some(e)
          case Ok(calls') =>
            match node.resolve(calls', tag)
            case Failure(code) => Some(Mesh(code))
            case Entry(address, balance) =>
              if address != addresses.source then Some(ChainAddressMismatch(addresses.position))
              else if balance != plan.balance then Some(BalanceChanged(plan.balance, balance))
              else None
  }

  /** The node's call count when that is settled: the tip is asked for when there is an expiry, and
      the address only for a plan that is still current and not expired. */
  function ReserveCalls(h: Hashes, handle: Handle, node: Script, diverged: seq<Divergence>, plan: SpendPlan,
                        access: KeyAccess,
                        calls: nat): nat
  {
    var tag := TagIn(plan.source);
    if FirstFor(diverged, tag).Some?
       || NextAddresses(h, handle, tag, access) != Ok(SpendAddresses(tag, plan.position, plan.source, plan.change)) then
      calls
    else match TipAllows(node, plan.blkToLive, calls)
      case Err(_) => calls + 1
      case Ok(calls') => calls' + 1
  }

  function ReserveRun(h: Hashes, s: StoreState, medium: Medium, node: Script, diverged: seq<Divergence>,
                      plan: SpendPlan,
                      access: KeyAccess, calls: nat): (Result<WotsVal, Error>, StoreState)
  {
    match Objection(h, s.handle, node, diverged, plan, access, calls)
    case Some(e) => (Err(e), s)
    case None =>
      var tag := TagIn(plan.source);
      var (s', reserved) := PersistAdvance(s, tag, plan.digest, PlanFigures(plan), medium);
      match reserved
      case Err(e) => (Err(e), s')
      case Ok(slot) => (SignReserved(h, s'.handle, plan, Receipt(tag, slot.account.index), access), s')
  }

  function SignReserved(h: Hashes, handle: Handle, plan: SpendPlan, receipt: Receipt,
                        access: KeyAccess): Result<WotsVal, Error> {
    match SignedSpend(h, handle, plan.digest, receipt, access)
    case Err(e) => Err(e)
    case Ok(sig) => AttachedTo(h, plan, sig)
  }

  // ----- settling -----

  datatype Settlement =
    | Settled(spent: u32, index: u32)
    | StillOutstanding(spent: u32, reservation: Reservation)
    | NoReservationHeld(index: u32)

  function SettleRun(h: Hashes, s: StoreState, medium: Medium, node: Script, tag: Tag, access: KeyAccess, c: Counts)
    : (Result<Settlement, Error>, StoreState)
  {
    match ReconcileRun(h, s.handle, node, tag, access, DIAGNOSTIC, Never, c).0
    case Ok(SpendLanded(spent, index, _)) =>
      var (s', settled) := PersistSettled(s, tag, medium);
      (match settled case Ok(_) => Ok(Settled(spent, index)) case Err(e) => Err(e), s')
    case Ok(SpendOutstanding(spent, _, reservation)) => (Ok(StillOutstanding(spent, reservation)), s)
    case Ok(InSync(index, _, _)) => (Ok(NoReservationHeld(index)), s)
    case Err(_) => (Err(ReconciliationRefused), s)
  }

  // ----- signing a reservation again -----

  const COMPARISON_ONLY := ScanScope(0, None)

  function ResignRun(h: Hashes, handle: Handle, node: Script, diverged: seq<Divergence>, tag: Tag, access: KeyAccess,
                     draft: Draft, blkToLive: u64, c: Counts): Result<WotsVal, Error>
  {
    if FirstFor(diverged, tag).Some? then Err(ReconciliationRefused)
    else match SlotOf(handle, tag)
      case Err(e) => Err(e)
      case Ok(slot) =>
        if slot.pending.None? then Err(NothingPending)
        else
          var pending := slot.pending.value;
          match AddressPair(AddressesOf(h, handle.image, slot, access), tag, pending.spent, slot.account.index)
          case Err(e) => Err(e)
          case Ok(addresses) =>
            match node.resolve(c.calls, tag)
            case Failure(code) => Err(Mesh(code))
            case Entry(address, balance) =>
              match Planned(addresses, address, balance, draft, blkToLive)
              case Err(ChainAddressMismatch(position)) =>
                Err(Explained(position, ReconcileRun(h, handle, node, tag, access, COMPARISON_ONLY, Never,
                                                     c.(calls := c.calls + 1)).0))
              case Err(e) => Err(e)
              case Ok(plan) =>
                if plan.digest != pending.digest then Err(DigestMismatch)
                else match Resigned(h, handle, tag, access)
                  case Err(e) => Err(e)
                  case Ok(sig) => AttachedTo(h, plan, sig)
  }

  /** The node's call count afterwards: one for the address, and when it is not the source's, those
      of the comparison that says why. */
  function ResignCalls(h: Hashes, handle: Handle, node: Script, diverged: seq<Divergence>, tag: Tag, access: KeyAccess,
                       c: Counts): nat
  {
    var slot := SlotOf(handle, tag);
    if FirstFor(diverged, tag).Some? || slot.Err? || slot.value.pending.None? then c.calls
    else match AddressPair(AddressesOf(h, handle.image, slot.value, access), tag, slot.value.pending.value.spent,
                           slot.value.account.index)
      case Err(_) => c.calls
      case Ok(addresses) =>
        match node.resolve(c.calls, tag)
        case Failure(_) => c.calls + 1
        case Entry(address, _) =>
          if address == addresses.source then c.calls + 1
          else ReconcileRun(h, handle, node, tag, access, COMPARISON_ONLY, Never, c.(calls := c.calls + 1)).1.calls
  }

  /** The chain is not where the reserved spend would start: because it landed, or not. */
  function Explained(position: u32, status: Result<AccountStatus, Divergence>): Error {
    match status
    case Ok(SpendLanded(spent, settled, _)) => ReservationLanded(spent, settled)
    case _ => ChainAddressMismatch(position)
  }

  lemma NextIsFor(h: Hashes, handle: Handle, tag: Tag, access: KeyAccess)
    ensures NextAddresses(h, handle, tag, access).Ok? ==> NextAddresses(h, handle, tag, access).value.tag == tag
  {
    hide AddressesOf;
  }

  // ----- the wallet -----

  class Wallet {
    const store: Keystore
    const node: Node
    const accounts: seq<(Tag, AccountStatus)>
    const diverged: seq<Divergence>

    constructor (store: Keystore, node: Node, accounts: seq<(Tag, AccountStatus)>, diverged: seq<Divergence>)
      ensures this.store == store && this.node == node && this.accounts == accounts && this.diverged == diverged
    {
      this.store, this.node, this.accounts, this.diverged := store, node, accounts, diverged;
    }

    method RequireReconciled(tag: Tag) returns (r: Result<(), Error>)
      ensures r == if FirstFor(diverged, tag).Some? then Err(ReconciliationRefused) else Ok(())
    {
      var n := 0;
      while n < |diverged|
        invariant 0 <= n <= |diverged|
        invariant FirstFor(diverged[n..], tag) == FirstFor(diverged, tag)
      {
        assert diverged[n..][0] == diverged[n] && diverged[n..][1..] == diverged[n + 1..];
        if diverged[n].tag == tag {
          return Err(ReconciliationRefused);
        }
        n := n + 1;
      }
      return Ok(());
    }

    method Plan(tag: Tag, access: KeyAccess, draft: Draft, blkToLive: u64) returns (r: Result<SpendPlan, Error>)
      modifies node
      ensures r == PlanRun(store.h, store.handle, node.script, diverged, tag, access, draft, blkToLive, old(node.calls))
      ensures node.calls == old(node.calls)
                + if FirstFor(diverged, tag) == None && NextAddresses(store.h, store.handle, tag, access).Ok? then 1
                  else 0
    {
      hide NextAddresses, Planned, FirstFor;
      var reconciled := RequireReconciled(tag);
      if reconciled.Err? {
        return Err(reconciled.error);
      }
      var addresses := NextAddresses(store.h, store.handle, tag, access);
      if addresses.Err? {
        return Err(addresses.error);
      }
      var reply := node.ResolveTag(tag);
      if reply.Failure? {
        return Err(Mesh(reply.code));
      }
      return Planned(addresses.value, reply.address, reply.balance, draft, blkToLive);
    }

    method ReserveAndSign(plan: SpendPlan, access: KeyAccess) returns (r: Result<WotsVal, Error>)
      modifies store, node
      ensures (r, store.Value()) == ReserveRun(store.h, old(store.Value()), store.medium, node.script, diverged, plan,
                                               access, old(node.calls))
      ensures node.calls == ReserveCalls(store.h, old(store.handle), node.script, diverged, plan, access,
                                         old(node.calls))
    {
      hide NextAddresses, SignedSpend, PersistAdvance, AttachedTo, FirstFor, TagIn, HashIn, PlanFigures;
      NextIsFor(store.h, store.handle, TagIn(plan.source), access);
      var tag := TagIn(plan.source);
      var reconciled := RequireReconciled(tag);
      if reconciled.Err? {
        return Err(reconciled.error);
      }
      var addresses := NextAddresses(store.h, store.handle, tag, access);
      if addresses.Err? {
        return Err(addresses.error);
      }
      if addresses.value.position != plan.position {
        return Err(StaleSpendPlan(plan.position, addresses.value.position));
      }
      if addresses.value.source != plan.source || addresses.value.change != plan.change {
        return Err(SpendPlanAddressMismatch);
      }
      if plan.blkToLive != 0 {
        var status := node.NetworkStatus();
        if status.TipFailure? {
          return Err(Mesh(status.code));
        }
        if !(1 <= plan.blkToLive - status.index <= MAX_BLOCKS_TO_LIVE) {
          return Err(InvalidExpiry(plan.blkToLive, status.index));
        }
      }
      var entry := node.ResolveTag(tag);
      if entry.Failure? {
        return Err(Mesh(entry.code));
      }
      if entry.address != addresses.value.source {
        return Err(ChainAddressMismatch(addresses.value.position));
      }
      if entry.balance != plan.balance {
        return Err(BalanceChanged(plan.balance, entry.balance));
      }
      var receipt := store.DoPersistAdvance(tag, plan.digest, PlanFigures(plan));
      if receipt.Err? {
        return Err(receipt.error);
      }
      var signature := store.SignSpend(plan.digest, receipt.value, access);
      if signature.Err? {
        return Err(signature.error);
      }
      r := DoAttach(plan, signature.value);
    }

    method DoAttach(plan: SpendPlan, sig: SpendSignature) returns (r: Result<WotsVal, Error>)
      ensures r == AttachedTo(store.h, plan, sig)
    {
      hide Attached;
      var attached := AttachSignature(store.h, plan.position, plan.digest, HashIn(plan.source), sig);
      if attached.Err? {
        return Err(AttachRefused(attached.error));
      }
      return Ok(attached.value);
    }

    method SettleIfLanded(tag: Tag, access: KeyAccess) returns (r: Result<Settlement, Error>)
      modifies store, node
      ensures (r, store.Value()) == SettleRun(store.h, old(store.Value()), store.medium, node.script, tag, access,
                                              Counts(old(node.calls), 0))
      ensures node.calls == ReconcileRun(store.h, old(store.handle), node.script, tag, access, DIAGNOSTIC, Never,
                                         Counts(old(node.calls), 0)).1.calls
    {
      hide ReconcileRun, PersistSettled;
      var nobody := new Predicate(Never);
      var never := new Cancel(nobody);
      var status := Reconcile(store, node, tag, access, DIAGNOSTIC, never);
      match status {
        case Ok(SpendLanded(spent, index, _)) =>
          var settled := store.DoPersistSettled(tag);
          if settled.Err? {
            return Err(settled.error);
          }
          r := Ok(Settled(spent, index));
        case Ok(SpendOutstanding(spent, _, reservation)) =>
          r := Ok(StillOutstanding(spent, reservation));
        case Ok(InSync(index, _, _)) =>
          r := Ok(NoReservationHeld(index));
        case Err(_) =>
          r := Err(ReconciliationRefused);
      }
    }

    method ResignPending(tag: Tag, access: KeyAccess, draft: Draft, blkToLive: u64) returns (r: Result<WotsVal, Error>)
      modifies node
      ensures r == ResignRun(store.h, store.handle, node.script, diverged, tag, access, draft, blkToLive,
                             Counts(old(node.calls), 0))
      ensures node.calls == ResignCalls(store.h, store.handle, node.script, diverged, tag, access,
                                        Counts(old(node.calls), 0))
    {
      hide ReconcileRun, Resigned, AttachedTo, FirstFor, AddressesOf;
      var reconciled := RequireReconciled(tag);
      if reconciled.Err? {
        return Err(reconciled.error);
      }
      var slot := SlotOf(store.handle, tag);
      if slot.Err? {
        return Err(slot.error);
      }
      if slot.value.pending.None? {
        return Err(NothingPending);
      }
      var pending := slot.value.pending.value;
      var addresses := AddressPair(AddressesOf(store.h, store.handle.image, slot.value, access), tag, pending.spent,
                                   slot.value.account.index);
      if addresses.Err? {
        return Err(addresses.error);
      }
      var entry := node.ResolveTag(tag);
      if entry.Failure? {
        return Err(Mesh(entry.code));
      }
      var plan := Planned(addresses.value, entry.address, entry.balance, draft, blkToLive);
      match plan {
        case Err(ChainAddressMismatch(position)) =>
          var nobody := new Predicate(Never);
          var never := new Cancel(nobody);
          var status := Reconcile(store, node, tag, access, COMPARISON_ONLY, never);
          r := Err(Explained(position, status));
        case Err(e) =>
          r := Err(e);
        case Ok(made) =>
          if made.digest != pending.digest {
            return Err(DigestMismatch);
          }
          var signature := store.ResignReserved(tag, access);
          if signature.Err? {
            return Err(signature.error);
          }
          r := DoAttach(made, signature.value);
      }
    }
  }
}
