/** The life of a settle (`Wallet::settle_if_landed`, `resubmit_reverted_settle` in `recon.rs`): it
    is written only when the chain shows the change key, it then agrees with the chain, and if the
    chain goes back it is recognised and the saved transaction can be sent again. */
module Settling {
  import opened Base
  import opened Primitives
  import opened Derivation
  import opened Accounts
  import opened Cancellation
  import opened Scan
  import opened Store
  import opened Recon
  import opened Attach
  import opened Spending
  import SpendingLaws

  // ----- sending a settled transaction again -----

  /** What the saved bytes parse to, and whether parsing used all of them. */
  datatype Artifact = Artifact(whole: bool, digest: Block, srcHash: Block20, wots: WotsVal)

  type Parse = seq<byte> -> Result<Artifact, nat>

  datatype NotReverted =
    | NoSettleRetained | ChainInSync | ChainAhead | ChainElsewhere | ChainUnresolved | ChainUnread | Unreconcilable

  datatype ResubmitError =
    | StoreRefused(cause: Error)
    | ReservationOpen(spent: u32)
    | NotARevertedSettle(why: NotReverted)
    | FiguresNotRecorded
    | SavedNotATransaction(code: nat)
    | SavedNotWhole
    | NotTheSettledSpend
    | SignatureDoesNotRecover(attach: AttachError)
    | SettledBalanceMoved(reserved: u64, current: u64)
    | SettledExpired(blkToLive: u64, tip: u64)
    | TipUnreadable(code: nat)

  const NARROW := ScanScope(0, Some(1))

  /** The chain's balance, if the chain is back at the key the retained settle spent. */
  function RevertedBalance(status: Result<AccountStatus, Divergence>, settled: Pending): Result<u64, NotReverted> {
    match status
    case Ok(_) => Err(ChainInSync)
    case Err(IndexMismatch(_, _, _, _, balance, _, found, reverted)) =>
      (match found
       case Ahead(_, _) => Err(ChainAhead)
       case Behind(index, gap) =>
         if gap == 1 && index == settled.spent && reverted == Some(settled) then Ok(balance) else Err(ChainElsewhere)
       case Unlocated(_, _, _) => Err(ChainElsewhere))
    case Err(TagUnresolved(_, _)) => Err(ChainUnresolved)
    case Err(ChainUnreachable(_, _)) => Err(ChainUnread)
    case Err(_) => Err(Unreconcilable)
  }

  function ArtifactObjection(h: Hashes, parse: Parse, saved: seq<byte>, settled: Pending): Option<ResubmitError> {
    match parse(saved)
    case Err(code) => Some(SavedNotATransaction(code))
    case Ok(tx) =>
      if !tx.whole then Some(SavedNotWhole)
      else if tx.digest != settled.digest then Some(NotTheSettledSpend)
      else match Verified(h, tx.digest, tx.srcHash, tx.wots)
        case Err(why) => Some(SignatureDoesNotRecover(why))
        case Ok(_) => None
  }

  function ExpiryObjection(blkToLive: u64, expiry: Expiry): Option<ResubmitError> {
    match expiry
    case NoExpiry => None
    case BelowTip(_) => None
    case ReachedTip(tip) => Some(SettledExpired(blkToLive, tip))
    case Unreadable(code) => Some(TipUnreadable(code))
  }

  /** The bytes handed to the node, and what it answered. */
  datatype Submission = Submission(wire: seq<byte>, reply: SubmitReply)

  /** What is handed to the node, or why nothing is, and the node's call count afterwards. */
  function ResubmitRun(h: Hashes, handle: Handle, node: Script, parse: Parse, tag: Tag, access: KeyAccess,
                       saved: seq<byte>,
                       c: Counts): (Result<Submission, ResubmitError>, nat)
  {
    match SlotOf(handle, tag)
    case Err(e) => (Err(StoreRefused(e)), c.calls)
    case Ok(slot) =>
      if slot.pending.Some? then (Err(ReservationOpen(slot.pending.value.spent)), c.calls)
      else if slot.settled.None? then (Err(NotARevertedSettle(NoSettleRetained)), c.calls)
      else if slot.settled.value.figures.None? then (Err(FiguresNotRecorded), c.calls)
      else
        match ArtifactObjection(h, parse, saved, slot.settled.value)
        case Some(e) => (Err(e), c.calls)
        case None => ChainAllows(h, handle, node, tag, access, slot.settled.value, slot.settled.value.figures.value,
                                 saved, c)
  }

  function ChainAllows(h: Hashes, handle: Handle, node: Script, tag: Tag, access: KeyAccess, settled: Pending,
                       figures: Figures,
                       saved: seq<byte>, c: Counts): (Result<Submission, ResubmitError>, nat)
  {
    var (status, c') := ReconcileRun(h, handle, node, tag, access, NARROW, Never, c);
    match RevertedBalance(status, settled)
    case Err(why) => (Err(NotARevertedSettle(why)), c'.calls)
    case Ok(balance) =>
      if balance != figures.reservedBalance then (Err(SettledBalanceMoved(figures.reservedBalance, balance)), c'.calls)
      else
        var (expiry, c'') := ExpiryRun(node, figures.blkToLive, c');
        match ExpiryObjection(figures.blkToLive, expiry)
        case Some(e) => (Err(e), c''.calls)
        case None => (Ok(Submission(saved, node.submit(c''.calls, saved))), c''.calls + 1)
  }

  method ResubmitRevertedSettle(store: Keystore, node: Node, parse: Parse, tag: Tag, access: KeyAccess,
                                saved: seq<byte>)
    returns (r: Result<Submission, ResubmitError>)
    modifies node
    ensures (r, node.calls)
         == ResubmitRun(store.h, store.handle, node.script, parse, tag, access, saved, Counts(old(node.calls), 0))
  {
    hide ReconcileRun, Verified;
    var found := SlotOf(store.handle, tag);
    if found.Err? {
      return Err(StoreRefused(found.error));
    }
    if found.value.pending.Some? {
      return Err(ReservationOpen(found.value.pending.value.spent));
    }
    if found.value.settled.None? {
      return Err(NotARevertedSettle(NoSettleRetained));
    }
    var settled := found.value.settled.value;
    if settled.figures.None? {
      return Err(FiguresNotRecorded);
    }
    var figures := settled.figures.value;
    var tx := parse(saved);
    if tx.Err? {
      return Err(SavedNotATransaction(tx.error));
    }
    if !tx.value.whole {
      return Err(SavedNotWhole);
    }
    if tx.value.digest != settled.digest {
      return Err(NotTheSettledSpend);
    }
    var verified := VerifyWots(store.h, tx.value.digest, tx.value.srcHash, tx.value.wots);
    if verified.Err? {
      return Err(SignatureDoesNotRecover(verified.error));
    }
    var nobody := new Predicate(Never);
    var never := new Cancel(nobody);
    var status := Reconcile(store, node, tag, access, NARROW, never);
    var balance := RevertedBalance(status, settled);
    if balance.Err? {
      return Err(NotARevertedSettle(balance.error));
    }
    if balance.value != figures.reservedBalance {
      return Err(SettledBalanceMoved(figures.reservedBalance, balance.value));
    }
    var expiry := ExpiryOf(node, figures.blkToLive);
    var objection := ExpiryObjection(figures.blkToLive, expiry);
    if objection.Some? {
      return Err(objection.value);
    }
    var reply := node.Submit(saved);
    return Ok(Submission(saved, reply));
  }

  // ----- settling -----

  /** The chain shows the change key of a reservation, and not the key it spent. */
  ghost predicate HasLanded(h: Hashes, handle: Handle, node: Script, tag: Tag, access: KeyAccess, c: Counts) {
    && SlotOf(handle, tag).Ok?
    && var slot := SlotOf(handle, tag).value;
       var at := AddressesOf(h, handle.image, slot, access);
       && slot.pending.Some? && node.resolve(c.calls, tag).Entry?
       && at(slot.pending.value.spent).Ok?
       && at(slot.pending.value.spent) != Ok(node.resolve(c.calls, tag).address)
       && at(slot.account.index) == Ok(node.resolve(c.calls, tag).address)
  }

  lemma SettleLands(s: StoreState, medium: Medium, tag: Tag)
    requires s.handle.Live? && tag in s.handle.image.slots && s.handle.image.slots[tag].pending.Some?
    ensures var slot := s.handle.image.slots[tag];
            var (s', settled) := PersistSettled(s, tag, medium);
            && (settled.Ok? <==> NextGeneration(s.handle.image).Some? && medium(s.commits) == Landed)
            && (settled.Ok? ==>
                  && s'.handle == Live(s'.disk)
                  && s'.disk.slots == s.handle.image.slots[tag := Slot(slot.account, None, slot.pending)])
  {
  }

  /** Settling touches the store only when the spend landed, and then it settles exactly when the
      write reaches the disk: the reservation becomes the retained settle and nothing else moves. */
  lemma SettleWritesWhatLanded(h: Hashes, s: StoreState, medium: Medium, node: Script, tag: Tag, access: KeyAccess,
                               c: Counts)
    ensures var (r, s') := SettleRun(h, s, medium, node, tag, access, c);
            && (s' != s ==> HasLanded(h, s.handle, node, tag, access, c))
            && (r.Ok? && r.value.Settled? <==>
                  && HasLanded(h, s.handle, node, tag, access, c)
                  && NextGeneration(s.handle.image).Some? && medium(s.commits) == Landed)
            && (r.Ok? && r.value.Settled? ==>
                  var slot := s.handle.image.slots[tag];
                  && r.value == Settled(slot.pending.value.spent, slot.account.index)
                  && s'.handle == Live(s'.disk)
                  && s'.disk.slots == s.handle.image.slots[tag := Slot(slot.account, None, slot.pending)])
  {
    hide AddressesOf, PersistSettled, NextGeneration;
    if SlotOf(s.handle, tag).Ok? {
      LandedMeans(h, s.handle, node, tag, access, DIAGNOSTIC, Never, c);
      LandedFigures(h, s.handle, node, tag, access, DIAGNOSTIC, Never, c);
      if s.handle.image.slots[tag].pending.Some? {
        SettleLands(s, medium, tag);
      }
    }
    hide ReconcileRun;
  }

  lemma LandedFigures(h: Hashes, handle: Handle, node: Script, tag: Tag, access: KeyAccess, scope: ScanScope,
                      stop: nat -> bool, c: Counts)
    requires SlotOf(handle, tag).Ok?
    ensures var r := ReconcileRun(h, handle, node, tag, access, scope, stop, c).0;
            var slot := SlotOf(handle, tag).value;
            r.Ok? && r.value.SpendLanded? ==>
              && slot.pending.Some?
              && r.value.spent == slot.pending.value.spent && r.value.settledIndex == slot.account.index
  {
    hide LocateRun, AddressesOf;
  }

  lemma AddressesIgnoreSettling(h: Hashes, image: Image, next: Image, tag: Tag, access: KeyAccess)
    requires tag in image.slots
    requires next.slots == image.slots[tag := Slot(image.slots[tag].account, None, image.slots[tag].pending)]
    ensures forall p: u32 :: AddressesOf(h, next, next.slots[tag],
                                         access)(p) == AddressesOf(h, image, image.slots[tag], access)(p)
  {
    hide AddressAt, Roots;
    SpendingLaws.RootsUnchanged(image, tag, next.slots[tag]);
  }

  // ----- after a settle -----

  /** No other position has the address of this one. */
  ghost predicate Unique(at: Addresses, position: u32) {
    forall p: u32 :: at(p) == at(position) ==> p == position
  }

  ghost predicate Walks(scope: ScanScope, local: u32, position: u32) {
    InWindow(WindowEdges(scope, Some(local)), position) || position < scope.ceiling
  }

  /** The store after a settle of `tag` landed. */
  ghost predicate SettledInto(image: Image, next: Image, tag: Tag) {
    && tag in image.slots && image.slots[tag].pending.Some?
    && next.slots == image.slots[tag := Slot(image.slots[tag].account, None, image.slots[tag].pending)]
  }

  /** The answer that let the settle through then reconciles in sync, whoever asks and however far
      they would walk. */
  lemma SettledThenInSync(h: Hashes, s: StoreState, medium: Medium, node: Script, tag: Tag, access: KeyAccess,
                          c: Counts,
                          later: Script, scope: ScanScope, stop: nat -> bool, after: Counts)
    requires var r := SettleRun(h, s, medium, node, tag, access, c).0; r.Ok? && r.value.Settled?
    requires later.resolve(after.calls, tag).Entry?
    requires later.resolve(after.calls, tag).address == node.resolve(c.calls, tag).address
    ensures var (r, s') := SettleRun(h, s, medium, node, tag, access, c);
            var reply := later.resolve(after.calls, tag);
            ReconcileRun(h, s'.handle, later, tag, access, scope, stop, after).0
            == Ok(InSync(r.value.index, reply.address, reply.balance))
  {
    hide SettleRun, ReconcileRun, NextGeneration;
    SettleWritesWhatLanded(h, s, medium, node, tag, access, c);
    var s' := SettleRun(h, s, medium, node, tag, access, c).1;
    AddressesIgnoreSettling(h, s.handle.image, s'.disk, tag, access);
    ReconcileOfSlot(h, s'.disk, later, tag, access, scope, stop, after);
    hide AddressesOf;
  }

  lemma ReconcileOfSlot(h: Hashes, image: Image, node: Script, tag: Tag, access: KeyAccess, scope: ScanScope,
                        stop: nat -> bool, c: Counts)
    requires tag in image.slots && node.resolve(c.calls, tag).Entry?
    ensures var slot := image.slots[tag];
            var reply := node.resolve(c.calls, tag);
            ReconcileRun(h, Live(image), node, tag, access, scope, stop, c)
            == Compare(tag, slot, reply.address, reply.balance, AddressesOf(h, image, slot, access), scope, node, stop,
                       c.(calls := c.calls + 1))
  {
    hide Compare, AddressesOf;
  }

  /** Where a chain that went back to a spent key is found: at that key, if the walk reaches it. */
  lemma CompareReverted(tag: Tag, slot: Slot, balance: u64, at: Addresses, scope: ScanScope, node: Script, c: Counts)
    requires slot.pending.None? && slot.settled.Some? && slot.settled.value.spent + 1 == slot.account.index
    requires forall p: u32 :: at(p).Ok?
    requires Unique(at, slot.settled.value.spent)
    ensures var spent, local := slot.settled.value.spent, slot.account.index;
            var walks := Walks(scope, local, spent);
            Compare(tag, slot, at(spent).value, balance, at, scope, node, Never, c).0
            == Err(IndexMismatch(tag, local, at(local).value, at(spent).value, balance, StreamOf(slot),
                                 if walks then Behind(spent, 1) else Unlocated(local, scope, None),
                                 if walks then slot.settled else None))
  {
    LocateReverted(slot.settled.value.spent, slot.account.index, at, scope, c.asked);
    hide LocateRun, StreamOf, Walks;
    assert at(slot.account.index) != at(slot.settled.value.spent);
  }

  lemma LocateReverted(spent: u32, local: u32, at: Addresses, scope: ScanScope, asked: nat)
    requires forall p: u32 :: at(p).Ok?
    requires spent + 1 == local && Unique(at, spent)
    ensures LocateRun(at(spent).value, local, scope, at, Never, asked).0
         == if Walks(scope, local, spent) then Behind(spent, 1) else Unlocated(local, scope, None)
  {
    var target := at(spent).value;
    assert at(spent) == Ok(target);
    WalkIsComplete(target, scope, Some(local), at, asked);
    var r := WalkRun(target, Positions(scope, Some(local)), at, Never, asked).0;
    WalkFindsTheFirst(target, Positions(scope, Some(local)), at, asked);
    hide WalkRun, Positions, WindowEdges;
    if r.Found? {
      assert at(r.position) == at(spent);
    } else if Walks(scope, local, spent) {
      assert false;
    } else {
      assert r == NotFound;
    }
  }

  /** The node answers with the reserved key's address, which no other position has. */
  ghost predicate BackAtSpentKey(h: Hashes, image: Image, tag: Tag, access: KeyAccess, reply: Reply)
    requires tag in image.slots && image.slots[tag].pending.Some?
  {
    var slot := image.slots[tag];
    var at := AddressesOf(h, image, slot, access);
    var spent := slot.pending.value.spent;
    && spent + 1 == slot.account.index
    && Unique(at, spent)
    && reply.Entry? && at(spent) == Ok(reply.address)
  }

  /** The reconciliation places the chain one behind, with the settle it undoes, if its walk
      reaches the spent key, and cannot place it otherwise. */
  ghost predicate RevertReported(r: Result<AccountStatus, Divergence>, pending: Pending, balance: u64,
                                 scope: ScanScope) {
    && r.Err? && r.error.IndexMismatch? && r.error.balance == balance
    && pending.spent < U32_MAX
    && var local := pending.spent + 1;
       if Walks(scope, local, pending.spent) then
         r.error.found == Behind(pending.spent, 1) && r.error.revertedSettle == Some(pending)
       else
         r.error.found == Unlocated(local, scope, None) && r.error.revertedSettle == None
  }

  /** If the chain goes back to the key a settle spent, every reconciliation whose walk reaches
      that key says so: one behind, with the settle it undoes. One that does not reach it cannot
      place the chain. The scope used by default, and the narrow one, always reach it. */
  lemma SettledThenReverted(h: Hashes, image: Image, next: Image, tag: Tag, access: KeyAccess, later: Script,
                            scope: ScanScope, c: Counts)
    requires SettledInto(image, next, tag)
    requires BackAtSpentKey(h, image, tag, access, later.resolve(c.calls, tag))
    ensures RevertReported(ReconcileRun(h, Live(next), later, tag, access, scope, Never, c).0,
                           image.slots[tag].pending.value, later.resolve(c.calls, tag).balance, scope)
    ensures var spent := image.slots[tag].pending.value.spent;
            Walks(DIAGNOSTIC, spent + 1, spent) && Walks(NARROW, spent + 1, spent)
  {
    hide AddressesOf, Compare, ReconcileRun, Unique, Walks, RefusesTogether;
    var slot := next.slots[tag];
    var before, at := AddressesOf(h, image, image.slots[tag], access), AddressesOf(h, next, slot, access);
    AddressesIgnoreSettling(h, image, next, tag, access);
    AddressesRefuseTogether(h, image, image.slots[tag], access);
    ReconcileOfSlot(h, next, later, tag, access, scope, Never, c);
    var spent := slot.settled.value.spent;
    SameAddresses(before, at, spent);
    CompareReverted(tag, slot, later.resolve(c.calls, tag).balance, at, scope, later, c.(calls := c.calls + 1));
    NeighbourIsWalked(spent);
  }

  lemma SameAddresses(before: Addresses, at: Addresses, position: u32)
    requires forall p: u32 :: at(p) == before(p)
    requires RefusesTogether(before) && before(position).Ok? && Unique(before, position)
    ensures Unique(at, position) && forall p: u32 :: at(p).Ok?
  {
  }

  lemma NeighbourIsWalked(spent: u32)
    requires spent < U32_MAX
    ensures Walks(DIAGNOSTIC, spent + 1, spent) && Walks(NARROW, spent + 1, spent)
  {
  }

  /** Then the saved transaction is sent exactly when it is the settled one, whole and verifying,
      for the balance it was made for, and its expiry can be read and has not come. */
  lemma RevertedSettleIsSentAgain(h: Hashes, image: Image, next: Image, tag: Tag, access: KeyAccess, later: Script,
                                  parse: Parse, saved: seq<byte>, c: Counts)
    requires SettledInto(image, next, tag) && image.slots[tag].pending.value.figures.Some?
    requires BackAtSpentKey(h, image, tag, access, later.resolve(c.calls, tag))
    ensures var settled := image.slots[tag].pending.value;
            var figures := settled.figures.value;
            var tip := later.tip(c.calls + 1);
            var r := ResubmitRun(h, Live(next), later, parse, tag, access, saved, c).0;
            && (r.Ok? ==> r.value.wire == saved)
            && (r.Ok? <==>
              && parse(saved).Ok? && parse(saved).value.whole && parse(saved).value.digest == settled.digest
              && Verified(h, parse(saved).value.digest, parse(saved).value.srcHash, parse(saved).value.wots).Ok?
              && later.resolve(c.calls, tag).balance == figures.reservedBalance
              && (figures.blkToLive == 0 || (tip.Tip? && tip.index < figures.blkToLive)))
  {
    hide ReconcileRun, Walks, AddressesOf, Verified, Unique;
    SettledThenReverted(h, image, next, tag, access, later, NARROW, c);
    ReconcileCallsOnce(h, next, later, tag, access, NARROW, c);
  }

  lemma ReconcileCallsOnce(h: Hashes, image: Image, node: Script, tag: Tag, access: KeyAccess, scope: ScanScope,
                           c: Counts)
    requires tag in image.slots && image.slots[tag].pending.None?
    ensures ReconcileRun(h, Live(image), node, tag, access, scope, Never, c).1.calls == c.calls + 1
  {
    hide LocateRun, AddressesOf;
  }
}
