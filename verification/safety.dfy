/** Safety over whole runs: whatever the node answers, whatever the caller asks for and in whatever
    order, and wherever a write fails or the program is stopped and opened again, no key of a
    stream signs two different digests and no stored index goes back. */
module Safety {
  import opened Base
  import opened Primitives
  import opened Derivation
  import opened Accounts
  import opened Cancellation
  import opened Scan
  import opened Store
  import opened Recon
  import opened Spending
  import Opening
  import Restore
  import Review
  import SpendingLaws
  import ReviewLaws

  // ----- runs -----

  /** A key that was used: the stream and the seed it was drawn from, its position, and what it
      signed. `Accounts.LabelNamesTheKey` says that these name the key. */
  datatype Signing = Signing(stream: Block20, seed: Block, position: u32, digest: Block)

  /** The store, what an open wallet set aside when there is one, and every signature ever made,
      handed out or not. */
  datatype System = System(store: StoreState, wallet: Option<seq<Divergence>>, signed: set<Signing>)

  /** What a caller can ask for. Every operation meets a node of its own, which may answer
      anything, and a predicate of its own, which may say stop at any asking. The last five are
      the store's own calls, with any arguments at all: a receipt need not be one that was given. */
  datatype Op =
    | Reopen
    | AdoptMaster(seed: Block)
    | AddAccount(account: AccountValue)
    | RestoreAccount(node: Script, master: Block, accountIndex: u32, scanTo: Option<u32>, cancellable: bool,
                     stop: nat -> bool)
    | OpenWallet(node: Script, secret: Option<Block>, cancellable: bool, stop: nat -> bool)
    | ReserveAndSign(node: Script, plan: SpendPlan, access: KeyAccess)
    | ResignPending(node: Script, tag: Tag, access: KeyAccess, draft: Draft, blkToLive: u64)
    | SettleIfLanded(node: Script, tag: Tag, access: KeyAccess)
    | ReviewAccount(node: Script, tag: Tag, secret: Option<Block>, to: u32, cancellable: bool, stop: nat -> bool)
    | AdvanceAcknowledged(node: Script, tag: Tag, access: KeyAccess, ack: Acknowledgement, scope: ScanScope,
                          asks: bool, stop: nat -> bool)
    | StoreReserve(tag: Tag, digest: Block, figures: Figures)
    | StoreAdvance(tag: Tag, to: u32)
    | StoreSettle(tag: Tag)
    | StoreSign(digest: Block, receipt: Receipt, access: KeyAccess)
    | StoreResign(tag: Tag, access: KeyAccess)

  const START := Counts(0, 0)

  /** The signature a receipt and a digest give, if they give one. */
  function MadeBySigning(h: Hashes, handle: Handle, digest: Block, receipt: Receipt, access: KeyAccess): set<Signing> {
    var r := SignedSpend(h, handle, digest, receipt, access);
    if r.Ok? then MadeFor(h, SlotOf(handle, receipt.tag).value, access, r.value.spentIndex, digest) else {}
  }

  function MadeByResigning(h: Hashes, handle: Handle, tag: Tag, access: KeyAccess): set<Signing> {
    var r := Resigned(h, handle, tag, access);
    if r.Ok? then
      var slot := SlotOf(handle, tag).value;
      MadeFor(h, slot, access, r.value.spentIndex, slot.pending.value.digest)
    else {}
  }

  function MadeFor(h: Hashes, slot: Slot, access: KeyAccess, position: u32, digest: Block): set<Signing> {
    var seed := SeedFor(h, slot.account, access);
    if seed.Some? then {Signing(StreamOf(slot), seed.value, position, digest)} else {}
  }

  /** What reserving and signing made, whether or not it then passed its own checks. */
  function MadeByReserving(h: Hashes, s: StoreState, medium: Medium, node: Script, diverged: seq<Divergence>,
                           plan: SpendPlan,
                           access: KeyAccess): set<Signing>
  {
    var tag := TagIn(plan.source);
    var (s', reserved) := PersistAdvance(s, tag, plan.digest, PlanFigures(plan), medium);
    if Objection(h, s.handle, node, diverged, plan, access, START.calls) == None && reserved.Ok? then
      MadeBySigning(h, s'.handle, plan.digest, Receipt(tag, reserved.value.account.index), access)
    else {}
  }

  function OpenedWallet(h: Hashes, handle: Handle, node: Script, secret: Option<Block>, cancellable: bool,
                        stop: nat -> bool)
    : Option<seq<Divergence>>
  {
    var r := Opening.OpenRun(h, handle, node, secret, cancellable, stop, START).0;
    if r.Opened? then Some(r.diverged) else None
  }

  function StoreAfter(h: Hashes, medium: Medium, sys: System, op: Op): StoreState {
    var s := sys.store;
    match op
    case Reopen => Reopened(s)
    case AdoptMaster(seed) => Adopted(s, seed, medium).0
    case AddAccount(a) => Added(h, s, a, medium).0
    case RestoreAccount(node, master, accountIndex, scanTo, cancellable, stop) =>
      Restore.RestoreRun(h, s, medium, node, master, accountIndex, scanTo, cancellable, stop, START).1
    case OpenWallet(_, _, _, _) => s
    case ReserveAndSign(node, plan, access) =>
      if sys.wallet.None? then s else ReserveRun(h, s, medium, node, sys.wallet.value, plan, access, START.calls).1
    case ResignPending(_, _, _, _, _) => s
    case SettleIfLanded(node, tag, access) =>
      if sys.wallet.None? then s else SettleRun(h, s, medium, node, tag, access, START).1
    case ReviewAccount(node, tag, secret, to, cancellable, stop) =>
      Review.ReviewRun(h, s, medium, node, tag, secret, to, cancellable, stop, START).1
    case AdvanceAcknowledged(node, tag, access, ack, scope, asks, stop) =>
      GuardedAdvanceRun(h, s, medium, node, tag, access, ack, scope, asks, stop, START).1
    case StoreReserve(tag, digest, figures) => PersistAdvance(s, tag, digest, figures, medium).0
    case StoreAdvance(tag, to) => PersistAdvanceTo(s, tag, to, medium).0
    case StoreSettle(tag) => PersistSettled(s, tag, medium).0
    case StoreSign(_, _, _) => s
    case StoreResign(_, _) => s
  }

  function Made(h: Hashes, medium: Medium, sys: System, op: Op): set<Signing> {
    match op
    case ReserveAndSign(node, plan, access) =>
      if sys.wallet.None? then {} else MadeByReserving(h, sys.store, medium, node, sys.wallet.value, plan, access)
    case ResignPending(_, tag, access, _, _) =>
      if sys.wallet.None? then {} else MadeByResigning(h, sys.store.handle, tag, access)
    case StoreSign(digest, receipt, access) => MadeBySigning(h, sys.store.handle, digest, receipt, access)
    case StoreResign(tag, access) => MadeByResigning(h, sys.store.handle, tag, access)
    case _ => {}
  }

  function Performed(h: Hashes, medium: Medium, sys: System, op: Op): System {
    System(StoreAfter(h, medium, sys, op),
           match op
           case Reopen => None
           case OpenWallet(node, secret, cancellable, stop) =>
             OpenedWallet(h, sys.store.handle, node, secret, cancellable, stop)
           case _ => sys.wallet,
           sys.signed + Made(h, medium, sys, op))
  }

  /** An account added to a store is one its own constructors built. */
  ghost predicate Admissible(h: Hashes, op: Op) {
    op.AddAccount? ==> Built(h, op.account)
  }

  function RunOf(h: Hashes, medium: Medium, sys: System, ops: seq<Op>): System
    decreases |ops|
  {
    if ops == [] then sys else RunOf(h, medium, Performed(h, medium, sys, ops[0]), ops[1..])
  }

  // ----- the invariant -----

  ghost predicate WholeSlot(slot: Slot) {
    && (slot.pending.Some? ==> slot.pending.value.spent + 1 == slot.account.index)
    && (slot.settled.Some? ==> slot.pending.None? && slot.settled.value.spent + 1 == slot.account.index)
  }

  ghost predicate Listed(image: Image) {
    Distinct(image.order) && forall t :: t in image.order <==> t in image.slots
  }

  ghost predicate SlotsWhole(h: Hashes, slots: map<Tag, Slot>) {
    forall t :: t in slots ==> WholeSlot(slots[t]) && Built(h, slots[t].account) && slots[t].account.tag == t
  }

  ghost predicate StreamsApart(slots: map<Tag, Slot>) {
    forall t, u :: t in slots && u in slots && StreamOf(slots[t]) == StreamOf(slots[u]) ==> t == u
  }

  /** What is true of every image a store ever holds: the order lists the accounts, each stands
      just past its reservation or its retained settle, and no two draw from one key stream. */
  ghost predicate Sound(h: Hashes, image: Image) {
    Listed(image) && SlotsWhole(h, image.slots) && StreamsApart(image.slots)
  }

  /** This key is behind the account, and if it is the reserved one it signed the reserved digest. */
  ghost predicate Used(slot: Slot, g: Signing) {
    && StreamOf(slot) == g.stream
    && g.position < slot.account.index
    && (slot.pending.Some? && slot.pending.value.spent == g.position ==> slot.pending.value.digest == g.digest)
  }

  ghost predicate Covered(image: Image, g: Signing) {
    exists t :: t in image.slots && Used(image.slots[t], g)
  }

  ghost predicate OneDigestEach(signed: set<Signing>) {
    forall g, k :: g in signed && k in signed && g.stream == k.stream && g.position == k.position ==>
      g.digest == k.digest
  }

  ghost predicate Safe(h: Hashes, sys: System) {
    && Sound(h, sys.store.disk)
    && (sys.store.handle.Live? ==> sys.store.handle.image == sys.store.disk)
    && (forall g :: g in sys.signed ==> Covered(sys.store.disk, g) && g.stream == StreamId(h, g.seed))
    && OneDigestEach(sys.signed)
  }

  /** Every account is still there, with the same keys, at an index no lower. */
  ghost predicate NoneWentBack(image: Image, next: Image) {
    forall t :: t in image.slots ==>
      && t in next.slots
      && next.slots[t].account.key == image.slots[t].account.key
      && image.slots[t].account.index <= next.slots[t].account.index
  }

  /** One image may follow another: it is sound, nothing went back, and every key that was behind
      its account still is. */
  ghost predicate Follows(h: Hashes, image: Image, next: Image) {
    && Sound(h, next)
    && NoneWentBack(image, next)
    && forall g :: Covered(image, g) ==> Covered(next, g)
  }

  ghost predicate StoreSafe(h: Hashes, s: StoreState) {
    && Sound(h, s.disk)
    && (s.handle.Live? ==> s.handle.image == s.disk)
  }

  // ----- one slot -----

  ghost predicate SlotFollows(slot: Slot, next: Slot) {
    && WholeSlot(next)
    && next.account.key == slot.account.key && next.account.tag == slot.account.tag
    && slot.account.index <= next.account.index
    && StillUsed(slot, next)
  }

  /** Reserving puts the reserved key just behind the account, where no key was used yet. */
  lemma ReservedFollows(slot: Slot, digest: Block, figures: Figures)
    requires WholeSlot(slot) && Reserved(slot, digest, figures).Ok?
    ensures SlotFollows(slot, Reserved(slot, digest, figures).value)
  {
  }

  lemma MovedFollows(slot: Slot, target: u32)
    requires WholeSlot(slot) && MovedTo(slot, target).Ok?
    ensures SlotFollows(slot, MovedTo(slot, target).value)
  {
  }

  lemma SettledFollows(slot: Slot)
    requires WholeSlot(slot) && SettledSlot(slot).Ok?
    ensures SlotFollows(slot, SettledSlot(slot).value)
  {
  }

  // ----- one image -----

  ghost predicate StillUsed(slot: Slot, next: Slot) {
    forall g :: Used(slot, g) ==> Used(next, g)
  }

  lemma UsedKeysStayUsed(slots: map<Tag, Slot>, next: map<Tag, Slot>, image: Image, after: Image)
    requires image.slots == slots && after.slots == next
    requires forall t :: t in slots ==> t in next && StillUsed(slots[t], next[t])
    ensures forall g :: Covered(image, g) ==> Covered(after, g)
  {
    hide Used;
    forall g | Covered(image, g) ensures Covered(after, g) {
      var t :| t in slots && Used(slots[t], g);
      assert StillUsed(slots[t], next[t]);
      assert t in next && Used(next[t], g);
    }
  }

  lemma RewriteFollows(h: Hashes, image: Image, tag: Tag, slot: Slot, generation: u64)
    requires Sound(h, image) && tag in image.slots && SlotFollows(image.slots[tag], slot)
    ensures Follows(h, image, image.(generation := generation, slots := image.slots[tag := slot]))
  {
    var slots := image.slots;
    var next := image.(generation := generation, slots := slots[tag := slot]);
    hide Built, WholeSlot, Used, Covered, Distinct;
    BuiltIgnoresIndex(h, slots[tag].account, slot.account);
    assert SlotsWhole(h, next.slots);
    assert StreamsApart(next.slots) by {
      hide SlotsWhole;
    }
    hide SlotsWhole, StreamsApart;
    UsedKeysStayUsed(slots, next.slots, image, next);
  }

  lemma BuiltIgnoresIndex(h: Hashes, a: AccountValue, b: AccountValue)
    requires a.tag == b.tag && a.key == b.key
    ensures Built(h, a) == Built(h, b)
  {
    hide ImportedParts, FirstBytes, StreamId;
  }

  lemma AddFollows(h: Hashes, image: Image, a: AccountValue, generation: u64)
    requires Sound(h, image) && Built(h, a) && AddRefusal(h, image, a) == None
    ensures Follows(h, image, image.(generation := generation, order := Inserted(image.order, a.tag),
                                     slots := image.slots[a.tag := Slot(a, None, None)]))
  {
    hide Used, Built, Distinct, Covered, AddRefusal;
    StreamIsNew(h, image, a);
    InsertedEnumerates(image.order, a.tag);
    var slots := image.slots;
    var next := image.(generation := generation, order := Inserted(image.order, a.tag),
                       slots := slots[a.tag := Slot(a, None, None)]);
    assert SlotsWhole(h, next.slots);
    assert StreamsApart(next.slots) by {
      hide SlotsWhole;
    }
    hide SlotsWhole, StreamsApart;
    UsedKeysStayUsed(slots, next.slots, image, next);
  }

  lemma StreamIsNew(h: Hashes, image: Image, a: AccountValue)
    requires Built(h, a) && AddRefusal(h, image, a) == None
    ensures a.tag !in image.slots && NextGeneration(image).Some?
    ensures forall t :: t in image.slots ==> StreamOf(image.slots[t]) != a.key.stream
  {
    hide StreamId, DeriveAccount, ImportedParts, FirstBytes;
  }

  lemma SameFollows(h: Hashes, image: Image, next: Image)
    requires Sound(h, image) && next.slots == image.slots && next.order == image.order
    ensures Follows(h, image, next)
  {
    hide SlotsWhole, Used;
  }

  lemma FollowsOn(h: Hashes, first: Image, second: Image, third: Image)
    requires Follows(h, first, second) && Follows(h, second, third)
    ensures Follows(h, first, third)
  {
    hide Sound, Covered;
  }

  // ----- one transition -----

  ghost predicate Kept(h: Hashes, s: StoreState, s': StoreState) {
    StoreSafe(h, s') && Follows(h, s.disk, s'.disk)
  }

  /** However a write ends, the disk holds the old image or the new one, and a handle that still
      answers holds what the disk holds. */
  lemma CommitKeeps(h: Hashes, s: StoreState, next: Image, medium: Medium)
    requires StoreSafe(h, s) && Follows(h, s.disk, next)
    ensures Kept(h, s, Committed(s, next, medium).0)
  {
    hide Follows, Sound;
    SameFollows(h, s.disk, s.disk);
    FollowsMeansSound(h, s.disk, next);
  }

  lemma FollowsMeansSound(h: Hashes, image: Image, next: Image)
    ensures Follows(h, image, next) ==> Sound(h, next)
  {
    hide Sound, Covered;
  }

  lemma NothingKeeps(h: Hashes, s: StoreState)
    requires StoreSafe(h, s)
    ensures Kept(h, s, s)
  {
    hide Follows, Sound;
    SameFollows(h, s.disk, s.disk);
  }

  ghost predicate Steps(change: Slot -> Result<Slot, Error>) {
    forall slot :: WholeSlot(slot) && change(slot).Ok? ==> SlotFollows(slot, change(slot).value)
  }

  lemma ChangeKeeps(h: Hashes, s: StoreState, tag: Tag, change: Slot -> Result<Slot, Error>, medium: Medium)
    requires StoreSafe(h, s) && Steps(change)
    ensures Kept(h, s, Changed(s, tag, change, medium).0)
  {
    hide Kept, SlotFollows, Committed, NextGeneration;
    NothingKeeps(h, s);
    var slot := SlotOf(s.handle, tag);
    if slot.Ok? && change(slot.value).Ok? && NextGeneration(s.handle.image).Some? {
      var next := change(slot.value).value;
      var generation := NextGeneration(s.handle.image).value;
      assert WholeSlot(slot.value) by {
        hide Built, WholeSlot;
      }
      RewriteFollows(h, s.disk, tag, next, generation);
      hide Sound, Steps, Follows;
      CommitKeeps(h, s, s.disk.(generation := generation, slots := s.disk.slots[tag := next]), medium);
    }
  }

  lemma ReserveKeeps(h: Hashes, s: StoreState, tag: Tag, digest: Block, figures: Figures, medium: Medium)
    requires StoreSafe(h, s)
    ensures Kept(h, s, PersistAdvance(s, tag, digest, figures, medium).0)
  {
    hide Kept, StoreSafe, Changed, SlotFollows, Reserved;
    var change := slot => Reserved(slot, digest, figures);
    forall slot | WholeSlot(slot) && change(slot).Ok? ensures SlotFollows(slot, change(slot).value) {
      ReservedFollows(slot, digest, figures);
    }
    ChangeKeeps(h, s, tag, change, medium);
  }

  lemma MoveKeeps(h: Hashes, s: StoreState, tag: Tag, target: u32, medium: Medium)
    requires StoreSafe(h, s)
    ensures Kept(h, s, PersistAdvanceTo(s, tag, target, medium).0)
  {
    hide Kept, StoreSafe, Changed, SlotFollows, MovedTo;
    var change := slot => MovedTo(slot, target);
    forall slot | WholeSlot(slot) && change(slot).Ok? ensures SlotFollows(slot, change(slot).value) {
      MovedFollows(slot, target);
    }
    ChangeKeeps(h, s, tag, change, medium);
  }

  lemma SettleKeeps(h: Hashes, s: StoreState, tag: Tag, medium: Medium)
    requires StoreSafe(h, s)
    ensures Kept(h, s, PersistSettled(s, tag, medium).0)
  {
    hide Kept, StoreSafe, Changed, SlotFollows, SettledSlot;
    var change := slot => SettledSlot(slot);
    forall slot | WholeSlot(slot) && change(slot).Ok? ensures SlotFollows(slot, change(slot).value) {
      SettledFollows(slot);
    }
    ChangeKeeps(h, s, tag, change, medium);
  }

  lemma AddKeeps(h: Hashes, s: StoreState, a: AccountValue, medium: Medium)
    requires StoreSafe(h, s) && Built(h, a)
    ensures Kept(h, s, Added(h, s, a, medium).0)
  {
    hide Kept, AddRefusal, Committed, Built, Inserted;
    NothingKeeps(h, s);
    if s.handle.Live? && AddRefusal(h, s.disk, a) == None {
      StreamIsNew(h, s.disk, a);
      var generation := NextGeneration(s.disk).value;
      AddFollows(h, s.disk, a, generation);
      hide Sound, Follows;
      CommitKeeps(h, s, s.disk.(generation := generation, order := Inserted(s.disk.order, a.tag),
                                slots := s.disk.slots[a.tag := Slot(a, None, None)]), medium);
    }
  }

  lemma AdoptKeeps(h: Hashes, s: StoreState, master: Block, medium: Medium)
    requires StoreSafe(h, s)
    ensures Kept(h, s, Adopted(s, master, medium).0)
  {
    hide Kept, Committed;
    NothingKeeps(h, s);
    if s.handle.Live? && s.disk.master.None? && NextGeneration(s.disk).Some? {
      var next := s.disk.(generation := NextGeneration(s.disk).value, master := Some(master));
      SameFollows(h, s.disk, next);
      hide Sound, Follows;
      CommitKeeps(h, s, next, medium);
    }
  }

  lemma ReopenKeeps(h: Hashes, s: StoreState)
    requires StoreSafe(h, s)
    ensures Kept(h, s, Reopened(s))
  {
    hide Sound, Follows;
    SameFollows(h, s.disk, s.disk);
  }

  // ----- every operation is one transition, or none -----

  lemma ReservingWrites(h: Hashes, s: StoreState, medium: Medium, node: Script, diverged: seq<Divergence>,
                        plan: SpendPlan,
                        access: KeyAccess)
    ensures var s' := ReserveRun(h, s, medium, node, diverged, plan, access, START.calls).1;
            s' == s || s' == PersistAdvance(s, TagIn(plan.source), plan.digest, PlanFigures(plan), medium).0
  {
    hide Objection, PersistAdvance, SignReserved, TagIn;
  }

  lemma SettlingWrites(h: Hashes, s: StoreState, medium: Medium, node: Script, tag: Tag, access: KeyAccess)
    ensures var s' := SettleRun(h, s, medium, node, tag, access, START).1;
            s' == s || s' == PersistSettled(s, tag, medium).0
  {
    hide PersistSettled, ReconcileRun;
  }

  lemma RestoreWrites(h: Hashes, s: StoreState, medium: Medium, node: Script, master: Block, accountIndex: u32,
                      scanTo: Option<u32>, cancellable: bool, stop: nat -> bool)
    ensures var s' := Restore.RestoreRun(h, s, medium, node, master, accountIndex, scanTo, cancellable, stop, START).1;
            var scanned := Restore.ScanRun(h, node, master, accountIndex, Restore.RestoreScope(scanTo), stop,
                                           Counts(0, 1)).0;
            || s' == s
            || (scanned.Ok?
                && s' == Added(h, s, Restore.BuiltAt(h, master, accountIndex, scanned.value.index), medium).0)
  {
    hide Restore.ScanRun, Restore.BuiltAt, Restore.RestoreScope, Added;
  }

  lemma RestoredIsBuilt(h: Hashes, master: Block, accountIndex: u32, index: u32)
    ensures Built(h, Restore.BuiltAt(h, master, accountIndex, index))
  {
    hide DeriveAccount, StreamId;
  }

  lemma StoreAfterKeeps(h: Hashes, medium: Medium, sys: System, op: Op)
    requires StoreSafe(h, sys.store) && Admissible(h, op)
    ensures Kept(h, sys.store, StoreAfter(h, medium, sys, op))
  {
    hide StoreSafe, Kept, PersistAdvance, PersistAdvanceTo, PersistSettled, Added, Adopted, Reopened, ReserveRun,
         SettleRun,
         GuardedAdvanceRun, Built, TagIn;
    hide Review.ReviewRun, Restore.RestoreRun, Restore.BuiltAt, Restore.ScanRun, Restore.RestoreScope;
    var s := sys.store;
    NothingKeeps(h, s);
    match op {
      case Reopen => ReopenKeeps(h, s);
      case AdoptMaster(seed) => AdoptKeeps(h, s, seed, medium);
      case AddAccount(a) => AddKeeps(h, s, a, medium);
      case RestoreAccount(node, master, accountIndex, scanTo, cancellable, stop) =>
        RestoreWrites(h, s, medium, node, master, accountIndex, scanTo, cancellable, stop);
        var scanned := Restore.ScanRun(h, node, master, accountIndex, Restore.RestoreScope(scanTo), stop,
                                       Counts(0, 1)).0;
        if scanned.Ok? {
          RestoredIsBuilt(h, master, accountIndex, scanned.value.index);
          AddKeeps(h, s, Restore.BuiltAt(h, master, accountIndex, scanned.value.index), medium);
        }
      case OpenWallet(_, _, _, _) =>
      case ReserveAndSign(node, plan, access) =>
        if sys.wallet.Some? {
          ReservingWrites(h, s, medium, node, sys.wallet.value, plan, access);
          ReserveKeeps(h, s, TagIn(plan.source), plan.digest, PlanFigures(plan), medium);
        }
      case ResignPending(_, _, _, _, _) =>
      case SettleIfLanded(node, tag, access) =>
        SettlingWrites(h, s, medium, node, tag, access);
        SettleKeeps(h, s, tag, medium);
      case ReviewAccount(node, tag, secret, to, cancellable, stop) =>
        ReviewLaws.ReviewSound(h, s, medium, node, tag, secret, to, cancellable, stop, START);
        MoveKeeps(h, s, tag, to, medium);
      case AdvanceAcknowledged(node, tag, access, ack, scope, asks, stop) =>
        ReviewLaws.GuardedAdvanceSound(h, s, medium, node, tag, access, ack, scope, asks, stop, START);
        MoveKeeps(h, s, tag, ack.target, medium);
      case StoreReserve(tag, digest, figures) => ReserveKeeps(h, s, tag, digest, figures, medium);
      case StoreAdvance(tag, to) => MoveKeeps(h, s, tag, to, medium);
      case StoreSettle(tag) => SettleKeeps(h, s, tag, medium);
      case StoreSign(_, _, _) =>
      case StoreResign(_, _) =>
    }
  }

  // ----- what signs is reserved -----

  ghost predicate HeldBy(slot: Slot, g: Signing) {
    && StreamOf(slot) == g.stream && slot.pending.Some?
    && slot.pending.value.spent == g.position && slot.pending.value.digest == g.digest
  }

  /** A live reservation stands behind the signature: the same key, the same digest. */
  ghost predicate HeldIn(image: Image, g: Signing) {
    exists t :: t in image.slots && HeldBy(image.slots[t], g)
  }

  /** The signing is of this slot's reservation, by a key of the seed its stream identifies. */
  ghost predicate MadeForReservation(h: Hashes, image: Image, g: Signing) {
    HeldIn(image, g) && g.stream == StreamId(h, g.seed)
  }

  lemma KeyedSlot(h: Hashes, image: Image, tag: Tag, access: KeyAccess)
    requires SlotsWhole(h, image.slots) && tag in image.slots && image.slots[tag].pending.Some?
    requires var slot := image.slots[tag];
             KeyAt(h, Roots(image.slots), slot.account, slot.pending.value.spent, access).Ok?
    ensures var slot := image.slots[tag];
            forall g :: g in MadeFor(h, slot, access, slot.pending.value.spent, slot.pending.value.digest) ==>
              MadeForReservation(h, image, g)
  {
    hide KeyAt, Roots, StreamId;
    var slot := image.slots[tag];
    LabelNamesTheKey(h, Roots(image.slots), slot.account, slot.pending.value.spent, access);
    hide SlotsWhole, SeedFor;
    var g := Signing(StreamOf(slot), SeedFor(h, slot.account, access).value, slot.pending.value.spent,
                     slot.pending.value.digest);
    assert HeldBy(slot, g);
  }

  lemma SigningNeedsAReservation(h: Hashes, handle: Handle, digest: Block, receipt: Receipt, access: KeyAccess)
    requires handle.Live? ==> SlotsWhole(h, handle.image.slots)
    ensures forall g :: g in MadeBySigning(h, handle, digest, receipt, access) ==>
              handle.Live? && MadeForReservation(h, handle.image, g)
  {
    hide KeyAt, Roots, SlotsWhole, MadeFor, MadeForReservation;
    if SignedSpend(h, handle, digest, receipt, access).Ok? {
      KeyedSlot(h, handle.image, receipt.tag, access);
    }
  }

  lemma ResigningNeedsAReservation(h: Hashes, handle: Handle, tag: Tag, access: KeyAccess)
    requires handle.Live? ==> SlotsWhole(h, handle.image.slots)
    ensures forall g :: g in MadeByResigning(h, handle, tag, access) ==>
              handle.Live? && MadeForReservation(h, handle.image, g)
  {
    hide KeyAt, Roots, SlotsWhole, MadeFor, MadeForReservation;
    if Resigned(h, handle, tag, access).Ok? {
      KeyedSlot(h, handle.image, tag, access);
    }
  }

  /** Every signature an operation makes is made for a reservation that is on the disk when it
      is done. */
  lemma MadeIsHeld(h: Hashes, medium: Medium, sys: System, op: Op)
    requires StoreSafe(h, sys.store) && StoreSafe(h, StoreAfter(h, medium, sys, op))
    ensures forall g :: g in Made(h, medium, sys, op) ==> MadeForReservation(h, StoreAfter(h, medium, sys, op).disk, g)
  {
    hide MadeBySigning, MadeByResigning, MadeForReservation, SlotsWhole, PersistAdvance, Objection, SignReserved, TagIn;
    hide Listed, StreamsApart;
    var handle := sys.store.handle;
    match op {
      case ReserveAndSign(node, plan, access) =>
        if sys.wallet.Some? {
          var tag := TagIn(plan.source);
          var (s', reserved) := PersistAdvance(sys.store, tag, plan.digest, PlanFigures(plan), medium);
          if Objection(h, handle, node, sys.wallet.value, plan, access, START.calls) == None && reserved.Ok? {
            SigningNeedsAReservation(h, s'.handle, plan.digest, Receipt(tag, reserved.value.account.index), access);
          }
        }
      case ResignPending(_, tag, access, _, _) =>
        ResigningNeedsAReservation(h, handle, tag, access);
      case StoreSign(digest, receipt, access) =>
        SigningNeedsAReservation(h, handle, digest, receipt, access);
      case StoreResign(tag, access) =>
        ResigningNeedsAReservation(h, handle, tag, access);
      case _ =>
    }
  }

  /** The signing of this position and digest, by the seed of this slot's account. */
  ghost predicate Records(h: Hashes, made: set<Signing>, handle: Handle, tag: Tag, access: KeyAccess, position: u32,
                          digest: Block) {
    && SlotOf(handle, tag).Ok?
    && var slot := SlotOf(handle, tag).value;
       && SeedFor(h, slot.account, access).Some?
       && Signing(StreamOf(slot), SeedFor(h, slot.account, access).value, position, digest) in made
  }

  lemma KeyHasASeed(h: Hashes, roots: set<Block>, a: AccountValue, position: u32, access: KeyAccess)
    ensures KeyAt(h, roots, a, position, access).Ok? ==> SeedFor(h, a, access).Some?
  {
    hide DeriveAccount, DeriveWotsKey, StreamId, KeyFromComponents;
  }

  /** A signature the wallet hands out is one of those recorded: for the position planned and the
      digest planned, or for the standing reservation. */
  lemma HandedOutIsRecorded(h: Hashes, medium: Medium, sys: System, node: Script, plan: SpendPlan, tag: Tag,
                            access: KeyAccess,
                            draft: Draft, blkToLive: u64)
    requires sys.wallet.Some?
    ensures var (r, s') := ReserveRun(h, sys.store, medium, node, sys.wallet.value, plan, access, START.calls);
            r.Ok? ==>
              Records(h, Made(h, medium, sys, ReserveAndSign(node, plan, access)), s'.handle, TagIn(plan.source),
                      access,
                      plan.position, plan.digest)
    ensures ResignRun(h, sys.store.handle, node, sys.wallet.value, tag, access, draft, blkToLive, START).Ok? ==>
              var slot := SlotOf(sys.store.handle, tag).value;
              && slot.pending.Some?
              && Records(h, Made(h, medium, sys, ResignPending(node, tag, access, draft, blkToLive)), sys.store.handle,
                         tag,
                         access, slot.pending.value.spent, slot.pending.value.digest)
  {
    hide Records, FirstFor, AddressesOf, ReconcileRun, AttachedTo, Resigned, MadeByResigning, ReserveRun,
         MadeByReserving;
    ReserveIsRecorded(h, medium, sys, node, plan, access);
    ResignIsRecorded(h, sys.store.handle, tag, access);
  }

  lemma ResignIsRecorded(h: Hashes, handle: Handle, tag: Tag, access: KeyAccess)
    ensures Resigned(h, handle, tag, access).Ok? ==>
              && SlotOf(handle, tag).Ok? && SlotOf(handle, tag).value.pending.Some?
              && var pending := SlotOf(handle, tag).value.pending.value;
                 Records(h, MadeByResigning(h, handle, tag, access), handle, tag, access, pending.spent, pending.digest)
  {
    hide KeyAt, Roots, SeedFor;
    if Resigned(h, handle, tag, access).Ok? {
      var slot := SlotOf(handle, tag).value;
      KeyHasASeed(h, Roots(handle.image.slots), slot.account, slot.pending.value.spent, access);
    }
  }

  lemma ReserveIsRecorded(h: Hashes, medium: Medium, sys: System, node: Script, plan: SpendPlan, access: KeyAccess)
    requires sys.wallet.Some?
    ensures var (r, s') := ReserveRun(h, sys.store, medium, node, sys.wallet.value, plan, access, START.calls);
            r.Ok? ==>
              Records(h, MadeByReserving(h, sys.store, medium, node, sys.wallet.value, plan, access), s'.handle,
                      TagIn(plan.source), access, plan.position, plan.digest)
  {
    hide Objection, PersistAdvance, TagIn, SignReserved, MadeBySigning, Records;
    var tag := TagIn(plan.source);
    var (s', reserved) := PersistAdvance(sys.store, tag, plan.digest, PlanFigures(plan), medium);
    if reserved.Ok? {
      SignedIsRecorded(h, s'.handle, plan, Receipt(tag, reserved.value.account.index), access);
    }
  }

  lemma SignedIsRecorded(h: Hashes, handle: Handle, plan: SpendPlan, receipt: Receipt, access: KeyAccess)
    ensures SignReserved(h, handle, plan, receipt, access).Ok? ==>
              Records(h, MadeBySigning(h, handle, plan.digest, receipt, access), handle, receipt.tag, access,
                      plan.position, plan.digest)
  {
    hide MadeBySigning, SignedSpend, Records;
    SigningIsRecorded(h, handle, plan.digest, receipt, access);
  }

  /** So is one made by the store's own calls: for the digest given and the position said, or for the
      standing reservation. */
  lemma StoreSigningIsRecorded(h: Hashes, medium: Medium, sys: System, digest: Block, receipt: Receipt, tag: Tag,
                               access: KeyAccess)
    ensures var r := SignedSpend(h, sys.store.handle, digest, receipt, access);
            r.Ok? ==>
              Records(h, Made(h, medium, sys, StoreSign(digest, receipt, access)), sys.store.handle, receipt.tag,
                      access, r.value.spentIndex, digest)
    ensures Resigned(h, sys.store.handle, tag, access).Ok? ==>
              && SlotOf(sys.store.handle, tag).Ok? && SlotOf(sys.store.handle, tag).value.pending.Some?
              && var pending := SlotOf(sys.store.handle, tag).value.pending.value;
                 Records(h, Made(h, medium, sys, StoreResign(tag, access)), sys.store.handle, tag, access,
                         pending.spent, pending.digest)
  {
    hide Records, MadeBySigning, MadeByResigning, SignedSpend, Resigned;
    ResignIsRecorded(h, sys.store.handle, tag, access);
    SigningIsRecorded(h, sys.store.handle, digest, receipt, access);
  }

  lemma SigningIsRecorded(h: Hashes, handle: Handle, digest: Block, receipt: Receipt, access: KeyAccess)
    ensures var r := SignedSpend(h, handle, digest, receipt, access);
            r.Ok? ==>
              Records(h, MadeBySigning(h, handle, digest, receipt, access), handle, receipt.tag, access,
                      r.value.spentIndex, digest)
  {
    hide KeyAt, Roots, SeedFor;
    if SignedSpend(h, handle, digest, receipt, access).Ok? {
      var slot := SlotOf(handle, receipt.tag).value;
      KeyHasASeed(h, Roots(handle.image.slots), slot.account, slot.pending.value.spent, access);
    }
  }

  // ----- the main results -----

  lemma HeldIsCovered(h: Hashes, image: Image, held: Signing)
    requires Sound(h, image) && HeldIn(image, held)
    ensures Covered(image, held)
  {
    hide Listed, Built;
    var t :| t in image.slots && HeldBy(image.slots[t], held);
    assert WholeSlot(image.slots[t]);
    assert Used(image.slots[t], held);
  }

  /** Two signatures of one stream and position, one of them held by a live reservation, agree. */
  lemma HeldAgrees(h: Hashes, image: Image, held: Signing, g: Signing)
    requires Sound(h, image) && HeldIn(image, held) && Covered(image, g)
    requires held.stream == g.stream && held.position == g.position
    ensures held.digest == g.digest
  {
    hide Listed, SlotsWhole;
    var t :| t in image.slots && HeldBy(image.slots[t], held);
    var u :| u in image.slots && Used(image.slots[u], g);
    assert t == u;
  }

  lemma StepIsSafe(h: Hashes, medium: Medium, sys: System, op: Op)
    requires Safe(h, sys) && Admissible(h, op)
    ensures Safe(h, Performed(h, medium, sys, op))
    ensures Follows(h, sys.store.disk, Performed(h, medium, sys, op).store.disk)
  {
    hide Sound, Covered, HeldIn, StoreAfter, Made, OpenedWallet, StreamId;
    StoreAfterKeeps(h, medium, sys, op);
    MadeIsHeld(h, medium, sys, op);
    var next := Performed(h, medium, sys, op);
    var made, disk := Made(h, medium, sys, op), next.store.disk;
    forall g | g in next.signed ensures Covered(disk, g) && g.stream == StreamId(h, g.seed) {
      if g in made {
        HeldIsCovered(h, disk, g);
      }
    }
    forall g, k | g in next.signed && k in next.signed && g.stream == k.stream && g.position == k.position
      ensures g.digest == k.digest
    {
      if g in made {
        HeldAgrees(h, disk, g, k);
      } else if k in made {
        HeldAgrees(h, disk, k, g);
      }
    }
  }

  lemma {:induction false} RunIsSafe(h: Hashes, medium: Medium, sys: System, ops: seq<Op>)
    requires Safe(h, sys) && forall op :: op in ops ==> Admissible(h, op)
    ensures Safe(h, RunOf(h, medium, sys, ops))
    ensures Follows(h, sys.store.disk, RunOf(h, medium, sys, ops).store.disk)
    decreases |ops|
  {
    hide Safe, Follows, Performed, Admissible;
    if ops == [] {
      SafeFollows(h, sys);
    } else {
      StepIsSafe(h, medium, sys, ops[0]);
      var next := Performed(h, medium, sys, ops[0]);
      RunIsSafe(h, medium, next, ops[1..]);
      FollowsOn(h, sys.store.disk, next.store.disk, RunOf(h, medium, sys, ops).store.disk);
    }
  }

  lemma SafeFollows(h: Hashes, sys: System)
    requires Safe(h, sys)
    ensures Follows(h, sys.store.disk, sys.store.disk)
  {
    SameFollows(h, sys.store.disk, sys.store.disk);
    hide Follows, Sound;
  }

  /** A store as it is created: no accounts, with or without a master seed. */
  function Created(generation: u64, master: Option<Block>): System {
    var image := Image(generation, [], map[], master);
    System(StoreState(image, Live(image), 0), None, {})
  }

  lemma CreatedIsSafe(h: Hashes, generation: u64, master: Option<Block>)
    ensures Safe(h, Created(generation, master))
  {
  }

  /** From a store as it is created, over every run: no key ever signs two digests, whether keys
      are told apart by seed and position or by stream and position; every key that signed is
      behind the index on the disk, so no later reservation can reach it; and a handle that still
      answers holds exactly what the disk holds. */
  lemma NoKeySignsTwice(h: Hashes, medium: Medium, generation: u64, master: Option<Block>, ops: seq<Op>)
    requires forall op :: op in ops ==> Admissible(h, op)
    ensures var end := RunOf(h, medium, Created(generation, master), ops);
            && (forall g, k :: g in end.signed && k in end.signed && g.seed == k.seed && g.position == k.position ==>
                  g.digest == k.digest)
            && OneDigestEach(end.signed)
            && (forall g :: g in end.signed ==> g.stream == StreamId(h, g.seed) && BehindItsIndex(end.store.disk, g))
            && (end.store.handle.Live? ==> end.store.handle.image == end.store.disk)
  {
    hide Sound, Admissible, Performed, StreamId;
    CreatedIsSafe(h, generation, master);
    RunIsSafe(h, medium, Created(generation, master), ops);
    var end := RunOf(h, medium, Created(generation, master), ops);
    forall g | g in end.signed ensures BehindItsIndex(end.store.disk, g) {
      assert Covered(end.store.disk, g);
    }
  }

  /** The account that draws from this stream stands past this position. */
  ghost predicate BehindItsIndex(image: Image, g: Signing) {
    exists t :: t in image.slots && StreamOf(image.slots[t]) == g.stream && g.position < image.slots[t].account.index
  }

  lemma {:induction false} RunInParts(h: Hashes, medium: Medium, sys: System, first: seq<Op>, second: seq<Op>)
    ensures RunOf(h, medium, sys, first + second) == RunOf(h, medium, RunOf(h, medium, sys, first), second)
    decreases |first|
  {
    hide Performed;
    if first == [] {
      assert first + second == second;
    } else {
      assert (first + second)[1..] == first[1..] + second;
      RunInParts(h, medium, Performed(h, medium, sys, first[0]), first[1..], second);
    }
  }

  /** Between any two moments of a run every account is still there, with the same keys, at an
      index no lower, and no signature is forgotten. */
  lemma NothingGoesBack(h: Hashes, medium: Medium, generation: u64, master: Option<Block>, first: seq<Op>,
                        second: seq<Op>)
    requires forall op :: op in first + second ==> Admissible(h, op)
    ensures var middle := RunOf(h, medium, Created(generation, master), first);
            var end := RunOf(h, medium, Created(generation, master), first + second);
            && middle.signed <= end.signed
            && forall t :: t in middle.store.disk.slots ==>
                 && t in end.store.disk.slots
                 && end.store.disk.slots[t].account.key == middle.store.disk.slots[t].account.key
                 && middle.store.disk.slots[t].account.index <= end.store.disk.slots[t].account.index
  {
    hide Sound, Admissible, Performed, Safe, Covered;
    var start := Created(generation, master);
    CreatedIsSafe(h, generation, master);
    RunInParts(h, medium, start, first, second);
    assert forall op :: op in first ==> op in first + second;
    assert forall op :: op in second ==> op in first + second;
    RunIsSafe(h, medium, start, first);
    var middle := RunOf(h, medium, start, first);
    RunIsSafe(h, medium, middle, second);
    SignaturesStay(h, medium, middle, second);
  }

  lemma {:induction false} SignaturesStay(h: Hashes, medium: Medium, sys: System, ops: seq<Op>)
    ensures sys.signed <= RunOf(h, medium, sys, ops).signed
    decreases |ops|
  {
    hide StoreAfter, Made, OpenedWallet;
    if ops == [] {
    } else {
      SignaturesStay(h, medium, Performed(h, medium, sys, ops[0]), ops[1..]);
    }
  }

  /** In every state of every run the other results apply: the account stands just past its
      reservation, its tag is its own, and imported accounts carry their own stream. */
  lemma ReachableStoresAreWhole(h: Hashes, medium: Medium, generation: u64, master: Option<Block>, ops: seq<Op>)
    requires forall op :: op in ops ==> Admissible(h, op)
    ensures var end := RunOf(h, medium, Created(generation, master), ops);
            end.store.handle.Live? ==>
              var image := end.store.handle.image;
              && SpendingLaws.WellTagged(image) && Restore.StreamsTrue(h, image)
              && (forall t :: t in image.order <==> t in image.slots)
              && (forall t :: t in image.slots && image.slots[t].pending.Some? ==>
                    image.slots[t].pending.value.spent + 1 == image.slots[t].account.index)
  {
    hide Admissible, Performed;
    CreatedIsSafe(h, generation, master);
    RunIsSafe(h, medium, Created(generation, master), ops);
    hide StreamId, ImportedParts, StreamsApart, FirstBytes;
    var end := RunOf(h, medium, Created(generation, master), ops);
    if end.store.handle.Live? {
      var image := end.store.handle.image;
      forall t | t in image.slots
        ensures Built(h, image.slots[t].account) && image.slots[t].account.tag == t && WholeSlot(image.slots[t])
      {
      }
    }
  }
}
