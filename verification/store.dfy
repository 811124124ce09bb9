/** The keystore's transitions (`keystore/mod.rs`, `keystore/sign.rs`). Every change is one image
    committed whole; a commit that fails part-way leaves the old image or the new one on the disk
    and a handle that refuses everything. How the image reaches the disk is not modelled. */
module Store {
  import opened Base
  import opened Primitives
  import opened WotsDigits
  import opened Wots
  import opened WotsKeys
  import opened Derivation
  import opened Accounts
  import opened Scan
  import Attach

  type Tag = Block20

  /** What a reservation records of the spend it was made for. */
  datatype Figures = Figures(reservedBalance: u64, blkToLive: u64)

  datatype Pending = Pending(spent: u32, digest: Block, figures: Option<Figures>)

  datatype Slot = Slot(account: AccountValue, pending: Option<Pending>, settled: Option<Pending>)

  datatype View = View(kind: Kind, index: u32, pending: Option<Pending>, settled: Option<Pending>)

  datatype Receipt = Receipt(tag: Tag, index: u32)

  datatype What = AccountTag | ImportedRootHeld | KeyStream | MasterSeed

  datatype Error =
    | Poisoned(first: Error)
    | Io(code: nat)
    | NotSealed(code: nat)
    | NoSuchAccount
    | Exists(what: What)
    | PendingUnresolved(spent: u32)
    | NothingPending
    | IndexRange(min: nat, got: nat)
    | GenerationRange
    | Key(cause: KeyError)
    | StaleReceipt(attested: u32, stored: u32)
    | NoReservation
    | DigestMismatch
    | AcknowledgementDoesNotMatch
    | NothingToReconcile
    | WasCancelled
    | Mesh(code: nat)
    | ReconciliationRefused
    | StaleSpendPlan(planned: u32, stored: u32)
    | SpendPlanAddressMismatch
    | InvalidExpiry(expiry: u64, tip: u64)
    | ChainAddressMismatch(position: u32)
    | BalanceChanged(before: u64, current: u64)
    | ReservationLanded(spent: u32, settled: u32)
    | PlanRefused(code: nat)
    | AttachRefused(why: Attach.AttachError)

  // ----- images and handles -----

  datatype Image = Image(generation: u64, order: seq<Tag>, slots: map<Tag, Slot>, master: Option<Block>)

  datatype Handle = Live(image: Image) | Dead(first: Error)

  /** What one commit meets: it lands; the image cannot be sealed and nothing is attempted; or it
      fails part-way, leaving the old image or the new one. */
  datatype Commit = Landed | SealRefused(code: nat) | FailedOld(code: nat) | FailedNew(code: nat)

  datatype StoreState = StoreState(disk: Image, handle: Handle, commits: nat)

  type Medium = nat -> Commit

  function Committed(s: StoreState, next: Image, medium: Medium): (StoreState, Result<(), Error>) {
    match medium(s.commits)
    case Landed => (StoreState(next, Live(next), s.commits + 1), Ok(()))
    case SealRefused(code) => (s.(commits := s.commits + 1), Err(NotSealed(code)))
    case FailedOld(code) => (StoreState(s.disk, Dead(Io(code)), s.commits + 1), Err(Io(code)))
    case FailedNew(code) => (StoreState(next, Dead(Io(code)), s.commits + 1), Err(Io(code)))
  }

  function LiveImage(handle: Handle): Result<Image, Error> {
    match handle
    case Live(image) => Ok(image)
    case Dead(first) => Err(Poisoned(first))
  }

  /** The slot a call is about, or why the call is refused before it starts. */
  function SlotOf(handle: Handle, tag: Tag): Result<Slot, Error> {
    match handle
    case Dead(first) => Err(Poisoned(first))
    case Live(image) => if tag in image.slots then Ok(image.slots[tag]) else Err(NoSuchAccount)
  }

  function ViewOf(slot: Slot): View {
    View(if slot.account.key.Derived? then DerivedKind else ImportedKind, slot.account.index, slot.pending,
         slot.settled)
  }

  function Roots(slots: map<Tag, Slot>): set<Block> {
    set t | t in slots && slots[t].account.key.Imported? :: slots[t].account.key.root
  }

  /** `Keystore::address_at`, as the walk takes it. */
  function AddressesOf(h: Hashes, image: Image, slot: Slot, access: KeyAccess): Addresses {
    (p: u32) => AddressAt(h, Roots(image.slots), slot.account, p, access)
  }

  function StreamOf(slot: Slot): Block20 { slot.account.key.stream }

  // ----- the order of the tags -----

  function Less(a: seq<byte>, b: seq<byte>): bool
    decreases |a|
  {
    b != [] && (a == [] || a[0] < b[0] || (a[0] == b[0] && Less(a[1..], b[1..])))
  }

  function Inserted(order: seq<Tag>, tag: Tag): seq<Tag>
    decreases |order|
  {
    if order == [] || Less(tag, order[0]) then [tag] + order
    else [order[0]] + Inserted(order[1..], tag)
  }

  ghost predicate Distinct(order: seq<Tag>) {
    forall i, j :: 0 <= i < j < |order| ==> order[i] != order[j]
  }

  lemma {:induction false} InsertedEnumerates(order: seq<Tag>, tag: Tag)
    requires Distinct(order) && tag !in order
    ensures Distinct(Inserted(order, tag))
    ensures forall t :: t in Inserted(order, tag) <==> t == tag || t in order
    decreases |order|
  {
    if order == [] || Less(tag, order[0]) {
    } else {
      assert forall t :: t in order <==> t == order[0] || t in order[1..];
      InsertedEnumerates(order[1..], tag);
      assert order[0] !in order[1..];
    }
  }

  // ----- the transitions -----

  function NextGeneration(image: Image): Option<u64> {
    if image.generation == U64_LIMIT - 1 then None else Some(image.generation + 1)
  }

  /** One account's figures rewritten, and the whole image committed under the next generation. */
  function Rewritten(s: StoreState, image: Image, tag: Tag, slot: Slot, medium: Medium): (StoreState, Result<(), Error>)
  {
    match NextGeneration(image)
    case None => (s, Err(GenerationRange))
    case Some(generation) =>
      Committed(s, image.(generation := generation, slots := image.slots[tag := slot]), medium)
  }

  /** Reserve the account's current key for `digest` and move past it, in one write. */
  function Reserved(slot: Slot, digest: Block, figures: Figures): Result<Slot, Error> {
    if slot.pending.Some? then Err(PendingUnresolved(slot.pending.value.spent))
    else if slot.account.index == U32_MAX then Err(IndexRange(0, slot.account.index))
    else
      var spent := slot.account.index;
      Ok(Slot(slot.account.(index := spent + 1), Some(Pending(spent, digest, Some(figures))), None))
  }

  function MovedTo(slot: Slot, target: u32): Result<Slot, Error> {
    if slot.pending.Some? then Err(PendingUnresolved(slot.pending.value.spent))
    else if target <= slot.account.index then Err(IndexRange(slot.account.index as int + 1, target))
    else Ok(Slot(slot.account.(index := target), None, None))
  }

  function SettledSlot(slot: Slot): Result<Slot, Error> {
    if slot.pending.None? then Err(NothingPending) else Ok(Slot(slot.account, None, slot.pending))
  }

  /** The three rewriting calls have one shape: find the slot, change it or refuse, commit. */
  function Changed(s: StoreState, tag: Tag, change: Slot -> Result<Slot, Error>,
                   medium: Medium): (StoreState, Result<Slot, Error>) {
    match SlotOf(s.handle, tag)
    case Err(e) => (s, Err(e))
    case Ok(slot) =>
      match change(slot)
      case Err(e) => (s, Err(e))
      case Ok(next) =>
        var (s', r) := Rewritten(s, s.handle.image, tag, next, medium);
        (s', match r case Ok(_) => Ok(next) case Err(e) => Err(e))
  }

  function PersistAdvance(s: StoreState, tag: Tag, digest: Block, figures: Figures,
                          medium: Medium): (StoreState, Result<Slot, Error>) {
    Changed(s, tag, slot => Reserved(slot, digest, figures), medium)
  }

  function PersistAdvanceTo(s: StoreState, tag: Tag, target: u32, medium: Medium): (StoreState, Result<Slot, Error>) {
    Changed(s, tag, slot => MovedTo(slot, target), medium)
  }

  function PersistSettled(s: StoreState, tag: Tag, medium: Medium): (StoreState, Result<Slot, Error>) {
    Changed(s, tag, slot => SettledSlot(slot), medium)
  }

  /** The stream an incoming account would draw its keys from. */
  function RecomputedStream(h: Hashes, image: Image, a: AccountValue): Result<Block20, Error> {
    match a.key
    case Imported(root, _, _) => Ok(StreamId(h, root))
    case Derived(accountIndex, stream) =>
      match image.master
      case None => Ok(stream)
      case Some(master) =>
        var derived := DeriveAccount(h, master, accountIndex);
        if derived.tag != a.tag then Err(Key(DerivedTagNotReproduced(accountIndex)))
        else if StreamId(h, derived.seed) != stream then Err(Key(StreamNotReproduced))
        else Ok(stream)
  }

  /** Why an account is not added, if it is not: its tag, its imported root or its key stream is
      already held, or its stream is not the one its seed gives. */
  function AddRefusal(h: Hashes, image: Image, a: AccountValue): Option<Error> {
    if a.tag in image.slots then Some(Exists(AccountTag))
    else if a.key.Imported? && a.key.root in Roots(image.slots) then Some(Exists(ImportedRootHeld))
    else match RecomputedStream(h, image, a)
      case Err(e) => Some(e)
      case Ok(incoming) =>
        if exists t :: t in image.slots && StreamOf(image.slots[t]) == incoming then Some(Exists(KeyStream))
        else if NextGeneration(image).None? then Some(GenerationRange)
        else None
  }

  function Added(h: Hashes, s: StoreState, a: AccountValue, medium: Medium): (StoreState, Result<(), Error>) {
    match s.handle
    case Dead(first) => (s, Err(Poisoned(first)))
    case Live(image) =>
      match AddRefusal(h, image, a)
      case Some(e) => (s, Err(e))
      case None =>
        Committed(s, image.(generation := NextGeneration(image).value, order := Inserted(image.order, a.tag),
                            slots := image.slots[a.tag := Slot(a, None, None)]), medium)
  }

  /** A store that was made without a master seed takes one, once. */
  function Adopted(s: StoreState, master: Block, medium: Medium): (StoreState, Result<(), Error>) {
    match s.handle
    case Dead(first) => (s, Err(Poisoned(first)))
    case Live(image) =>
      if image.master.Some? then (s, Err(Exists(MasterSeed)))
      else match NextGeneration(image)
        case None => (s, Err(GenerationRange))
        case Some(generation) => Committed(s, image.(generation := generation, master := Some(master)), medium)
  }

  /** Opening reads the disk and nothing else: what a handle held is gone with it. */
  function Reopened(s: StoreState): StoreState { s.(handle := Live(s.disk)) }

  // ----- signing -----

  /** The key a receipt and a digest are good for, if the live reservation names both. */
  function Resolved(h: Hashes, handle: Handle, digest: Block, receipt: Receipt,
                    access: KeyAccess): Result<(u32, WotsKey), Error> {
    match SlotOf(handle, receipt.tag)
    case Err(e) => Err(e)
    case Ok(slot) =>
      if slot.account.index != receipt.index then Err(StaleReceipt(receipt.index, slot.account.index))
      else if slot.pending.None? || Advanced(slot.pending.value.spent) != Ok(receipt.index) then Err(NoReservation)
      else if slot.pending.value.digest != digest then Err(DigestMismatch)
      else match KeyAt(h, Roots(handle.image.slots), slot.account, slot.pending.value.spent, access)
        case Err(e) => Err(Key(e))
        case Ok(key) => Ok((slot.pending.value.spent, key))
  }

  function SignatureBy(h: Hashes, spent: u32, digest: Block, key: WotsKey): Attach.SpendSignature {
    Attach.SpendSignature(spent, Signature(h, digest, key.secret, key.pubSeed, key.adrs[..5]), key.pubSeed, key.adrs,
                          key.pk)
  }

  function SignedSpend(h: Hashes, handle: Handle, digest: Block, receipt: Receipt,
                       access: KeyAccess): Result<Attach.SpendSignature, Error> {
    match Resolved(h, handle, digest, receipt, access)
    case Err(e) => Err(e)
    case Ok((spent, key)) => Ok(SignatureBy(h, spent, digest, key))
  }

  function Resigned(h: Hashes, handle: Handle, tag: Tag, access: KeyAccess): Result<Attach.SpendSignature, Error> {
    match SlotOf(handle, tag)
    case Err(e) => Err(e)
    case Ok(slot) =>
      if slot.pending.None? then Err(NothingPending)
      else match KeyAt(h, Roots(handle.image.slots), slot.account, slot.pending.value.spent, access)
        case Err(e) => Err(Key(e))
        case Ok(key) => Ok(SignatureBy(h, slot.pending.value.spent, slot.pending.value.digest, key))
  }

  // ----- the store itself -----

  class Keystore {
    const h: Hashes
    const medium: Medium
    var disk: Image
    var handle: Handle
    var commits: nat

    function Value(): StoreState
      reads this
    {
      StoreState(disk, handle, commits)
    }

    /** Open what the disk holds. */
    constructor (h: Hashes, disk: Image, medium: Medium)
      ensures this.h == h && this.medium == medium
      ensures Value() == StoreState(disk, Live(disk), 0)
    {
      this.h, this.medium, this.disk, handle, commits := h, medium, disk, Live(disk), 0;
    }

    method Tags() returns (r: Result<seq<Tag>, Error>)
      ensures r == match handle case Live(image) => Ok(image.order) case Dead(first) => Err(Poisoned(first))
    {
      var image := LiveImage(handle);
      if image.Err? {
        return Err(image.error);
      }
      return Ok(image.value.order);
    }

    method WriteImage(next: Image) returns (r: Result<(), Error>)
      modifies this
      ensures (Value(), r) == Committed(old(Value()), next, medium)
    {
      var outcome := medium(commits);
      commits := commits + 1;
      match outcome {
        case Landed =>
          disk := next;
          handle := Live(next);
          r := Ok(());
        case SealRefused(code) =>
          r := Err(NotSealed(code));
        case FailedOld(code) =>
          handle := Dead(Io(code));
          r := Err(Io(code));
        case FailedNew(code) =>
          disk := next;
          handle := Dead(Io(code));
          r := Err(Io(code));
      }
    }

    method Rewrite(image: Image, tag: Tag, slot: Slot) returns (r: Result<(), Error>)
      modifies this
      ensures (Value(), r) == Rewritten(old(Value()), image, tag, slot, medium)
    {
      if image.generation == U64_LIMIT - 1 {
        return Err(GenerationRange);
      }
      r := WriteImage(image.(generation := image.generation + 1, slots := image.slots[tag := slot]));
    }

    method DoPersistAdvance(tag: Tag, digest: Block, figures: Figures) returns (r: Result<Receipt, Error>)
      modifies this
      ensures var run := PersistAdvance(old(Value()), tag, digest, figures, medium);
              && Value() == run.0
              && (match run.1 case Ok(slot) => r == Ok(Receipt(tag, slot.account.index)) case Err(e) => r == Err(e))
    {
      var slot := SlotOf(handle, tag);
      if slot.Err? {
        return Err(slot.error);
      }
      if slot.value.pending.Some? {
        return Err(PendingUnresolved(slot.value.pending.value.spent));
      }
      var current := slot.value.account.index;
      if current == U32_MAX {
        return Err(IndexRange(0, current));
      }
      var next := Slot(slot.value.account.(index := current + 1), Some(Pending(current, digest, Some(figures))), None);
      var written := Rewrite(handle.image, tag, next);
      if written.Err? {
        return Err(written.error);
      }
      return Ok(Receipt(tag, current + 1));
    }

    method DoPersistAdvanceTo(tag: Tag, target: u32) returns (r: Result<Receipt, Error>)
      modifies this
      ensures var run := PersistAdvanceTo(old(Value()), tag, target, medium);
              && Value() == run.0
              && (match run.1 case Ok(_) => r == Ok(Receipt(tag, target)) case Err(e) => r == Err(e))
    {
      var slot := SlotOf(handle, tag);
      if slot.Err? {
        return Err(slot.error);
      }
      if slot.value.pending.Some? {
        return Err(PendingUnresolved(slot.value.pending.value.spent));
      }
      if target <= slot.value.account.index {
        return Err(IndexRange(slot.value.account.index as int + 1, target));
      }
      var written := Rewrite(handle.image, tag, Slot(slot.value.account.(index := target), None, None));
      if written.Err? {
        return Err(written.error);
      }
      return Ok(Receipt(tag, target));
    }

    method DoPersistSettled(tag: Tag) returns (r: Result<(), Error>)
      modifies this
      ensures var run := PersistSettled(old(Value()), tag, medium);
              && Value() == run.0
              && (match run.1 case Ok(_) => r == Ok(()) case Err(e) => r == Err(e))
    {
      var slot := SlotOf(handle, tag);
      if slot.Err? {
        return Err(slot.error);
      }
      if slot.value.pending.None? {
        return Err(NothingPending);
      }
      r := Rewrite(handle.image, tag, Slot(slot.value.account, None, slot.value.pending));
    }

    method AdoptMaster(master: Block) returns (r: Result<(), Error>)
      modifies this
      ensures (Value(), r) == Adopted(old(Value()), master, medium)
    {
      var image := LiveImage(handle);
      if image.Err? {
        return Err(image.error);
      }
      if image.value.master.Some? {
        return Err(Exists(MasterSeed));
      }
      if image.value.generation == U64_LIMIT - 1 {
        return Err(GenerationRange);
      }
      r := WriteImage(image.value.(generation := image.value.generation + 1, master := Some(master)));
    }

    method Add(a: AccountValue) returns (r: Result<(), Error>)
      modifies this
      ensures (Value(), r) == Added(h, old(Value()), a, medium)
    {
      var image := LiveImage(handle);
      if image.Err? {
        return Err(image.error);
      }
      var refusal := AddRefusal(h, image.value, a);
      if refusal.Some? {
        return Err(refusal.value);
      }
      var slots := image.value.slots[a.tag := Slot(a, None, None)];
      r := WriteImage(image.value.(generation := image.value.generation + 1,
                                   order := Inserted(image.value.order, a.tag), slots := slots));
    }

    method SignSpend(digest: Block, receipt: Receipt, access: KeyAccess)
      returns (r: Result<Attach.SpendSignature, Error>)
      ensures r == SignedSpend(h, handle, digest, receipt, access)
    {
      var resolved := Resolved(h, handle, digest, receipt, access);
      if resolved.Err? {
        return Err(resolved.error);
      }
      var (spent, key) := resolved.value;
      var sig := RunSignature(h, digest, key);
      return Ok(Attach.SpendSignature(spent, sig, key.pubSeed, key.adrs, key.pk));
    }

    method ResignReserved(tag: Tag, access: KeyAccess) returns (r: Result<Attach.SpendSignature, Error>)
      ensures r == Resigned(h, handle, tag, access)
    {
      var slot := SlotOf(handle, tag);
      if slot.Err? {
        return Err(slot.error);
      }
      if slot.value.pending.None? {
        return Err(NothingPending);
      }
      var pending := slot.value.pending.value;
      var key := KeyAt(h, Roots(handle.image.slots), slot.value.account, pending.spent, access);
      if key.Err? {
        return Err(Key(key.error));
      }
      var sig := RunSignature(h, pending.digest, key.value);
      return Ok(Attach.SpendSignature(pending.spent, sig, key.value.pubSeed, key.value.adrs, key.value.pk));
    }
  }

  method RunSignature(h: Hashes, digest: Block, key: WotsKey) returns (sig: KeyBytes)
    ensures sig == Signature(h, digest, key.secret, key.pubSeed, key.adrs[..5])
  {
    var working := new u32[8](i requires 0 <= i < 8 => key.adrs[i]);
    assert working[..] == key.adrs;
    assert working[..5] == key.adrs[..5];
    var counts;
    sig, counts := SignCounted(h, digest, key.secret, key.pubSeed, working);
  }
}
