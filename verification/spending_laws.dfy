/** What spending promises: a plan made against a node that stays put is signed, exactly when its
    reservation reaches the disk; signing again gives the same signature; and a settle that the
    chain undoes is recognised for what it is. */
module SpendingLaws {
  import opened Base
  import opened Primitives
  import opened Wots
  import opened WotsKeys
  import opened AdrsImage
  import opened Derivation
  import opened Accounts
  import opened Cancellation
  import opened Scan
  import opened Store
  import opened Recon
  import opened Attach
  import opened Spending

  ghost predicate WellTagged(image: Image) {
    forall t :: t in image.slots ==> image.slots[t].account.tag == t
  }

  // ----- keys -----

  /** Whatever route a key took, it is the key its own secret, seed and words generate, and its
      address is the account's tag and that key's hash. */
  lemma KeyIsWhole(h: Hashes, roots: set<Block>, a: AccountValue, position: u32, access: KeyAccess)
    ensures KeyAt(h, roots, a, position, access).Ok? <==> AddressAt(h, roots, a, position, access).Ok?
    ensures KeyAt(h, roots, a, position, access).Ok? ==>
              var key := KeyAt(h, roots, a, position, access).value;
              && key.pk == PublicKey(h, key.secret, key.pubSeed, key.adrs[..5])
              && AddressAt(h, roots, a, position, access) == Ok(a.tag + AddrHash(h, key.pk))
  {
    hide PublicKey, AddrHash, StreamId, DeriveSeed;
    if a.key.Derived? && access.Master? {
      DeriveAccountKeepsItsSeed(h, access.seed, a.key.accountIndex);
    }
    hide DeriveAccount;
  }

  lemma ParsedAddress(tag: Tag, hash: Block20)
    ensures TagIn(tag + hash) == tag && HashIn(tag + hash) == hash
  {
  }

  /** What a key signs attaches to a plan that spends from its address. */
  lemma KeyAttaches(h: Hashes, plan: SpendPlan, key: WotsKey)
    requires key.pk == PublicKey(h, key.secret, key.pubSeed, key.adrs[..5])
    requires HashIn(plan.source) == AddrHash(h, key.pk)
    ensures AttachedTo(h, plan, SignatureBy(h, plan.position, plan.digest, key)) == Ok(Carried(h, plan.digest, key))
    ensures Verified(h, plan.digest, HashIn(plan.source), Carried(h, plan.digest, key)) == Ok(())
  {
    hide PublicKey, Signature, AddrHash, Verified, Attached;
    OwnSignatureAttaches(h, plan.position, plan.digest, key.secret, key.pubSeed, key.adrs);
    AttachedVerifies(h, plan.position, plan.digest, HashIn(plan.source),
                     SignatureBy(h, plan.position, plan.digest, key));
  }

  /** What a transaction carries of this key's signature. */
  function Carried(h: Hashes, digest: Block, key: WotsKey): WotsVal {
    WotsVal(Signature(h, digest, key.secret, key.pubSeed, key.adrs[..5]), key.pubSeed, LeImage(Terminal(key.adrs[..5])))
  }

  // ----- reserving and signing -----

  lemma RootsUnchanged(image: Image, tag: Tag, slot: Slot)
    requires tag in image.slots && slot.account.key == image.slots[tag].account.key
    ensures Roots(image.slots[tag := slot]) == Roots(image.slots)
  {
    var slots := image.slots[tag := slot];
    forall root
      ensures root in Roots(slots) <==> root in Roots(image.slots)
    {
      if root in Roots(image.slots) {
        var t :| t in image.slots && image.slots[t].account.key.Imported? && image.slots[t].account.key.root == root;
        assert t in slots && slots[t].account.key == image.slots[t].account.key;
      }
      if root in Roots(slots) {
        var t :| t in slots && slots[t].account.key.Imported? && slots[t].account.key.root == root;
        assert t in image.slots && slots[t].account.key == image.slots[t].account.key;
      }
    }
  }

  /** The key a position has is a matter of the account's identity, not of where it stands. */
  lemma KeyIgnoresIndex(h: Hashes, roots: set<Block>, a: AccountValue, index: u32, position: u32, access: KeyAccess)
    ensures KeyAt(h, roots, a.(index := index), position, access) == KeyAt(h, roots, a, position, access)
  {
    hide DeriveAccount, StreamId, DeriveWotsKey, KeyFromComponents;
  }

  /** The slot a reservation leaves, and the key it reserved. */
  function ReservedSlot(slot: Slot, plan: SpendPlan): (next: Slot)
    requires slot.account.index < U32_MAX
    ensures next.account.index == slot.account.index + 1 && next.account.key == slot.account.key
    ensures next.pending.Some?
    ensures next.pending.value.spent == slot.account.index && next.pending.value.digest == plan.digest
  {
    Slot(slot.account.(index := slot.account.index + 1),
         Some(Pending(slot.account.index, plan.digest, Some(PlanFigures(plan)))), None)
  }

  lemma AdvanceLands(s: StoreState, medium: Medium, tag: Tag, plan: SpendPlan)
    requires s.handle.Live? && tag in s.handle.image.slots
    requires var slot := s.handle.image.slots[tag]; slot.pending.None? && slot.account.index < U32_MAX
    ensures var slot := s.handle.image.slots[tag];
            var (s', reserved) := PersistAdvance(s, tag, plan.digest, PlanFigures(plan), medium);
            && (reserved.Ok? <==> NextGeneration(s.handle.image).Some? && medium(s.commits) == Landed)
            && (reserved.Ok? ==>
                  && reserved == Ok(ReservedSlot(slot, plan)) && s'.handle == Live(s'.disk)
                  && s'.disk.slots == s.handle.image.slots[tag := ReservedSlot(slot, plan)])
            && (reserved.Err? ==> s'.disk == s.disk || medium(s.commits).FailedNew?)
  {
  }

  /** A reservation that reached the disk is always signed, and what is signed verifies: nothing
      after the write can fail. So the key is spent exactly when its signature is handed out. */
  lemma ReserveSignsWhatLands(h: Hashes, s: StoreState, medium: Medium, node: Script, diverged: seq<Divergence>,
                              plan: SpendPlan, access: KeyAccess, calls: nat)
    requires s.handle.Live? && WellTagged(s.handle.image)
    ensures var (r, s') := ReserveRun(h, s, medium, node, diverged, plan, access, calls);
            && (r.Ok? <==>
                  && Objection(h, s.handle, node, diverged, plan, access, calls) == None
                  && NextGeneration(s.handle.image).Some?
                  && medium(s.commits) == Landed)
            && (r.Err? ==> s'.disk == s.disk || medium(s.commits).FailedNew?)
            && (r.Ok? ==>
                  var tag := TagIn(plan.source);
                  && tag in s.handle.image.slots
                  && var slot := s.handle.image.slots[tag];
                     && slot.account.index == plan.position < U32_MAX
                     && s'.handle == Live(s'.disk)
                     && s'.disk.slots == s.handle.image.slots[tag := ReservedSlot(slot, plan)]
                     && ReservedKey(h, s.handle.image, plan, access).Ok?
                     && r == Ok(Carried(h, plan.digest, ReservedKey(h, s.handle.image, plan, access).value))
                     && Verified(h, plan.digest, HashIn(plan.source), r.value) == Ok(()))
  {
    hide AddressesOf, SignReserved, FirstFor, TipAllows, Verified, TagIn, HashIn, Objection, PersistAdvance,
         NextGeneration,
         ReservedSlot, Carried, ReservedKey;
    var tag := TagIn(plan.source);
    if Objection(h, s.handle, node, diverged, plan, access, calls) == None {
      Unobjected(h, s, node, diverged, plan, access, calls);
      AdvanceLands(s, medium, tag, plan);
      var (s', reserved) := PersistAdvance(s, tag, plan.digest, PlanFigures(plan), medium);
      if reserved.Ok? {
        ReservationSigns(h, s.handle.image, s'.disk, plan, access);
      }
    }
  }

  /** The key a plan would spend. */
  function ReservedKey(h: Hashes, image: Image, plan: SpendPlan, access: KeyAccess): Result<WotsKey, KeyError>
    requires TagIn(plan.source) in image.slots
  {
    KeyAt(h, Roots(image.slots), image.slots[TagIn(plan.source)].account, plan.position, access)
  }

  lemma ReservationSigns(h: Hashes, image: Image, next: Image, plan: SpendPlan, access: KeyAccess)
    requires WellTagged(image)
    requires var tag := TagIn(plan.source);
             && tag in image.slots && image.slots[tag].account.index == plan.position < U32_MAX
             && AddressesOf(h, image, image.slots[tag], access)(plan.position) == Ok(plan.source)
             && next.slots == image.slots[tag := ReservedSlot(image.slots[tag], plan)]
    ensures var tag := TagIn(plan.source);
            var key := ReservedKey(h, image, plan, access);
            && key.Ok?
            && SignReserved(h, Live(next), plan, Receipt(tag, plan.position + 1),
                            access) == Ok(Carried(h, plan.digest, key.value))
            && Resigned(h, Live(next), tag, access) == Ok(SignatureBy(h, plan.position, plan.digest, key.value))
            && Verified(h, plan.digest, HashIn(plan.source), Carried(h, plan.digest, key.value)) == Ok(())
            && AttachedTo(h, plan, SignatureBy(h, plan.position, plan.digest,
                                               key.value)) == Ok(Carried(h, plan.digest, key.value))
  {
    hide KeyAt, Verified, AttachedTo, PublicKey, AddrHash, Carried, SignatureBy, TagIn, HashIn, AddressAt, Roots;
    var tag := TagIn(plan.source);
    var slot := image.slots[tag];
    KeyIsWhole(h, Roots(image.slots), slot.account, plan.position, access);
    var key := KeyAt(h, Roots(image.slots), slot.account, plan.position, access).value;
    ParsedAddress(slot.account.tag, AddrHash(h, key.pk));
    RootsUnchanged(image, tag, ReservedSlot(slot, plan));
    KeyIgnoresIndex(h, Roots(image.slots), slot.account, slot.account.index + 1, plan.position, access);
    KeyAttaches(h, plan, key);
  }

  /** A plan the wallet made meets no objection exactly when the account is not set aside, the tip
      allows its expiry, and the node still gives the address and the balance it was made for. */
  lemma FreshPlan(h: Hashes, handle: Handle, node: Script, diverged: seq<Divergence>, tag: Tag, access: KeyAccess,
                  draft: Draft, blkToLive: u64, calls: nat, now: Script, aside: seq<Divergence>, later: nat)
    requires handle.Live? && WellTagged(handle.image)
    requires PlanRun(h, handle, node, diverged, tag, access, draft, blkToLive, calls).Ok?
    ensures var plan := PlanRun(h, handle, node, diverged, tag, access, draft, blkToLive, calls).value;
            && TagIn(plan.source) == tag
            && (Objection(h, handle, now, aside, plan, access, later) == None <==>
                  && FirstFor(aside, tag) == None
                  && TipAllows(now, blkToLive, later).Ok?
                  && now.resolve(TipAllows(now, blkToLive, later).value, tag) == node.resolve(calls, tag))
  {
    hide FirstFor, TipAllows, NextAddresses, TagIn;
    SourceCarriesTag(h, handle, tag, access);
  }

  lemma SourceCarriesTag(h: Hashes, handle: Handle, tag: Tag, access: KeyAccess)
    requires handle.Live? && WellTagged(handle.image) && NextAddresses(h, handle, tag, access).Ok?
    ensures TagIn(NextAddresses(h, handle, tag, access).value.source) == tag
  {
    hide KeyAt, AddressAt, AddrHash, TagIn, PublicKey, Roots;
    var slot := handle.image.slots[tag];
    KeyIsWhole(h, Roots(handle.image.slots), slot.account, slot.account.index, access);
    var key := KeyAt(h, Roots(handle.image.slots), slot.account, slot.account.index, access);
    ParsedAddress(tag, AddrHash(h, key.value.pk));
  }

  /** Signing a standing reservation again succeeds exactly when the account is not set aside, the
      node gives the source address and the draft still comes to the reserved digest; and then it
      gives, byte for byte, what was signed when the reservation was made. */
  lemma ResignReproduces(h: Hashes, s: StoreState, medium: Medium, node: Script, diverged: seq<Divergence>,
                         plan: SpendPlan,
                         access: KeyAccess, calls: nat,
                         later: Script, aside: seq<Divergence>, draft: Draft, blkToLive: u64, c: Counts)
    requires s.handle.Live? && WellTagged(s.handle.image)
    requires ReserveRun(h, s, medium, node, diverged, plan, access, calls).0.Ok?
    ensures var (signed, s') := ReserveRun(h, s, medium, node, diverged, plan, access, calls);
            var tag := TagIn(plan.source);
            var again := ResignRun(h, s'.handle, later, aside, tag, access, draft, blkToLive, c);
            var reply := later.resolve(c.calls, tag);
            && (again.Ok? <==>
                  && FirstFor(aside, tag) == None
                  && reply.Entry? && reply.address == plan.source
                  && draft(SpendAddresses(tag, plan.position, plan.source, plan.change),
                           reply.balance) == Ok(plan.digest))
            && (again.Ok? ==> again == signed)
  {
    hide ReserveRun, ResignRun, Objection, ReservedSlot, AddressesOf, FirstFor, AttachedTo, Resigned, SignatureBy,
         ReservedKey,
         Carried, TagIn, HashIn, Verified, SignReserved, NextGeneration;
    ReserveSignsWhatLands(h, s, medium, node, diverged, plan, access, calls);
    Unobjected(h, s, node, diverged, plan, access, calls);
    var tag := TagIn(plan.source);
    var s' := ReserveRun(h, s, medium, node, diverged, plan, access, calls).1;
    var image, next := s.handle.image, s'.disk;
    ReservationSigns(h, image, next, plan, access);
    AddressesIgnoreReserving(h, image, next, tag, plan, access);
    var key := ReservedKey(h, image, plan, access).value;
    ResignOutcome(h, next, later, aside, tag, access, draft, blkToLive, c,
                  SpendAddresses(tag, plan.position, plan.source, plan.change));
    var reply := later.resolve(c.calls, tag);
    if reply.Entry? {
      var made := SpendPlan(plan.position, plan.source, plan.change, reply.balance, blkToLive, plan.digest);
      AttachIgnoresFigures(h, plan, made, SignatureBy(h, plan.position, plan.digest, key));
    }
  }

  /** What signing again comes to, for a reservation whose two addresses are known. */
  lemma ResignOutcome(h: Hashes, image: Image, node: Script, diverged: seq<Divergence>, tag: Tag, access: KeyAccess,
                      draft: Draft, blkToLive: u64, c: Counts, addresses: SpendAddresses)
    requires tag in image.slots && image.slots[tag].pending.Some?
    requires var slot := image.slots[tag];
             var at := AddressesOf(h, image, slot, access);
             && addresses.tag == tag && addresses.position == slot.pending.value.spent
             && at(addresses.position) == Ok(addresses.source) && at(slot.account.index) == Ok(addresses.change)
    requires Resigned(h, Live(image), tag, access).Ok?
    ensures var digest := image.slots[tag].pending.value.digest;
            var again := ResignRun(h, Live(image), node, diverged, tag, access, draft, blkToLive, c);
            var reply := node.resolve(c.calls, tag);
            var sig := Resigned(h, Live(image), tag, access).value;
            if FirstFor(diverged, tag) == None && reply.Entry? && reply.address == addresses.source
               && draft(addresses, reply.balance) == Ok(digest) then
              again == AttachedTo(h, SpendPlan(addresses.position, addresses.source, addresses.change, reply.balance,
                                               blkToLive, digest), sig)
            else again.Err?
  {
    hide AddressesOf, FirstFor, AttachedTo, Resigned, ReconcileRun;
  }

  lemma Unobjected(h: Hashes, s: StoreState, node: Script, diverged: seq<Divergence>, plan: SpendPlan,
                          access: KeyAccess, calls: nat)
    requires s.handle.Live? && Objection(h, s.handle, node, diverged, plan, access, calls) == None
    ensures var tag := TagIn(plan.source);
            && tag in s.handle.image.slots
            && var slot := s.handle.image.slots[tag];
               var at := AddressesOf(h, s.handle.image, slot, access);
               && slot.pending.None?
               && slot.account.index == plan.position < U32_MAX
               && at(plan.position) == Ok(plan.source) && at(plan.position + 1) == Ok(plan.change)
  {
    hide AddressesOf, FirstFor, TipAllows, TagIn;
  }

  lemma AddressesIgnoreReserving(h: Hashes, image: Image, next: Image, tag: Tag, plan: SpendPlan, access: KeyAccess)
    requires tag in image.slots && image.slots[tag].account.index < U32_MAX
    requires next.slots == image.slots[tag := ReservedSlot(image.slots[tag], plan)]
    ensures forall p: u32 :: AddressesOf(h, next, next.slots[tag],
                                         access)(p) == AddressesOf(h, image, image.slots[tag], access)(p)
  {
    hide KeyAt, Roots, AddressOf;
    var a := image.slots[tag].account;
    RootsUnchanged(image, tag, next.slots[tag]);
    forall p: u32
      ensures AddressesOf(h, next, next.slots[tag], access)(p) == AddressesOf(h, image, image.slots[tag], access)(p)
    {
      KeyIgnoresIndex(h, Roots(image.slots), a, a.index + 1, p, access);
    }
  }

  lemma AttachIgnoresFigures(h: Hashes, plan: SpendPlan, other: SpendPlan, sig: SpendSignature)
    requires other.position == plan.position && other.digest == plan.digest && other.source == plan.source
    ensures AttachedTo(h, other, sig) == AttachedTo(h, plan, sig)
  {
  }
}
