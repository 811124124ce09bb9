/** What every write of the keystore leaves, and why a write is refused, stated over the image it
    started from: exactly one thing changes, one generation on, or nothing does. */
module Writes {
  import opened Base
  import opened Primitives
  import opened Derivation
  import opened Accounts
  import opened Store
  import Attach
  import WotsKeys

  // ----- committing -----

  /** However a commit ends, the disk holds the image it held or the one committed, never a third. The
      handle holds what was committed, or what it held, or nothing at all any more; and the error
      tells which. */
  ghost predicate CommitEnds(s: StoreState, next: Image, outcome: Commit, s': StoreState, failure: Option<Error>) {
    && s'.commits == s.commits + 1
    && match outcome
       case Landed => s'.disk == next && s'.handle == Live(next) && failure == None
       case SealRefused(code) => s'.disk == s.disk && s'.handle == s.handle && failure == Some(NotSealed(code))
       case FailedOld(code) => s'.disk == s.disk && s'.handle == Dead(Io(code)) && failure == Some(Io(code))
       case FailedNew(code) => s'.disk == next && s'.handle == Dead(Io(code)) && failure == Some(Io(code))
  }

  /** What one write of this slot comes to. Without a generation left, or an image that can be
      sealed, nothing changed and the handle is as it was. A write that fails leaves the old image or
      the new one on the disk, and a handle that is no longer used. Otherwise both hold the image
      with this one slot changed, one generation on. */
  ghost predicate SlotWritten(s: StoreState, medium: Medium, tag: Tag, slot: Slot, s': StoreState,
                              failure: Option<Error>)
    requires s.handle.Live?
  {
    var image := s.handle.image;
    if image.generation == 0xFFFF_FFFF_FFFF_FFFF then s' == s && failure == Some(GenerationRange)
    else
      var next := Image(image.generation + 1, image.order, image.slots[tag := slot], image.master);
      CommitEnds(s, next, medium(s.commits), s', failure)
  }

  ghost function FailureOf<T>(r: Result<T, Error>): Option<Error> { if r.Err? then Some(r.error) else None }

  lemma RewrittenMeans(s: StoreState, tag: Tag, slot: Slot, medium: Medium)
    requires s.handle.Live?
    ensures var (s', r) := Rewritten(s, s.handle.image, tag, slot, medium);
            SlotWritten(s, medium, tag, slot, s', FailureOf(r))
  {
  }

  /** The reservation: the account's own key, its digest and its figures, and the index past it. */
  ghost function ReservationOf(slot: Slot, digest: Block, figures: Figures): Slot
    requires slot.account.index < 0xFFFF_FFFF
  {
    Slot(AccountValue(slot.account.tag, slot.account.key, slot.account.index + 1),
         Some(Pending(slot.account.index, digest, Some(figures))), None)
  }

  lemma ReservingMeans(s: StoreState, tag: Tag, digest: Block, figures: Figures, medium: Medium)
    requires s.handle.Live? && tag in s.handle.image.slots
    requires s.handle.image.slots[tag].pending.None? && s.handle.image.slots[tag].account.index < 0xFFFF_FFFF
    ensures var next := ReservationOf(s.handle.image.slots[tag], digest, figures);
            var (s', r) := PersistAdvance(s, tag, digest, figures, medium);
            && (r.Ok? ==> r.value == next)
            && SlotWritten(s, medium, tag, next, s', FailureOf(r))
  {
    RewrittenMeans(s, tag, ReservationOf(s.handle.image.slots[tag], digest, figures), medium);
    hide Rewritten, SlotWritten;
  }

  lemma SettlingMeans(s: StoreState, tag: Tag, medium: Medium)
    requires s.handle.Live? && tag in s.handle.image.slots && s.handle.image.slots[tag].pending.Some?
    ensures var slot := s.handle.image.slots[tag];
            var (s', r) := PersistSettled(s, tag, medium);
            SlotWritten(s, medium, tag, Slot(slot.account, None, slot.pending), s', FailureOf(r))
  {
    var slot := s.handle.image.slots[tag];
    RewrittenMeans(s, tag, Slot(slot.account, None, slot.pending), medium);
    hide Rewritten, SlotWritten;
  }

  lemma MovingMeans(s: StoreState, tag: Tag, target: u32, medium: Medium)
    requires s.handle.Live? && tag in s.handle.image.slots
    requires s.handle.image.slots[tag].pending.None? && s.handle.image.slots[tag].account.index < target
    ensures var a := s.handle.image.slots[tag].account;
            var next := Slot(AccountValue(a.tag, a.key, target), None, None);
            var (s', r) := PersistAdvanceTo(s, tag, target, medium);
            && (r.Ok? ==> r.value == next)
            && SlotWritten(s, medium, tag, next, s', FailureOf(r))
  {
    var a := s.handle.image.slots[tag].account;
    RewrittenMeans(s, tag, Slot(AccountValue(a.tag, a.key, target), None, None), medium);
    hide Rewritten, SlotWritten;
  }

  // ----- what a rewrite is refused for -----

  /** Why the slot cannot be found. */
  ghost predicate NotHeld(e: Error, handle: Handle, tag: Tag) {
    if handle.Dead? then e == Poisoned(handle.first) else tag !in handle.image.slots && e == NoSuchAccount
  }

  /** A reservation is refused without a write exactly when one stands already, or the account is at
      its last position; a move, when one stands or the position is not ahead; a settle, when none
      does. */
  lemma RewriteRefusals(s: StoreState, tag: Tag, digest: Block, figures: Figures, target: u32, medium: Medium)
    ensures var (reserving, r) := PersistAdvance(s, tag, digest, figures, medium);
            var (moving, m) := PersistAdvanceTo(s, tag, target, medium);
            var (settling, t) := PersistSettled(s, tag, medium);
            if s.handle.Dead? || tag !in s.handle.image.slots then
              && reserving == s && moving == s && settling == s && r.Err? && m == r && t == r
              && NotHeld(r.error, s.handle, tag)
            else
              var slot := s.handle.image.slots[tag];
              var index := slot.account.index;
              && (slot.pending.Some? ==>
                    && reserving == s && moving == s && r == Err(PendingUnresolved(slot.pending.value.spent)) && m == r)
              && (slot.pending.None? && index == 0xFFFF_FFFF ==> reserving == s && r == Err(IndexRange(0, index)))
              && (slot.pending.None? && target <= index ==>
                    moving == s && m == Err(IndexRange(index as nat + 1, target)))
              && (slot.pending.None? ==> settling == s && t == Err(NothingPending))
  {
    hide Rewritten;
  }

  // ----- adding an account -----

  /** The account shares its tag, its imported root or its key stream with one that is held. */
  ghost predicate Shares(image: Image, a: AccountValue, what: What) {
    match what
    case AccountTag => a.tag in image.slots
    case ImportedRootHeld =>
      a.key.Imported? && exists t :: t in image.slots && image.slots[t].account.key.Imported?
                                     && image.slots[t].account.key.root == a.key.root
    case KeyStream => exists t :: t in image.slots && image.slots[t].account.key.stream == a.key.stream
    case MasterSeed => false
  }

  /** The account says of itself what its own seed gives: its stream, and for one derived from the
      store's own master seed its tag too. Without that seed a derived account is taken at its word. */
  ghost predicate TrueToItsSeed(h: Hashes, image: Image, a: AccountValue) {
    if a.key.Imported? then a.key.stream == StreamId(h, a.key.root)
    else
      image.master.Some? ==>
        var derived := DeriveAccount(h, image.master.value, a.key.accountIndex);
        a.tag == derived.tag && a.key.stream == StreamId(h, derived.seed)
  }

  /** An account true to its seed is added exactly when it shares nothing with those held; then it
      stands in order among them, with nothing reserved, and nothing else changed. */
  lemma AddMeans(h: Hashes, s: StoreState, a: AccountValue, medium: Medium)
    requires s.handle.Live? && TrueToItsSeed(h, s.handle.image, a)
    ensures var image := s.handle.image;
            var (s', r) := Added(h, s, a, medium);
            if Shares(image, a, AccountTag) then s' == s && r == Err(Exists(AccountTag))
            else if Shares(image, a, ImportedRootHeld) then s' == s && r == Err(Exists(ImportedRootHeld))
            else if Shares(image, a, KeyStream) then s' == s && r == Err(Exists(KeyStream))
            else if image.generation == 0xFFFF_FFFF_FFFF_FFFF then s' == s && r == Err(GenerationRange)
            else
              CommitEnds(s, Image(image.generation + 1, Inserted(image.order, a.tag),
                                  image.slots[a.tag := Slot(a, None, None)], image.master),
                         medium(s.commits), s', FailureOf(r))
  {
    hide DeriveAccount, StreamId, Inserted;
    RootsMeans(s.handle.image.slots);
    hide Roots;
  }

  lemma RootsMeans(slots: map<Tag, Slot>)
    ensures forall root :: root in Roots(slots) <==>
              exists t :: t in slots && slots[t].account.key.Imported? && slots[t].account.key.root == root
  {
  }

  /** A derived account that the store's own master seed does not give is refused, unless what it
      shares refuses it first. */
  lemma UntrueIsRefused(h: Hashes, s: StoreState, a: AccountValue, medium: Medium)
    requires s.handle.Live? && a.key.Derived? && s.handle.image.master.Some? && a.tag !in s.handle.image.slots
    ensures var derived := DeriveAccount(h, s.handle.image.master.value, a.key.accountIndex);
            var (s', r) := Added(h, s, a, medium);
            && (a.tag != derived.tag ==>
                  s' == s && r == Err(Key(DerivedTagNotReproduced(a.key.accountIndex))))
            && (a.tag == derived.tag && a.key.stream != StreamId(h, derived.seed) ==>
                  s' == s && r == Err(Key(StreamNotReproduced)))
  {
    hide DeriveAccount, StreamId, Inserted;
  }

  /** The tags ascend, byte by byte. */
  ghost predicate Ascending(order: seq<Tag>) {
    forall i, j :: 0 <= i < j < |order| ==> Below(order[i], order[j])
  }

  /** At the first byte they differ in, the one is the lower. */
  ghost predicate Below(a: Tag, b: Tag) {
    exists k :: 0 <= k < 20 && a[..k] == b[..k] && a[k] < b[k]
  }

  lemma {:induction false} LessMeans(a: seq<byte>, b: seq<byte>)
    requires |a| == |b|
    ensures Less(a, b) <==> exists k :: 0 <= k < |a| && a[..k] == b[..k] && a[k] < b[k]
    decreases |a|
  {
    if a == [] {
    } else {
      assert a[..0] == b[..0];
      forall k | 0 < k < |a| && a[..k] == b[..k] ensures a[0] == b[0] {
        assert a[..k][0] == b[..k][0];
      }
      LessMeans(a[1..], b[1..]);
      if a[0] == b[0] {
        if k :| 0 <= k < |a| - 1 && a[1..][..k] == b[1..][..k] && a[1..][k] < b[1..][k] {
          assert a[..k + 1] == [a[0]] + a[1..][..k] && b[..k + 1] == [b[0]] + b[1..][..k];
          assert a[k + 1] < b[k + 1];
        }
        if k :| 0 <= k < |a| && a[..k] == b[..k] && a[k] < b[k] {
          assert k > 0;
          assert a[1..][..k - 1] == a[..k][1..] && b[1..][..k - 1] == b[..k][1..];
          assert a[1..][k - 1] < b[1..][k - 1];
        }
      }
    }
  }

  lemma {:induction false} LessOrders(a: seq<byte>, b: seq<byte>, c: seq<byte>)
    requires |a| == |b| == |c|
    ensures !(Less(a, b) && Less(b, a))
    ensures Less(a, b) || Less(b, a) || a == b
    ensures Less(a, b) && Less(b, c) ==> Less(a, c)
    decreases |a|
  {
    if a == [] {
    } else {
      LessOrders(a[1..], b[1..], c[1..]);
      assert a == [a[0]] + a[1..] && b == [b[0]] + b[1..];
    }
  }

  lemma BelowOrders(a: Tag, b: Tag, c: Tag)
    ensures Below(a, b) <==> Less(a, b)
    ensures Below(b, a) <==> Less(b, a)
    ensures !(Below(a, b) && Below(b, a))
    ensures Below(a, b) || Below(b, a) || a == b
    ensures Below(a, b) && Below(b, c) ==> Below(a, c)
  {
    LessMeans(a, b);
    LessMeans(b, a);
    LessMeans(b, c);
    LessMeans(a, c);
    LessOrders(a, b, c);
    hide Less;
  }

  lemma {:induction false} InsertedHolds(order: seq<Tag>, tag: Tag)
    ensures forall t :: t in Inserted(order, tag) <==> t == tag || t in order
    decreases |order|
  {
    hide Less;
    if order == [] || Less(tag, order[0]) {
    } else {
      InsertedHolds(order[1..], tag);
      assert order == [order[0]] + order[1..];
    }
  }

  /** An account added stands where its tag belongs: the tags ascend before and after. */
  lemma {:induction false} InsertedAscends(order: seq<Tag>, tag: Tag)
    requires tag !in order && Ascending(order)
    ensures Ascending(Inserted(order, tag)) && multiset(Inserted(order, tag)) == multiset(order) + multiset{tag}
    decreases |order|
  {
    hide Below;
    InsertedOnce(order, tag);
    var next := Inserted(order, tag);
    if order == [] {
    } else {
      BelowOrders(tag, order[0], tag);
      assert order[0] in order;
      if Less(tag, order[0]) {
        forall i, j | 0 <= i < j < |next| ensures Below(next[i], next[j]) {
          if i == 0 && j > 1 {
            BelowOrders(tag, order[0], order[j - 1]);
          }
        }
      } else {
        var rest := Inserted(order[1..], tag);
        InsertedAscends(order[1..], tag);
        InsertedHolds(order[1..], tag);
        forall i, j | 0 <= i < j < |next| ensures Below(next[i], next[j]) {
          assert next[j] == rest[j - 1] && rest[j - 1] in rest;
          if i == 0 && rest[j - 1] != tag {
            var k :| 0 <= k < |order| - 1 && order[1..][k] == rest[j - 1];
            assert order[k + 1] == rest[j - 1];
          } else if i > 0 {
            assert next[i] == rest[i - 1];
          }
        }
      }
    }
  }

  lemma {:induction false} InsertedOnce(order: seq<Tag>, tag: Tag)
    ensures multiset(Inserted(order, tag)) == multiset(order) + multiset{tag}
    decreases |order|
  {
    hide Less;
    if order == [] || Less(tag, order[0]) {
    } else {
      InsertedOnce(order[1..], tag);
      assert order == [order[0]] + order[1..];
    }
  }

  /** A master seed is taken once, and nothing else changes. */
  lemma AdoptMeans(s: StoreState, master: Block, medium: Medium)
    requires s.handle.Live?
    ensures var image := s.handle.image;
            var (s', r) := Adopted(s, master, medium);
            if image.master.Some? then s' == s && r == Err(Exists(MasterSeed))
            else if image.generation == 0xFFFF_FFFF_FFFF_FFFF then s' == s && r == Err(GenerationRange)
            else
              CommitEnds(s, Image(image.generation + 1, image.order, image.slots, Some(master)), medium(s.commits), s',
                         FailureOf(r))
  {
  }

  /** A handle that failed once does nothing more, and says why it failed first. */
  lemma DeadDoesNothing(h: Hashes, s: StoreState, a: AccountValue, master: Block, medium: Medium)
    requires s.handle.Dead?
    ensures Added(h, s, a, medium) == (s, Err(Poisoned(s.handle.first)))
    ensures Adopted(s, master, medium) == (s, Err(Poisoned(s.handle.first)))
  {
  }

  // ----- signing -----

  /** What a key signs: the digest, under its own secret, seed and words, said to be at `spent`. */
  ghost predicate SignedWith(sig: Attach.SpendSignature, h: Hashes, digest: Block, spent: u32, key: WotsKey) {
    && sig.spentIndex == spent && sig.pubSeed == key.pubSeed && sig.adrs == key.adrs && sig.publicKey == key.pk
    && sig.signature == WotsKeys.Signature(h, digest, key.secret, key.pubSeed, key.adrs[..5])
  }

  /** A digest is signed for a receipt exactly when the receipt is of the account as it stands, the
      position before it is reserved for that very digest, and that key can be had; each refusal is
      the first of these that fails. */
  lemma SignMeans(h: Hashes, handle: Handle, digest: Block, receipt: Receipt, access: KeyAccess)
    ensures var r := SignedSpend(h, handle, digest, receipt, access);
            if handle.Dead? || receipt.tag !in handle.image.slots then r.Err? && NotHeld(r.error, handle, receipt.tag)
            else
              var slot := handle.image.slots[receipt.tag];
              var index := slot.account.index;
              if index != receipt.index then r == Err(StaleReceipt(receipt.index, index))
              else if slot.pending.None? || slot.pending.value.spent as nat + 1 != index then r == Err(NoReservation)
              else if slot.pending.value.digest != digest then r == Err(DigestMismatch)
              else
                var key := KeyAt(h, Roots(handle.image.slots), slot.account, slot.pending.value.spent, access);
                if key.Err? then r == Err(Key(key.error))
                else r.Ok? && SignedWith(r.value, h, digest, slot.pending.value.spent, key.value)
  {
    hide KeyAt, WotsKeys.Signature, Roots;
  }

  /** Signing a reservation again uses its own digest and its own position, whatever is asked. */
  lemma SignAgainMeans(h: Hashes, handle: Handle, tag: Tag, access: KeyAccess)
    ensures var r := Resigned(h, handle, tag, access);
            if handle.Dead? || tag !in handle.image.slots then r.Err? && NotHeld(r.error, handle, tag)
            else
              var slot := handle.image.slots[tag];
              if slot.pending.None? then r == Err(NothingPending)
              else
                var pending := slot.pending.value;
                var key := KeyAt(h, Roots(handle.image.slots), slot.account, pending.spent, access);
                if key.Err? then r == Err(Key(key.error))
                else r.Ok? && SignedWith(r.value, h, pending.digest, pending.spent, key.value)
  {
    hide KeyAt, WotsKeys.Signature, Roots;
  }
}
