/** Restoring an account from its master seed and the chain (`cli/restore.rs`,
    `restore_account_index_with` in `recon.rs`), and sweeping a range of accounts
    (`cli/discover.rs`). Neither ever assumes an index the chain did not show. */
module Restore {
  import opened Base
  import opened Primitives
  import opened Derivation
  import opened Accounts
  import opened Cancellation
  import opened Scan
  import opened Store
  import opened Recon
  import Settling

  datatype RestoredAccount = RestoredAccount(tag: Tag, index: u32, address: Address, balance: u64)

  datatype RestoreFailure =
    | ChainNotReached(tag: Tag, code: nat)
    | TagNotResolved(tag: Tag)
    | NoIndexReproducesTheAddress(tag: Tag, address: Address, scanned: u32)
    | CannotScan(tag: Tag, cause: Error)
    | CannotStore(tag: Tag, cause: Error)

  datatype Restored = Restored(found: RestoredAccount, heldAt: Option<u32>)

  type Ending = Result<Restored, Unfinished<RestoreFailure>>

  /** What the account's keys are with no store to ask. */
  function DerivedAddresses(h: Hashes, master: Block, accountIndex: u32): Addresses {
    (p: u32) => Ok(DerivedAddressAt(h, master, accountIndex, p))
  }

  function RestoreScope(scanTo: Option<u32>): ScanScope {
    if scanTo.Some? then RESTORE.(ceiling := SaturatingAdd32(scanTo.value, 1)) else RESTORE
  }

  // ----- finding the index -----

  function ScannedTo(tag: Tag, address: Address, balance: u64, scope: ScanScope,
                     r: WalkResult): Result<RestoredAccount, RestoreFailure> {
    match r
    case Found(position) => Ok(RestoredAccount(tag, position, address, balance))
    case NotFound => Err(NoIndexReproducesTheAddress(tag, address, scope.ceiling))
    case Failed(_, WalkCancelled) => Err(CannotScan(tag, WasCancelled))
    case Failed(_, WalkDerivation(e)) => Err(CannotScan(tag, Key(e)))
  }

  function ScanRun(h: Hashes, node: Script, master: Block, accountIndex: u32, scope: ScanScope, stop: nat -> bool,
                   c: Counts)
    : (Result<RestoredAccount, RestoreFailure>, Counts)
  {
    var tag := DeriveAccount(h, master, accountIndex).tag;
    var c' := c.(calls := c.calls + 1);
    match node.resolve(c.calls, tag)
    case Failure(code) => (Err(if code == CODE_NOT_FOUND then TagNotResolved(tag) else ChainNotReached(tag, code)), c')
    case Entry(address, balance) =>
      var (r, asked) := WalkRun(address, Positions(scope, None), DerivedAddresses(h, master, accountIndex), stop,
                                c.asked);
      (ScannedTo(tag, address, balance, scope, r), c'.(asked := asked))
  }

  method RestoreAccountIndex(h: Hashes, node: Node, master: Block, accountIndex: u32, scope: ScanScope, cancel: Cancel)
    returns (r: Result<RestoredAccount, RestoreFailure>)
    modifies node, cancel, cancel.asker, cancel.observer
    ensures var run := ScanRun(h, node.script, master, accountIndex, scope, cancel.Stops(),
                               Counts(old(node.calls), old(cancel.Asked())));
            && r == run.0 && node.calls == run.1.calls && cancel.Asked() == run.1.asked
    ensures old(cancel.Asked()) <= cancel.Asked()
    ensures cancel.observer != null ==>
              cancel.Told(old(cancel.observer.reports), old(cancel.reached), cancel.Asked() - old(cancel.Asked()))
  {
    hide DeriveAccount, DerivedAddresses, WalkRun, Positions;
    var tag := DeriveAccount(h, master, accountIndex).tag;
    var reply := node.ResolveTag(tag);
    if reply.Failure? {
      return Err(if reply.code == CODE_NOT_FOUND then TagNotResolved(tag) else ChainNotReached(tag, reply.code));
    }
    var walked := Walk(reply.address, scope, None, DerivedAddresses(h, master, accountIndex), cancel);
    return ScannedTo(tag, reply.address, reply.balance, scope, walked);
  }

  // ----- restoring -----

  /** The account as it is stored: built at the index found, not moved there afterwards. */
  function BuiltAt(h: Hashes, master: Block, accountIndex: u32, index: u32): AccountValue {
    Derive(h, master, accountIndex).(index := index)
  }

  function RestoreRun(h: Hashes, s: StoreState, medium: Medium, node: Script, master: Block, accountIndex: u32,
                      scanTo: Option<u32>, cancellable: bool, stop: nat -> bool, c: Counts)
    : (Ending, StoreState, Counts)
  {
    var c1 := c.(asked := c.asked + 1);
    if stop(c.asked) && cancellable then (Err(Cancelled), s, c1)
    else
      var (scanned, c2) := ScanRun(h, node, master, accountIndex, RestoreScope(scanTo), stop, c1);
      match scanned
      case Err(failure) =>
        var stopped := failure.CannotScan? && failure.cause == WasCancelled;
        (Err(if stopped && cancellable then Cancelled else Refused(failure)), s, c2)
      case Ok(found) => StoreFound(h, s, medium, master, accountIndex, cancellable, stop, found, c2)
  }

  function StoreFound(h: Hashes, s: StoreState, medium: Medium, master: Block, accountIndex: u32, cancellable: bool,
                      stop: nat -> bool, found: RestoredAccount, c: Counts): (run: (Ending, StoreState, Counts))
    ensures run.0.Ok? ==> run.0.value.found == found
  {
    match s.handle
    case Dead(first) => (Err(Refused(CannotStore(found.tag, Poisoned(first)))), s, c)
    case Live(image) =>
      if found.tag in image.slots then (Ok(Restored(found, Some(image.slots[found.tag].account.index))), s, c)
      else
        var c' := c.(asked := c.asked + 1);
        if stop(c.asked) && cancellable then (Err(Cancelled), s, c')
        else
          var (s', added) := Added(h, s, BuiltAt(h, master, accountIndex, found.index), medium);
          (match added
           case Ok(_) => Ok(Restored(found, None))
           case Err(e) => Err(Refused(CannotStore(found.tag, e))),
           s', c')
  }

  /** All an observer is told: how far the scan could reach, then the scan's own reports. */
  function RestoreReports(h: Hashes, node: Script, master: Block, accountIndex: u32, scanTo: Option<u32>,
                          cancellable: bool,
                          stop: nat -> bool, c: Counts): seq<Progress>
  {
    var c' := c.(asked := c.asked + 1);
    if stop(c.asked) && cancellable then []
    else
      var at := Progress(0, 1, 0, Reach(RestoreScope(scanTo), None));
      [at] + Reports(at, 0, AsksOf(c', ScanRun(h, node, master, accountIndex, RestoreScope(scanTo), stop, c').1))
  }

  method RestoreAsking(store: Keystore, node: Node, master: Block, accountIndex: u32, scanTo: Option<u32>,
                       cancel: Cancel,
                       observer: Observer?, cancellable: bool) returns (r: Ending)
    requires cancel.observer == null && !cancel.remembers
    modifies store, node, cancel, cancel.asker, observer
    ensures var run := RestoreRun(store.h, old(store.Value()), store.medium, node.script, master, accountIndex, scanTo,
                                  cancellable, cancel.Stops(), Counts(old(node.calls), old(cancel.Asked())));
            && r == run.0 && store.Value() == run.1 && node.calls == run.2.calls && cancel.Asked() == run.2.asked
    ensures observer != null ==>
              observer.reports == old(observer.reports)
                + RestoreReports(store.h, node.script, master, accountIndex, scanTo, cancellable, cancel.Stops(),
                                 Counts(old(node.calls), old(cancel.Asked())))
  {
    hide ScanRun, StoreFound, Positions, Reach, RestoreScope, Reports, Reached;
    var stopped := cancel.Stop();
    if stopped && cancellable {
      return Err(Cancelled);
    }
    var scope := RestoreScope(scanTo);
    var at := Progress(0, 1, 0, Reach(scope, None));
    if observer != null {
      observer.Report(at);
    }
    var watching := Watched(cancel, observer, at);
    ghost var told, asked := if observer == null then [] else observer.reports, cancel.Asked();
    var scanned := RestoreAccountIndex(store.h, node, master, accountIndex, scope, watching);
    assert observer != null ==> observer.reports == told + Reports(at, 0, cancel.Asked() - asked);
    if scanned.Err? {
      if scanned.error.CannotScan? && scanned.error.cause == WasCancelled && cancellable {
        return Err(Cancelled);
      }
      return Err(Refused(scanned.error));
    }
    r := KeepFound(store, master, accountIndex, cancel, cancellable, scanned.value, Counts(node.calls, cancel.Asked()));
  }

  method KeepFound(store: Keystore, master: Block, accountIndex: u32, cancel: Cancel, cancellable: bool,
                   found: RestoredAccount,
                   ghost c: Counts) returns (r: Ending)
    requires cancel.observer == null && !cancel.remembers && c.asked == cancel.Asked()
    modifies store, cancel, cancel.asker
    ensures var run := StoreFound(store.h, old(store.Value()), store.medium, master, accountIndex, cancellable,
                                  cancel.Stops(), found, c);
            && r == run.0 && store.Value() == run.1 && run.2 == Counts(c.calls, cancel.Asked())
  {
    hide Derive, Added;
    var image := LiveImage(store.handle);
    if image.Err? {
      return Err(Refused(CannotStore(found.tag, image.error)));
    }
    if found.tag in image.value.slots {
      return Ok(Restored(found, Some(image.value.slots[found.tag].account.index)));
    }
    var account := new Account(Derive(store.h, master, accountIndex));
    DerivedStartsAtZero(store.h, master, accountIndex);
    if found.index > 0 {
      var moved := account.AdvanceTo(found.index);
      assert moved.Ok?;
    }
    assert account.Value() == BuiltAt(store.h, master, accountIndex, found.index);
    var stopped := cancel.Stop();
    if stopped && cancellable {
      return Err(Cancelled);
    }
    var added := store.Add(account.Value());
    if added.Err? {
      return Err(Refused(CannotStore(found.tag, added.error)));
    }
    return Ok(Restored(found, None));
  }

  lemma DerivedStartsAtZero(h: Hashes, master: Block, accountIndex: u32)
    ensures Derive(h, master, accountIndex).index == 0
  {
  }

  // ----- stopping is transparent -----

  lemma ScanTransparent(h: Hashes, node: Script, master: Block, accountIndex: u32, scope: ScanScope, stop: nat -> bool,
                        c: Counts)
    ensures var (r, c') := ScanRun(h, node, master, accountIndex, scope, stop, c);
            && c.asked <= c'.asked
            && (SaidStop(stop, c.asked, c'.asked) <==> r.Err? && r.error.CannotScan? && r.error.cause == WasCancelled)
            && (!SaidStop(stop, c.asked, c'.asked) ==>
                  (r, c') == ScanRun(h, node, master, accountIndex, scope, Never, c))
  {
    hide DeriveAccount, DerivedAddresses, WalkRun, Positions, SaidStop;
    SaidStopOnce(stop, c.asked);
    var reply := node.resolve(c.calls, DeriveAccount(h, master, accountIndex).tag);
    if reply.Entry? {
      WalkTransparent(reply.address, Positions(scope, None), DerivedAddresses(h, master, accountIndex), stop, c.asked);
    }
  }

  lemma StoreFoundTransparent(h: Hashes, s: StoreState, medium: Medium, master: Block, accountIndex: u32,
                              stop: nat -> bool, found: RestoredAccount, c: Counts)
    ensures var (r, s', c') := StoreFound(h, s, medium, master, accountIndex, true, stop, found, c);
            var said := SaidStop(stop, c.asked, c'.asked);
            && c.asked <= c'.asked
            && (said <==> r == Err(Cancelled))
            && (said ==> s' == s)
            && (!said ==> (r, s', c') == StoreFound(h, s, medium, master, accountIndex, false, Never, found, c))
  {
    hide Added, BuiltAt, SaidStop;
    SaidStopOnce(stop, c.asked);
  }

  /** A restore ends as cancelled exactly when some asking was answered stop, and then nothing was
      written; otherwise it is the restore nobody can stop, on the same answers. */
  lemma RestoreTransparent(h: Hashes, s: StoreState, medium: Medium, node: Script, master: Block, accountIndex: u32,
                           scanTo: Option<u32>, stop: nat -> bool, c: Counts)
    ensures var (r, s', c') := RestoreRun(h, s, medium, node, master, accountIndex, scanTo, true, stop, c);
            var said := SaidStop(stop, c.asked, c'.asked);
            && c.asked <= c'.asked
            && (said <==> r == Err(Cancelled))
            && (said ==> s' == s)
            && (!said ==> (r, s', c') == RestoreRun(h, s, medium, node, master, accountIndex, scanTo, false, Never, c))
  {
    hide ScanRun, StoreFound, SaidStop, RestoreScope;
    SaidStopOnce(stop, c.asked);
    if !stop(c.asked) {
      var c1 := c.(asked := c.asked + 1);
      ScanTransparent(h, node, master, accountIndex, RestoreScope(scanTo), stop, c1);
      var (scanned, c2) := ScanRun(h, node, master, accountIndex, RestoreScope(scanTo), stop, c1);
      SaidStopSplits(stop, c.asked, c1.asked, c2.asked);
      if scanned.Ok? {
        StoreFoundTransparent(h, s, medium, master, accountIndex, stop, scanned.value, c2);
        var c3 := StoreFound(h, s, medium, master, accountIndex, true, stop, scanned.value, c2).2;
        SaidStopSplits(stop, c.asked, c2.asked, c3.asked);
      }
    }
  }

  // ----- the index is the chain's -----

  lemma {:induction false} EveryPositionBelow(n: u32)
    ensures |Rest(None, n)| == n && forall i :: 0 <= i < n ==> Rest(None, n)[i] == i
    decreases n
  {
    if n == 0 {
    } else {
      EveryPositionBelow(n - 1);
    }
  }

  /** A scan finds the lowest index whose key has the chain's address, and reports that there is
      none exactly when there is none below the ceiling. Zero is an answer like any other. */
  lemma ScanFindsTheLowest(h: Hashes, node: Script, master: Block, accountIndex: u32, scope: ScanScope, c: Counts)
    requires node.resolve(c.calls, DeriveAccount(h, master, accountIndex).tag).Entry?
    ensures var r := ScanRun(h, node, master, accountIndex, scope, Never, c).0;
            var tag := DeriveAccount(h, master, accountIndex).tag;
            var reply := node.resolve(c.calls, tag);
            && (r.Err? ==> r.error == NoIndexReproducesTheAddress(tag, reply.address, scope.ceiling)
                           && forall p: u32 :: p < scope.ceiling ==>
                                DerivedAddressAt(h, master, accountIndex, p) != reply.address)
            && (r.Ok? ==> r.value == RestoredAccount(tag, r.value.index, reply.address, reply.balance)
                          && r.value.index < scope.ceiling
                          && DerivedAddressAt(h, master, accountIndex, r.value.index) == reply.address
                          && forall p: u32 :: p < r.value.index ==>
                               DerivedAddressAt(h, master, accountIndex, p) != reply.address)
  {
    hide DerivedAddressAt, DeriveAccount, Rest;
    var reply := node.resolve(c.calls, DeriveAccount(h, master, accountIndex).tag);
    var ps, at := Positions(scope, None), DerivedAddresses(h, master, accountIndex);
    EveryPositionBelow(scope.ceiling);
    assert ps == Rest(None, scope.ceiling);
    hide Positions;
    WalkFindsTheFirst(reply.address, ps, at, c.asked);
    var r := WalkRun(reply.address, ps, at, Never, c.asked).0;
    if r == NotFound {
      forall p: u32 | p < scope.ceiling ensures DerivedAddressAt(h, master, accountIndex, p) != reply.address {
        assert at(ps[p]) != Ok(reply.address);
      }
    } else {
      var i :| 0 <= i < |ps| && ps[i] == r.position && at(ps[i]) == Ok(reply.address)
               && forall j :: 0 <= j < i ==> at(ps[j]) != Ok(reply.address);
      forall p: u32 | p < r.position ensures DerivedAddressAt(h, master, accountIndex, p) != reply.address {
        assert at(ps[p]) != Ok(reply.address);
      }
    }
  }

  /** Every imported account's stream is the one its root gives: what `Import` builds and reading a
      record back checks. */
  ghost predicate StreamsTrue(h: Hashes, image: Image) {
    forall t :: t in image.slots && image.slots[t].account.key.Imported? ==>
      StreamOf(image.slots[t]) == StreamId(h, image.slots[t].account.key.root)
  }

  /** An account is stored exactly when its tag was not held, its addition was not refused and the
      write reached the disk; and then its seed is no imported account's root. */
  lemma RestoreStores(h: Hashes, s: StoreState, medium: Medium, master: Block, accountIndex: u32,
                      found: RestoredAccount, c: Counts)
    requires s.handle.Live? && StreamsTrue(h, s.handle.image)
    requires found.tag == DeriveAccount(h, master, accountIndex).tag
    ensures var (r, s', _) := StoreFound(h, s, medium, master, accountIndex, false, Never, found, c);
            var image := s.handle.image;
            var a := BuiltAt(h, master, accountIndex, found.index);
            && (r == Ok(Restored(found, None)) <==>
                  found.tag !in image.slots && AddRefusal(h, image, a) == None && medium(s.commits) == Landed)
            && (r == Ok(Restored(found, None)) ==>
                  && s'.handle == Live(s'.disk)
                  && s'.disk.slots == image.slots[found.tag := Slot(a, None, None)]
                  && DeriveAccount(h, master, accountIndex).seed !in Roots(s'.disk.slots))
  {
    hide DeriveAccount, Derive, AddRefusal, Roots, StreamsTrue, BuiltAt, Added;
    var image, a := s.handle.image, BuiltAt(h, master, accountIndex, found.index);
    AddLands(h, s, medium, a);
    BuiltFor(h, master, accountIndex, found.index);
    if AddRefusal(h, image, a) == None {
      SeedUnheld(h, image, a, DeriveAccount(h, master, accountIndex).seed);
    }
  }

  lemma AddLands(h: Hashes, s: StoreState, medium: Medium, a: AccountValue)
    requires s.handle.Live?
    ensures var image := s.handle.image;
            var (s', added) := Added(h, s, a, medium);
            && (added.Ok? <==> AddRefusal(h, image, a) == None && medium(s.commits) == Landed)
            && (added.Ok? ==> s'.handle == Live(s'.disk) && s'.disk.slots == image.slots[a.tag := Slot(a, None, None)])
            && (AddRefusal(h, image, a) == None ==> a.tag !in image.slots)
  {
    hide RecomputedStream;
  }

  lemma BuiltFor(h: Hashes, master: Block, accountIndex: u32, index: u32)
    ensures var a := BuiltAt(h, master, accountIndex, index);
            && a.tag == DeriveAccount(h, master, accountIndex).tag && a.index == index
            && a.key == Derived(accountIndex, StreamId(h, DeriveAccount(h, master, accountIndex).seed))
  {
    DerivedStream(h, master, accountIndex);
    hide DeriveAccount, StreamId, Derive;
  }

  lemma SeedUnheld(h: Hashes, image: Image, a: AccountValue, seed: Block)
    requires StreamsTrue(h, image) && AddRefusal(h, image, a) == None
    requires a.key.Derived? && a.key.stream == StreamId(h, seed)
    ensures NextGeneration(image).Some? && a.tag !in image.slots
    ensures seed !in Roots(image.slots[a.tag := Slot(a, None, None)])
  {
    StreamUnheld(h, image, a);
    hide AddRefusal, StreamId;
  }

  lemma DerivedStream(h: Hashes, master: Block, accountIndex: u32)
    ensures var a := Derive(h, master, accountIndex);
            && a.tag == DeriveAccount(h, master, accountIndex).tag
            && a.key == Derived(accountIndex, StreamId(h, DeriveAccount(h, master, accountIndex).seed))
  {
    hide DeriveAccount, StreamId;
  }

  lemma StreamUnheld(h: Hashes, image: Image, a: AccountValue)
    requires AddRefusal(h, image, a) == None && a.key.Derived?
    ensures NextGeneration(image).Some? && a.tag !in image.slots
    ensures forall t :: t in image.slots ==> StreamOf(image.slots[t]) != a.key.stream
  {
    hide DeriveAccount, StreamId;
  }

  /** So a restored account reconciles in sync at the index it was restored at, for as long as the
      node gives the address it was restored from. */
  lemma RestoredThenInSync(h: Hashes, s: StoreState, medium: Medium, node: Script, master: Block, accountIndex: u32,
                           scanTo: Option<u32>, c: Counts, later: Script, scope: ScanScope, stop: nat -> bool,
                           after: Counts)
    requires s.handle.Live? && StreamsTrue(h, s.handle.image)
    requires var r := RestoreRun(h, s, medium, node, master, accountIndex, scanTo, false, Never, c).0;
             r.Ok? && r.value.heldAt == None
    requires var r := RestoreRun(h, s, medium, node, master, accountIndex, scanTo, false, Never, c).0;
             var reply := later.resolve(after.calls, r.value.found.tag);
             reply.Entry? && reply.address == r.value.found.address
    ensures var (r, s', _) := RestoreRun(h, s, medium, node, master, accountIndex, scanTo, false, Never, c);
            var found := r.value.found;
            var reply := later.resolve(after.calls, found.tag);
            ReconcileRun(h, s'.handle, later, found.tag, Master(master), scope, stop, after).0
            == Ok(InSync(found.index, reply.address, reply.balance))
  {
    hide ScanRun, StoreFound, ReconcileRun, StreamsTrue, DeriveAccount, DerivedAddressAt, BuiltAt, Roots, RestoreScope,
         AddRefusal;
    var c1 := c.(asked := c.asked + 1);
    var (scanned, c2) := ScanRun(h, node, master, accountIndex, RestoreScope(scanTo), Never, c1);
    ScanNeedsAnEntry(h, node, master, accountIndex, RestoreScope(scanTo), c1);
    ScanFindsTheLowest(h, node, master, accountIndex, RestoreScope(scanTo), c1);
    var found := scanned.value;
    assert DerivedAddressAt(h, master, accountIndex, found.index) == found.address;
    RestoreStores(h, s, medium, master, accountIndex, found, c2);
    var next := StoreFound(h, s, medium, master, accountIndex, false, Never, found, c2).1.disk;
    KeptThenInSync(h, next, later, master, accountIndex, found.index, scope, stop, after);
  }

  lemma KeptThenInSync(h: Hashes, next: Image, later: Script, master: Block, accountIndex: u32, index: u32,
                       scope: ScanScope,
                       stop: nat -> bool, after: Counts)
    requires var derived := DeriveAccount(h, master, accountIndex);
             && derived.tag in next.slots
             && next.slots[derived.tag] == Slot(BuiltAt(h, master, accountIndex, index), None, None)
             && derived.seed !in Roots(next.slots)
             && var reply := later.resolve(after.calls, derived.tag);
                reply.Entry? && reply.address == DerivedAddressAt(h, master, accountIndex, index)
    ensures var tag := DeriveAccount(h, master, accountIndex).tag;
            var reply := later.resolve(after.calls, tag);
            ReconcileRun(h, Live(next), later, tag, Master(master), scope, stop, after).0
            == Ok(InSync(index, reply.address, reply.balance))
  {
    hide DeriveAccount, DerivedAddressAt, Derive, Roots, AddressAt, ReconcileRun, LocateRun;
    var tag := DeriveAccount(h, master, accountIndex).tag;
    DerivedStartsAtZero(h, master, accountIndex);
    Settling.ReconcileOfSlot(h, next, later, tag, Master(master), scope, stop, after);
    StoreDerivesWhatRestoreScanned(h, Roots(next.slots), master, accountIndex, index, index);
  }

  lemma ScanNeedsAnEntry(h: Hashes, node: Script, master: Block, accountIndex: u32, scope: ScanScope, c: Counts)
    requires ScanRun(h, node, master, accountIndex, scope, Never, c).0.Ok?
    ensures node.resolve(c.calls, DeriveAccount(h, master, accountIndex).tag).Entry?
  {
    hide DeriveAccount;
  }

  // ----- sweeping -----

  datatype Sighting = Sighting(account: u32, tag: Tag, entry: Option<(Address, u64)>, held: Option<(Kind, u32)>)

  datatype SweepFailure = NodeUnreachable(account: u32, searched: u32, code: nat)

  datatype SweepPass =
    | Sweeping(sightings: seq<Sighting>, c: Counts)
    | SweepHalted(c: Counts)
    | SweepBroken(failure: SweepFailure, c: Counts)

  function HeldIn(handle: Handle, tag: Tag): Option<(Kind, u32)> {
    match SlotOf(handle, tag)
    case Ok(slot) => Some((ViewOf(slot).kind, slot.account.index))
    case Err(_) => None
  }

  function SweepStep(h: Hashes, handle: Handle, node: Script, master: Block, account: u32, cancellable: bool,
                     stop: nat -> bool, pass: SweepPass): SweepPass
    requires pass.Sweeping?
  {
    var c := pass.c.(asked := pass.c.asked + 1);
    if stop(pass.c.asked) && cancellable then SweepHalted(c)
    else
      var tag := DeriveAccount(h, master, account).tag;
      var c' := c.(calls := c.calls + 1);
      match node.resolve(c.calls, tag)
      case Entry(address, balance) =>
        Sweeping(pass.sightings + [Sighting(account, tag, Some((address, balance)), HeldIn(handle, tag))], c')
      case Failure(code) =>
        if code == CODE_NOT_FOUND then
          Sweeping(pass.sightings + [Sighting(account, tag, None, HeldIn(handle, tag))], c')
        else SweepBroken(NodeUnreachable(account, account, code), c')
  }

  function Swept(h: Hashes, handle: Handle, node: Script, master: Block, from: nat, to: u32, cancellable: bool,
                 stop: nat -> bool, pass: SweepPass): SweepPass
    requires from <= to as int + 1
    decreases (to as int) + 1 - from
  {
    if !pass.Sweeping? || from == to as int + 1 then pass
    else Swept(h, handle, node, master, from + 1, to, cancellable, stop,
               SweepStep(h, handle, node, master, from, cancellable, stop, pass))
  }

  function SweepEnding(pass: SweepPass): Result<seq<Sighting>, Unfinished<SweepFailure>> {
    match pass
    case Sweeping(sightings, _) => Ok(sightings)
    case SweepHalted(_) => Err(Cancelled)
    case SweepBroken(failure, _) => Err(Refused(failure))
  }

  /** All an observer is told from account `from` on: one report an account. */
  function SweepReports(h: Hashes, handle: Handle, node: Script, master: Block, from: nat, to: u32, cancellable: bool,
                        stop: nat -> bool, pass: SweepPass): seq<Progress>
    requires from <= to as int + 1
    decreases (to as int) + 1 - from
  {
    if !pass.Sweeping? || from == to as int + 1 then []
    else SweepStepReports(from, to, cancellable, stop, pass)
         + SweepReports(h, handle, node, master, from + 1, to, cancellable, stop,
                        SweepStep(h, handle, node, master, from, cancellable, stop, pass))
  }

  function SweepStepReports(account: u32, to: u32, cancellable: bool, stop: nat -> bool, pass: SweepPass): seq<Progress>
    requires pass.Sweeping?
  {
    if stop(pass.c.asked) && cancellable then [] else [Progress(account, SaturatingAdd32(to, 1), 0, 0)]
  }

  /** With the accounts still to come, the sweep ends as `total` and the observer is told `toTell`. */
  ghost predicate SweepRemaining(h: Hashes, handle: Handle, node: Script, master: Block, from: nat, to: u32,
                                 cancellable: bool, stop: nat -> bool, pass: SweepPass, told: seq<Progress>,
                                 total: SweepPass, toTell: seq<Progress>)
    requires from <= to as int + 1
  {
    && Swept(h, handle, node, master, from, to, cancellable, stop, pass) == total
    && told + SweepReports(h, handle, node, master, from, to, cancellable, stop, pass) == toTell
  }

  lemma SweepRemainingStep(h: Hashes, handle: Handle, node: Script, master: Block, from: nat, to: u32,
                           cancellable: bool, stop: nat -> bool, pass: SweepPass, told: seq<Progress>,
                           total: SweepPass, toTell: seq<Progress>)
    requires from <= to && pass.Sweeping?
    requires SweepRemaining(h, handle, node, master, from, to, cancellable, stop, pass, told, total, toTell)
    ensures var next := SweepStep(h, handle, node, master, from, cancellable, stop, pass);
            var heard := told + SweepStepReports(from, to, cancellable, stop, pass);
            && SweepRemaining(h, handle, node, master, from + 1, to, cancellable, stop, next, heard, total, toTell)
            && (!next.Sweeping? ==> total == next && toTell == heard)
  {
    hide SweepStep, SweepStepReports;
  }

  lemma SweepRemainingEnds(h: Hashes, handle: Handle, node: Script, master: Block, to: u32, cancellable: bool,
                           stop: nat -> bool, start: SweepPass, pass: SweepPass, told: seq<Progress>,
                           total: SweepPass, toTell: seq<Progress>)
    ensures SweepRemaining(h, handle, node, master, 0, to, cancellable, stop, start, [],
                           Swept(h, handle, node, master, 0, to, cancellable, stop, start),
                           SweepReports(h, handle, node, master, 0, to, cancellable, stop, start))
    ensures SweepRemaining(h, handle, node, master, to as int + 1, to, cancellable, stop, pass, told, total, toTell) ==>
              total == pass && toTell == told
  {
  }

  method SweepAsking(store: Keystore, node: Node, master: Block, to: u32, cancel: Cancel, observer: Observer?,
                     cancellable: bool)
    returns (r: Result<seq<Sighting>, Unfinished<SweepFailure>>)
    requires cancel.observer == null && !cancel.remembers
    modifies node, cancel, cancel.asker, observer
    ensures var pass := Swept(store.h, store.handle, node.script, master, 0, to, cancellable, cancel.Stops(),
                              Sweeping([], Counts(old(node.calls), old(cancel.Asked()))));
            && r == SweepEnding(pass) && node.calls == pass.c.calls && cancel.Asked() == pass.c.asked
    ensures observer != null ==>
              observer.reports == old(observer.reports)
                + SweepReports(store.h, store.handle, node.script, master, 0, to, cancellable, cancel.Stops(),
                               Sweeping([], Counts(old(node.calls), old(cancel.Asked()))))
  {
    hide SweepStep, SweepStepReports, SweepRemaining, Swept, SweepReports;
    ghost var h, handle, script, stop := store.h, store.handle, node.script, cancel.Stops();
    ghost var start := Sweeping([], Counts(node.calls, cancel.Asked()));
    ghost var total := Swept(h, handle, script, master, 0, to, cancellable, stop, start);
    ghost var toTell := SweepReports(h, handle, script, master, 0, to, cancellable, stop, start);
    ghost var told: seq<Progress> := [];
    SweepRemainingEnds(h, handle, script, master, to, cancellable, stop, start, start, told, total, toTell);
    var sightings: seq<Sighting> := [];
    var account: nat := 0;
    while account <= to
      invariant account <= to as int + 1
      invariant SweepRemaining(h, handle, script, master, account, to, cancellable, stop,
                               Sweeping(sightings, Counts(node.calls, cancel.Asked())), told, total, toTell)
      invariant observer != null ==> observer.reports == old(observer.reports) + told
    {
      ghost var pass := Sweeping(sightings, Counts(node.calls, cancel.Asked()));
      SweepRemainingStep(h, handle, script, master, account, to, cancellable, stop, pass, told, total, toTell);
      told := told + SweepStepReports(account, to, cancellable, stop, pass);
      var ended;
      ended, sightings := SweepOne(store, node, master, account, to, cancel, observer, cancellable, sightings);
      if ended.Some? {
        return Err(ended.value);
      }
      account := account + 1;
    }
    SweepRemainingEnds(h, handle, script, master, to, cancellable, stop, start,
                       Sweeping(sightings, Counts(node.calls, cancel.Asked())), told, total, toTell);
    return Ok(sightings);
  }

  /** One turn of the loop. */
  method SweepOne(store: Keystore, node: Node, master: Block, account: u32, to: u32, cancel: Cancel,
                  observer: Observer?,
                  cancellable: bool, sightings: seq<Sighting>)
    returns (ended: Option<Unfinished<SweepFailure>>, sightings': seq<Sighting>)
    requires cancel.observer == null && !cancel.remembers
    modifies node, cancel, cancel.asker, observer
    ensures var pass := Sweeping(sightings, Counts(old(node.calls), old(cancel.Asked())));
            var c := Counts(node.calls, cancel.Asked());
            && SweepStep(store.h, store.handle, node.script, master, account, cancellable, cancel.Stops(), pass)
               == (match ended
                   case None => Sweeping(sightings', c)
                   case Some(Cancelled) => SweepHalted(c)
                   case Some(Refused(failure)) => SweepBroken(failure, c))
            && (observer != null ==>
                  observer.reports == old(observer.reports)
                    + SweepStepReports(account, to, cancellable, cancel.Stops(), pass))
  {
    hide DeriveAccount, HeldIn;
    ended, sightings' := None, sightings;
    var stopped := cancel.Stop();
    if stopped && cancellable {
      ended := Some(Cancelled);
      return;
    }
    if observer != null {
      observer.Report(Progress(account, SaturatingAdd32(to, 1), 0, 0));
    }
    var tag := DeriveAccount(store.h, master, account).tag;
    var reply := node.ResolveTag(tag);
    var entry := None;
    if reply.Entry? {
      entry := Some((reply.address, reply.balance));
    } else if reply.code != CODE_NOT_FOUND {
      ended := Some(Refused(NodeUnreachable(account, account, reply.code)));
      return;
    }
    sightings' := sightings + [Sighting(account, tag, entry, HeldIn(store.handle, tag))];
  }

  lemma SweepStepTransparent(h: Hashes, handle: Handle, node: Script, master: Block, account: u32, stop: nat -> bool,
                             pass: SweepPass)
    requires pass.Sweeping?
    ensures var next := SweepStep(h, handle, node, master, account, true, stop, pass);
            && pass.c.asked <= next.c.asked
            && (SaidStop(stop, pass.c.asked, next.c.asked) <==> next.SweepHalted?)
            && (!next.SweepHalted? ==> next == SweepStep(h, handle, node, master, account, false, Never, pass))
  {
    hide DeriveAccount, HeldIn, SaidStop;
    SaidStopOnce(stop, pass.c.asked);
  }

  /** A sweep ends as cancelled exactly when some asking was answered stop, and otherwise ends as
      the sweep nobody can stop. */
  lemma {:induction false} SweepTransparent(h: Hashes, handle: Handle, node: Script, master: Block, from: nat, to: u32,
                                            stop: nat -> bool, pass: SweepPass)
    requires from <= to as int + 1 && pass.Sweeping?
    ensures var end := Swept(h, handle, node, master, from, to, true, stop, pass);
            && pass.c.asked <= end.c.asked
            && (SaidStop(stop, pass.c.asked, end.c.asked) <==> SweepEnding(end) == Err(Cancelled))
            && (!end.SweepHalted? ==> end == Swept(h, handle, node, master, from, to, false, Never, pass))
    decreases (to as int) + 1 - from
  {
    hide SweepStep, SaidStop;
    SaidStopOnce(stop, pass.c.asked);
    if from == to as int + 1 {
    } else {
      SweepStepTransparent(h, handle, node, master, from, stop, pass);
      var next := SweepStep(h, handle, node, master, from, true, stop, pass);
      if next.Sweeping? {
        SweepTransparent(h, handle, node, master, from + 1, to, stop, next);
        var end := Swept(h, handle, node, master, from, to, true, stop, pass);
        SaidStopSplits(stop, pass.c.asked, next.c.asked, end.c.asked);
      }
    }
  }

  /** A sweep that ends has one sighting an account, in order, each from its own answer; one that
      cannot reach the node stops at the first account it could not ask about, and says how many it
      had asked about before. */
  lemma {:induction false} SweepSeesAll(h: Hashes, handle: Handle, node: Script, master: Block, from: nat, to: u32,
                                        pass: SweepPass)
    requires from <= to as int + 1 && pass.Sweeping? && |pass.sightings| == from
    ensures var end := Swept(h, handle, node, master, from, to, false, Never, pass);
            && !end.SweepHalted?
            && (end.Sweeping? ==>
                  && end.c == Counts(pass.c.calls + (to as int + 1 - from), pass.c.asked + (to as int + 1 - from))
                  && |end.sightings| == to as int + 1 && pass.sightings == end.sightings[..from]
                  && forall i :: from <= i <= to ==>
                       IsSightingOf(h, handle, node, master, i, pass.c.calls + i - from, end.sightings[i]))
            && (end.SweepBroken? ==>
                  && from <= end.failure.account == end.failure.searched <= to
                  && AnswerAbout(h, node, master, end.failure.account, pass.c.calls + end.failure.account - from)
                     == Failure(end.failure.code)
                  && end.failure.code != 4
                  && forall i :: from <= i < end.failure.account ==>
                       AnswersOn(h, node, master, from, i, pass.c.calls))
    decreases (to as int) + 1 - from
  {
    hide DeriveAccount, HeldIn;
    if from == to as int + 1 {
    } else {
      var next := SweepStep(h, handle, node, master, from, false, Never, pass);
      if next.Sweeping? {
        SweepSeesAll(h, handle, node, master, from + 1, to, next);
        var end := Swept(h, handle, node, master, from, to, false, Never, pass);
        if end.Sweeping? {
          assert end.sightings[..from + 1][..from] == end.sightings[..from];
          assert end.sightings[from] == end.sightings[..from + 1][from];
          SightedIsSighting(h, handle, node, master, from, pass.c.calls, end.sightings[from]);
        }
        if end.SweepBroken? {
          forall i | from <= i < end.failure.account
            ensures AnswersOn(h, node, master, from, i, pass.c.calls)
          {
            assert i > from ==> AnswersOn(h, node, master, from + 1, i, next.c.calls);
          }
        }
      }
    }
  }

  /** What the node answered, at this call, about the account's tag. */
  ghost function AnswerAbout(h: Hashes, node: Script, master: Block, account: u32, call: nat): Reply {
    node.resolve(call, DeriveAccount(h, master, account).tag)
  }

  /** That the tag has no address yet is an answer too. */
  ghost predicate Answers(reply: Reply) { reply.Failure? ==> reply.code == 4 }

  ghost predicate AnswersOn(h: Hashes, node: Script, master: Block, from: nat, account: u32, call: nat)
    requires from <= account
  {
    Answers(AnswerAbout(h, node, master, account, call + account - from))
  }

  ghost predicate IsSightingOf(h: Hashes, handle: Handle, node: Script, master: Block, account: u32, call: nat,
                               seen: Sighting) {
    var tag := DeriveAccount(h, master, account).tag;
    && seen.account == account && seen.tag == tag
    && (match AnswerAbout(h, node, master, account, call)
        case Entry(address, balance) => seen.entry == Some((address, balance))
        case Failure(code) => code == 4 && seen.entry == None)
    && (if handle.Live? && tag in handle.image.slots then
          var a := handle.image.slots[tag].account;
          seen.held == Some((if a.key.Imported? then ImportedKind else DerivedKind, a.index))
        else seen.held == None)
  }

  lemma SightedIsSighting(h: Hashes, handle: Handle, node: Script, master: Block, account: u32, call: nat,
                          seen: Sighting)
    requires var tag := DeriveAccount(h, master, account).tag;
             var reply := node.resolve(call, tag);
             && seen.account == account && seen.tag == tag && seen.held == HeldIn(handle, tag) && Answers(reply)
             && seen.entry == if reply.Entry? then Some((reply.address, reply.balance)) else None
    ensures IsSightingOf(h, handle, node, master, account, call, seen)
  {
    hide DeriveAccount;
  }

  /** An observer of a sweep that ends is told of each account before it is asked about: which it
      is, of one more than the last. */
  lemma {:induction false} SweepTells(h: Hashes, handle: Handle, node: Script, master: Block, from: nat, to: u32,
                                      pass: SweepPass)
    requires from <= to as int + 1 && pass.Sweeping?
    ensures var told := SweepReports(h, handle, node, master, from, to, false, Never, pass);
            var end := Swept(h, handle, node, master, from, to, false, Never, pass);
            && |told| == (if end.SweepBroken? then end.failure.account + 1 else to as int + 1) - from
            && forall i :: 0 <= i < |told| ==> told[i] == Progress(from + i, Min(to as int + 1, 0xFFFF_FFFF), 0, 0)
    decreases (to as int) + 1 - from
  {
    hide DeriveAccount, HeldIn;
    if from == to as int + 1 {
    } else {
      var next := SweepStep(h, handle, node, master, from, false, Never, pass);
      if next.Sweeping? {
        SweepTells(h, handle, node, master, from + 1, to, next);
      }
    }
  }
}
