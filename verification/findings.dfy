/** What a finding says of the chain and the store, and whose it is: every status and every
    divergence holds exactly the facts it names, and a pass over a whole store files each account
    under its own. Stated over the node's answers and the slots alone. */
module Findings {
  import opened Base
  import opened Primitives
  import opened Derivation
  import opened Accounts
  import opened Cancellation
  import opened Scan
  import opened Store
  import opened Recon

  type Finding = Result<AccountStatus, Divergence>

  // ----- one account -----

  /** What is said of an expiry: none was set, or the tip the node then gave is compared with it. */
  ghost predicate ExpiryIs(e: Expiry, blkToLive: u64, tip: TipReply) {
    match e
    case NoExpiry => blkToLive == 0
    case BelowTip(t) => blkToLive != 0 && tip == Tip(t) && t < blkToLive
    case ReachedTip(t) => blkToLive != 0 && tip == Tip(t) && t >= blkToLive
    case Unreadable(code) => blkToLive != 0 && tip == TipFailure(code)
  }

  ghost predicate RecordIs(r: Reservation, figures: Option<Figures>, balance: u64, tip: TipReply) {
    match r
    case Unrecorded => figures == None
    case Recorded(f, moved, now, expiry) =>
      && figures == Some(f) && now == balance
      && (moved <==> f.reservedBalance != balance)
      && ExpiryIs(expiry, f.blkToLive, tip)
  }

  /** A retained settle is reported as reverted exactly when the chain sits, behind, where it was
      spent. */
  ghost predicate RevertIs(reverted: Option<Pending>, settled: Option<Pending>, found: ChainPosition) {
    && (reverted.Some? <==> settled.Some? && found.Behind? && found.index == settled.value.spent)
    && (reverted.Some? ==> reverted == settled)
  }

  /** The finding is the one this slot and this answer call for; `tip` is the node's next answer. */
  ghost predicate Fits(r: Finding, tag: Tag, slot: Slot, reply: Reply, tip: TipReply, at: Addresses, scope: ScanScope) {
    var index, stream := slot.account.index, slot.account.key.stream;
    match r
    case Ok(InSync(i, address, balance)) =>
      slot.pending.None? && i == index && reply == Entry(address, balance) && at(index) == Ok(address)
    case Ok(SpendOutstanding(spent, balance, reservation)) =>
      && slot.pending.Some? && spent == slot.pending.value.spent
      && reply.Entry? && balance == reply.balance && at(spent) == Ok(reply.address)
      && RecordIs(reservation, slot.pending.value.figures, balance, tip)
    case Ok(SpendLanded(spent, settledIndex, balance)) =>
      && slot.pending.Some? && spent == slot.pending.value.spent && settledIndex == index
      && reply.Entry? && balance == reply.balance
      && at(spent).Ok? && at(spent) != Ok(reply.address) && at(index) == Ok(reply.address)
    case Err(IndexMismatch(t, local, localAddress, chainAddress, balance, s, found, reverted)) =>
      && t == tag && slot.pending.None? && local == index && s == stream
      && reply == Entry(chainAddress, balance) && at(index) == Ok(localAddress) && localAddress != chainAddress
      && PutAt(found, chainAddress, index, at, scope) && RevertIs(reverted, slot.settled, found)
    case Err(ReservationUnexplained(t, spent, chainAddress, balance, s, found)) =>
      && t == tag && slot.pending.Some? && spent == slot.pending.value.spent && s == stream
      && reply == Entry(chainAddress, balance)
      && at(spent).Ok? && at(spent) != Ok(chainAddress) && at(index).Ok? && at(index) != Ok(chainAddress)
      && PutAt(found, chainAddress, index, at, scope)
    case Err(TagUnresolved(t, local)) => t == tag && local == index && reply == Failure(4)
    case Err(ChainUnreachable(t, code)) => t == tag && code != 4 && reply == Failure(code)
    case Err(NoMasterForDerivedAccount(_)) => false
    case Err(CannotReconcile(t, cause)) =>
      && t == tag && reply.Entry? && cause.Key?
      && at(if slot.pending.Some? then slot.pending.value.spent else index) == Err(cause.cause)
  }

  /** Every finding of a reconciliation nobody stops fits the account's slot and the answer it was
      given; and no answer is asked for about an account that is not held. */
  lemma FindingFits(h: Hashes, handle: Handle, node: Script, tag: Tag, access: KeyAccess, scope: ScanScope, c: Counts)
    ensures var (r, c') := ReconcileRun(h, handle, node, tag, access, scope, Never, c);
            match handle
            case Dead(first) => r == Err(CannotReconcile(tag, Poisoned(first))) && c' == c
            case Live(image) =>
              if tag !in image.slots then r == Err(CannotReconcile(tag, NoSuchAccount)) && c' == c
              else
                Fits(r, tag, image.slots[tag], node.resolve(c.calls, tag), node.tip(c.calls + 1),
                     AddressesOf(h, image, image.slots[tag], access), scope)
  {
    hide Compare, AddressesOf, Fits;
    if handle.Live? && tag in handle.image.slots {
      var slot, reply := handle.image.slots[tag], node.resolve(c.calls, tag);
      var at := AddressesOf(h, handle.image, slot, access);
      AddressesRefuseTogether(h, handle.image, slot, access);
      match reply {
        case Entry(address, balance) =>
          CompareFits(tag, slot, address, balance, at, scope, node, c.(calls := c.calls + 1));
        case Failure(code) =>
          FailureFits(tag, slot, code, node.tip(c.calls + 1), at, scope);
      }
    }
  }

  /** The node is asked for the address, and for the tip only when a reservation stands at the chain's
      address and records an expiry. */
  ghost function CallsFor(r: Finding): nat {
    if r.Ok? && r.value.SpendOutstanding? && r.value.reservation.Recorded?
       && r.value.reservation.figures.blkToLive != 0 then 2
    else 1
  }

  lemma FindingCalls(h: Hashes, handle: Handle, node: Script, tag: Tag, access: KeyAccess, scope: ScanScope,
                     stop: nat -> bool, c: Counts)
    ensures var (r, c') := ReconcileRun(h, handle, node, tag, access, scope, stop, c);
            c'.calls == c.calls + if SlotOf(handle, tag).Ok? then CallsFor(r) else 0
  {
    hide LocateRun, AddressesOf;
  }

  lemma FailureFits(tag: Tag, slot: Slot, code: nat, tip: TipReply, at: Addresses, scope: ScanScope)
    ensures Fits(Err(if code == 4 then TagUnresolved(tag, slot.account.index) else ChainUnreachable(tag, code)), tag,
                 slot, Failure(code), tip, at, scope)
  {
  }

  lemma CompareFits(tag: Tag, slot: Slot, address: Address, balance: u64, at: Addresses, scope: ScanScope,
                    node: Script, c: Counts)
    requires RefusesTogether(at)
    ensures Fits(Compare(tag, slot, address, balance, at, scope, node, Never, c).0, tag, slot, Entry(address, balance),
                 node.tip(c.calls), at, scope)
  {
    hide LocateRun, PutAt, Fits, CompareIndex, CompareReserved;
    if at(slot.account.index).Ok? {
      LocateMeans(address, slot.account.index, scope, at, c.asked);
    }
    match slot.pending {
      case None =>
        IndexFits(tag, slot, address, balance, node.tip(c.calls), at, scope, c);
      case Some(pending) =>
        ReservedFits(tag, slot, pending, address, balance, at, scope, node, c);
    }
  }

  lemma IndexFits(tag: Tag, slot: Slot, address: Address, balance: u64, tip: TipReply, at: Addresses, scope: ScanScope,
                  c: Counts)
    requires slot.pending.None?
    requires var local := slot.account.index;
             at(local).Ok? ==> PutAt(LocateRun(address, local, scope, at, Never, c.asked).0, address, local, at, scope)
    ensures Fits(CompareIndex(tag, slot, address, balance, at, scope, Never, c).0, tag, slot, Entry(address, balance),
                 tip, at, scope)
  {
    hide LocateRun, PutAt, RecordIs;
  }

  lemma ReservedFits(tag: Tag, slot: Slot, pending: Pending, address: Address, balance: u64, at: Addresses,
                     scope: ScanScope, node: Script, c: Counts)
    requires slot.pending == Some(pending) && RefusesTogether(at)
    requires var local := slot.account.index;
             at(local).Ok? ==> PutAt(LocateRun(address, local, scope, at, Never, c.asked).0, address, local, at, scope)
    ensures Fits(CompareReserved(tag, slot, pending, address, balance, at, scope, node, Never, c).0, tag, slot,
                 Entry(address, balance), node.tip(c.calls), at, scope)
  {
    hide LocateRun, PutAt, RevertIs;
  }

  /** A finding of a walk that was stopped says what was found before it, and that the chain was not
      placed. */
  ghost predicate FitsStopped(d: Divergence, tag: Tag, slot: Slot, reply: Reply, at: Addresses, scope: ScanScope) {
    var index, stream := slot.account.index, slot.account.key.stream;
    match d
    case IndexMismatch(t, local, localAddress, chainAddress, balance, s, found, reverted) =>
      && t == tag && slot.pending.None? && local == index && s == stream && reverted == None
      && reply == Entry(chainAddress, balance) && at(index) == Ok(localAddress) && localAddress != chainAddress
      && found.Unlocated? && found.local == index && found.scope == scope
    case ReservationUnexplained(t, spent, chainAddress, balance, s, found) =>
      && t == tag && slot.pending.Some? && spent == slot.pending.value.spent && s == stream
      && reply == Entry(chainAddress, balance)
      && at(spent).Ok? && at(spent) != Ok(chainAddress) && at(index).Ok? && at(index) != Ok(chainAddress)
      && found.Unlocated? && found.local == index && found.scope == scope
    case _ => false
  }

  lemma StoppedFits(h: Hashes, image: Image, node: Script, tag: Tag, access: KeyAccess, scope: ScanScope,
                    stop: nat -> bool, c: Counts)
    requires tag in image.slots
    ensures var r := ReconcileRun(h, Live(image), node, tag, access, scope, stop, c).0;
            r.Err? && WasStopped(r.error) ==>
              FitsStopped(r.error, tag, image.slots[tag], node.resolve(c.calls, tag),
                          AddressesOf(h, image, image.slots[tag], access), scope)
  {
    hide WalkRun, Positions, AddressesOf;
  }

  /** With the access its kind needs: its own root for an imported account, the master seed for a
      derived one, and without that nothing is asked. */
  lemma NextFits(h: Hashes, handle: Handle, node: Script, tag: Tag, master: Option<Block>, scope: ScanScope, c: Counts)
    ensures var (r, c') := ReconcileNext(h, handle, node, tag, master, scope, Never, c);
            match handle
            case Dead(first) => r == Err(CannotReconcile(tag, Poisoned(first))) && c' == c
            case Live(image) =>
              if tag !in image.slots then r == Err(CannotReconcile(tag, NoSuchAccount)) && c' == c
              else if image.slots[tag].account.key.Derived? && master == None then
                r == Err(NoMasterForDerivedAccount(tag)) && c' == c
              else
                Fits(r, tag, image.slots[tag], node.resolve(c.calls, tag), node.tip(c.calls + 1),
                     OwnAddresses(h, image, tag, master), scope)
  {
    hide ReconcileRun, Fits;
    var access := AccessFor(handle, tag, master);
    if access.Ok? {
      FindingFits(h, handle, node, tag, access.value, scope, c);
    }
  }

  /** The account's addresses, by whatever gives access to its keys. */
  ghost function OwnAddresses(h: Hashes, image: Image, tag: Tag, master: Option<Block>): Addresses
    requires tag in image.slots && (master.Some? || image.slots[tag].account.key.Imported?)
  {
    AddressesOf(h, image, image.slots[tag],
                if image.slots[tag].account.key.Imported? then StoredRoot else Master(master.value))
  }

  // ----- a whole store -----

  type Scopes = Tag -> ScanScope

  /** What is found of each account in turn, with one asking before each and nobody stopping. */
  ghost function FindingsOf(h: Hashes, handle: Handle, node: Script, tags: seq<Tag>, master: Option<Block>,
                            scopes: Scopes, c: Counts): seq<Finding>
    decreases |tags|
  {
    if tags == [] then []
    else
      var (r, c') := ReconcileNext(h, handle, node, tags[0], master, scopes(tags[0]), Never,
                                   c.(asked := c.asked + 1));
      [r] + FindingsOf(h, handle, node, tags[1..], master, scopes, c')
  }

  /** The counts after them. */
  ghost function CountsAfter(h: Hashes, handle: Handle, node: Script, tags: seq<Tag>, master: Option<Block>,
                             scopes: Scopes, c: Counts): Counts
    decreases |tags|
  {
    if tags == [] then c
    else CountsAfter(h, handle, node, tags[1..], master, scopes,
                     ReconcileNext(h, handle, node, tags[0], master, scopes(tags[0]), Never,
                                   c.(asked := c.asked + 1)).1)
  }

  /** What an observer is told of them, the first being the `n`-th of `of`. */
  ghost function ToldOf(h: Hashes, handle: Handle, node: Script, tags: seq<Tag>, n: nat, of: nat,
                        master: Option<Block>, scopes: Scopes, c: Counts): seq<Progress>
    decreases |tags|
  {
    if tags == [] then []
    else
      var asked := c.(asked := c.asked + 1);
      NextReports(h, handle, node, tags[0], master, scopes(tags[0]), Never, asked, n, of)
      + ToldOf(h, handle, node, tags[1..], n + 1, of, master, scopes,
               ReconcileNext(h, handle, node, tags[0], master, scopes(tags[0]), Never, asked).1)
  }

  /** What is told of one account: which it is, of how many, and how many positions its walk could
      come to; then how far it has come, at every 256th position it did come to. */
  ghost predicate Tells(told: seq<Progress>, n: nat, of: nat, reach: nat, asks: nat) {
    && told != [] && 256 * |told| <= 256 + asks < 256 * (|told| + 1)
    && (told[0].account, told[0].accounts, told[0].position, told[0].ceiling) == (n, of, 0, reach)
    && forall i :: 0 < i < |told| ==> i * 256 <= U32_MAX && told[i] == told[0].(position := i * 256)
  }

  lemma ToldOfOne(h: Hashes, handle: Handle, node: Script, tag: Tag, master: Option<Block>, scope: ScanScope,
                  stop: nat -> bool, c: Counts, n: u32, of: u32)
    ensures var local := if SlotOf(handle, tag).Ok? then Some(SlotOf(handle, tag).value.account.index) else None;
            Tells(NextReports(h, handle, node, tag, master, scope, stop, c, n, of), n, of, |Positions(scope, local)|,
                  AsksOf(c, ReconcileNext(h, handle, node, tag, master, scope, stop, c).1))
  {
    hide ReconcileNext, Positions, Reach, Reports;
    var local := if SlotOf(handle, tag).Ok? then Some(SlotOf(handle, tag).value.account.index) else None;
    ReachCounts(scope, local);
    NextAsksWithinReach(h, handle, node, tag, master, scope, stop, c, n, of);
    ReportsTell(Announcement(handle, tag, scope, n, of),
                AsksOf(c, ReconcileNext(h, handle, node, tag, master, scope, stop, c).1));
  }

  lemma ReportsTell(at: Progress, asks: u32)
    requires at.position == 0
    ensures Tells([at] + Reports(at, 0, asks), at.account, at.accounts, at.ceiling, asks)
  {
    ReportsEvery256(at, asks);
    hide Reports;
    var told := [at] + Reports(at, 0, asks);
    forall i | 0 < i < |told|
      ensures i * 256 <= U32_MAX && told[i] == at.(position := i * 256)
    {
      assert told[i] == Reports(at, 0, asks)[i - 1];
    }
  }

  /** The accounts that agree with the chain, in their order. */
  ghost function Kept(tags: seq<Tag>, findings: seq<Finding>): seq<(Tag, AccountStatus)>
    requires |tags| == |findings|
  {
    if tags == [] then []
    else (if findings[0].Ok? then [(tags[0], findings[0].value)] else []) + Kept(tags[1..], findings[1..])
  }

  /** What went against the others, in their order. */
  ghost function SetAside(findings: seq<Finding>): seq<Divergence> {
    if findings == [] then []
    else (if findings[0].Err? then [findings[0].error] else []) + SetAside(findings[1..])
  }

  lemma FiledNone()
    ensures Kept([], []) == [] && SetAside([]) == []
  {
  }

  /** The first finding is filed first, in one list or the other. */
  lemma FiledFirst(tags: seq<Tag>, r: Finding, rest: seq<Finding>, ok: seq<(Tag, AccountStatus)>,
                   diverged: seq<Divergence>)
    requires |tags| == 1 + |rest|
    ensures ok + Kept(tags, [r] + rest)
         == (if r.Ok? then ok + [(tags[0], r.value)] else ok) + Kept(tags[1..], rest)
    ensures diverged + SetAside([r] + rest)
         == (if r.Err? then diverged + [r.error] else diverged) + SetAside(rest)
  {
    assert ([r] + rest)[1..] == rest;
  }

  lemma {:induction false} KeptMeans(tags: seq<Tag>, findings: seq<Finding>)
    requires |tags| == |findings|
    ensures forall e :: e in Kept(tags, findings) <==>
              exists n :: 0 <= n < |tags| && tags[n] == e.0 && findings[n] == Ok(e.1)
  {
    if tags == [] {
    } else {
      KeptMeans(tags[1..], findings[1..]);
      forall e
        ensures e in Kept(tags, findings) <==>
                  exists n :: 0 <= n < |tags| && tags[n] == e.0 && findings[n] == Ok(e.1)
      {
        if e in Kept(tags[1..], findings[1..]) {
          var n :| 0 <= n < |tags| - 1 && tags[1..][n] == e.0 && findings[1..][n] == Ok(e.1);
          assert tags[n + 1] == e.0 && findings[n + 1] == Ok(e.1);
        }
        if n :| 0 < n < |tags| && tags[n] == e.0 && findings[n] == Ok(e.1) {
          assert tags[1..][n - 1] == e.0 && findings[1..][n - 1] == Ok(e.1);
        }
      }
    }
  }

  lemma {:induction false} FiledOnce(tags: seq<Tag>, findings: seq<Finding>)
    requires |tags| == |findings|
    ensures |Kept(tags, findings)| + |SetAside(findings)| == |tags|
  {
    if tags == [] {
    } else {
      FiledOnce(tags[1..], findings[1..]);
    }
  }

  lemma {:induction false} SetAsideMeans(findings: seq<Finding>)
    ensures forall d :: d in SetAside(findings) <==> Err(d) in findings
  {
    if findings == [] {
    } else {
      SetAsideMeans(findings[1..]);
      assert findings == [findings[0]] + findings[1..];
    }
  }

  /** The finding of a held account is the one some answer of the node about it calls for, among the
      calls from `first` on; or its keys are out of reach, and there was no call. */
  ghost predicate Answered(h: Hashes, image: Image, node: Script, tag: Tag, master: Option<Block>, scope: ScanScope,
                           r: Finding, first: nat, past: nat)
    requires tag in image.slots
  {
    if image.slots[tag].account.key.Derived? && master == None then r == Err(NoMasterForDerivedAccount(tag))
    else exists call {:trigger node.resolve(call, tag)} :: first <= call < past
           && Fits(r, tag, image.slots[tag], node.resolve(call, tag), node.tip(call + 1),
                   OwnAddresses(h, image, tag, master), scope)
  }

  lemma CallsGrow(h: Hashes, handle: Handle, node: Script, tag: Tag, master: Option<Block>, scope: ScanScope,
                  stop: nat -> bool, c: Counts)
    ensures var (_, c') := ReconcileNext(h, handle, node, tag, master, scope, stop, c);
            && c.calls <= c'.calls
            && (AccessFor(handle, tag, master).Ok? ==> c.calls < c'.calls)
  {
    hide LocateRun, AddressesOf;
  }

  lemma NextAnswered(h: Hashes, image: Image, node: Script, tag: Tag, master: Option<Block>, scope: ScanScope,
                     c: Counts)
    requires tag in image.slots
    ensures var (r, c') := ReconcileNext(h, Live(image), node, tag, master, scope, Never, c);
            c.calls <= c'.calls && Answered(h, image, node, tag, master, scope, r, c.calls, c'.calls)
  {
    hide ReconcileNext, Fits, OwnAddresses;
    NextFits(h, Live(image), node, tag, master, scope, c);
    CallsGrow(h, Live(image), node, tag, master, scope, Never, c);
  }

  /** Each finding of a pass is called for by an answer the node gave about its account during it. */
  lemma {:induction false} FindingsAnswered(h: Hashes, image: Image, node: Script, tags: seq<Tag>,
                                            master: Option<Block>, scopes: Scopes, c: Counts)
    requires forall t :: t in tags ==> t in image.slots
    ensures var found := FindingsOf(h, Live(image), node, tags, master, scopes, c);
            var past := CountsAfter(h, Live(image), node, tags, master, scopes, c).calls;
            && c.calls <= past
            && |found| == |tags|
            && forall n :: 0 <= n < |tags| ==>
                 && Answered(h, image, node, tags[n], master, scopes(tags[n]), found[n], c.calls, past)
                 && (found[n].Err? ==> found[n].error.tag == tags[n])
    decreases |tags|
  {
    hide ReconcileNext, Answered;
    if tags == [] {
    } else {
      var asked := c.(asked := c.asked + 1);
      NextAnswered(h, image, node, tags[0], master, scopes(tags[0]), asked);
      NextTag(h, Live(image), node, tags[0], master, scopes(tags[0]), Never, asked);
      var (r, c') := ReconcileNext(h, Live(image), node, tags[0], master, scopes(tags[0]), Never, asked);
      FindingsAnswered(h, image, node, tags[1..], master, scopes, c');
      var found := FindingsOf(h, Live(image), node, tags, master, scopes, c);
      var past := CountsAfter(h, Live(image), node, tags, master, scopes, c).calls;
      forall n | 0 <= n < |tags|
        ensures Answered(h, image, node, tags[n], master, scopes(tags[n]), found[n], c.calls, past)
        ensures found[n].Err? ==> found[n].error.tag == tags[n]
      {
        if n == 0 {
          AnsweredWithin(h, image, node, tags[0], master, scopes(tags[0]), r, c.calls, c'.calls, c.calls, past);
        } else {
          assert tags[1..][n - 1] == tags[n];
          AnsweredWithin(h, image, node, tags[n], master, scopes(tags[n]), found[n], c'.calls, past, c.calls, past);
        }
      }
    }
  }

  lemma AnsweredWithin(h: Hashes, image: Image, node: Script, tag: Tag, master: Option<Block>, scope: ScanScope,
                       r: Finding, first: nat, past: nat, first': nat, past': nat)
    requires tag in image.slots && first' <= first && past <= past'
    requires Answered(h, image, node, tag, master, scope, r, first, past)
    ensures Answered(h, image, node, tag, master, scope, r, first', past')
  {
    hide Fits, OwnAddresses;
  }
}
