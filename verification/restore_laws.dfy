/** What restoring promises, over the account's own addresses and the node's answer alone: the range
    it covers, the index it settles on, and what becomes of it. */
module RestoreLaws {
  import opened Base
  import opened Primitives
  import opened Derivation
  import opened Accounts
  import opened Cancellation
  import opened Scan
  import opened Store
  import opened Recon
  import opened Restore
  import Findings

  /** How many indices are tried: ten thousand, or all up to the one given; never the very last. */
  ghost function Tried(scanTo: Option<u32>): u32 {
    match scanTo
    case None => 10_000
    case Some(last) => if last == 0xFFFF_FFFF then 0xFFFF_FFFF else last + 1
  }

  /** The index is the lowest of those tried whose key has the address. */
  ghost predicate LowestAt(h: Hashes, master: Block, accountIndex: u32, address: Address, tried: u32, index: u32) {
    && index < tried && DerivedAddressAt(h, master, accountIndex, index) == address
    && forall p: u32 :: p < index ==> DerivedAddressAt(h, master, accountIndex, p) != address
  }

  /** What becomes of the account at that index: it is held already, and says at which index it is
      held; or it is added there, at its own index and with nothing reserved; or it is refused. */
  ghost predicate Becomes(h: Hashes, s: StoreState, medium: Medium, master: Block, accountIndex: u32,
                          found: RestoredAccount, r: Ending, s': StoreState)
  {
    match s.handle
    case Dead(first) => r == Err(Refused(CannotStore(found.tag, Poisoned(first)))) && s' == s
    case Live(image) =>
      if found.tag in image.slots then
        r == Ok(Restored(found, Some(image.slots[found.tag].account.index))) && s' == s
      else
        var seed := DeriveAccount(h, master, accountIndex).seed;
        var account := AccountValue(found.tag, Derived(accountIndex, StreamId(h, seed)), found.index);
        var (added, w) := Added(h, s, account, medium);
        && s' == added
        && r == if w.Ok? then Ok(Restored(found, None)) else Err(Refused(CannotStore(found.tag, w.error)))
  }

  /** Restoring an account: the node is asked where its tag is. An answer without an address refuses
      it; with one, the lowest index tried that has this address is restored, and if none of them has
      it the restore is refused with the number of indices tried. */
  ghost predicate RestoredFrom(h: Hashes, s: StoreState, medium: Medium, master: Block, accountIndex: u32,
                               scanTo: Option<u32>, reply: Reply, r: Ending, s': StoreState)
  {
    var tag := DeriveAccount(h, master, accountIndex).tag;
    match reply
    case Failure(code) =>
      s' == s && r == Err(Refused(if code == 4 then TagNotResolved(tag) else ChainNotReached(tag, code)))
    case Entry(address, balance) =>
      if exists p: u32 :: p < Tried(scanTo) && DerivedAddressAt(h, master, accountIndex, p) == address then
        exists index ::
          && LowestAt(h, master, accountIndex, address, Tried(scanTo), index)
          && Becomes(h, s, medium, master, accountIndex, RestoredAccount(tag, index, address, balance), r, s')
      else s' == s && r == Err(Refused(NoIndexReproducesTheAddress(tag, address, Tried(scanTo))))
  }

  /** There is at most one such index. */
  lemma LowestIsOne(h: Hashes, master: Block, accountIndex: u32, address: Address, tried: u32, i: u32, j: u32)
    requires LowestAt(h, master, accountIndex, address, tried, i)
    requires LowestAt(h, master, accountIndex, address, tried, j)
    ensures i == j
  {
    hide DerivedAddressAt;
    assert !(i < j) && !(j < i);
  }

  lemma FoundBecomes(h: Hashes, s: StoreState, medium: Medium, master: Block, accountIndex: u32, found: RestoredAccount,
                     c: Counts)
    requires found.tag == DeriveAccount(h, master, accountIndex).tag
    ensures var (r, s', _) := StoreFound(h, s, medium, master, accountIndex, false, Never, found, c);
            Becomes(h, s, medium, master, accountIndex, found, r, s')
  {
    hide Added, DeriveAccount, StreamId, BuiltAt;
    BuiltFor(h, master, accountIndex, found.index);
  }

  /** Every restore nobody stops is one of these. */
  lemma RestoreMeans(h: Hashes, s: StoreState, medium: Medium, node: Script, master: Block, accountIndex: u32,
                     scanTo: Option<u32>, c: Counts)
    ensures var (r, s', c') := RestoreRun(h, s, medium, node, master, accountIndex, scanTo, false, Never, c);
            var tag := DeriveAccount(h, master, accountIndex).tag;
            && c'.calls == c.calls + 1
            && RestoredFrom(h, s, medium, master, accountIndex, scanTo, node.resolve(c.calls, tag), r, s')
  {
    hide ScanRun, StoreFound, Becomes, DeriveAccount, DerivedAddressAt;
    var tag := DeriveAccount(h, master, accountIndex).tag;
    var c1 := c.(asked := c.asked + 1);
    assert RestoreScope(scanTo).ceiling == Tried(scanTo);
    hide RestoreScope, Tried;
    ScanCalls(h, s, medium, node, master, accountIndex, RestoreScope(scanTo), c1);
    if node.resolve(c.calls, tag).Entry? {
      ScanFindsTheLowest(h, node, master, accountIndex, RestoreScope(scanTo), c1);
      var (scanned, c2) := ScanRun(h, node, master, accountIndex, RestoreScope(scanTo), Never, c1);
      if scanned.Ok? {
        FoundBecomes(h, s, medium, master, accountIndex, scanned.value, c2);
      }
    }
  }

  lemma ScanCalls(h: Hashes, s: StoreState, medium: Medium, node: Script, master: Block, accountIndex: u32,
                  scope: ScanScope, c: Counts)
    ensures var (r, c') := ScanRun(h, node, master, accountIndex, scope, Never, c);
            var tag := DeriveAccount(h, master, accountIndex).tag;
            && c'.calls == c.calls + 1
            && (forall code :: node.resolve(c.calls, tag) == Failure(code) ==>
                  r == Err(if code == 4 then TagNotResolved(tag) else ChainNotReached(tag, code)))
            && (r.Ok? ==> StoreFound(h, s, medium, master, accountIndex, false, Never, r.value, c').2.calls == c'.calls)
  {
    hide DeriveAccount, DerivedAddresses, WalkRun, Positions, Added, BuiltAt;
  }

  /** How many indices a restore has to try: up to the one it finds, or all of them. */
  ghost predicate Tries(h: Hashes, master: Block, accountIndex: u32, tried: u32, reply: Reply, asks: nat) {
    match reply
    case Failure(_) => asks == 0
    case Entry(address, _) =>
      if exists p: u32 :: p < tried && DerivedAddressAt(h, master, accountIndex, p) == address then
        exists index :: LowestAt(h, master, accountIndex, address, tried, index) && asks == index as nat + 1
      else asks == tried
  }

  lemma ScanTries(h: Hashes, node: Script, master: Block, accountIndex: u32, tried: u32, c: Counts)
    ensures var c' := ScanRun(h, node, master, accountIndex, ScanScope(tried, None), Never, c).1;
            var tag := DeriveAccount(h, master, accountIndex).tag;
            && c.asked <= c'.asked
            && Tries(h, master, accountIndex, tried, node.resolve(c.calls, tag), c'.asked - c.asked)
  {
    hide DeriveAccount, DerivedAddressAt, Positions, WalkRun, DerivedAddresses;
    var reply := node.resolve(c.calls, DeriveAccount(h, master, accountIndex).tag);
    if reply.Entry? {
      var at := DerivedAddresses(h, master, accountIndex);
      ScanFindsTheLowest(h, node, master, accountIndex, ScanScope(tried, None), c);
      EveryIndexBelow(tried);
      WalkGoesThrough(reply.address, Positions(ScanScope(tried, None), None), at, c.asked);
      var r := ScanRun(h, node, master, accountIndex, ScanScope(tried, None), Never, c).0;
      if r.Ok? {
        assert LowestAt(h, master, accountIndex, reply.address, tried, r.value.index);
      }
    }
  }

  lemma EveryIndexBelow(n: u32)
    ensures var ps := Positions(ScanScope(n, None), None);
            |ps| == n && forall i :: 0 <= i < n ==> ps[i] == i
  {
    EveryPositionBelow(n);
    assert Positions(ScanScope(n, None), None) == Rest(None, n);
  }

  lemma WalkGoesThrough(target: Address, ps: seq<u32>, at: Addresses, asked: nat)
    requires forall i :: 0 <= i < |ps| ==> ps[i] == i
    ensures var (r, past) := WalkRun(target, ps, at, Never, asked);
            && (r.Found? ==> past == asked + r.position as nat + 1)
            && (r.NotFound? ==> past == asked + |ps|)
  {
    WalkEndsWhereItSays(target, ps, at, Never, asked);
    hide WalkRun, GoesPast;
  }

  /** It asks the caller once before, once for each index it tries, and once more before it writes. */
  lemma RestoreAsks(h: Hashes, s: StoreState, medium: Medium, node: Script, master: Block, accountIndex: u32,
                    scanTo: Option<u32>, c: Counts)
    ensures var (r, _, c') := RestoreRun(h, s, medium, node, master, accountIndex, scanTo, false, Never, c);
            var tag := DeriveAccount(h, master, accountIndex).tag;
            var reply := node.resolve(c.calls, tag);
            exists asks ::
              && Tries(h, master, accountIndex, Tried(scanTo), reply, asks)
              && c'.asked == c.asked + 1 + asks + if Writes(r, s, tag) then 1 else 0
  {
    hide ScanRun, Tries, DeriveAccount, Added, BuiltAt;
    var c1, scope := c.(asked := c.asked + 1), ScanScope(Tried(scanTo), None);
    assert RestoreScope(scanTo) == scope;
    ScanTries(h, node, master, accountIndex, Tried(scanTo), c1);
    var (scanned, c2) := ScanRun(h, node, master, accountIndex, scope, Never, c1);
    ScanIsOf(h, node, master, accountIndex, scope, c1);
    assert Tries(h, master, accountIndex, Tried(scanTo),
                 node.resolve(c.calls, DeriveAccount(h, master, accountIndex).tag), c2.asked - c1.asked);
  }

  /** An index was found, and the account is not held yet. */
  ghost predicate Writes(r: Ending, s: StoreState, tag: Tag) {
    && s.handle.Live? && tag !in s.handle.image.slots
    && (r.Ok? || (r.error.Refused? && r.error.cause.CannotStore?))
  }

  lemma ScanIsOf(h: Hashes, node: Script, master: Block, accountIndex: u32, scope: ScanScope, c: Counts)
    ensures var r := ScanRun(h, node, master, accountIndex, scope, Never, c).0;
            && (r.Ok? ==> r.value.tag == DeriveAccount(h, master, accountIndex).tag)
            && (r.Err? ==> !r.error.CannotStore?)
  {
    hide DeriveAccount, DerivedAddresses, WalkRun, Positions;
  }

  /** An observer of a restore is told how many indices it will try at most, and then of every 256th
      it did try. */
  lemma RestoreTells(h: Hashes, node: Script, master: Block, accountIndex: u32, scanTo: Option<u32>, c: Counts)
    ensures var told := RestoreReports(h, node, master, accountIndex, scanTo, false, Never, c);
            exists asks ::
              && Tries(h, master, accountIndex, Tried(scanTo),
                       node.resolve(c.calls, DeriveAccount(h, master, accountIndex).tag), asks)
              && Findings.Tells(told, 0, 1, Tried(scanTo), asks)
  {
    hide ScanRun, Tries, Findings.Tells, DeriveAccount, Reports, Positions;
    var c1, scope := c.(asked := c.asked + 1), ScanScope(Tried(scanTo), None);
    assert RestoreScope(scanTo) == scope;
    ScanTries(h, node, master, accountIndex, Tried(scanTo), c1);
    var asks := ScanRun(h, node, master, accountIndex, scope, Never, c1).1.asked - c1.asked;
    TriesAtMost(h, master, accountIndex, Tried(scanTo),
                node.resolve(c.calls, DeriveAccount(h, master, accountIndex).tag), asks);
    Findings.ReportsTell(Progress(0, 1, 0, Tried(scanTo)), asks);
    assert Reach(scope, None) == scope.ceiling;
    assert Tries(h, master, accountIndex, Tried(scanTo),
                 node.resolve(c.calls, DeriveAccount(h, master, accountIndex).tag), asks);
  }

  lemma TriesAtMost(h: Hashes, master: Block, accountIndex: u32, tried: u32, reply: Reply, asks: nat)
    requires Tries(h, master, accountIndex, tried, reply, asks)
    ensures asks <= tried
  {
    hide DerivedAddressAt;
  }
}
