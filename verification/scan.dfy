/** The positions a scan walks, and the walk (`recon.rs`). */
module Scan {
  import opened Base
  import opened Derivation
  import opened Accounts
  import opened Cancellation

  const RECOVERY_CEILING := 10_000
  const DIVERGENCE_WINDOW := 20

  datatype ScanScope = ScanScope(ceiling: u32, window: Option<u32>)

  const RESTORE := ScanScope(RECOVERY_CEILING, None)
  const DIAGNOSTIC := ScanScope(RECOVERY_CEILING, Some(DIVERGENCE_WINDOW))

  function SaturatingAdd32(a: u32, b: u32): u32 { Min(a as int + b as int, U32_MAX) }

  /** The inclusive edges of the window; the high one stops short of the last position. */
  function WindowEdges(scope: ScanScope, local: Option<u32>): Option<(u32, u32)> {
    if scope.window.Some? && local.Some? then
      Some((SaturatingSub(local.value, scope.window.value),
            Min(SaturatingAdd32(local.value, scope.window.value), U32_MAX - 1)))
    else None
  }

  function InWindow(edges: Option<(u32, u32)>, p: nat): bool {
    edges.Some? && edges.value.0 <= p <= edges.value.1
  }

  function Window(edges: Option<(u32, u32)>): (ps: seq<u32>)
  {
    if edges.Some? && edges.value.0 <= edges.value.1 then
      seq(edges.value.1 - edges.value.0 + 1, k requires 0 <= k <= edges.value.1 - edges.value.0 => edges.value.0 + k)
    else []
  }

  /** The first `n` positions, ascending, without those the window already covered. */
  function Rest(edges: Option<(u32, u32)>, n: u32): seq<u32>
    decreases n
  {
    if n == 0 then []
    else Rest(edges, n - 1) + (if InWindow(edges, n - 1) then [] else [n - 1])
  }

  function Positions(scope: ScanScope, local: Option<u32>): seq<u32> {
    var edges := WindowEdges(scope, local);
    Window(edges) + Rest(edges, scope.ceiling)
  }

  /** How many positions a walk can reach, counted without walking. */
  function Reach(scope: ScanScope, local: Option<u32>): u32 {
    Min(ReachTotal(scope, local), U32_MAX)
  }

  function ReachTotal(scope: ScanScope, local: Option<u32>): nat {
    match WindowEdges(scope, local)
    case None => scope.ceiling
    case Some((lo, hi)) =>
      var window := SaturatingSub(hi as int + 1, lo);
      var shared := if scope.ceiling == 0 then 0 else SaturatingSub(Min(hi, scope.ceiling - 1) + 1, lo);
      assert shared <= window && shared <= scope.ceiling;
      window + scope.ceiling - shared
  }

  // ----- what is walked -----

  lemma {:induction false} RestEnumerates(edges: Option<(u32, u32)>, n: u32)
    ensures forall p: u32 :: p in Rest(edges, n) <==> p < n && !InWindow(edges, p)
    ensures forall i, j :: 0 <= i < j < |Rest(edges, n)| ==> Rest(edges, n)[i] < Rest(edges, n)[j]
    decreases n
  {
    if n == 0 {
    } else {
      RestEnumerates(edges, n - 1);
      var init := Rest(edges, n - 1);
      assert forall i :: 0 <= i < |init| ==> init[i] in init;
    }
  }

  lemma WindowEnumerates(edges: Option<(u32, u32)>)
    ensures forall p: u32 :: p in Window(edges) <==> InWindow(edges, p)
    ensures forall i, j :: 0 <= i < j < |Window(edges)| ==> Window(edges)[i] < Window(edges)[j]
  {
    var w := Window(edges);
    forall p: u32 | InWindow(edges, p) ensures p in w {
      assert w[p - edges.value.0] == p;
    }
  }

  /** A scan walks each position of the window and of the range below the ceiling exactly once,
      and never the last position, which an account could not spend from. */
  lemma PositionsEnumerate(scope: ScanScope, local: Option<u32>)
    ensures forall p: u32 :: p in Positions(scope, local) <==>
              InWindow(WindowEdges(scope, local), p) || p < scope.ceiling
    ensures forall i, j :: 0 <= i < j < |Positions(scope, local)| ==>
              Positions(scope, local)[i] != Positions(scope, local)[j]
    ensures U32_MAX !in Positions(scope, local)
  {
    var edges := WindowEdges(scope, local);
    var w, r := Window(edges), Rest(edges, scope.ceiling);
    WindowEnumerates(edges);
    RestEnumerates(edges, scope.ceiling);
    var ps := Positions(scope, local);
    forall i, j | 0 <= i < j < |ps| ensures ps[i] != ps[j] {
      if i < |w| <= j {
        assert w[i] in w && r[j - |w|] in r;
      }
    }
  }

  /** The position is in the window around the local index, which stops short of the last one. */
  ghost predicate Near(scope: ScanScope, local: Option<u32>, p: int) {
    scope.window.Some? && local.Some? && local.value - scope.window.value <= p <= local.value + scope.window.value
    && p < 0xFFFF_FFFF
  }

  /** What is walked, and in what order: everything within the window of the local index, upwards,
      and then the rest of what lies below the ceiling, upwards. */
  lemma PositionsAre(scope: ScanScope, local: Option<u32>)
    ensures forall p: u32 :: p in Positions(scope, local) <==> Near(scope, local, p) || p < scope.ceiling
    ensures var ps := Positions(scope, local);
            forall i, j :: 0 <= i < j < |ps| ==>
              if Near(scope, local, ps[i]) == Near(scope, local, ps[j]) then ps[i] < ps[j]
              else Near(scope, local, ps[i])
  {
    var edges := WindowEdges(scope, local);
    var w, r := Window(edges), Rest(edges, scope.ceiling);
    WindowEnumerates(edges);
    RestEnumerates(edges, scope.ceiling);
    forall p: u32 ensures InWindow(edges, p) <==> Near(scope, local, p) {
    }
    var ps := Positions(scope, local);
    forall i, j | 0 <= i < j < |ps|
      ensures if Near(scope, local, ps[i]) == Near(scope, local, ps[j]) then ps[i] < ps[j]
              else Near(scope, local, ps[i])
    {
      if i < |w| {
        assert w[i] in w;
      } else {
        assert r[i - |w|] in r;
      }
      if j < |w| {
        assert w[j] in w;
      } else {
        assert r[j - |w|] in r;
      }
    }
    hide Window, Rest;
  }

  lemma {:induction false} RestLength(edges: Option<(u32, u32)>, n: u32)
    ensures edges.None? ==> |Rest(edges, n)| == n
    ensures edges.Some? ==> var (lo, hi) := edges.value;
              |Rest(edges, n)| == n - (if n == 0 then 0 else SaturatingSub(Min(hi, n - 1) + 1, lo))
    decreases n
  {
    if n == 0 {
    } else {
      RestLength(edges, n - 1);
    }
  }

  /** The count is the number of positions, for every scope and every index, and the clamp that
      guards it never fires. */
  lemma ReachCounts(scope: ScanScope, local: Option<u32>)
    ensures Reach(scope, local) == |Positions(scope, local)|
    ensures ReachTotal(scope, local) <= U32_MAX
  {
    RestLength(WindowEdges(scope, local), scope.ceiling);
  }

  // ----- the walk -----

  datatype WalkError = WalkCancelled | WalkDerivation(cause: KeyError)

  datatype WalkResult = Found(position: u32) | NotFound | Failed(at: u32, cause: WalkError)

  type Addresses = u32 -> Result<Address, KeyError>

  /** Ask, then derive, then compare, position by position. With the number of askings so far. */
  function WalkRun(target: Address, ps: seq<u32>, addresses: Addresses, stop: nat -> bool,
                   asked: nat): (WalkResult, nat)
    decreases |ps|
  {
    if ps == [] then (NotFound, asked)
    else if stop(asked) then (Failed(ps[0], WalkCancelled), asked + 1)
    else match addresses(ps[0])
      case Err(e) => (Failed(ps[0], WalkDerivation(e)), asked + 1)
      case Ok(a) =>
        if a == target then (Found(ps[0]), asked + 1)
        else WalkRun(target, ps[1..], addresses, stop, asked + 1)
  }

  method Walk(target: Address, scope: ScanScope, local: Option<u32>, addresses: Addresses, cancel: Cancel)
    returns (r: WalkResult)
    modifies cancel, cancel.asker, cancel.observer
    ensures var run := WalkRun(target, Positions(scope, local), addresses, cancel.Stops(), old(cancel.Asked()));
            && r == run.0
            && cancel.Asked() == run.1
    ensures old(cancel.Asked()) <= cancel.Asked()
    ensures cancel.observer != null ==>
              cancel.Told(old(cancel.observer.reports), old(cancel.reached), cancel.Asked() - old(cancel.Asked()))
    ensures cancel.saidStop ==
              (old(cancel.saidStop) || (cancel.remembers && r.Failed? && r.cause.WalkCancelled?))
  {
    hide Positions, Reports, Reached;
    var ps := Positions(scope, local);
    ghost var r0 := cancel.reached;
    ReportsOneMore(cancel.at, r0, 0);
    var i := 0;
    while i < |ps|
      invariant 0 <= i <= |ps|
      invariant WalkRun(target, ps[i..], addresses, cancel.Stops(), cancel.Asked())
             == WalkRun(target, ps, addresses, cancel.Stops(), old(cancel.Asked()))
      invariant old(cancel.Asked()) <= cancel.Asked()
      invariant cancel.observer != null ==>
                  cancel.Told(old(cancel.observer.reports), old(cancel.reached), cancel.Asked() - old(cancel.Asked()))
      invariant cancel.saidStop == old(cancel.saidStop)
    {
      assert ps[i..][1..] == ps[i + 1..];
      ReportsOneMore(cancel.at, r0, cancel.Asked() - old(cancel.Asked()));
      var stopped := cancel.Stop();
      if stopped {
        return Failed(ps[i], WalkCancelled);
      }
      var a := addresses(ps[i]);
      if a.Err? {
        return Failed(ps[i], WalkDerivation(a.error));
      }
      if a.value == target {
        return Found(ps[i]);
      }
      i := i + 1;
    }
    return NotFound;
  }

  /** The walk reports the first position, in its order, whose address is the target. */
  lemma {:induction false} WalkFindsTheFirst(target: Address, ps: seq<u32>, addresses: Addresses, asked: nat)
    requires forall i :: 0 <= i < |ps| ==> addresses(ps[i]).Ok?
    ensures var r := WalkRun(target, ps, addresses, Never, asked).0;
            && !r.Failed?
            && (r == NotFound <==> forall i :: 0 <= i < |ps| ==> addresses(ps[i]) != Ok(target))
            && (r.Found? ==> exists i :: 0 <= i < |ps| && ps[i] == r.position && addresses(ps[i]) == Ok(target)
                               && forall j :: 0 <= j < i ==> addresses(ps[j]) != Ok(target))
    decreases |ps|
  {
    if ps == [] {
    } else {
      WalkFindsTheFirst(target, ps[1..], addresses, asked + 1);
      var r := WalkRun(target, ps, addresses, Never, asked).0;
      if addresses(ps[0]) != Ok(target) && r.Found? {
        var i :| 0 <= i < |ps| - 1 && ps[1..][i] == r.position && addresses(ps[1..][i]) == Ok(target)
                 && forall j :: 0 <= j < i ==> addresses(ps[1..][j]) != Ok(target);
        assert ps[i + 1] == r.position;
        forall j | 0 <= j < i + 1 ensures addresses(ps[j]) != Ok(target) {
          if j > 0 {
            assert ps[j] == ps[1..][j - 1];
          }
        }
      }
    }
  }

  /** So over a whole scope: nothing is found exactly when no walked position reproduces the
      target, whatever order they are walked in. */
  lemma WalkIsComplete(target: Address, scope: ScanScope, local: Option<u32>, addresses: Addresses, asked: nat)
    requires forall p: u32 :: addresses(p).Ok?
    ensures var r := WalkRun(target, Positions(scope, local), addresses, Never, asked).0;
            && (r == NotFound <==>
                forall p: u32 ::
                  (InWindow(WindowEdges(scope, local), p) || p < scope.ceiling) ==> addresses(p) != Ok(target))
            && (r.Found? ==> addresses(r.position) == Ok(target)
                             && (InWindow(WindowEdges(scope, local), r.position) || r.position < scope.ceiling))
  {
    var ps := Positions(scope, local);
    PositionsEnumerate(scope, local);
    WalkFindsTheFirst(target, ps, addresses, asked);
    var r := WalkRun(target, ps, addresses, Never, asked).0;
    if r == NotFound {
      forall p: u32 | p in ps ensures addresses(p) != Ok(target) {
        var i :| 0 <= i < |ps| && ps[i] == p;
      }
    }
  }

  /** A position the walk goes past: asked about without a stop, derived, and not the target. */
  ghost predicate GoesPast(target: Address, addresses: Addresses, stop: nat -> bool, asked: nat, p: u32) {
    !stop(asked) && addresses(p).Ok? && addresses(p) != Ok(target)
  }

  /** Where a walk ends is where its last asking was: there the predicate said stop, or the key was
      refused, or the address matched; and at no earlier position any of these. */
  lemma {:induction false} WalkEndsWhereItSays(target: Address, ps: seq<u32>, addresses: Addresses, stop: nat -> bool,
                                               asked: nat)
    ensures var (r, past) := WalkRun(target, ps, addresses, stop, asked);
            && asked <= past <= asked + |ps|
            && (forall k :: 0 <= k < past - asked - 1 ==> GoesPast(target, addresses, stop, asked + k, ps[k]))
            && (r != NotFound ==>
                  && past > asked
                  && var p := ps[past - asked - 1];
                     match r
                     case Failed(at, WalkCancelled) => at == p && stop(past - 1)
                     case Failed(at, WalkDerivation(e)) => at == p && !stop(past - 1) && addresses(p) == Err(e)
                     case Found(position) => position == p && !stop(past - 1) && addresses(p) == Ok(target))
            && (r == NotFound ==>
                  && past == asked + |ps|
                  && (|ps| > 0 ==> GoesPast(target, addresses, stop, past - 1, ps[|ps| - 1])))
    decreases |ps|
  {
    if ps == [] || stop(asked) || addresses(ps[0]).Err? || addresses(ps[0]) == Ok(target) {
    } else {
      WalkEndsWhereItSays(target, ps[1..], addresses, stop, asked + 1);
      var past := WalkRun(target, ps, addresses, stop, asked).1;
      assert GoesPast(target, addresses, stop, asked, ps[0]);
      hide WalkRun, GoesPast;
      forall k | 0 <= k < past - asked - 1
        ensures GoesPast(target, addresses, stop, asked + k, ps[k])
      {
        if k > 0 {
          var j := k - 1;
          assert ps[1..][j] == ps[k];
          assert GoesPast(target, addresses, stop, asked + 1 + j, ps[1..][j]);
        }
      }
    }
  }

  /** A walk ends as cancelled exactly when one of its own askings was answered stop, and
      otherwise ends as it would have with nobody to ask. */
  lemma {:induction false} WalkTransparent(target: Address, ps: seq<u32>, addresses: Addresses, stop: nat -> bool,
                                           asked: nat)
    ensures var (r, past) := WalkRun(target, ps, addresses, stop, asked);
            && asked <= past
            && (SaidStop(stop, asked, past) <==> r.Failed? && r.cause.WalkCancelled?)
            && (!SaidStop(stop, asked, past) ==> (r, past) == WalkRun(target, ps, addresses, Never, asked))
    decreases |ps|
  {
    if ps == [] || stop(asked) {
    } else {
      WalkTransparent(target, ps[1..], addresses, stop, asked + 1);
      var past := WalkRun(target, ps, addresses, stop, asked).1;
      SaidStopSplits(stop, asked, asked + 1, past);
    }
  }

  /** A walk asks once for each position it comes to, so no more often than it could reach, and its
      observer is never told of a position past the number it was promised. */
  lemma {:induction false} WalkAsksAtMost(target: Address, ps: seq<u32>, addresses: Addresses, stop: nat -> bool,
                                          asked: nat)
    ensures asked <= WalkRun(target, ps, addresses, stop, asked).1 <= asked + |ps|
    decreases |ps|
  {
    if ps == [] {
    } else {
      WalkAsksAtMost(target, ps[1..], addresses, stop, asked + 1);
    }
  }

  // ----- where the chain sits -----

  datatype StoppedBy = ByDerivation | ByCancel

  datatype Stopped = Stopped(at: u32, cause: StoppedBy)

  datatype ChainPosition =
    | Ahead(index: u32, gap: u32)
    | Behind(index: u32, gap: u32)
    | Unlocated(local: u32, scope: ScanScope, stopped: Option<Stopped>)

  function Located(r: WalkResult, local: u32, scope: ScanScope): ChainPosition {
    match r
    case Found(i) => if i > local then Ahead(i, i - local) else Behind(i, local - i)
    case NotFound => Unlocated(local, scope, None)
    case Failed(at, WalkCancelled) => Unlocated(local, scope, Some(Stopped(at, ByCancel)))
    case Failed(at, WalkDerivation(_)) => Unlocated(local, scope, Some(Stopped(at, ByDerivation)))
  }

  function LocateRun(chain: Address, local: u32, scope: ScanScope, addresses: Addresses, stop: nat -> bool, asked: nat)
    : (ChainPosition, nat)
  {
    var (r, past) := WalkRun(chain, Positions(scope, Some(local)), addresses, stop, asked);
    (Located(r, local, scope), past)
  }

  ghost predicate StoppedByCancel(found: ChainPosition) {
    found.Unlocated? && found.stopped.Some? && found.stopped.value.cause == ByCancel
  }

  method Locate(chain: Address, local: u32, scope: ScanScope, addresses: Addresses, cancel: Cancel)
    returns (found: ChainPosition)
    modifies cancel, cancel.asker, cancel.observer
    ensures var run := LocateRun(chain, local, scope, addresses, cancel.Stops(), old(cancel.Asked()));
            && found == run.0
            && cancel.Asked() == run.1
    ensures old(cancel.Asked()) <= cancel.Asked()
    ensures cancel.observer != null ==>
              cancel.Told(old(cancel.observer.reports), old(cancel.reached), cancel.Asked() - old(cancel.Asked()))
    ensures cancel.saidStop == (old(cancel.saidStop) || (cancel.remembers && StoppedByCancel(found)))
  {
    var r := Walk(chain, scope, Some(local), addresses, cancel);
    found := Located(r, local, scope);
  }

  lemma LocateTransparent(chain: Address, local: u32, scope: ScanScope, addresses: Addresses, stop: nat -> bool,
                          asked: nat)
    ensures var (found, past) := LocateRun(chain, local, scope, addresses, stop, asked);
            && asked <= past
            && (SaidStop(stop, asked, past) <==> StoppedByCancel(found))
            && (!SaidStop(stop, asked, past) ==>
                  (found, past) == LocateRun(chain, local, scope, addresses, Never, asked))
  {
    WalkTransparent(chain, Positions(scope, Some(local)), addresses, stop, asked);
  }

  /** A walk that is stopped places the chain nowhere, and says at which position it was stopped: the
      last it asked about. */
  lemma LocateStops(chain: Address, local: u32, scope: ScanScope, at: Addresses, stop: nat -> bool, asked: nat)
    ensures var (found, past) := LocateRun(chain, local, scope, at, stop, asked);
            var ps := Positions(scope, Some(local));
            StoppedByCancel(found) ==>
              && asked < past <= asked + |ps|
              && found == Unlocated(local, scope, Some(Stopped(ps[past - asked - 1], ByCancel)))
  {
    WalkEndsWhereItSays(chain, Positions(scope, Some(local)), at, stop, asked);
    hide WalkRun, Positions, GoesPast;
  }

  /** The walk comes to `q` before it comes to `p`. */
  ghost predicate Before(scope: ScanScope, local: Option<u32>, q: u32, p: u32) {
    if Near(scope, local, p) then Near(scope, local, q) && q < p else Near(scope, local, q) || q < p
  }

  /** The first position the walk comes to that has the address. */
  ghost predicate FirstWalked(scope: ScanScope, local: Option<u32>, at: Addresses, target: Address, p: u32) {
    && (Near(scope, local, p) || p < scope.ceiling) && at(p) == Ok(target)
    && forall q: u32 :: Before(scope, local, q, p) ==> at(q) != Ok(target)
  }

  /** Where the chain is put: at the first walked position that has its address, ahead of the local
      index or not, by the difference; and nowhere only if no walked position has it. */
  ghost predicate PutAt(found: ChainPosition, chain: Address, local: u32, at: Addresses, scope: ScanScope) {
    match found
    case Ahead(i, gap) => i > local && gap == i - local && FirstWalked(scope, Some(local), at, chain, i)
    case Behind(i, gap) => i <= local && gap == local - i && FirstWalked(scope, Some(local), at, chain, i)
    case Unlocated(l, s, stopped) =>
      && l == local && s == scope && stopped == None
      && forall p: u32 :: Near(scope, Some(local), p) || p < scope.ceiling ==> at(p) != Ok(chain)
  }

  lemma ComesBefore(scope: ScanScope, local: Option<u32>, k: nat, q: u32)
    requires k < |Positions(scope, local)| && Before(scope, local, q, Positions(scope, local)[k])
    ensures exists j :: 0 <= j < k && Positions(scope, local)[j] == q
  {
    hide Positions, Near;
    PositionsAre(scope, local);
    var ps := Positions(scope, local);
    assert ps[k] in ps && q in ps;
    var j :| 0 <= j < |ps| && ps[j] == q;
    if k <= j {
      assert false;
    }
  }

  lemma WalkMeans(target: Address, scope: ScanScope, local: Option<u32>, at: Addresses, asked: nat)
    requires forall p: u32 :: at(p).Ok?
    ensures match WalkRun(target, Positions(scope, local), at, Never, asked).0
            case Found(p) => FirstWalked(scope, local, at, target, p)
            case NotFound => forall p: u32 :: Near(scope, local, p) || p < scope.ceiling ==> at(p) != Ok(target)
            case Failed(_, _) => false
  {
    hide Positions, Near, WalkRun, Before;
    var ps := Positions(scope, local);
    WalkFindsTheFirst(target, ps, at, asked);
    PositionsAre(scope, local);
    var r := WalkRun(target, ps, at, Never, asked).0;
    if r.Found? {
      var k :| 0 <= k < |ps| && ps[k] == r.position && at(ps[k]) == Ok(target)
               && forall j :: 0 <= j < k ==> at(ps[j]) != Ok(target);
      assert ps[k] in ps;
      forall q: u32 | Before(scope, local, q, r.position) ensures at(q) != Ok(target) {
        ComesBefore(scope, local, k, q);
      }
    }
  }

  lemma LocateMeans(chain: Address, local: u32, scope: ScanScope, at: Addresses, asked: nat)
    requires forall p: u32 :: at(p).Ok?
    ensures PutAt(LocateRun(chain, local, scope, at, Never, asked).0, chain, local, at, scope)
  {
    hide Positions, Near, WalkRun, FirstWalked;
    WalkMeans(chain, scope, Some(local), at, asked);
  }
}
