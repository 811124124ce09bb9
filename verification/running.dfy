/** Runs, running: each operation of a run is carried out by the methods of the store, the wallet and
    the rest, and the state they leave is the state the run is reasoned about with. */
module Running {
  import opened Base
  import opened Primitives
  import opened Cancellation
  import opened Store
  import opened Recon
  import opened Spending
  import opened Safety
  import Opening
  import Restore
  import Review

  /** One operation, with a node and a predicate of its own. What is set aside of an open wallet is
      returned; every other result is the caller's and is dropped here. */
  method Perform(store: Keystore, wallet: Option<seq<Divergence>>, op: Op, ghost sys: System)
    returns (wallet': Option<seq<Divergence>>)
    requires sys.store == store.Value() && sys.wallet == wallet
    modifies store
    ensures var next := Performed(store.h, store.medium, sys, op);
            store.Value() == next.store && wallet' == next.wallet
  {
    hide Made, Adopted, Added, Restore.RestoreRun, Opening.OpenRun, ReserveRun, SettleRun, Review.ReviewRun,
         GuardedAdvanceRun, PersistAdvance, PersistAdvanceTo, PersistSettled, ReserveCalls;
    wallet' := wallet;
    match op {
      case Reopen =>
        store.handle := Live(store.disk);
        wallet' := None;
      case AdoptMaster(seed) =>
        var r := store.AdoptMaster(seed);
      case AddAccount(a) =>
        var r := store.Add(a);
      case RestoreAccount(_, _, _, _, _, _) =>
        wallet' := PerformAsking(store, wallet, op, sys);
      case OpenWallet(_, _, _, _) =>
        wallet' := PerformAsking(store, wallet, op, sys);
      case ReviewAccount(_, _, _, _, _, _) =>
        wallet' := PerformAsking(store, wallet, op, sys);
      case AdvanceAcknowledged(_, _, _, _, _, _, _) =>
        wallet' := PerformAsking(store, wallet, op, sys);
      case ReserveAndSign(_, _, _) =>
        if wallet.Some? {
          PerformSpending(store, wallet.value, op, sys);
        }
      case ResignPending(_, _, _, _, _) =>
        if wallet.Some? {
          PerformSpending(store, wallet.value, op, sys);
        }
      case SettleIfLanded(_, _, _) =>
        if wallet.Some? {
          PerformSpending(store, wallet.value, op, sys);
        }
      case StoreReserve(tag, digest, figures) =>
        var r := store.DoPersistAdvance(tag, digest, figures);
      case StoreAdvance(tag, to) =>
        var r := store.DoPersistAdvanceTo(tag, to);
      case StoreSettle(tag) =>
        var r := store.DoPersistSettled(tag);
      case StoreSign(digest, receipt, access) =>
        var r := store.SignSpend(digest, receipt, access);
      case StoreResign(tag, access) =>
        var r := store.ResignReserved(tag, access);
    }
  }

  /** The operations that walk, and can be stopped. */
  method PerformAsking(store: Keystore, wallet: Option<seq<Divergence>>, op: Op, ghost sys: System)
    returns (wallet': Option<seq<Divergence>>)
    requires sys.store == store.Value() && sys.wallet == wallet
    requires op.RestoreAccount? || op.OpenWallet? || op.ReviewAccount? || op.AdvanceAcknowledged?
    modifies store
    ensures var next := Performed(store.h, store.medium, sys, op);
            store.Value() == next.store && wallet' == next.wallet
  {
    hide Made, Restore.RestoreRun, Opening.OpenRun, Review.ReviewRun, GuardedAdvanceRun;
    wallet' := wallet;
    var node, cancel := Fresh(op.node, op.stop);
    match op {
      case RestoreAccount(_, master, accountIndex, scanTo, cancellable, _) =>
        var r := Restore.RestoreAsking(store, node, master, accountIndex, scanTo, cancel, null, cancellable);
      case OpenWallet(_, secret, cancellable, _) =>
        var r := Opening.OpenAsking(store, node, secret, cancel, null, cancellable);
        wallet' := if r.Opened? then Some(r.diverged) else None;
      case ReviewAccount(_, tag, secret, to, cancellable, _) =>
        var r := Review.ReviewAsking(store, node, tag, secret, to, cancel, null, cancellable);
      case AdvanceAcknowledged(_, tag, access, ack, scope, asks, _) =>
        var direct := new Cancel(cancel.asker);
        var r := GuardedAdvance(store, node, tag, access, ack, scope, cancel, if asks then direct else null);
    }
  }

  /** The operations of an open wallet. */
  method PerformSpending(store: Keystore, diverged: seq<Divergence>, op: Op, ghost sys: System)
    requires sys.store == store.Value() && sys.wallet == Some(diverged)
    requires op.ReserveAndSign? || op.ResignPending? || op.SettleIfLanded?
    modifies store
    ensures store.Value() == Performed(store.h, store.medium, sys, op).store
  {
    hide Made, ReserveRun, SettleRun, ReserveCalls;
    var open := WalletOver(store, op.node, diverged);
    match op {
      case ReserveAndSign(_, plan, access) =>
        var r := open.ReserveAndSign(plan, access);
      case ResignPending(_, tag, access, draft, blkToLive) =>
        var r := open.ResignPending(tag, access, draft, blkToLive);
      case SettleIfLanded(_, tag, access) =>
        var r := open.SettleIfLanded(tag, access);
    }
  }

  method Fresh(script: Script, stop: nat -> bool) returns (node: Node, cancel: Cancel)
    ensures fresh(node) && fresh(cancel) && fresh(cancel.asker)
    ensures node.script == script && node.calls == 0
    ensures cancel.observer == null && !cancel.remembers && cancel.Stops() == stop && cancel.Asked() == 0
  {
    node := new Node(script);
    var asker := new Predicate(stop);
    cancel := new Cancel(asker);
  }

  method WalletOver(store: Keystore, script: Script, diverged: seq<Divergence>) returns (open: Wallet)
    ensures fresh(open) && fresh(open.node)
    ensures open.store == store && open.node.script == script && open.node.calls == 0 && open.diverged == diverged
  {
    var node := new Node(script);
    open := new Wallet(store, node, [], diverged);
  }

  /** A whole run. */
  method PerformAll(store: Keystore, ops: seq<Op>, ghost signed: set<Signing>)
    returns (wallet: Option<seq<Divergence>>)
    modifies store
    ensures var end := RunOf(store.h, store.medium, System(old(store.Value()), None, signed), ops);
            store.Value() == end.store && wallet == end.wallet
  {
    wallet := None;
    ghost var sys := System(store.Value(), None, signed);
    ghost var start := sys;
    assert ops[0..] == ops;
    var i := 0;
    while i < |ops|
      invariant 0 <= i <= |ops|
      invariant sys.store == store.Value() && sys.wallet == wallet
      invariant RunOf(store.h, store.medium, sys, ops[i..]) == RunOf(store.h, store.medium, start, ops)
    {
      hide Performed;
      assert ops[i..][1..] == ops[i + 1..];
      wallet := Perform(store, wallet, ops[i], sys);
      sys := Performed(store.h, store.medium, sys, ops[i]);
      i := i + 1;
    }
  }
}
