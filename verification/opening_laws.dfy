/** What opening a wallet promises of its two lists: every account is in the one its own
    reconciliation puts it in, and what is said of it is what the node answered about it. */
module OpeningLaws {
  import opened Base
  import opened Primitives
  import opened Derivation
  import opened Accounts
  import opened Cancellation
  import opened Scan
  import opened Store
  import opened Recon
  import opened Findings
  import opened Opening

  /** Every account is walked in the window of twenty positions around its own, and below ten
      thousand. */
  ghost function Usual(t: Tag): ScanScope { ScanScope(10_000, Some(20)) }

  lemma StepFiles(h: Hashes, handle: Handle, node: Script, tag: Tag, master: Option<Block>, pass: Pass)
    requires pass.Going?
    ensures var (r, c') := ReconcileNext(h, handle, node, tag, master, Usual(tag), Never,
                                         pass.c.(asked := pass.c.asked + 1));
            Step(h, handle, node, tag, master, false, Never, pass)
            == if r.Ok? then Going(pass.ok + [(tag, r.value)], pass.diverged, c')
               else Going(pass.ok, pass.diverged + [r.error], c')
  {
    hide ReconcileNext;
  }

  lemma {:induction false} PassFiles(h: Hashes, handle: Handle, node: Script, tags: seq<Tag>, master: Option<Block>,
                                     pass: Pass)
    requires pass.Going?
    ensures var found := FindingsOf(h, handle, node, tags, master, Usual, pass.c);
            && |found| == |tags|
            && Passed(h, handle, node, tags, master, false, Never, pass)
               == Going(pass.ok + Kept(tags, found), pass.diverged + SetAside(found),
                        CountsAfter(h, handle, node, tags, master, Usual, pass.c))
    decreases |tags|
  {
    hide ReconcileNext, Step, Kept, SetAside;
    if tags == [] {
      FiledNone();
    } else {
      var (r, c') := ReconcileNext(h, handle, node, tags[0], master, Usual(tags[0]), Never,
                                   pass.c.(asked := pass.c.asked + 1));
      StepFiles(h, handle, node, tags[0], master, pass);
      PassFiles(h, handle, node, tags[1..], master, Step(h, handle, node, tags[0], master, false, Never, pass));
      FiledFirst(tags, r, FindingsOf(h, handle, node, tags[1..], master, Usual, c'), pass.ok, pass.diverged);
    }
  }

  /** Opening a wallet is reconciling each account once, in the store's order. Those that agree are
      listed with what was found; the others are set aside with what was found; and the wallet is
      refused only with all of them set aside. */
  lemma OpenFiles(h: Hashes, image: Image, node: Script, master: Option<Block>, c: Counts)
    ensures var found := FindingsOf(h, Live(image), node, image.order, master, Usual, c);
            && |found| == |image.order|
            && var (agreed, aside) := (Kept(image.order, found), SetAside(found));
               OpenRun(h, Live(image), node, master, false, Never, c)
               == (if agreed == [] && aside != [] then Unopened(Refused(aside)) else Opened(agreed, aside),
                   CountsAfter(h, Live(image), node, image.order, master, Usual, c))
  {
    hide FindingsOf, Passed, CountsAfter;
    PassFiles(h, Live(image), node, image.order, master, Going([], [], c));
    var found := FindingsOf(h, Live(image), node, image.order, master, Usual, c);
    assert [] + Kept(image.order, found) == Kept(image.order, found);
    assert [] + SetAside(found) == SetAside(found);
  }

  lemma {:induction false} PassTells(h: Hashes, handle: Handle, node: Script, tags: seq<Tag>, n: nat, of: nat,
                                     master: Option<Block>, pass: Pass)
    requires pass.Going?
    ensures PassReports(h, handle, node, tags, n, of, master, false, Never, pass)
         == ToldOf(h, handle, node, tags, n, of, master, Usual, pass.c)
    decreases |tags|
  {
    hide ReconcileNext, Step, NextReports;
    if tags == [] {
    } else {
      StepFiles(h, handle, node, tags[0], master, pass);
      PassTells(h, handle, node, tags[1..], n + 1, of, master,
                Step(h, handle, node, tags[0], master, false, Never, pass));
    }
  }

  /** An observer of the opening is told of each account in turn, by its number. */
  lemma OpenTells(h: Hashes, image: Image, node: Script, master: Option<Block>, c: Counts)
    ensures OpenReports(h, Live(image), node, master, false, Never, c)
         == ToldOf(h, Live(image), node, image.order, 0, |image.order|, master, Usual, c)
  {
    hide PassReports, ToldOf;
    PassTells(h, Live(image), node, image.order, 0, |image.order|, master, Going([], [], c));
  }

  /** The account was found so, on an answer the node gave about it during this opening. */
  ghost predicate FoundSo(h: Hashes, image: Image, node: Script, tag: Tag, master: Option<Block>, r: Finding, c: Counts,
                          past: nat)
  {
    && tag in image.order && tag in image.slots
    && Answered(h, image, node, tag, master, ScanScope(10_000, Some(20)), r, c.calls, past)
  }

  /** So nothing is listed as agreeing, and nothing set aside, that the node's own answer about that
      account did not put there; and a refusal sets aside every account there is. */
  lemma OpenedAsAnswered(h: Hashes, image: Image, node: Script, master: Option<Block>, c: Counts)
    requires forall t :: t in image.order ==> t in image.slots
    ensures var (r, c') := OpenRun(h, Live(image), node, master, false, Never, c);
            match r
            case Opened(accounts, diverged) =>
              && (forall e :: e in accounts ==> FoundSo(h, image, node, e.0, master, Ok(e.1), c, c'.calls))
              && (forall d :: d in diverged ==> FoundSo(h, image, node, d.tag, master, Err(d), c, c'.calls))
            case Unopened(Cancelled) => false
            case Unopened(Refused(diverged)) =>
              && |diverged| == |image.order| > 0
              && (forall d :: d in diverged ==> FoundSo(h, image, node, d.tag, master, Err(d), c, c'.calls))
  {
    hide FindingsOf, CountsAfter, Answered, OpenRun, Kept, SetAside;
    OpenFiles(h, image, node, master, c);
    FindingsAnswered(h, image, node, image.order, master, Usual, c);
    var found := FindingsOf(h, Live(image), node, image.order, master, Usual, c);
    KeptMeans(image.order, found);
    SetAsideMeans(found);
    FiledOnce(image.order, found);
  }

  /** In particular an account listed as in sync has nothing reserved, and the node gave the address
      at its own stored index; one listed with a spend outstanding or landed has that key reserved,
      and the node gave that key's address, or its change key's and not that key's. */
  lemma ListedMeans(h: Hashes, image: Image, node: Script, master: Option<Block>, c: Counts, tag: Tag,
                    status: AccountStatus)
    requires forall t :: t in image.order ==> t in image.slots
    requires var r := OpenRun(h, Live(image), node, master, false, Never, c).0;
             r.Opened? && (tag, status) in r.accounts
    ensures tag in image.slots && (image.slots[tag].account.key.Imported? || master.Some?)
    ensures var past := OpenRun(h, Live(image), node, master, false, Never, c).1.calls;
            var slot, own := image.slots[tag], OwnAddresses(h, image, tag, master);
            match status
            case InSync(i, a, b) =>
              && slot.pending.None? && i == slot.account.index && own(i) == Ok(a)
              && exists call :: c.calls <= call < past && node.resolve(call, tag) == Entry(a, b)
            case SpendOutstanding(spent, b, reservation) =>
              && slot.pending.Some? && spent == slot.pending.value.spent && own(spent).Ok?
              && exists call :: c.calls <= call < past && node.resolve(call, tag) == Entry(own(spent).value, b)
                                && RecordIs(reservation, slot.pending.value.figures, b, node.tip(call + 1))
            case SpendLanded(spent, i, b) =>
              && slot.pending.Some? && spent == slot.pending.value.spent && i == slot.account.index
              && own(i).Ok? && own(spent).Ok? && own(spent) != own(i)
              && exists call :: c.calls <= call < past && node.resolve(call, tag) == Entry(own(i).value, b)
  {
    hide OpenRun, OwnAddresses, RecordIs;
    OpenedAsAnswered(h, image, node, master, c);
    var (r, c') := OpenRun(h, Live(image), node, master, false, Never, c);
    assert FoundSo(h, image, node, (tag, status).0, master, Ok((tag, status).1), c, c'.calls);
    var call :| c.calls <= call < c'.calls
                && Fits(Ok(status), tag, image.slots[tag], node.resolve(call, tag), node.tip(call + 1),
                        OwnAddresses(h, image, tag, master), ScanScope(10_000, Some(20)));
  }

  /** A handle that failed before refuses the wallet at once, under no account's tag. */
  lemma DeadIsRefused(h: Hashes, first: Error, node: Script, master: Option<Block>, cancellable: bool,
                      stop: nat -> bool, c: Counts)
    ensures var (r, c') := OpenRun(h, Dead(first), node, master, cancellable, stop, c);
            && c' == c && r.Unopened? && r.why.Refused?
            && |r.why.cause| == 1 && r.why.cause[0].CannotReconcile? && r.why.cause[0].cause == Poisoned(first)
            && forall i :: 0 <= i < 20 ==> r.why.cause[0].tag[i] == 0
  {
  }
}
