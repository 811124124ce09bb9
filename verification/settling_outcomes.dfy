/** What sending a reverted settle again comes to, arm by arm, stated over the slot, the account's
    addresses and the node's answers. */
module SettlingOutcomes {
  import opened Base
  import opened Primitives
  import opened Derivation
  import opened Accounts
  import opened Cancellation
  import opened Scan
  import opened Store
  import opened Recon
  import opened Findings
  import opened Attach
  import opened Settling

  /** Everything that is asked before the chain is: nothing reserved, a settle retained with its
      figures, and saved bytes that are that very transaction, whole and verifying. */
  ghost predicate Sendable(h: Hashes, slot: Slot, parse: Parse, saved: seq<byte>) {
    && slot.pending.None? && slot.settled.Some? && slot.settled.value.figures.Some?
    && parse(saved).Ok? && parse(saved).value.whole && parse(saved).value.digest == slot.settled.value.digest
    && Verified(h, parse(saved).value.digest, parse(saved).value.srcHash, parse(saved).value.wots).Ok?
  }

  /** The first of these that is not so, and what it is refused with. */
  ghost predicate NotSendable(e: ResubmitError, h: Hashes, slot: Slot, parse: Parse, saved: seq<byte>) {
    if slot.pending.Some? then e == ReservationOpen(slot.pending.value.spent)
    else if slot.settled.None? then e == NotARevertedSettle(NoSettleRetained)
    else if slot.settled.value.figures.None? then e == FiguresNotRecorded
    else match parse(saved)
      case Err(code) => e == SavedNotATransaction(code)
      case Ok(tx) =>
        if !tx.whole then e == SavedNotWhole
        else if tx.digest != slot.settled.value.digest then e == NotTheSettledSpend
        else
          && Verified(h, tx.digest, tx.srcHash, tx.wots).Err?
          && e == SignatureDoesNotRecover(Verified(h, tx.digest, tx.srcHash, tx.wots).error)
  }

  /** The chain is back at the key just behind, and that is the key the retained settle spent. */
  ghost predicate BackOne(slot: Slot, at: Addresses, reply: Reply) {
    var index := slot.account.index;
    && reply.Entry? && at(index).Ok? && at(index) != Ok(reply.address)
    && index > 0 && at(index - 1) == Ok(reply.address)
    && slot.settled.Some? && slot.settled.value.spent == index - 1
  }

  /** What else the chain can be, and what that is called. Only the neighbouring positions count. */
  ghost predicate NotBack(why: NotReverted, slot: Slot, at: Addresses, reply: Reply) {
    var index := slot.account.index;
    match reply
    case Failure(code) => why == if code == 4 then ChainUnresolved else ChainUnread
    case Entry(address, _) =>
      if at(index).Err? then why == Unreconcilable
      else if at(index) == Ok(address) then why == ChainInSync
      else if index > 0 && at(index - 1) == Ok(address) then why == ChainElsewhere
      else if index < 0xFFFF_FFFE && at(index + 1) == Ok(address) then why == ChainAhead
      else why == ChainElsewhere
  }

  /** Whether it is sent: back at the settled key, for the balance it was made for, before an expiry
      that can be read; and then what is sent is what was saved. */
  ghost predicate SentIf(r: Result<Submission, ResubmitError>, slot: Slot, at: Addresses, reply: Reply, tip: TipReply,
                         saved: seq<byte>)
    requires slot.settled.Some? && slot.settled.value.figures.Some?
  {
    var figures := slot.settled.value.figures.value;
    if !BackOne(slot, at, reply) then
      r.Err? && r.error.NotARevertedSettle? && NotBack(r.error.why, slot, at, reply)
    else if reply.balance != figures.reservedBalance then
      r == Err(SettledBalanceMoved(figures.reservedBalance, reply.balance))
    else if figures.blkToLive != 0 && tip.TipFailure? then r == Err(TipUnreadable(tip.code))
    else if figures.blkToLive != 0 && tip.index >= figures.blkToLive then
      r == Err(SettledExpired(figures.blkToLive, tip.index))
    else r.Ok? && r.value.wire == saved
  }

  lemma ResubmitMeans(h: Hashes, image: Image, node: Script, parse: Parse, tag: Tag, access: KeyAccess,
                      saved: seq<byte>, c: Counts)
    requires tag in image.slots
    ensures var slot := image.slots[tag];
            var (r, past) := ResubmitRun(h, Live(image), node, parse, tag, access, saved, c);
            && (r.Ok? ==> past > c.calls && r.value.reply == node.submit(past - 1, saved))
            && if Sendable(h, slot, parse, saved) then
                 SentIf(r, slot, AddressesOf(h, image, slot, access), node.resolve(c.calls, tag), node.tip(c.calls + 1),
                        saved)
               else past == c.calls && r.Err? && NotSendable(r.error, h, slot, parse, saved)
  {
    hide ReconcileRun, AddressesOf, Verified, BackOne, NotBack, RevertedBalance;
    var slot := image.slots[tag];
    var at, reply := AddressesOf(h, image, slot, access), node.resolve(c.calls, tag);
    if Sendable(h, slot, parse, saved) {
      FindingFits(h, Live(image), node, tag, access, NARROW, c);
      ReconcileCallsOnce(h, image, node, tag, access, NARROW, c);
      BalanceMeans(ReconcileRun(h, Live(image), node, tag, access, NARROW, Never, c).0, tag, slot, reply,
                   node.tip(c.calls + 1), at);
      hide Fits;
    }
  }

  /** The balance is read off the finding exactly when the chain is back one. */
  lemma BalanceMeans(r: Finding, tag: Tag, slot: Slot, reply: Reply, tip: TipReply, at: Addresses)
    requires slot.pending.None? && slot.settled.Some?
    requires Fits(r, tag, slot, reply, tip, at, NARROW)
    ensures match RevertedBalance(r, slot.settled.value)
            case Ok(balance) => BackOne(slot, at, reply) && balance == reply.balance
            case Err(why) => !BackOne(slot, at, reply) && NotBack(why, slot, at, reply)
  {
    hide FirstWalked;
    if r.Err? && r.error.IndexMismatch? {
      Neighbours(r.error.found, r.error.chainAddress, slot.account.index, at);
    }
    hide PutAt;
  }

  /** The narrow walk finds the key just behind if it is there, and else the one just ahead. */
  lemma Neighbours(found: ChainPosition, chain: Address, local: u32, at: Addresses)
    requires PutAt(found, chain, local, at, NARROW) && at(local) != Ok(chain)
    ensures var behind := local > 0 && at(local - 1) == Ok(chain);
            var ahead := local < 0xFFFF_FFFE && at(local + 1) == Ok(chain);
            && (behind ==> found == Behind(local - 1, 1))
            && (!behind && ahead ==> found == Ahead(local + 1, 1))
            && (!behind && !ahead ==> found.Unlocated?)
  {
    if local > 0 {
      assert Near(NARROW, Some(local), local - 1);
    }
    if local < 0xFFFF_FFFE {
      assert Near(NARROW, Some(local), local + 1);
    }
  }
}
