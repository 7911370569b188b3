/**
  What the invariant means: the statements about every run that the ledger and the vault
  are jointly trusted for.
 */
module Safety {
  import opened Outcomes
  import opened Arithmetic
  import opened MapSums
  import opened Model
  import opened Invariants
  import opened Ledger
  import opened Settlements
  import opened Vault
  import opened Handlers
  import opened Protocol
  import opened Runs
  import opened Exposure

  // ---- Money -------------------------------------------------------------------------------------

  /**
    After every run the vault holds all free balances of the ledger together with the payout
    that is booked but not yet executed and every credit that is on chain and not booked, be it that its
    instruction is still under way or that it was refused.
   */
  lemma VaultAlwaysCoversTheLedger(events: seq<Event>, w: World, s: System)
    requires CollisionFree(w.hash) && Run(events, w, s)
    ensures
      var b := s.durable.book;
      && s.vault.usdt0 >= Sum(b.accounts, UsdtAvailable()) + Sum(b.mandates, MandateAvailable())
                          + b.protocolReserve + b.backstopUsdt0 + Owed(s, USDT0) + UnbookedCredits(s, USDT0)
      && s.vault.fxrp >= Sum(b.accounts, FxrpHeld()) + b.backstopFxrp + Owed(s, FXRP) + UnbookedCredits(s, FXRP)
      && UnbookedCredits(s, USDT0) >= 0 && UnbookedCredits(s, FXRP) >= 0
  {
    hide HistorySound, Lockstep, ExecutedInOrder, CreditedOnce, CreditsNumbered, Backed, NetBooked, Run, Sum, Structure;
    EveryRunKeepsInv(events, w, s);
    UnbookedNonNegative(s, USDT0);
    UnbookedNonNegative(s, FXRP);
  }

  /**
    The free balances are exactly what was ever booked in less what was ever booked out:
    repayments and liquidations move nothing.
   */
  lemma NothingIsCreatedOrLost(events: seq<Event>, w: World, s: System)
    requires CollisionFree(w.hash) && Run(events, w, s)
    ensures FreeUsdt0(s.durable.book) == NetBooked(s.history, USDT0)
    ensures TotalFxrp(s.durable.book) == NetBooked(s.history, FXRP)
    ensures Sound(s.durable.book)
  {
    hide HistorySound, Lockstep, ExecutedInOrder, CreditedOnce, CreditsNumbered, Backed, Solvent, NetBooked, Run;
    hide FreeUsdt0, TotalFxrp, Sound;
    EveryRunKeepsInv(events, w, s);
  }

  /** In every reachable book, what one borrower owes one mandate stays within the mandate's cap. */
  lemma ExposureStaysCapped(events: seq<Event>, w: World, s: System, borrower: Owner, mandateId: Id)
    requires CollisionFree(w.hash) && Run(events, w, s) && mandateId in s.durable.book.mandates
    ensures Sum(s.durable.book.loans, OwedBy(borrower, mandateId)) <= s.durable.book.mandates[mandateId].cap
  {
    hide Run, NetBooked, Sound, FreeUsdt0, TotalFxrp;
    NothingIsCreatedOrLost(events, w, s);
    PerBorrowerCapHolds(s.durable.book, borrower, mandateId);
  }

  /**
    DEPOSIT, RECOVER_DEPOSIT and their retries together book each on-chain credit at most once,
    for its own account, asset and amount.
   */
  lemma CreditsAreBookedAtMostOnce(events: seq<Event>, w: World, s: System, i: nat, j: nat)
    requires CollisionFree(w.hash) && Run(events, w, s)
    requires i < |s.history| && j < |s.history| && IsCredit(s.history[i].op) && IsCredit(s.history[j].op)
    ensures s.history[i].op.operationId == s.history[j].op.operationId ==> i == j
    ensures Authentic(s.vault.credits, s.history[i].op)
  {
    hide HistorySound, Lockstep, ExecutedInOrder, MoneySound, CreditsNumbered, Run, Authentic;
    EveryRunKeepsInv(events, w, s);
  }

  // ---- Agreement -----------------------------------------------------------------------------------

  /**
    With no anchor pending, engine and vault agree; with one pending, the vault is at its previous or at its next
    state. Memory and database differ only while a thread is between writing the one and the other.
   */
  lemma EngineAndVaultInLockstep(events: seq<Event>, w: World, s: System)
    requires CollisionFree(w.hash) && Run(events, w, s)
    ensures s.work == None ==> s.memory == s.durable
    ensures
      match s.durable.pending
      case None => s.vault.sequence == s.durable.sequence && s.vault.root == s.durable.root
      case Some(p) =>
        && p.nextSequence == s.durable.sequence && p.nextRoot == s.durable.root
        && (|| (s.vault.sequence == p.previousSequence && s.vault.root == p.previousRoot)
            || (s.vault.sequence == p.nextSequence && s.vault.root == p.nextRoot))
  {
    hide ExecutedInOrder, MoneySound, CreditsNumbered, CreditedOnce, Run, Exposed, PaysSomething, Faithful, KindOf, OperationId;
    hide TermsOf;
    EveryRunKeepsInv(events, w, s);
  }

  /**
    The vault has executed exactly one settlement for each of its sequence numbers, and each
    paid, in each asset, exactly what the ledger booked out in that step.
   */
  lemma EveryStepIsPaidExactlyOnce(events: seq<Event>, w: World, s: System, i: nat, asset: Asset)
    requires CollisionFree(w.hash) && Run(events, w, s) && i < s.vault.sequence
    ensures |s.executed| == s.vault.sequence <= |s.history| == s.durable.sequence
    ensures s.executed[i].nextSequence == i + 1 && s.executed[i].nextRoot == RootAt(s.history, i + 1)
    ensures s.executed[i].terms.Pays(asset) == DebitOf(s.history[i].op, asset)
    ensures s.executed[i].terms == TermsOf(s.history[i].op, s.history[i].destination)
  {
    hide MoneySound, CreditsNumbered, CreditedOnce, Run, Exposed, PaysSomething, WorkSound, KindOf, OperationId, DebitOf;
    hide TermsOf, RootAt;
    EveryRunKeepsInv(events, w, s);
    TermsPayTheDebit(s.history[i].op, s.history[i].destination, asset);
  }

  /** Two settlements signed for the same sequence number agree on both roots and on the payout: signing again never forks. */
  lemma SigningAgainNeverForks(events: seq<Event>, w: World, s: System, x: Settlement, y: Settlement)
    requires CollisionFree(w.hash) && Run(events, w, s)
    requires x in s.signed && y in s.signed && x.nextSequence == y.nextSequence
    ensures x.previousRoot == y.previousRoot && x.nextRoot == y.nextRoot && x.terms == y.terms
  {
    hide MoneySound, CreditsNumbered, CreditedOnce, Run, Exposed, PaysSomething, WorkSound, KindOf, OperationId, TermsOf, RootAt;
    EveryRunKeepsInv(events, w, s);
  }

  /**
    The only signed settlements that can pass the vault's gate are those for the pending anchor,
    and none of them has an id that was used before.
   */
  lemma GateAdmitsOnlyThePendingAnchor(s: System, w: World, x: Settlement)
    requires Inv(s, w) && x in s.signed && x.previousSequence == s.vault.sequence
    ensures x.settlementId !in s.vault.used
    ensures |s.history| == s.vault.sequence + 1 == x.nextSequence
    ensures Advances(s.vault, x)
    ensures x.terms == TermsOf(s.history[|s.history| - 1].op, s.history[|s.history| - 1].destination)
  {
    hide MoneySound, CreditsNumbered, CreditedOnce, Exposed, PaysSomething, WorkSound, KindOf, OperationId, TermsOf;
    if x.settlementId in s.vault.used {
      assert false;
    }
  }

  /** A booked payout that is not executed yet is within the vault's balance. */
  lemma OwedIsHeld(s: System, w: World, asset: Asset)
    requires Inv(s, w)
    ensures Owed(s, asset) <= s.vault.Balance(asset)
  {
    hide HistorySound, Lockstep, ExecutedInOrder, CreditedOnce, CreditsNumbered, NetBooked, Backed, Sum, Structure;
    hide FreeUsdt0, TotalFxrp;
    FreeNonNegative(s.durable.book);
    UnbookedNonNegative(s, asset);
  }

  lemma TermsShape(op: Operation, destination: Owner)
    ensures
      var t := TermsOf(op, destination);
      && (t.settlementType == Checkpoint ==> t == NO_MONEY)
      && (t.settlementType != Checkpoint ==> t.token.Supported? && t.amount <= MAX64)
      && (t.settlementType == BorrowPayout ==> t.token == Supported(USDT0))
      && t.amount == TermsOf(op, ZERO_ADDRESS).amount && t.settlementType == TermsOf(op, ZERO_ADDRESS).settlementType
      && (t.settlementType != Checkpoint ==> t.Pays(t.token.asset) == t.amount)
  {
  }

  /** Conditions of the moment that decide whether a signed settlement goes through. */
  predicate Timely(v: VaultState, x: Settlement, now: nat, paused: bool) {
    && x.previousSequence == v.sequence
    && now <= x.deadline
    && (x.terms.settlementType != Checkpoint ==> x.terms.destination != ZERO_ADDRESS)
    && (x.terms.settlementType == BorrowPayout ==> !paused)
  }

  /**
    After every run, a signed settlement executes exactly when it is next in sequence, not
    expired, names a destination if it pays, and is not a borrow payout during a pause: neither
    its terms, nor its root, nor the vault's liquidity can ever be the reason for a refusal.
   */
  lemma SignedSettlementExecutesExactly(events: seq<Event>, w: World, s: System, x: Settlement, now: nat, paused: bool)
    requires CollisionFree(w.hash) && Run(events, w, s) && x in s.signed
    ensures Execute(s.vault, x, now, paused, true, w.self).Ok? <==> Timely(s.vault, x, now, paused)
  {
    hide Run, Inv, Execute, Timely;
    EveryRunKeepsInv(events, w, s);
    SignedInInvExecutesExactly(s, w, x, now, paused);
  }

  lemma SignedInInvExecutesExactly(s: System, w: World, x: Settlement, now: nat, paused: bool)
    requires Inv(s, w) && x in s.signed
    ensures Execute(s.vault, x, now, paused, true, w.self).Ok? <==> Timely(s.vault, x, now, paused)
  {
    hide HistorySound, WorkSound, Lockstep, MoneySound, CreditedOnce, CreditsNumbered, ExecutedInOrder, TermsOf, RootAt, DebitOf;
    if x.previousSequence == s.vault.sequence {
      GateAdmitsOnlyThePendingAnchor(s, w, x);
      PendingTermsArePayable(s, w);
    }
  }

  /** The terms of the step that the vault has still to execute pass every check but the destination's. */
  lemma PendingTermsArePayable(s: System, w: World)
    requires Inv(s, w) && s.vault.sequence < |s.history|
    ensures
      var e := s.history[|s.history| - 1];
      var t := TermsOf(e.op, e.destination);
      && (t.settlementType == Checkpoint ==> t == NO_MONEY)
      && (t.settlementType != Checkpoint ==>
            t.token.Supported? && 0 < t.amount <= MAX64 && t.amount <= s.vault.Balance(t.token.asset))
      && (t.settlementType == BorrowPayout ==> t.token == Supported(USDT0))
  {
    hide Lockstep, MoneySound, CreditedOnce, CreditsNumbered, ExecutedInOrder, TermsOf, RootAt, BookAt, DebitOf;
    hide AtEndOf, Faithful;
    var e := s.history[|s.history| - 1];
    assert PaysSomething(e.op);
    TermsShape(e.op, e.destination);
    TermsPayTheDebit(e.op, e.destination, USDT0);
    TermsPayTheDebit(e.op, e.destination, FXRP);
    OwedIsHeld(s, w, USDT0);
    OwedIsHeld(s, w, FXRP);
  }

  // ---- The handlers are steps of the protocol --------------------------------------------------------

  /** A handler's database transaction, and then the installation with the signature. */
  function AfterHandling(s: System, op: Operation, destination: Owner, account: Owner, c: Context): System {
    AfterInstalling(AfterPersisting(s, op, destination, account, c))
  }

  /** Whatever a handler returns, from the end of its wait on it has moved engine and signatures as the two steps do. */
  lemma HandledIsTwoSteps(
    s: System, after: State, signed': set<Settlement>, op: Operation, destination: Owner, account: Owner, c: Context,
    r: Result<Settlement>)
    requires s.work == None && Handled(s.memory, after, s.signed, signed', op, destination, account, c, r)
    ensures after == AfterHandling(s, op, destination, account, c).memory
    ensures signed' == AfterHandling(s, op, destination, account, c).signed
    ensures r.Ok? ==> r.value in signed' && s.memory.pending == None && after.pending.Some?
    ensures AfterHandling(s, op, destination, account, c).delivered
            == if r.Ok? && c.delivers then s.delivered + {r.value} else s.delivered
  {
    hide Apply, KindOf, OperationId, TermsOf;
  }

  /** A deposit that the vault has on record is authentic, so RECOVER_DEPOSIT books nothing that DEPOSIT would not. */
  lemma RecordIsAuthentic(s: System, w: World, account: Owner, token: Token, amount: u64, depositId: Id)
    requires Inv(s, w) && RecordAgrees(s.vault, account, token, amount, depositId)
    ensures Authentic(s.vault.credits, DepositOp(account, token.asset, amount, depositId))
  {
    hide MoneySound, CreditedOnce, HistorySound, WorkSound, Lockstep, ExecutedInOrder, Faithful, Numbered;
  }
}
