/**
  Every event keeps the protocol's invariant, so it holds after every run.
 */
module Runs {
  import opened Outcomes
  import opened Arithmetic
  import opened MapSums
  import opened Model
  import opened Matching
  import opened Operations
  import opened Invariants
  import opened Lending
  import opened Ledger
  import opened Settlements
  import opened Vault
  import opened Handlers
  import opened Protocol

  lemma NothingBookedIsSound(s: System)
    requires Sound(s.durable.book) && FreeUsdt0(s.durable.book) == TotalFxrp(s.durable.book) == s.durable.book.activeDebt == 0
    requires s.vault.credits == map[] && s.history == []
    ensures MoneySound(s)
  {
    hide Sound, FreeUsdt0, TotalFxrp, Sum, UnbookedCredits, CumulativeCredits;
    EmptyCredits(s, USDT0);
    EmptyCredits(s, FXRP);
  }

  lemma EmptyCredits(s: System, asset: Asset)
    requires s.vault.credits == map[]
    ensures UnbookedCredits(s, asset) == CumulativeCredits(s.vault, asset) == 0
  {
  }

  lemma StartIsSound(w: World)
    ensures Inv(START, w)
  {
    hide MoneySound, Sound, FreeUsdt0, TotalFxrp;
    NewBookSound();
    NothingBookedIsSound(START);
  }

  // ---- Credits on chain --------------------------------------------------------------------------

  /** Booked credits are credits of the vault, so a fresh one is not among them. */
  lemma BookedAreCredits(s: System, id: Id)
    requires CreditedOnce(s) && id in BookedIds(s.history)
    ensures id in s.vault.credits && id in s.durable.book.processed
  {
    var i :| 0 <= i < |s.history| && IsCredit(s.history[i].op) && s.history[i].op.operationId == id;
    assert Authentic(s.vault.credits, s.history[i].op);
    assert Marks(s.history[i].op) && OperationId(s.history[i].op) == id;
  }

  /** A fresh credit adds to the vault's balance what it adds to the credits still to be booked. */
  lemma NewCreditKeepsMoney(s: System, v: VaultState, c: Credit, asset: Asset)
    requires Solvent(s, asset) && Backed(s, asset)
    requires c.id !in s.vault.credits
    requires v.sequence == s.vault.sequence && v.credits == s.vault.credits[c.id := c]
    requires v.Balance(asset) == s.vault.Balance(asset) + AmountIn(asset)(c)
    requires CumulativeCredits(v, asset) <= MAX64
    requires c.id !in BookedIds(s.history)
    ensures Solvent(s.(vault := v), asset) && Backed(s.(vault := v), asset)
  {
    hide TotalFxrp, ClaimsUsdt0, FreeUsdt0, Sum, BookedIds;
    SumUpdate(s.vault.credits, c.id, c, AmountIn(asset));
    SumUpdate(s.vault.credits, c.id, c, Unbooked(BookedIds(s.history), asset));
  }

  lemma NewCreditKeepsCreditedOnce(s: System, s': System, c: Credit)
    requires CreditedOnce(s) && c.id !in s.vault.credits
    requires s'.history == s.history && s'.durable == s.durable && s'.vault.credits == s.vault.credits[c.id := c]
    ensures CreditedOnce(s')
  {
    hide MarkedIds;
  }

  /** The record that a deposit leaves beside its credit. */
  ghost predicate Recorded(records: map<Id, DepositRecord>, records': map<Id, DepositRecord>, c: Credit) {
    || records' == records
    || (!c.backstop && exists now: nat :: records' == records[c.id := DepositRecord(c.sender, c.asset, c.amount, now)])
  }

  lemma ReceiveKeeps(
    s: System, w: World, sender: Owner, token: Token, amount: nat, received: nat, instructed: bool, backstop: bool,
    v: VaultState, c: Credit)
    requires CollisionFree(w.hash) && Inv(s, w)
    requires Receive(s.vault, sender, token, amount, received, instructed, backstop, w.hash)
             == Ok((v.(records := s.vault.records), c))
    requires Recorded(s.vault.records, v.records, c)
    requires CreditsFit(v)
    ensures Inv(s.(vault := v), w)
  {
    hide TotalFxrp, ClaimsUsdt0, FreeUsdt0, Sum, Sound, TotalOf, Faithful, RootAt, AtEndOf, Exposed, PaysSomething;
    hide NetBooked, Numbered, Solvent, Backed, CreditedOnce, WorkSound;
    ReceiveIsFresh(s.vault, sender, token, amount, received, instructed, backstop, w.hash);
    if c.id in BookedIds(s.history) {
      BookedAreCredits(s, c.id);
      assert false;
    }
    NewCreditKeepsMoney(s, v, c, USDT0);
    NewCreditKeepsMoney(s, v, c, FXRP);
    NewCreditKeepsCreditedOnce(s, s.(vault := v), c);
    SameWork(s, s.(vault := v));
  }

  lemma SameWork(s: System, s': System)
    requires s'.memory == s.memory && s'.durable == s.durable && s'.work == s.work && s'.history == s.history
    ensures WorkSound(s) ==> WorkSound(s')
  {
  }

  lemma DepositEventKeeps(
    s: System, w: World, sender: Owner, token: Token, amount: nat, received: nat, instructed: bool, now: nat)
    requires CollisionFree(w.hash) && Inv(s, w)
    requires Possible(s, Deposits(sender, token, amount, received, instructed, now), w)
    ensures Inv(Next(s, Deposits(sender, token, amount, received, instructed, now), w), w)
  {
    hide Inv, Receive, CreditsFit;
    var r := Receive(s.vault, sender, token, amount, received, instructed, false, w.hash);
    if r.Ok? {
      var v := Deposited(s.vault, sender, token, amount, received, instructed, now, w.hash).value;
      ReceiveFrame(s.vault, sender, token, amount, received, instructed, false, w.hash);
      ReceiveKeeps(s, w, sender, token, amount, received, instructed, false, v, r.value.1);
    }
  }

  lemma ReceiveFrame(
    v: VaultState, sender: Owner, token: Token, amount: nat, received: nat, instructed: bool, backstop: bool, hash: CreditHash)
    requires Receive(v, sender, token, amount, received, instructed, backstop, hash).Ok?
    ensures
      var (next, c) := Receive(v, sender, token, amount, received, instructed, backstop, hash).value;
      next.records == v.records && c.sender == sender && c.backstop == backstop
  {
  }

  lemma BackstopEventKeeps(
    s: System, w: World, sender: Owner, operator: bool, amount: nat, received: nat, instructed: bool)
    requires CollisionFree(w.hash) && Inv(s, w)
    requires Possible(s, FundsBackstop(sender, operator, amount, received, instructed), w)
    ensures Inv(Next(s, FundsBackstop(sender, operator, amount, received, instructed), w), w)
  {
    hide Inv, Receive, CreditsFit;
    var r := Receive(s.vault, sender, Supported(USDT0), amount, received, instructed, true, w.hash);
    if operator && r.Ok? {
      ReceiveFrame(s.vault, sender, Supported(USDT0), amount, received, instructed, true, w.hash);
      ReceiveKeeps(s, w, sender, Supported(USDT0), amount, received, instructed, true, r.value.0, r.value.1);
    }
  }

  lemma TransferEventKeeps(s: System, w: World, asset: Asset, amount: nat)
    requires Inv(s, w)
    ensures Inv(Next(s, SendsTokens(asset, amount), w), w)
  {
    hide ClaimsOf, Sum, Sound, TotalOf, Faithful, RootAt, AtEndOf, Exposed, PaysSomething, NetBooked, DebitOf, Authentic;
    hide Numbered, WorkSound, MarkedIds, BookedIds;
    SameWork(s, Next(s, SendsTokens(asset, amount), w));
  }

  // ---- Handlers -------------------------------------------------------------------------------------

  lemma RootGrows(h: seq<Entry>, e: Entry)
    ensures RootAt(h + [e], |h|) == RootAt(h, |h|)
  {
  }

  /** A settlement faithful to a history stays faithful as it grows. */
  lemma HistoryGrows(h: seq<Entry>, e: Entry, x: Settlement)
    requires Faithful(h, x)
    ensures Faithful(h + [e], x)
  {
    hide TermsOf;
  }

  ghost predicate Keyed(credits: map<Id, Credit>) {
    forall id :: id in credits ==> credits[id].id == id
  }

  function CreditIds(op: Operation): set<Id> {
    if IsCredit(op) then {op.operationId} else {}
  }

  /** Booking a credit removes exactly its amount from the credits still to be booked; nothing else does. */
  lemma CreditBooked(credits: map<Id, Credit>, booked: set<Id>, op: Operation, asset: Asset)
    requires Keyed(credits) && Authentic(credits, op)
    requires IsCredit(op) ==> op.operationId !in booked
    ensures Sum(credits, Unbooked(booked + CreditIds(op), asset)) + CreditOf(op, asset) == Sum(credits, Unbooked(booked, asset))
  {
    hide Sum;
    var before, after := Unbooked(booked, asset), Unbooked(booked + CreditIds(op), asset);
    if IsCredit(op) {
      var id := op.operationId;
      SumRemove(credits, id, before);
      SumRemove(credits, id, after);
      SumCongruent(credits - {id}, credits - {id}, after, before);
    } else {
      SumCongruent(credits, credits, after, before);
    }
  }

  lemma IdsGrow(h: seq<Entry>, e: Entry)
    ensures BookedIds(h + [e]) == BookedIds(h) + CreditIds(e.op)
    ensures MarkedIds(h + [e]) == MarkedIds(h) + MarkedBy(e.op)
  {
    var h' := h + [e];
    assert forall i :: 0 <= i < |h| ==> h'[i] == h[i];
    forall id ensures id in BookedIds(h') <==> id in BookedIds(h) + CreditIds(e.op) {
      if id in BookedIds(h) {
        var i :| 0 <= i < |h| && IsCredit(h[i].op) && h[i].op.operationId == id;
        assert h'[i].op == h[i].op;
      }
      if id in CreditIds(e.op) { assert h'[|h|].op == e.op; }
    }
    forall id ensures id in MarkedIds(h') <==> id in MarkedIds(h) + MarkedBy(e.op) {
      if id in MarkedIds(h) {
        var i :| 0 <= i < |h| && Marks(h[i].op) && OperationId(h[i].op) == id;
        assert h'[i].op == h[i].op;
      }
      if id in MarkedBy(e.op) { assert h'[|h|].op == e.op; }
    }
  }

  lemma UnbookedNonNegative(s: System, asset: Asset)
    ensures UnbookedCredits(s, asset) >= 0
  {
    SumNonNegative(s.vault.credits, Unbooked(BookedIds(s.history), asset));
  }

  lemma StepMovesIn(b: Book, next: Book, op: Operation, asset: Asset)
    requires StepMoves(b, next, op)
    ensures TotalOf(next, asset) == TotalOf(b, asset) + CreditOf(op, asset) - DebitOf(op, asset)
    ensures ClaimsOf(next, asset) <= ClaimsOf(b, asset) + CreditOf(op, asset)
  {
    hide TotalFxrp, ClaimsUsdt0, FreeUsdt0, CreditOf, DebitOf;
    assert DebitOf(op, asset) >= 0;
  }

  /** A credit that the ledger accepts has not been booked before. */
  lemma AcceptedCreditIsNew(s: System, op: Operation, next: Book, c: Context)
    requires CreditedOnce(s) && Apply(s.durable.book, op, c.env) == Ok(next)
    ensures Processes(s.durable.book, op, next)
    ensures IsCredit(op) ==> op.operationId !in BookedIds(s.history)
  {
    hide Apply, BookedIds, MarkedIds, Authentic;
    ApplyProcesses(s.durable.book, op, c.env, next);
    if IsCredit(op) && op.operationId in BookedIds(s.history) {
      BookedAreCredits(s, op.operationId);
      assert false;
    }
  }

  lemma BackedCreditsArePermitted(s: System, op: Operation)
    requires MoneySound(s) && Keyed(s.vault.credits) && Authentic(s.vault.credits, op)
    requires op.AcceptOp? ==> LoanIdUsable(s.durable.book, op.loanId)
    requires IsCredit(op) ==> op.operationId !in BookedIds(s.history)
    ensures Permitted(s.durable.book, op)
  {
    hide Sound, Solvent, NetBooked, TotalFxrp, ClaimsUsdt0, FreeUsdt0, Sum, LoanIdUsable, Authentic, BookedIds;
    var booked := BookedIds(s.history);
    CreditBooked(s.vault.credits, booked, op, USDT0);
    CreditBooked(s.vault.credits, booked, op, FXRP);
    SumNonNegative(s.vault.credits, Unbooked(booked + CreditIds(op), USDT0));
    SumNonNegative(s.vault.credits, Unbooked(booked + CreditIds(op), FXRP));
  }

  /** One committed mutation keeps the money sound in one asset. */
  lemma CommitKeepsMoneyIn(s: System, s': System, op: Operation, destination: Owner, next: Book, asset: Asset)
    requires Solvent(s, asset) && Backed(s, asset) && TotalOf(s.durable.book, asset) == NetBooked(s.history, asset)
    requires s.vault.sequence == |s.history|
    requires StepMoves(s.durable.book, next, op) && Keyed(s.vault.credits) && Authentic(s.vault.credits, op)
    requires IsCredit(op) ==> op.operationId !in BookedIds(s.history)
    requires s'.vault == s.vault && s'.durable.book == next && s'.history == s.history + [Entry(op, destination, next)]
    ensures Solvent(s', asset) && Backed(s', asset) && TotalOf(next, asset) == NetBooked(s'.history, asset)
  {
    hide StepMoves, ClaimsOf, TotalOf, Sum, Authentic, CreditOf, DebitOf, BookedIds, IsCredit, CreditIds;
    StepMovesIn(s.durable.book, next, op, asset);
    CreditBooked(s.vault.credits, BookedIds(s.history), op, asset);
    IdsGrow(s.history, Entry(op, destination, next));
    assert s'.history[..|s.history|] == s.history;
  }

  lemma CommitKeepsMoney(s: System, s': System, op: Operation, destination: Owner, next: Book, c: Context)
    requires MoneySound(s) && s.vault.sequence == |s.history|
    requires Keyed(s.vault.credits) && Authentic(s.vault.credits, op) && ValidEnv(s.durable.book, c.env)
    requires op.AcceptOp? ==> LoanIdUsable(s.durable.book, op.loanId)
    requires IsCredit(op) ==> op.operationId !in BookedIds(s.history)
    requires Apply(s.durable.book, op, c.env) == Ok(next)
    requires s'.vault == s.vault && s'.durable.book == next && s'.history == s.history + [Entry(op, destination, next)]
    ensures MoneySound(s')
  {
    hide Sound, Solvent, Backed, TotalOf, NetBooked, Apply, ValidEnv, LoanIdUsable, Authentic, StepMoves, Permitted, BookedIds;
    BackedCreditsArePermitted(s, op);
    ApplyKeeps(s.durable.book, op, c.env, next);
    CommitKeepsMoneyIn(s, s', op, destination, next, USDT0);
    CommitKeepsMoneyIn(s, s', op, destination, next, FXRP);
  }

  lemma CommitKeepsCredits(s: System, s': System, op: Operation, destination: Owner, next: Book)
    requires CreditedOnce(s) && Authentic(s.vault.credits, op)
    requires Processes(s.durable.book, op, next)
    requires IsCredit(op) ==> op.operationId !in BookedIds(s.history)
    requires s'.vault == s.vault && s'.durable.book == next && s'.history == s.history + [Entry(op, destination, next)]
    ensures CreditedOnce(s')
  {
    hide Authentic, MarkedIds;
    IdsGrow(s.history, Entry(op, destination, next));
  }

  /** The anchor of the new entry is the one that `mutate` leaves pending. */
  lemma NewAnchor(s: System, op: Operation, destination: Owner, next: Book)
    requires AtEndOf(s.history, s.durable) && s.durable.pending == None
    ensures AtEndOf(s.history + [Entry(op, destination, next)], Committed(s.durable, KindOf(op), OperationId(op), next))
  {
    hide KindOf, OperationId;
    RootGrows(s.history, Entry(op, destination, next));
  }

  lemma AppliedPaysSomething(b: Book, op: Operation, env: Env, next: Book)
    requires Structure(b) && ValidEnv(b, env) && Apply(b, op, env) == Ok(next)
    ensures PaysSomething(op)
  {
    hide Sum, Originate, MakeQuote, Structure;
    hide OpenAccount, Deposit, SetMandate, CancelMandate, RiskTick, Repay, Liquidate, SeedBackstop;
    if op.AcceptOp? {
      StructureIds(b);
      AcceptedTerms(b, op.quote, op.loanId, op.nonce, op.observed, env.now, env.mandateOrder, env.hash, next);
    }
  }

  lemma BookIsStructured(s: System)
    requires MoneySound(s)
    ensures Structure(s.durable.book)
  {
  }

  lemma CreditsAreKeyed(v: VaultState, hash: CreditHash)
    requires CreditsNumbered(v, hash)
    ensures Keyed(v.credits)
  {
  }

  /** The database transaction of a mutation, with nobody else at work. */
  lemma PersistEventKeeps(s: System, w: World, op: Operation, destination: Owner, account: Owner, c: Context)
    requires Inv(s, w) && Possible(s, Persists(op, destination, account, c), w)
    ensures Inv(Next(s, Persists(op, destination, account, c), w), w)
  {
    hide Sound, MoneySound, CreditedOnce, Apply, ValidEnv, LoanIdUsable, Authentic, CreditsNumbered, PaysSomething, KindOf;
    hide OperationId, TermsOf, Faithful, AtEndOf, RootAt, BookAt, AnchorOf, Exposed, BookedIds;
    var result := Apply(s.memory.book, op, c.env);
    var s' := Next(s, Persists(op, destination, account, c), w);
    if s' != s {
      var e := Entry(op, destination, result.value);
      assert s.memory == s.durable;
      CreditsAreKeyed(s.vault, w.hash);
      AcceptedCreditIsNew(s, op, result.value, c);
      NewAnchor(s, op, destination, result.value);
      CommitKeepsMoney(s, s', op, destination, result.value, c);
      CommitKeepsCredits(s, s', op, destination, result.value);
      BookIsStructured(s);
      AppliedPaysSomething(s.durable.book, op, c.env, result.value);
      forall x | x in s'.signed ensures Faithful(s'.history, x) {
        HistoryGrows(s.history, e, x);
      }
      RootGrows(s.history, e);
    }
  }

  /** Money and credits depend only on the vault, the history and the durable book. */
  lemma SameMoney(s: System, s': System)
    requires s'.vault == s.vault && s'.history == s.history && s'.durable.book == s.durable.book
    ensures MoneySound(s) ==> MoneySound(s')
    ensures CreditedOnce(s) ==> CreditedOnce(s')
  {
    hide Sound, TotalOf, NetBooked, ClaimsOf, Sum, Authentic, DebitOf, BookedIds, MarkedIds;
  }

  /** A signature over the pending anchor, with the last entry's terms, is faithful. */
  lemma PendingSignatureIsFaithful(s: System, terms: Terms, account: Owner, c: Context)
    requires AtEndOf(s.history, s.durable) && s.durable.pending.Some?
    requires terms == TermsOf(s.history[|s.history| - 1].op, s.history[|s.history| - 1].destination)
    ensures Faithful(s.history, AnchorSettlement(s.durable.pending.value, c.requestId, terms, account, c.env.now))
  {
    hide TermsOf, KindOf, OperationId;
  }

  lemma InstallEventKeeps(s: System, w: World)
    requires Inv(s, w)
    ensures Inv(Next(s, Installs, w), w)
  {
    hide MoneySound, CreditedOnce, CreditsNumbered, Faithful, AtEndOf, RootAt, TermsOf, Exposed, PaysSomething;
    var s' := Next(s, Installs, w);
    if s.work.Some? && s.work.value.InstallAndSign? {
      PendingSignatureIsFaithful(s, s.work.value.terms, s.work.value.account, s.work.value.context);
    }
    SameMoney(s, s');
  }

  // ---- Signing again, executing, confirming ------------------------------------------------------------

  lemma RecoveryEventKeeps(s: System, w: World, c: Context)
    requires Inv(s, w)
    ensures Inv(Next(s, Recovers(c), w), w)
  {
    hide MoneySound, CreditedOnce, CreditsNumbered, Faithful, RootAt, BookAt, TermsOf, Exposed, Recoverable, PaysSomething;
    var s' := Next(s, Recovers(c), w);
    if s' != s {
      var e := s.history[|s.history| - 1];
      assert e in s.history;
      RecoveryNeverDropsAPayout(e.op, e.destination);
      PendingSignatureIsFaithful(s, NO_MONEY, ZERO_ADDRESS, c);
    }
    SameMoney(s, s');
  }

  /** A settlement passes the vault's gate only if it is the one for the pending anchor. */
  lemma ExecutedIsPending(s: System, w: World, x: Settlement, now: nat, paused: bool)
    requires HistorySound(s) && Lockstep(s)
    requires forall y :: y in s.signed ==> Faithful(s.history, y)
    requires Execute(s.vault, x, now, paused, x in s.signed, w.self).Ok?
    ensures x in s.signed
    ensures s.durable.pending.Some? && |s.history| > 0 && x.nextSequence == |s.history| == s.vault.sequence + 1
    ensures x.terms == TermsOf(s.history[|s.history| - 1].op, s.history[|s.history| - 1].destination)
    ensures x.nextRoot == s.durable.root
  {
    hide TermsOf, Transfer, CheckTerms;
  }

  lemma ExecutionPays(v: VaultState, x: Settlement, now: nat, paused: bool, authentic: bool, self: Owner, asset: Asset)
    requires Execute(v, x, now, paused, authentic, self).Ok?
    ensures
      var next := Execute(v, x, now, paused, authentic, self).value;
      && next.Balance(asset) >= v.Balance(asset) - x.terms.Pays(asset)
      && (x.terms.destination != self ==> next.Balance(asset) == v.Balance(asset) - x.terms.Pays(asset))
      && next == v.(used := v.used + {x.settlementId}, sequence := x.nextSequence, root := x.nextRoot,
                    usdt0 := next.usdt0, fxrp := next.fxrp)
  {
    hide Advances;
  }

  lemma ExecutionKeepsMoney(s: System, s': System, asset: Asset, paid: nat)
    requires Solvent(s, asset) && Backed(s, asset)
    requires s.vault.sequence + 1 == |s.history| == s'.vault.sequence
    requires DebitOf(s.history[|s.history| - 1].op, asset) == paid
    requires s'.durable == s.durable && s'.history == s.history && s'.vault.credits == s.vault.credits
    requires s'.vault.Balance(asset) >= s.vault.Balance(asset) - paid
    ensures Solvent(s', asset) && Backed(s', asset)
  {
    hide TotalOf, ClaimsOf, Sum, DebitOf, BookedIds;
  }

  lemma ExecutedGrows(s: System, s': System, x: Settlement)
    requires ExecutedInOrder(s) && x in s.signed && x.nextSequence == s.vault.sequence + 1 == s'.vault.sequence
    requires s'.signed == s.signed && s'.executed == s.executed + [x] && s'.vault.used == s.vault.used + {x.settlementId}
    ensures ExecutedInOrder(s')
  {
    forall id ensures id in s'.vault.used <==> exists i :: 0 <= i < |s'.executed| && s'.executed[i].settlementId == id {
      if id in s.vault.used {
        var i :| 0 <= i < |s.executed| && s.executed[i].settlementId == id;
        assert s'.executed[i].settlementId == id;
      }
      assert s'.executed[|s.executed|].settlementId == x.settlementId;
    }
  }

  lemma ExecutionEventKeeps(s: System, w: World, x: Settlement, now: nat, paused: bool)
    requires Inv(s, w)
    ensures Inv(Next(s, Executes(x, now, paused), w), w)
  {
    hide Sound, TotalOf, NetBooked, ClaimsOf, Sum, Solvent, Backed, Faithful, TermsOf, Authentic, Numbered, RootAt, BookAt;
    hide AnchorOf, Execute, DebitOf, ExecutedInOrder, Exposed, PaysSomething, WorkSound, MarkedIds;
    var s' := Next(s, Executes(x, now, paused), w);
    if s' != s {
      ExecutedIsPending(s, w, x, now, paused);
      ExecutionPays(s.vault, x, now, paused, x in s.signed, w.self, USDT0);
      ExecutionPays(s.vault, x, now, paused, x in s.signed, w.self, FXRP);
      ExecutedGrows(s, s', x);
      var e := s.history[|s.history| - 1];
      TermsPayTheDebit(e.op, e.destination, USDT0);
      TermsPayTheDebit(e.op, e.destination, FXRP);
      ExecutionKeepsMoney(s, s', USDT0, x.terms.Pays(USDT0));
      ExecutionKeepsMoney(s, s', FXRP, x.terms.Pays(FXRP));
      SameWork(s, s');
    }
  }

  /**
    Confirmation clears the anchor only when the vault is level with the engine at that very
    moment, even though the two view reads may be older than that and taken at different moments.
   */
  lemma ConfirmationIsNeverEarly(s: System, w: World, sequence: nat, root: Root, readSequence: nat, readRoot: Root, database: bool)
    requires HistorySound(s) && WorkSound(s) && Lockstep(s)
    requires Possible(s, Confirms(sequence, root, readSequence, readRoot, database), w)
    ensures
      var s' := AfterConfirming(s, sequence, root, readSequence, readRoot, database);
      s' != s ==>
        && s.vault.sequence == s.durable.sequence && s.vault.root == s.durable.root
        && s'.durable == s.durable.(pending := None)
  {
  }

  lemma ConfirmationEventKeeps(s: System, w: World, sequence: nat, root: Root, readSequence: nat, readRoot: Root, database: bool)
    requires Inv(s, w) && Possible(s, Confirms(sequence, root, readSequence, readRoot, database), w)
    ensures Inv(Next(s, Confirms(sequence, root, readSequence, readRoot, database), w), w)
  {
    hide MoneySound, CreditedOnce, CreditsNumbered, Faithful, RootAt, BookAt, Exposed, OnceRoot, PaysSomething, TermsOf;
    var s' := Next(s, Confirms(sequence, root, readSequence, readRoot, database), w);
    ConfirmationIsNeverEarly(s, w, sequence, root, readSequence, readRoot, database);
    SameMoney(s, s');
  }

  /**
    A crash at any moment, also between the two writes of a mutation or a confirmation, loses nothing that the
    database holds: the restarted engine has the durable state, and nothing else of the system has changed.
   */
  lemma CrashLosesOnlyMemory(s: System, w: World)
    requires Inv(s, w)
    ensures Inv(Next(s, Crashes, w), w)
    ensures Next(s, Crashes, w) == s.(memory := s.durable, work := None)
    ensures s.work == None ==> Next(s, Crashes, w) == s
    ensures s.work == Some(JustInstall) ==> Next(s, Crashes, w) == Next(s, Installs, w)
    ensures s.work.Some? ==> Next(s, Crashes, w) == Next(s, Installs, w).(signed := s.signed, delivered := s.delivered)
  {
    hide MoneySound, CreditedOnce, CreditsNumbered, Lockstep, HistorySound, Faithful, ExecutedInOrder;
    SameMoney(s, Next(s, Crashes, w));
    SameVaultAndHistory(s, Next(s, Crashes, w));
  }

  lemma SameVaultAndHistory(s: System, s': System)
    requires s'.vault == s.vault && s'.history == s.history && s'.durable == s.durable
    requires s'.signed == s.signed && s'.executed == s.executed
    ensures Lockstep(s) ==> Lockstep(s')
    ensures HistorySound(s) ==> HistorySound(s')
    ensures ExecutedInOrder(s) ==> ExecutedInOrder(s')
  {
    hide Exposed, PaysSomething, AtEndOf, RootAt;
  }

  // ---- Every run -----------------------------------------------------------------------------------------

  lemma EventKeeps(s: System, e: Event, w: World)
    requires CollisionFree(w.hash) && Inv(s, w) && Possible(s, e, w)
    ensures Inv(Next(s, e, w), w)
  {
    hide Inv, Possible, Next;
    match e
    case Deposits(sender, token, amount, received, instructed, now) =>
      DepositEventKeeps(s, w, sender, token, amount, received, instructed, now);
    case FundsBackstop(sender, operator, amount, received, instructed) =>
      BackstopEventKeeps(s, w, sender, operator, amount, received, instructed);
    case SendsTokens(asset, amount) => TransferEventKeeps(s, w, asset, amount);
    case Persists(op, destination, account, c) => PersistEventKeeps(s, w, op, destination, account, c);
    case Confirms(sequence, root, readSequence, readRoot, database) =>
      ConfirmationEventKeeps(s, w, sequence, root, readSequence, readRoot, database);
    case Installs => InstallEventKeeps(s, w);
    case Recovers(c) => RecoveryEventKeeps(s, w, c);
    case Executes(x, now, paused) => ExecutionEventKeeps(s, w, x, now, paused);
    case Crashes => CrashLosesOnlyMemory(s, w);
  }

  lemma {:induction false} EveryRunKeepsInv(events: seq<Event>, w: World, s: System)
    requires CollisionFree(w.hash) && Run(events, w, s)
    ensures Inv(s, w)
    decreases |events|
  {
    hide Inv, Possible, Next;
    if events == [] {
      StartIsSound(w);
    } else {
      var n := |events| - 1;
      var before: System :|
        Run(events[..n], w, before) && Possible(before, events[n], w) && s == Next(before, events[n], w);
      EveryRunKeepsInv(events[..n], w, before);
      EventKeeps(before, events[n], w);
    }
  }

  lemma RunThen(events: seq<Event>, w: World, s: System, e: Event)
    requires Run(events, w, s) && Possible(s, e, w)
    ensures Run(events + [e], w, Next(s, e, w))
  {
    hide Possible, Next;
    assert (events + [e])[..|events|] == events;
  }

  lemma ReachThen(w: World, s: System, e: Event)
    requires Reachable(w, s) && Possible(s, e, w)
    ensures Reachable(w, Next(s, e, w))
  {
    hide Possible, Next, Run;
    var events :| Run(events, w, s);
    RunThen(events, w, s, e);
  }

  lemma ReachableKeepsInv(w: World, s: System)
    requires CollisionFree(w.hash) && Reachable(w, s)
    ensures Inv(s, w)
  {
    hide Run, Inv;
    var events :| Run(events, w, s);
    EveryRunKeepsInv(events, w, s);
  }
}
