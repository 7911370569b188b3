/**
  A handler reads the pending anchor again when it signs. If its own anchor has been cleared
  by then and another mutation is pending, it signs its own terms over that one.
 */
module LateSigning {
  import opened Outcomes
  import opened Model
  import opened Ledger
  import opened Settlements
  import opened Vault
  import opened Handlers
  import opened Protocol
  import opened Runs
  import opened Safety
  import opened Credits
  import opened Clearing
  import opened Stranding

  function TermsAt(h: seq<Entry>, i: nat): Terms
    requires i < |h|
  {
    TermsOf(h[i].op, h[i].destination)
  }

  /** What the handler of entry `i` signs over the anchor that is pending now. */
  function LateSettlement(s: System, i: nat, account: Owner, c: Context): Settlement
    requires s.memory.pending.Some? && i < |s.history|
  {
    AnchorSettlement(s.memory.pending.value, c.requestId, TermsAt(s.history, i), account, c.env.now)
  }

  /** A late signature keeps the protocol's invariant if and only if the pending anchor calls for the same terms. */
  lemma LateSigningKeepsInvExactly(s: System, w: World, i: nat, account: Owner, c: Context)
    requires Inv(s, w) && s.work == None && s.memory.pending.Some? && i < |s.history|
    ensures Inv(Signed(s, LateSettlement(s, i, account, c), c.delivers), w) <==>
            TermsAt(s.history, i) == TermsAt(s.history, |s.history| - 1)
  {
    hide MoneySound, CreditedOnce, CreditsNumbered, KindOf, OperationId, TermsOf, RootAt, BookAt, Exposed, PaysSomething;
    var x := LateSettlement(s, i, account, c);
    var t := Signed(s, x, c.delivers);
    assert Faithful(s.history, x) <==> TermsAt(s.history, i) == TermsAt(s.history, |s.history| - 1);
    SignedKeepsTheRest(s, t, w, x);
  }

  lemma SignedKeepsTheRest(s: System, t: System, w: World, x: Settlement)
    requires Inv(s, w) && (t == Signed(s, x, true) || t == Signed(s, x, false))
    ensures Inv(t, w) <==> Faithful(s.history, x)
  {
    hide KindOf, OperationId, TermsOf, RootAt, BookAt, Exposed, PaysSomething, Faithful;
    SameBooks(s, t, w);
    assert x in t.signed;
  }

  lemma SameBooks(s: System, t: System, w: World)
    requires t == s.(signed := t.signed, delivered := t.delivered)
    ensures MoneySound(s) <==> MoneySound(t)
    ensures CreditedOnce(s) <==> CreditedOnce(t)
    ensures HistorySound(s) <==> HistorySound(t)
    ensures WorkSound(s) <==> WorkSound(t)
    ensures Lockstep(s) <==> Lockstep(t)
  {
  }

  /**
    The handler of a checkpoint signs late without harm if and only if the anchor pending then is its own or
    belongs to another checkpoint.
   */
  lemma LateCheckpointIsHarmlessExactly(s: System, w: World, i: nat, account: Owner, c: Context)
    requires Inv(s, w) && s.work == None && s.memory.pending.Some? && i < |s.history|
    requires Recoverable(KindOf(s.history[i].op))
    ensures Inv(Signed(s, LateSettlement(s, i, account, c), c.delivers), w) <==> Recoverable(s.memory.pending.value.kind)
  {
    hide MoneySound, CreditedOnce, CreditsNumbered, KindOf, OperationId, TermsOf, RootAt, BookAt, PaysSomething, Recoverable, Exposed;
    LateSigningKeepsInvExactly(s, w, i, account, c);
    var e, last := s.history[i], s.history[|s.history| - 1];
    assert e in s.history && last in s.history;
    RecoveryNeverDropsAPayout(e.op, e.destination);
    RecoveryNeverDropsAPayout(last.op, last.destination);
  }

  /** No settlement that the vault has executed moved it to the end of the history. */
  lemma PendingIdIsUnused(s: System, w: World, requestId: Id)
    requires Inv(s, w) && Behind(s)
    ensures SettlementId(requestId, s.memory.pending.value.nextRoot, s.memory.pending.value.kind) !in s.vault.used
  {
    hide MoneySound, CreditedOnce, CreditsNumbered, KindOf, OperationId, TermsOf, BookAt, PaysSomething, Exposed;
    var id := SettlementId(requestId, s.memory.pending.value.nextRoot, s.memory.pending.value.kind);
    if id in s.vault.used {
      assert false;
    }
  }

  /**
    A checkpoint signed late over a payout that the vault has not executed: the vault accepts it, pays nothing,
    and lets the engine clear the anchor; no settlement for that payout is accepted any more.
   */
  lemma LateCheckpointSkipsThePayout(s: System, w: World, i: nat, account: Owner, c: Context, now: nat, paused: bool)
    requires Inv(s, w) && Behind(s) && i < |s.history| && TermsAt(s.history, i) == NO_MONEY
    requires !Recoverable(s.memory.pending.value.kind) && now <= c.env.now + VALIDITY
    ensures
      var r := Execute(s.vault, LateSettlement(s, i, account, c), now, paused, true, w.self);
      && r.Ok? && r.value.usdt0 == s.vault.usdt0 && r.value.fxrp == s.vault.fxrp
      && r.value.sequence == |s.history| && r.value.root == s.memory.root
      && DebitOf(s.history[|s.history| - 1].op, USDT0) + DebitOf(s.history[|s.history| - 1].op, FXRP) > 0
      && AfterConfirming(s.(vault := r.value), |s.history|, s.memory.root, |s.history|, s.memory.root, true)
         .durable.pending == None
      && (forall y: Settlement, later, pausedThen, authentic ::
            y.nextSequence <= |s.history| ==> Execute(r.value, y, later, pausedThen, authentic, w.self).Err?)
  {
    hide MoneySound, CreditedOnce, CreditsNumbered, KindOf, OperationId, TermsOf, BookAt, Recoverable, Exposed, ExecutedInOrder;
    BehindFacts(s, w);
    PendingIdIsUnused(s, w, c.requestId);
    PayoutIsBooked(s, w);
  }

  lemma PayoutIsBooked(s: System, w: World)
    requires Inv(s, w) && Behind(s) && !Recoverable(s.memory.pending.value.kind)
    ensures DebitOf(s.history[|s.history| - 1].op, USDT0) + DebitOf(s.history[|s.history| - 1].op, FXRP) > 0
  {
    hide MoneySound, CreditedOnce, CreditsNumbered, KindOf, OperationId, TermsOf, BookAt, Recoverable, ExecutedInOrder, Lockstep;
    hide DebitOf, Exposed;
    BehindFacts(s, w);
    var e := s.history[|s.history| - 1];
    assert e in s.history && PaysSomething(e.op);
    RecoveryNeverDropsAPayout(e.op, e.destination);
    TermsShape(e.op, e.destination);
    var token := TermsOf(e.op, e.destination).token;
    assert token.Supported? && (token.asset.USDT0? || token.asset.FXRP?);
    TermsPayTheDebit(e.op, e.destination, USDT0);
    TermsPayTheDebit(e.op, e.destination, FXRP);
  }

  // ---- A concrete run ------------------------------------------------------------------------------------

  function Payout(w: World): Operation {
    WithdrawOp("lender", USDT0, 5, FirstDepositId(w) + "'", 0)
  }

  lemma PayoutIsPossible(w: World, s: System)
    requires s.memory.book == DepositedBook(w)
    ensures Possible(s, Persists(Payout(w), "payee", "lender", QUIET), w)
    ensures Apply(DepositedBook(w), Payout(w), QUIET.env).Ok?
  {
    assert FirstDepositId(w) + "'" !in DepositedBook(w).processed;
  }

  lemma FirstIsACheckpoint(w: World, s: System)
    requires |s.history| > 0
    requires s.history[0] == Entry(DepositOp("lender", USDT0, 5, FirstDepositId(w)), ZERO_ADDRESS, DepositedBook(w))
    ensures TermsAt(s.history, 0) == NO_MONEY && !Recoverable(KindOf(Payout(w)))
    ensures DebitOf(Payout(w), USDT0) == 5
  {
  }

  lemma PayoutIsPending(w: World)
    requires CollisionFree(w.hash)
    ensures exists s ::
              && Reachable(w, s) && Behind(s) && |s.history| == 2
              && TermsAt(s.history, 0) == NO_MONEY
              && s.history[1].op == Payout(w) && DebitOf(s.history[1].op, USDT0) == 5
              && !Recoverable(s.memory.pending.value.kind)
  {
    hide Run, Apply, DepositedBook, Possible, AfterHandling, Inv, TermsOf, KindOf, Recoverable, DebitOf, Payout, FirstDepositId;
    DepositIsBooked(w);
    var s :| Resting(w, s, DepositedBook(w))
      && s.history == [Entry(DepositOp("lender", USDT0, 5, FirstDepositId(w)), ZERO_ADDRESS, DepositedBook(w))];
    FirstIsACheckpoint(w, s);
    PayoutIsPossible(w, s);
    ReachableKeepsInv(w, s);
    HandlerLeavesBehind(s, w, Payout(w), "payee", "lender", QUIET);
    HandlerIsReached(w, s, Payout(w), "payee", "lender", QUIET);
  }

  /**
    A reachable state in which the deposit's handler, which has not signed yet while RECOVER_ANCHOR has cleared its
    anchor, signs over a pending withdrawal of 5: the vault advances past the withdrawal and keeps the 5.
    A handler that has not signed yet leaves the system as one whose signer failed.
   */
  lemma LateCheckpointHappens(w: World)
    requires CollisionFree(w.hash)
    ensures exists s ::
              && Reachable(w, s) && Behind(s) && |s.history| == 2
              && s.history[1].op == Payout(w) && DebitOf(s.history[1].op, USDT0) == 5
              && var r := Execute(s.vault, LateSettlement(s, 0, "lender", QUIET), 0, false, true, w.self);
                 r.Ok? && r.value.sequence == 2 && r.value.usdt0 == s.vault.usdt0
  {
    hide Run, Inv, TermsAt, Recoverable, DebitOf, Payout, FirstDepositId, LateSettlement, Execute;
    PayoutIsPending(w);
    var s :| && Reachable(w, s) && Behind(s) && |s.history| == 2
             && TermsAt(s.history, 0) == NO_MONEY
             && s.history[1].op == Payout(w) && DebitOf(s.history[1].op, USDT0) == 5
             && !Recoverable(s.memory.pending.value.kind);
    ReachableKeepsInv(w, s);
    LateCheckpointSkipsThePayout(s, w, 0, "lender", QUIET, 0, false);
  }
}
