/**
  Who is paid, in which token and how much: what was executed on the vault, spelled out for
  each operation of the history.
 */
module Payees {
  import opened Outcomes
  import opened Model
  import opened Ledger
  import opened Settlements
  import opened Vault
  import opened Handlers
  import opened Protocol
  import opened Runs
  import opened Safety
  import opened Clearing

  /** A settlement pays what the operation calls for, to whom it calls for. */
  predicate PaysFor(t: Terms, op: Operation, destination: Owner) {
    match op
    case AcceptOp(q, _, _, _) =>
      && t.settlementType == BorrowPayout && t.token == Supported(USDT0)
      && t.amount == q.amount && t.destination == q.borrower
    case WithdrawOp(_, asset, amount, _, _) =>
      && t.settlementType == UserWithdrawal && t.token == Supported(asset)
      && t.amount == amount && t.destination == destination
    case WithdrawFromMandateOp(_, _, amount, _, _) =>
      && t.settlementType == UserWithdrawal && t.token == Supported(USDT0)
      && t.amount == amount && t.destination == destination
    case _ => t.settlementType == Checkpoint && t.token == ZeroToken && t.amount == 0 && t.destination == ""
  }

  lemma TermsPayFor(op: Operation, destination: Owner)
    ensures PaysFor(TermsOf(op, destination), op, destination)
  {
  }

  /**
    After every run, the settlement executed for each entry of the history paid a loan to its borrower, a withdrawal
    to the destination that its handler was given, and nobody for anything else; in the operation's token and amount.
   */
  lemma EveryPayoutReachesItsPayee(events: seq<Event>, w: World, s: System, i: nat)
    requires CollisionFree(w.hash) && Run(events, w, s) && i < |s.executed|
    ensures i < |s.history| && PaysFor(s.executed[i].terms, s.history[i].op, s.history[i].destination)
  {
    hide Run, TermsOf, Inv, RootAt;
    EveryRunKeepsInv(events, w, s);
    ExecutedTerms(s, w, i);
    TermsPayFor(s.history[i].op, s.history[i].destination);
  }

  lemma ExecutedTerms(s: System, w: World, i: nat)
    requires Inv(s, w) && i < |s.executed|
    ensures i < |s.history| && s.executed[i].terms == TermsOf(s.history[i].op, s.history[i].destination)
  {
    hide MoneySound, CreditsNumbered, CreditedOnce, Exposed, PaysSomething, WorkSound, KindOf, OperationId, TermsOf, RootAt;
    hide BookAt;
    assert s.executed[i] in s.signed;
  }

  /** The same of everything that was ever signed, executed or not. */
  lemma EverySignatureNamesItsPayee(events: seq<Event>, w: World, s: System, x: Settlement)
    requires CollisionFree(w.hash) && Run(events, w, s) && x in s.signed
    ensures
      && 1 <= x.nextSequence <= |s.history|
      && var e := s.history[x.nextSequence - 1];
         PaysFor(x.terms, e.op, e.destination)
  {
    hide Run, TermsOf, RootAt, KindOf, MoneySound, CreditsNumbered, CreditedOnce, ExecutedInOrder, HistorySound, WorkSound;
    hide Lockstep;
    EveryRunKeepsInv(events, w, s);
    assert Faithful(s.history, x);
    var e := s.history[x.nextSequence - 1];
    TermsPayFor(e.op, e.destination);
  }

  /** A handler's settlement, if it returns one, pays for its operation. */
  lemma HandledPays(
    before: State, after: State, signed: set<Settlement>, signed': set<Settlement>,
    op: Operation, destination: Owner, account: Owner, c: Context, r: Result<Settlement>)
    requires Handled(before, after, signed, signed', op, destination, account, c, r) && r.Ok?
    ensures PaysFor(r.value.terms, op, destination)
    ensures r.value.account == account && r.value.requestId == c.requestId && r.value.deadline == c.env.now + 600
  {
    hide Apply, TermsOf, KindOf, OperationId;
    TermsPayFor(op, destination);
  }

  /**
    For a payout that a handler commits and signs, what decides whether its anchor can ever be cleared can be checked
    before the call: whether the response will be delivered, which for an action signed by the user means that its
    response key is a point of the curve, and whether the one to be paid, the borrower of a loan or the destination
    of a withdrawal, is not the zero address.
   */
  lemma PayoutClearableExactly(
    events: seq<Event>, w: World, s: System, op: Operation, destination: Owner, account: Owner, c: Context, start: Time)
    requires CollisionFree(w.hash) && Run(events, w, s) && Possible(s, Persists(op, destination, account, c), w)
    requires s.work == None && s.memory.pending == None && c.refusal == None && c.database && c.signer
    requires Apply(s.memory.book, op, c.env).Ok?
    requires op.AcceptOp? || op.WithdrawOp? || op.WithdrawFromMandateOp?
    requires start <= c.env.now + 600
    ensures Clearable(AfterHandling(s, op, destination, account, c), w, start) <==>
            c.delivers && (if op.AcceptOp? then op.quote.borrower else destination) != ""
  {
    hide Run, Possible, Apply, Clearable, AfterHandling, Recoverable, TermsOf;
    PayoutKinds(op);
    TermsPayFor(op, destination);
    CommittedPayoutClearableExactly(events, w, s, op, destination, account, c, start);
  }

  lemma PayoutKinds(op: Operation)
    ensures op.AcceptOp? || op.WithdrawOp? || op.WithdrawFromMandateOp? || op.LiquidateOp? <==> !Recoverable(KindOf(op))
  {
  }
}
