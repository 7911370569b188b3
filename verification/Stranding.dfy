/**
  Concrete runs in which a payout is held up or skipped: a response that never leaves the
  enclave, and a signature that comes too late.
 */
module Stranding {
  import opened Outcomes
  import opened Model
  import opened Ledger
  import opened Settlements
  import opened Vault
  import opened Handlers
  import opened Protocol
  import opened Runs
  import opened Safety
  import opened Credits
  import opened Clearing

  /** The engine is at rest and nothing is pending. */
  ghost predicate Resting(w: World, s: System, b: Book) {
    Reachable(w, s) && Cleared(s) && s.memory.book == b
  }

  /** Once the vault is level, confirmation and installation bring the engine to rest. */
  lemma LevelComesToRest(w: World, s: System)
    requires CollisionFree(w.hash) && Reachable(w, s) && s.work == None && s.memory.pending.Some?
    requires s.vault.sequence == |s.history| == |s.executed| > 0
    requires s.vault.root == s.executed[|s.executed| - 1].nextRoot
    ensures exists t :: Resting(w, t, s.memory.book) && t.vault == s.vault && t.history == s.history
  {
    hide Run, MoneySound, CreditedOnce, CreditsNumbered, Faithful, KindOf, OperationId, TermsOf, Exposed, PaysSomething, BookAt;
    ReachableKeepsInv(w, s);
    var confirm := Confirms(s.vault.sequence, s.vault.root, s.vault.sequence, s.vault.root, true);
    var confirmed := Next(s, confirm, w);
    assert Possible(s, confirm, w);
    ReachThen(w, s, confirm);
    ReachThen(w, confirmed, Installs);
    assert Resting(w, Next(confirmed, Installs, w), s.memory.book);
  }

  /** A delivered settlement for the pending checkpoint brings engine and vault to rest. */
  lemma ExecutionComesToRest(w: World, s: System, x: Settlement, now: nat)
    requires CollisionFree(w.hash) && Reachable(w, s) && Behind(s) && x in s.signed && Timely(s.vault, x, now, false)
    ensures exists t :: Resting(w, t, s.memory.book) && t.vault.credits == s.vault.credits && t.history == s.history
  {
    hide Run, MoneySound, CreditedOnce, CreditsNumbered, Faithful, KindOf, OperationId, TermsOf, Exposed, PaysSomething, BookAt;
    hide Execute, AtEndOf, RootAt, Resting;
    ReachableKeepsInv(w, s);
    SignedInInvExecutesExactly(s, w, x, now, false);
    var e := Executes(x, now, false);
    var t := Next(s, e, w);
    ExecutionPays(s.vault, x, now, false, true, w.self, USDT0);
    ExecutedIsPending(s, w, x, now, false);
    ReachThen(w, s, e);
    ReachableKeepsInv(w, t);
    LevelComesToRest(w, t);
  }

  /** A handler's two steps are part of a run. */
  lemma HandlerIsReached(w: World, s: System, op: Operation, destination: Owner, account: Owner, c: Context)
    requires Reachable(w, s) && Possible(s, Persists(op, destination, account, c), w)
    ensures Reachable(w, AfterHandling(s, op, destination, account, c))
  {
    hide Run, Possible, AfterPersisting, AfterInstalling;
    ReachThen(w, s, Persists(op, destination, account, c));
    AlwaysPossible(AfterPersisting(s, op, destination, account, c), w);
    ReachThen(w, AfterPersisting(s, op, destination, account, c), Installs);
  }

  lemma AlwaysPossible(s: System, w: World)
    ensures Possible(s, Installs, w)
    ensures forall c :: Possible(s, Recovers(c), w)
  {
  }

  /** A mutation of a recoverable kind can be carried through to rest, signed by its handler or by RECOVER_ANCHOR. */
  lemma CheckpointComesToRest(w: World, s: System, op: Operation, account: Owner, c: Context, next: Book)
    requires CollisionFree(w.hash) && Reachable(w, s) && Cleared(s) && c.refusal == None && c.database
    requires Possible(s, Persists(op, ZERO_ADDRESS, account, c), w)
    requires Apply(s.memory.book, op, c.env) == Ok(next) && Recoverable(KindOf(op))
    ensures exists t :: Resting(w, t, next) && t.vault.credits == s.vault.credits
                        && t.history == s.history + [Entry(op, ZERO_ADDRESS, next)]
  {
    hide Run, Possible, Apply, MoneySound, CreditedOnce, CreditsNumbered, Faithful, KindOf, OperationId, TermsOf, Recoverable;
    hide ExecutedInOrder, RootAt, PaysSomething, Resting, AfterHandling, Lockstep, HistorySound, WorkSound;
    ReachableKeepsInv(w, s);
    HandlerLeavesBehind(s, w, op, ZERO_ADDRESS, account, c);
    HandlerIsReached(w, s, op, ZERO_ADDRESS, account, c);
    RecoveryComesToRest(w, AfterHandling(s, op, ZERO_ADDRESS, account, c));
  }

  lemma RecoveryComesToRest(w: World, s: System)
    requires CollisionFree(w.hash) && Reachable(w, s) && Behind(s) && Recoverable(s.memory.pending.value.kind)
    ensures exists t :: Resting(w, t, s.memory.book) && t.vault.credits == s.vault.credits && t.history == s.history
  {
    hide Run, MoneySound, CreditedOnce, CreditsNumbered, Faithful, KindOf, OperationId, TermsOf, Recoverable, Possible;
    hide ExecutedInOrder, RootAt, PaysSomething, Resting, Exposed, Lockstep;
    ReachableKeepsInv(w, s);
    BehindFacts(s, w);
    var c := ContextAt(0);
    AlwaysPossible(s, w);
    ReachThen(w, s, Recovers(c));
    var x := AnchorSettlement(s.memory.pending.value, c.requestId, NO_MONEY, ZERO_ADDRESS, c.env.now);
    ExecutionComesToRest(w, Next(s, Recovers(c), w), x, 0);
  }

  // ---- A lender with a mandate, and a lender with a free balance ------------------------------------------

  function DepositedBook(w: World): Book {
    var id := FirstDepositId(w);
    NEW_BOOK.(accounts := map["lender" := Account(0, Balance(0, 0), Balance(5, 0), "")],
              processed := {id},
              activities := [Activity(id, "lender", true, USDT0, 5, 0)])
  }

  function MandateBook(w: World): Book {
    DepositedBook(w).(accounts := map["lender" := Account(1, Balance(0, 0), Balance(0, 5), "")],
                      mandates := map["m" := Mandate("m", "lender", 5, 600, 1, 5, true, 0, 0, 0)])
  }

  lemma DepositApplies(w: World)
    ensures Apply(NEW_BOOK, DepositOp("lender", USDT0, 5, FirstDepositId(w)), QUIET.env) == Ok(DepositedBook(w))
  {
    var r := Apply(NEW_BOOK, DepositOp("lender", USDT0, 5, FirstDepositId(w)), QUIET.env).value;
    assert r.accounts == DepositedBook(w).accounts && r.processed == DepositedBook(w).processed;
    assert r.activities == DepositedBook(w).activities;
  }

  lemma MandateApplies(w: World)
    ensures Apply(DepositedBook(w), SetMandateOp("lender", "m", 5, 600, 1, 5, 0), QUIET.env) == Ok(MandateBook(w))
  {
    var r := Apply(DepositedBook(w), SetMandateOp("lender", "m", 5, 600, 1, 5, 0), QUIET.env).value;
    assert r.accounts == MandateBook(w).accounts && r.mandates == MandateBook(w).mandates;
  }

  lemma FirstDepositRests(w: World)
    ensures Resting(w, FirstDeposit(w), NEW_BOOK)
  {
    hide Run;
    FirstDepositHappens(w);
  }

  /** The deposit is booked, with its settlement signed by RECOVER_ANCHOR instead of its handler. */
  lemma DepositIsBooked(w: World)
    requires CollisionFree(w.hash)
    ensures exists t :: Resting(w, t, DepositedBook(w))
                        && t.history == [Entry(DepositOp("lender", USDT0, 5, FirstDepositId(w)), ZERO_ADDRESS, DepositedBook(w))]
  {
    hide Run, Apply, DepositedBook, Resting;
    var s, op := FirstDeposit(w), DepositOp("lender", USDT0, 5, FirstDepositId(w));
    FirstDepositRests(w);
    DepositApplies(w);
    DepositIsPossible(w, QUIET.(signer := false));
    hide FirstDeposit;
    RestingFacts(w, s, NEW_BOOK);
    CheckpointComesToRest(w, s, op, "lender", QUIET.(signer := false), DepositedBook(w));
    assert FirstDeposit(w).history == [] by { NoHistoryYet(w); }
  }

  lemma NoHistoryYet(w: World)
    ensures FirstDeposit(w).history == []
  {
  }

  lemma RestingFacts(w: World, s: System, b: Book)
    requires Resting(w, s, b)
    ensures Reachable(w, s) && Cleared(s) && s.memory.book == b
  {
  }

  lemma DepositIsPossible(w: World, c: Context)
    requires c.env == QUIET.env
    ensures Possible(FirstDeposit(w), Persists(DepositOp("lender", USDT0, 5, FirstDepositId(w)), ZERO_ADDRESS, "lender", c), w)
  {
  }

  lemma MandateIsPossible(w: World, s: System)
    requires s.memory.book == DepositedBook(w)
    ensures Possible(s, Persists(SetMandateOp("lender", "m", 5, 600, 1, 5, 0), ZERO_ADDRESS, "lender", QUIET), w)
  {
  }

  lemma MandateIsSet(w: World)
    requires CollisionFree(w.hash)
    ensures exists t :: Resting(w, t, MandateBook(w))
  {
    hide Run, Apply, DepositedBook, MandateBook, Resting, Possible;
    DepositIsBooked(w);
    var s :| Resting(w, s, DepositedBook(w));
    RestingFacts(w, s, DepositedBook(w));
    MandateApplies(w);
    MandateIsPossible(w, s);
    CheckpointComesToRest(w, s, SetMandateOp("lender", "m", 5, 600, 1, 5, 0), "lender", QUIET, MandateBook(w));
  }

  // ---- A response that never leaves the enclave ---------------------------------------------------------------

  /** The response key is not a point of the curve, so the response to a mandate withdrawal cannot be encrypted. */
  const LOST := Context(Env(0, ["m"], [], (x: string) => 0), "request", None, true, true, false)

  function MandateWithdrawal(w: World): Operation {
    WithdrawFromMandateOp("lender", "m", 5, FirstDepositId(w) + "'", 1)
  }

  lemma WithdrawalIsPossible(w: World, s: System)
    requires s.memory.book == MandateBook(w)
    ensures Possible(s, Persists(MandateWithdrawal(w), "payee", "lender", LOST), w)
    ensures Apply(MandateBook(w), MandateWithdrawal(w), LOST.env).Ok?
  {
    assert MandateBook(w).mandates.Keys == {"m"};
    assert FirstDepositId(w) + "'" !in MandateBook(w).processed;
  }

  lemma WithdrawalShape(w: World)
    ensures
      var op := MandateWithdrawal(w);
      TermsOf(op, "payee").destination == "payee" && !Recoverable(KindOf(op))
  {
    hide FirstDepositId;
  }

  lemma LostWithdrawalIsHandled(w: World, s: System)
    requires CollisionFree(w.hash) && Resting(w, s, MandateBook(w))
    ensures
      var op := MandateWithdrawal(w);
      var t := AfterHandling(s, op, "payee", "lender", LOST);
      && Reachable(w, t) && Behind(t)
      && exists x :: x in t.signed && x.nextSequence == |t.history| && 0 <= x.deadline && x.terms == TermsOf(op, "payee")
  {
    hide Run, Apply, MandateBook, MandateWithdrawal, Possible, AfterHandling, Inv, KindOf, TermsOf;
    WithdrawalIsPossible(w, s);
    ReachableKeepsInv(w, s);
    HandlerLeavesBehind(s, w, MandateWithdrawal(w), "payee", "lender", LOST);
    HandlerIsReached(w, s, MandateWithdrawal(w), "payee", "lender", LOST);
  }

  lemma LostWithdrawalIsStranded(w: World, s: System)
    requires CollisionFree(w.hash) && Resting(w, s, MandateBook(w))
    ensures !Clearable(AfterHandling(s, MandateWithdrawal(w), "payee", "lender", LOST), w, 0)
  {
    hide Run, Apply, MandateBook, MandateWithdrawal, Possible, AfterHandling, Clearable, Inv, KindOf, TermsOf, Recoverable;
    WithdrawalIsPossible(w, s);
    WithdrawalShape(w);
    var events :| Run(events, w, s);
    CommittedPayoutClearableExactly(events, w, s, MandateWithdrawal(w), "payee", "lender", LOST, 0);
  }

  /**
    A payout that is signed, unexpired and names a destination, and whose anchor nothing can clear, because its
    response never left the enclave.
   */
  lemma LostResponseStrands(w: World)
    requires CollisionFree(w.hash)
    ensures exists s, x ::
              && Reachable(w, s) && Behind(s)
              && x in s.signed && x.nextSequence == |s.history| && 0 <= x.deadline && x.terms.destination == "payee"
              && !Clearable(s, w, 0)
  {
    hide Run, MandateBook, MandateWithdrawal, Resting, AfterHandling, Behind, Clearable, TermsOf, Recoverable;
    MandateIsSet(w);
    var s :| Resting(w, s, MandateBook(w));
    WithdrawalShape(w);
    LostWithdrawalIsHandled(w, s);
    LostWithdrawalIsStranded(w, s);
  }
}
