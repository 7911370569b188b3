/**
  Replay protection: an operation that carries a nonce succeeds only on its owner's current
  nonce and advances it; nothing else moves any nonce.
 */
module Nonces {
  import opened Outcomes
  import opened Arithmetic
  import opened Model
  import opened Loans
  import opened Matching
  import opened Operations
  import opened Ledger

  function NonceOf(b: Book, owner: Owner): u64 {
    AccountOf(b, owner).nonce
  }

  /** The account whose nonce an operation consumes, with the nonce that it carries. */
  function Carries(op: Operation): Option<(Owner, u64)> {
    match op
    case OpenAccountOp(owner, _, nonce) => Some((owner, nonce))
    case SetMandateOp(owner, _, _, _, _, _, nonce) => Some((owner, nonce))
    case CancelMandateOp(owner, _, nonce) => Some((owner, nonce))
    case AcceptOp(q, _, nonce, _) => Some((q.borrower, nonce))
    case RepayOp(owner, _, _, nonce) => Some((owner, nonce))
    case WithdrawOp(owner, _, _, _, nonce) => Some((owner, nonce))
    case WithdrawFromMandateOp(owner, _, _, _, nonce) => Some((owner, nonce))
    case _ => None
  }

  ghost predicate SameNonces(b: Book, next: Book) {
    forall o :: NonceOf(next, o) == NonceOf(b, o)
  }

  ghost predicate NonceMoves(b: Book, next: Book, owner: Owner, nonce: u64) {
    && NonceOf(b, owner) == nonce
    && NonceOf(next, owner) == WrapAdd(nonce, 1)
    && (forall o :: o != owner ==> NonceOf(next, o) == NonceOf(b, o))
  }

  lemma ReturnTrancheSameNonces(b: Book, t: Tranche, earned: u64)
    requires ReturnTranche(b, t, earned).Ok?
    ensures SameNonces(b, ReturnTranche(b, t, earned).value)
  {
  }

  lemma {:induction false} DistributeSameNonces(l: Loan, interest: u64, ts: seq<Tranche>, d: Distribution)
    requires DistributeTo(l, interest, ts, d).Ok?
    ensures SameNonces(d.book, DistributeTo(l, interest, ts, d).value.book)
    decreases |ts|
  {
    if ts != [] {
      hide ReturnTranche, LenderInterest;
      var earned := LenderInterest(l, interest, ts[0]).value;
      var book := ReturnTranche(d.book, ts[0], earned).value;
      ReturnTrancheSameNonces(d.book, ts[0], earned);
      DistributeSameNonces(l, interest, ts[1..], Distribution(book, d.returned + ts[0].principal, d.paid + earned));
    }
  }

  lemma RepaymentSameNonces(b: Book, l: Loan, interest: u64)
    requires DistributeRepayment(b, l, interest).Ok?
    ensures SameNonces(b, DistributeRepayment(b, l, interest).value)
  {
    hide DistributeTo;
    DistributeSameNonces(l, interest, l.tranches, Distribution(b, 0, 0));
  }

  lemma ReleaseSameNonces(b: Book, borrower: Owner, l: Loan, seized: u64)
    ensures SameNonces(b, ReleaseCollateral(b, borrower, l, seized))
  {
  }

  lemma CloseSameNonces(b: Book, key: Id, l: Loan, borrower: Owner, status: Status)
    ensures SameNonces(b, CloseLoan(b, key, l, borrower, status))
  {
  }

  lemma SameNoncesChain(a: Book, b: Book, c: Book, d: Book)
    requires SameNonces(a, b) && SameNonces(b, c) && SameNonces(c, d)
    ensures SameNonces(a, d)
  {
    forall o ensures NonceOf(d, o) == NonceOf(a, o) {
      assert NonceOf(b, o) == NonceOf(a, o) && NonceOf(c, o) == NonceOf(b, o);
    }
  }

  lemma LiquidationSameNonces(b: Book, key: Id, l: Loan)
    requires LiquidateInState(b, key, l).Ok?
    ensures SameNonces(b, LiquidateInState(b, key, l).value)
  {
    hide DistributeRepayment, Debt, SeizeAmount;
    var due := Debt(l).value;
    var seize := SeizeAmount(l, due, b.price.xrpUsdE6).value;
    var debited := BackstopPays(b, due, seize);
    var released := ReleaseCollateral(debited, l.borrower, l, seize);
    var paid := DistributeRepayment(released, l, due - l.principal).value;
    ReleaseSameNonces(debited, l.borrower, l, seize);
    RepaymentSameNonces(released, l, due - l.principal);
    CloseSameNonces(paid, key, l, l.borrower, Liquidated);
    SameNoncesChain(debited, released, paid, CloseLoan(paid, key, l, l.borrower, Liquidated));
  }

  lemma {:induction false} TickSameNonces(b: Book, keys: seq<Id>, now: Time)
    requires TickAll(b, keys, now).Ok?
    ensures SameNonces(b, TickAll(b, keys, now).value)
    decreases |keys|
  {
    if keys != [] {
      TickLoanSameNonces(b, keys[0], now);
      hide TickLoan;
      TickSameNonces(TickLoan(b, keys[0], now).value, keys[1..], now);
    }
  }

  lemma TickLoanSameNonces(b: Book, key: Id, now: Time)
    requires TickLoan(b, key, now).Ok?
    ensures SameNonces(b, TickLoan(b, key, now).value)
  {
    hide LiquidateInState, Accrue, UpdateRisk;
    if key in b.loans && b.loans[key].Open() {
      var l := UpdateRisk(Accrue(b.loans[key], now).value, b.price.xrpUsdE6, now).value;
      if l.status == Liquidatable && b.backstopUsdt0 >= Debt(l).value {
        LiquidationSameNonces(b.(loans := b.loans[key := l]), key, l);
      }
    }
  }

  lemma RepayMovesNonce(b: Book, owner: Owner, amount: u64, operationId: Id, nonce: u64, now: Time, next: Book)
    requires Repay(b, owner, amount, operationId, nonce, now) == Ok(next)
    ensures NonceMoves(b, next, owner, nonce)
  {
    hide DistributeRepayment, Accrue, Debt;
    var a := ConsumeNonce(AccountOf(b, owner), nonce).value;
    var l := Accrue(b.loans[a.loanId], now).value;
    var due := Debt(l).value;
    var usdt0 := a.usdt0.(available := WrapSub(a.usdt0.available, due));
    var paidIn := PutAccount(b, owner, a.(usdt0 := usdt0));
    var paid := DistributeRepayment(paidIn, l, due - l.principal).value;
    var released := ReleaseCollateral(paid, owner, l, 0);
    var closed := CloseLoan(released, a.loanId, l, owner, Closed);
    RepaymentSameNonces(paidIn, l, due - l.principal);
    ReleaseSameNonces(paid, owner, l, 0);
    CloseSameNonces(released, a.loanId, l, owner, Closed);
    SameNoncesChain(paidIn, paid, released, closed);
    assert next == Mark(closed, operationId);
    forall o ensures NonceOf(next, o) == NonceOf(closed, o) == NonceOf(paidIn, o) {
    }
  }

  lemma AcceptMovesNonce(
    b: Book, q: Quote, loanId: Id, nonce: u64, observed: Option<Price>, now: Time, order: seq<Id>, hash: Hash, next: Book)
    requires AcceptQuote(b, q, loanId, nonce, observed, now, order, hash) == Ok(next)
    ensures NonceMoves(b, next, q.borrower, nonce)
  {
    hide MakeQuote, Allocate, UpdateRisk, NewLoan, SameQuote, RequestOf, FreshObservation;
  }

  lemma WithdrawMovesNonce(
    b: Book, owner: Owner, asset: Asset, amount: u64, operationId: Id, nonce: u64, now: Time, order: seq<Id>, next: Book)
    requires Withdraw(b, owner, asset, amount, operationId, nonce, now, order) == Ok(next)
    ensures NonceMoves(b, next, owner, nonce)
  {
    hide Drain, ByAge, Retire;
  }

  /** The operations that write one account and at most one mandate. */
  lemma SimpleOperationMovesNonce(b: Book, op: Operation, env: Env, next: Book)
    requires op.OpenAccountOp? || op.SetMandateOp? || op.CancelMandateOp? || op.WithdrawFromMandateOp?
    requires Apply(b, op, env) == Ok(next)
    ensures NonceMoves(b, next, op.owner, op.nonce)
  {
    hide Settled;
  }

  lemma CreditSameNonces(b: Book, op: Operation, env: Env, next: Book)
    requires op.DepositOp? || op.BackstopOp?
    requires Apply(b, op, env) == Ok(next)
    ensures SameNonces(b, next)
  {
  }

  /** Every operation moves its owner's nonce by one, or no nonce at all. */
  lemma NoncesMoveOnlyByTheirOwner(b: Book, op: Operation, env: Env, next: Book)
    requires Apply(b, op, env) == Ok(next)
    ensures
      match Carries(op)
      case Some((owner, nonce)) => NonceMoves(b, next, owner, nonce)
      case None => SameNonces(b, next)
  {
    hide OpenAccount, Deposit, SetMandate, CancelMandate, AcceptQuote, Repay, SeedBackstop, Withdraw;
    hide WithdrawFromMandate;
    hide TickAll, LiquidateInState, SameNonces, NonceMoves, FreshObservation;
    match op
    case OpenAccountOp(_, _, _) => SimpleOperationMovesNonce(b, op, env, next);
    case DepositOp(_, _, _, _) => CreditSameNonces(b, op, env, next);
    case SetMandateOp(_, _, _, _, _, _, _) => SimpleOperationMovesNonce(b, op, env, next);
    case CancelMandateOp(_, _, _) => SimpleOperationMovesNonce(b, op, env, next);
    case AcceptOp(q, loanId, nonce, observed) =>
      AcceptMovesNonce(b, q, loanId, nonce, observed, env.now, env.mandateOrder, env.hash, next);
    case RiskTickOp(price, id) =>
      TickSameNonces(b.(price := price), env.loanOrder, env.now);
      LoggedSameNonces(b.(price := price), TickAll(b.(price := price), env.loanOrder, env.now).value, b, next);
    case RepayOp(owner, amount, id, nonce) => RepayMovesNonce(b, owner, amount, id, nonce, env.now, next);
    case LiquidateOp(loanId, id) =>
      LiquidationSameNonces(b, loanId, b.loans[loanId]);
      LoggedSameNonces(b, LiquidateInState(b, loanId, b.loans[loanId]).value, b, next);
    case BackstopOp(_, _) => CreditSameNonces(b, op, env, next);
    case WithdrawOp(owner, asset, amount, id, nonce) =>
      WithdrawMovesNonce(b, owner, asset, amount, id, nonce, env.now, env.mandateOrder, next);
    case WithdrawFromMandateOp(_, _, _, _, _) => SimpleOperationMovesNonce(b, op, env, next);
  }

  lemma LoggedSameNonces(b: Book, next: Book, b': Book, next': Book)
    requires SameNonces(b, next) && b'.accounts == b.accounts && next'.accounts == next.accounts
    ensures SameNonces(b', next')
  {
    forall o ensures NonceOf(next', o) == NonceOf(b', o) {
      assert NonceOf(next, o) == NonceOf(b, o);
    }
  }

  /** Steps of the ledger, one after the other. */
  function ApplyAll(b: Book, ops: seq<Operation>, envs: seq<Env>): Result<Book>
    requires |ops| == |envs|
    decreases |ops|
  {
    if ops == [] then Ok(b)
    else
      var next :- Apply(b, ops[0], envs[0]);
      ApplyAll(next, ops[1..], envs[1..])
  }

  function CountFor(ops: seq<Operation>, owner: Owner): nat {
    if ops == [] then 0
    else (if Carries(ops[0]).Some? && Carries(ops[0]).value.0 == owner then 1 else 0) + CountFor(ops[1..], owner)
  }

  /** An account's nonce counts its own operations. */
  lemma {:induction false} NonceCountsOperations(b: Book, ops: seq<Operation>, envs: seq<Env>, owner: Owner)
    requires |ops| == |envs| && ApplyAll(b, ops, envs).Ok?
    ensures NonceOf(ApplyAll(b, ops, envs).value, owner) == (NonceOf(b, owner) + CountFor(ops, owner)) % TWO64
    decreases |ops|
  {
    hide Apply;
    if ops != [] {
      var next := Apply(b, ops[0], envs[0]).value;
      NoncesMoveOnlyByTheirOwner(b, ops[0], envs[0], next);
      NonceCountsOperations(next, ops[1..], envs[1..], owner);
      var first := CountFor(ops, owner) - CountFor(ops[1..], owner);
      WrapStep(NonceOf(b, owner), first, CountFor(ops[1..], owner));
      assert NonceOf(next, owner) == if first == 1 then WrapAdd(NonceOf(b, owner), 1) else NonceOf(b, owner);
    }
  }

  lemma WrapStep(nonce: u64, first: nat, rest: nat)
    requires first <= 1
    ensures ((if first == 1 then WrapAdd(nonce, 1) else nonce) + rest) % TWO64 == (nonce + first + rest) % TWO64
  {
  }

  /** An operation that once succeeded is refused if it is sent again, until its owner has sent 2^64 - 1 others. */
  lemma ReplayIsRefused(
    b: Book, op: Operation, env: Env, next: Book, ops: seq<Operation>, envs: seq<Env>, later: Book, again: Env)
    requires Carries(op).Some? && Apply(b, op, env) == Ok(next)
    requires |ops| == |envs| && ApplyAll(next, ops, envs) == Ok(later)
    requires CountFor(ops, Carries(op).value.0) < TWO64 - 1
    ensures Apply(later, op, again).Err?
  {
    hide Apply, CountFor, ApplyAll;
    var (owner, nonce) := Carries(op).value;
    NoncesMoveOnlyByTheirOwner(b, op, env, next);
    NonceCountsOperations(next, ops, envs, owner);
    WrapStep(nonce, 1, CountFor(ops, owner));
    if Apply(later, op, again).Ok? {
      NoncesMoveOnlyByTheirOwner(later, op, again, Apply(later, op, again).value);
      assert false;
    }
  }
}
