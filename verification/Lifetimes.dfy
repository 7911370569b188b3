/**
  A loan from its acceptance to its repayment, through whatever operations lie between: what
  the borrower pays in all depends on the amount, the rate, the time and the number of ticks.
 */
module Lifetimes {
  import opened Outcomes
  import opened Arithmetic
  import opened Model
  import opened Ordering
  import opened Loans
  import opened Matching
  import opened Operations
  import opened Invariants
  import opened Lending
  import opened RiskTicks
  import opened Ledger
  import opened Nonces
  import opened Figures
  import opened Payments

  /** What no accrual and no risk update changes. */
  predicate SameContract(l: Loan, l': Loan) {
    l' == l.(lastAccruedAt := l'.lastAccruedAt, accruedRay := l'.accruedRay, status := l'.status,
             healthFactor := l'.healthFactor, liquidationPrice := l'.liquidationPrice)
  }

  /**
    The loan `first`, some time later, after at most `n` accruals: its interest lies between the base rate for the whole
    time, less one unit for each accrual, and the rate now in force for the whole time.
   */
  predicate GrownFrom(first: Loan, l: Loan, n: nat) {
    && SameContract(first, l) && first.lastAccruedAt <= l.lastAccruedAt && first.accruedRay <= l.accruedRay
    && var elapsed, grown := l.lastAccruedAt - first.lastAccruedAt, l.accruedRay - first.accruedRay;
       && grown * (10_000 * 31_536_000) <= Charge(l.principal, RateAt(l, l.lastAccruedAt), elapsed)
       && Charge(l.principal, l.borrowerApr, elapsed) <= (grown + n) * (10_000 * 31_536_000)
  }

  lemma NothingGrown(l: Loan)
    ensures GrownFrom(l, l, 0)
  {
    assert l.principal * l.borrowerApr * 0 == 0;
    assert l.principal * RateAt(l, l.lastAccruedAt) * 0 == 0;
  }

  lemma MoreAccruals(first: Loan, l: Loan, n: nat)
    requires GrownFrom(first, l, n)
    ensures GrownFrom(first, l, n + 1)
  {
  }

  lemma RiskUpdateGrowsNothing(first: Loan, l: Loan, n: nat, price: u64, now: Time)
    requires GrownFrom(first, l, n) && UpdateRisk(l, price, now).Ok?
    ensures GrownFrom(first, UpdateRisk(l, price, now).value, n)
  {
    hide UpdateRisk, Charge;
    UpdateRiskFrame(l, price, now);
  }

  lemma ChargeAdds(principal: nat, rate: nat, rate': nat, e: nat, e': nat)
    requires rate <= rate'
    ensures Charge(principal, rate, e) <= Charge(principal, rate', e)
    ensures Charge(principal, rate, e) + Charge(principal, rate, e') == Charge(principal, rate, e + e')
  {
    NumeratorAdds(principal, rate, rate', e, e');
  }

  lemma AccruedCharge(l: Loan, r: Loan, now: Time)
    requires AccruedTo(l, r, now) && now > l.lastAccruedAt
    ensures SameContract(l, r) && r.lastAccruedAt == now && l.accruedRay <= r.accruedRay
    ensures
      var d := r.accruedRay - l.accruedRay;
      && d * (10_000 * 31_536_000) <= Charge(l.principal, RateAt(l, now), now - l.lastAccruedAt)
      && Charge(l.principal, RateAt(l, now), now - l.lastAccruedAt) < (d + 1) * (10_000 * 31_536_000)
  {
  }

  lemma AccrualGrows(first: Loan, l: Loan, n: nat, now: Time)
    requires GrownFrom(first, l, n) && Accrue(l, now).Ok?
    ensures GrownFrom(first, Accrue(l, now).value, n + 1)
  {
    hide Accrue, Charge, AccruedTo;
    AccruesExactly(l, now);
    if now > l.lastAccruedAt {
      var elapsed, more := l.lastAccruedAt - first.lastAccruedAt, now - l.lastAccruedAt;
      AccruedCharge(l, Accrue(l, now).value, now);
      ChargeAdds(l.principal, RateAt(l, l.lastAccruedAt), RateAt(l, now), elapsed, more);
      ChargeAdds(l.principal, RateAt(l, now), RateAt(l, now), elapsed, more);
      ChargeAdds(l.principal, l.borrowerApr, RateAt(l, now), more, more);
      ChargeAdds(l.principal, l.borrowerApr, l.borrowerApr, elapsed, more);
    } else {
      NothingAccrued(l, Accrue(l, now).value, now);
      MoreAccruals(first, l, n);
    }
  }

  lemma NothingAccrued(l: Loan, r: Loan, now: Time)
    requires AccruedTo(l, r, now) && now <= l.lastAccruedAt
    ensures r == l
  {
  }

  // ---- One operation --------------------------------------------------------------------------------

  lemma {:induction false} TickAllElsewhere(b: Book, keys: seq<Id>, now: Time, key: Id)
    requires TickAll(b, keys, now).Ok? && key !in keys && key in b.loans
    ensures key in TickAll(b, keys, now).value.loans && TickAll(b, keys, now).value.loans[key] == b.loans[key]
    decreases |keys|
  {
    hide TickLoan;
    if keys != [] {
      TickLoanFrame(b, keys[0], now);
      TickAllElsewhere(TickLoan(b, keys[0], now).value, keys[1..], now, key);
    }
  }

  /** Ticking a loan grows it or liquidates it. */
  lemma TickLoanGrows(b: Book, key: Id, now: Time, first: Loan, n: nat)
    requires key in b.loans && b.loans[key].Open() && GrownFrom(first, b.loans[key], n) && TickLoan(b, key, now).Ok?
    ensures
      var next := TickLoan(b, key, now).value;
      key in next.loans && (next.loans[key].Open() ==> GrownFrom(first, next.loans[key], n + 1))
  {
    hide Accrue, UpdateRisk, LiquidateInState, GrownFrom, Debt;
    var accrued := Accrue(b.loans[key], now).value;
    AccrualGrows(first, b.loans[key], n, now);
    RiskUpdateGrowsNothing(first, accrued, n + 1, b.price.xrpUsdE6, now);
    var l := UpdateRisk(accrued, b.price.xrpUsdE6, now).value;
    if l.status == Liquidatable && b.backstopUsdt0 >= Debt(l).value {
      LiquidationFrame(b.(loans := b.loans[key := l]), key, l);
    }
  }

  lemma {:induction false} TickAllGrows(b: Book, keys: seq<Id>, now: Time, key: Id, first: Loan, n: nat)
    requires NoDuplicates(keys) && TickAll(b, keys, now).Ok?
    requires key in b.loans && b.loans[key].Open() && GrownFrom(first, b.loans[key], n)
    ensures
      var next := TickAll(b, keys, now).value;
      key in next.loans && (next.loans[key].Open() ==> GrownFrom(first, next.loans[key], n + 1))
    decreases |keys|
  {
    hide TickLoan, GrownFrom;
    if keys == [] {
      MoreAccruals(first, b.loans[key], n);
    } else if keys[0] == key {
      TickLoanGrows(b, key, now, first, n);
      TickAllElsewhere(TickLoan(b, key, now).value, keys[1..], now, key);
    } else {
      TickLoanFrame(b, keys[0], now);
      TickAllGrows(TickLoan(b, keys[0], now).value, keys[1..], now, key, first, n);
    }
  }

  lemma RepayTouchesOneLoan(b: Book, owner: Owner, amount: u64, operationId: Id, nonce: u64, now: Time, key: Id)
    requires Repay(b, owner, amount, operationId, nonce, now).Ok? && key in b.loans && b.loans[key].Open()
    ensures
      var next := Repay(b, owner, amount, operationId, nonce, now).value;
      key in next.loans && (next.loans[key].Open() ==> next.loans[key] == b.loans[key])
  {
    hide DistributeTo, Accrue, Debt;
    var a := ConsumeNonce(AccountOf(b, owner), nonce).value;
    var l := Accrue(b.loans[a.loanId], now).value;
    var due := Debt(l).value;
    var usdt0 := a.usdt0.(available := WrapSub(a.usdt0.available, due));
    DistributeToFrame(l, due - l.principal, l.tranches, Distribution(PutAccount(b, owner, a.(usdt0 := usdt0)), 0, 0));
  }

  lemma AcceptAddsALoan(
    b: Book, q: Quote, loanId: Id, nonce: u64, observed: Option<Price>, now: Time, order: seq<Id>, hash: Hash, key: Id)
    requires AcceptQuote(b, q, loanId, nonce, observed, now, order, hash).Ok? && LoanIdUsable(b, loanId)
    requires key in b.loans && b.loans[key].Open()
    ensures
      var next := AcceptQuote(b, q, loanId, nonce, observed, now, order, hash).value;
      key in next.loans && next.loans[key] == b.loans[key]
  {
    hide MakeQuote, Allocate, UpdateRisk, SameQuote, RequestOf, FreshObservation;
  }

  /** Operations on balances and mandates leave every loan as it is. */
  lemma FundsLeaveLoans(b: Book, op: Operation, env: Env, next: Book)
    requires !op.AcceptOp? && !op.RiskTickOp? && !op.RepayOp? && !op.LiquidateOp? && Apply(b, op, env) == Ok(next)
    ensures next.loans == b.loans
  {
    hide Drain, ByAge, Retire, Settled;
  }

  lemma OperationGrows(b: Book, op: Operation, env: Env, next: Book, key: Id, first: Loan, n: nat)
    requires Apply(b, op, env) == Ok(next) && NoDuplicates(env.loanOrder)
    requires op.AcceptOp? ==> LoanIdUsable(b, op.loanId)
    requires key in b.loans && b.loans[key].Open() && GrownFrom(first, b.loans[key], n)
    ensures key in next.loans
    ensures next.loans[key].Open() ==> GrownFrom(first, next.loans[key], n + if op.RiskTickOp? then 1 else 0)
  {
    hide OpenAccount, Deposit, SetMandate, CancelMandate, AcceptQuote, Repay, SeedBackstop, Withdraw, WithdrawFromMandate;
    hide TickAll, LiquidateInState, GrownFrom, LoanIdUsable;
    match op
    case AcceptOp(q, loanId, nonce, observed) =>
      AcceptAddsALoan(b, q, loanId, nonce, observed, env.now, env.mandateOrder, env.hash, key);
    case RiskTickOp(price, _) => TickAllGrows(b.(price := price), env.loanOrder, env.now, key, first, n);
    case RepayOp(owner, amount, id, nonce) => RepayTouchesOneLoan(b, owner, amount, id, nonce, env.now, key);
    case LiquidateOp(loanId, _) => LiquidationFrame(b, loanId, b.loans[loanId]);
    case _ => FundsLeaveLoans(b, op, env, next);
  }

  // ---- A whole life ------------------------------------------------------------------------------------

  /** Operations that all succeed while the loan stays open. */
  ghost predicate Lasts(b: Book, ops: seq<Operation>, envs: seq<Env>, key: Id)
    requires |ops| == |envs|
    decreases |ops|
  {
    && key in b.loans && b.loans[key].Open()
    && (ops != [] ==>
          && NoDuplicates(envs[0].loanOrder)
          && (ops[0].AcceptOp? ==> LoanIdUsable(b, ops[0].loanId))
          && var r := Apply(b, ops[0], envs[0]);
             r.Ok? && Lasts(r.value, ops[1..], envs[1..], key))
  }

  function Ticks(ops: seq<Operation>): nat {
    if ops == [] then 0 else (if ops[0].RiskTickOp? then 1 else 0) + Ticks(ops[1..])
  }

  lemma {:induction false} LifeGrows(b: Book, ops: seq<Operation>, envs: seq<Env>, key: Id, first: Loan, n: nat)
    requires |ops| == |envs| && Lasts(b, ops, envs, key) && GrownFrom(first, b.loans[key], n)
    ensures ApplyAll(b, ops, envs).Ok?
    ensures
      var c := ApplyAll(b, ops, envs).value;
      key in c.loans && c.loans[key].Open() && GrownFrom(first, c.loans[key], n + Ticks(ops))
    decreases |ops|
  {
    hide Apply, GrownFrom, LoanIdUsable;
    if ops != [] {
      var next := Apply(b, ops[0], envs[0]).value;
      OperationGrows(b, ops[0], envs[0], next, key, first, n);
      LifeGrows(next, ops[1..], envs[1..], key, first, n + if ops[0].RiskTickOp? then 1 else 0);
    }
  }

  /** The interest that a borrower pays in whole units, over a time and at most `n` accruals. */
  predicate InterestOver(interest: nat, amount: nat, base: nat, rate: nat, elapsed: nat, n: nat) {
    && interest * (10_000 * 31_536_000) <= amount * rate * elapsed
    && amount * base * elapsed * 1_000_000 < ((interest + 1) * 1_000_000 + n) * (10_000 * 31_536_000)
  }

  lemma WholeUnits(first: Loan, l: Loan, n: nat)
    requires GrownFrom(first, l, n) && first.accruedRay == 0
    ensures InterestOver(l.accruedRay / 1_000_000, l.principal, l.borrowerApr, RateAt(l, l.lastAccruedAt),
                         l.lastAccruedAt - first.lastAccruedAt, n)
  {
    var interest := l.accruedRay / 1_000_000;
    FloorBounds(l.accruedRay, 1_000_000);
    assert interest * 1_000_000 * (10_000 * 31_536_000) <= l.accruedRay * (10_000 * 31_536_000);
    assert l.accruedRay + n < (interest + 1) * 1_000_000 + n;
  }

  /** The loan was accepted at `start`, and after these operations, through which it stays open, the book is `c`. */
  ghost predicate Lived(
    b: Book, q: Quote, loanId: Id, nonce: u64, start: Time, ops: seq<Operation>, envs: seq<Env>, c: Book)
  {
    var r := Originate(b, q, loanId, nonce, start);
    && r.Ok? && |ops| == |envs| && Lasts(r.value, ops, envs, loanId) && ApplyAll(r.value, ops, envs) == Ok(c)
  }

  /** The borrower pays back the amount and this interest. */
  ghost predicate Costs(interest: nat, q: Quote, start: Time, now: Time, ticks: nat, c: Book, next: Book, l: Loan)
    requires start <= now
  {
    var rate := q.borrowerApr + (if now > start + q.termDays * 86_400 + 86_400 then 300 else 0);
    && InterestOver(interest, q.amount, q.borrowerApr, rate, now - start, ticks + 1)
    && PaidBack(c, next, l, q.amount + interest, q.borrower)
  }

  lemma LivedLoan(
    b: Book, q: Quote, loanId: Id, nonce: u64, start: Time, ops: seq<Operation>, envs: seq<Env>, c: Book, first: Loan)
    requires Lived(b, q, loanId, nonce, start, ops, envs, c)
    requires loanId in Originate(b, q, loanId, nonce, start).value.loans
    requires first == Originate(b, q, loanId, nonce, start).value.loans[loanId]
    ensures loanId in c.loans && c.loans[loanId].Open() && GrownFrom(first, c.loans[loanId], Ticks(ops))
  {
    hide ApplyAll, Lasts, GrownFrom, Originate;
    NothingGrown(first);
    LifeGrows(Originate(b, q, loanId, nonce, start).value, ops, envs, loanId, first, 0);
  }

  /**
    From acceptance to repayment, through any operations of the ledger: besides the amount itself the borrower pays at
    most its rate on it for the whole time, with the late rate if it is late now, and at least its base rate less one
    unit and a millionth of a unit for each accrual on the way.
   */
  lemma BorrowingCosts(
    b: Book, q: Quote, loanId: Id, nonce: u64, start: Time, ops: seq<Operation>, envs: seq<Env>, c: Book,
    amount: u64, operationId: Id, nonce': u64, now: Time, next: Book)
    requires Lived(b, q, loanId, nonce, start, ops, envs, c) && Sound(c)
    requires Repay(c, q.borrower, amount, operationId, nonce', now) == Ok(next)
    requires loanId in c.loans && c.loans[loanId].lastAccruedAt <= now
    ensures start <= now && exists interest: nat :: Costs(interest, q, start, now, Ticks(ops), c, next, c.loans[loanId])
    ensures c.loans[loanId].tranches == q.tranches && c.loans[loanId].collateral == q.collateral
  {
    hide Lived, Repay, Sound, PaidBack, Accrue, GrownFrom, Originate, InterestOver;
    var first := NewLoanContract(b, q, loanId, nonce, start, ops, envs, c);
    LivedLoan(b, q, loanId, nonce, start, ops, envs, c, first);
    var l := c.loans[loanId];
    GrownContract(first, l, Ticks(ops));
    RepaymentPaysBack(c, q.borrower, amount, operationId, nonce', now, next);
    TheLoanIsNamed(c, loanId, first.borrower);
    AccrualGrows(first, l, Ticks(ops), now);
    var accrued := Accrue(l, now).value;
    AccruesExactly(l, now);
    GrownContract(first, accrued, Ticks(ops) + 1);
    WholeUnits(first, accrued, Ticks(ops) + 1);
    DueIsAmountAndInterest(accrued);
    assert Costs(accrued.accruedRay / 1_000_000, q, start, now, Ticks(ops), c, next, l);
  }

  lemma DueIsAmountAndInterest(l: Loan)
    ensures Debt(l).Ok? ==> Debt(l).value == l.principal + l.accruedRay / 1_000_000
  {
  }

  lemma GrownContract(first: Loan, l: Loan, n: nat)
    requires GrownFrom(first, l, n)
    ensures SameContract(first, l) && first.lastAccruedAt <= l.lastAccruedAt
  {
  }

  lemma TheLoanIsNamed(c: Book, loanId: Id, borrower: Owner)
    requires Sound(c) && loanId in c.loans && c.loans[loanId].Open() && c.loans[loanId].borrower == borrower
    ensures AccountOf(c, borrower).loanId == loanId
  {
    hide FreeUsdt0, TotalFxrp, ReservedBacked, LentBacked;
    assert OpenLoanLinked(c, loanId);
  }

  lemma NewLoanContract(
    b: Book, q: Quote, loanId: Id, nonce: u64, start: Time, ops: seq<Operation>, envs: seq<Env>, c: Book) returns (l: Loan)
    requires Lived(b, q, loanId, nonce, start, ops, envs, c)
    ensures loanId in Originate(b, q, loanId, nonce, start).value.loans
    ensures l == Originate(b, q, loanId, nonce, start).value.loans[loanId]
    ensures l.borrower == q.borrower && l.principal == q.amount && l.borrowerApr == q.borrowerApr
    ensures l.tranches == q.tranches && l.collateral == q.collateral
    ensures l.maturesAt == start + q.termDays * 86_400 && l.lastAccruedAt == start && l.accruedRay == 0
  {
    hide Allocate, UpdateRisk, ApplyAll, Lasts;
    UpdateRiskFrame(NewLoan(q, loanId, start), b.price.xrpUsdE6, start);
    l := Originate(b, q, loanId, nonce, start).value.loans[loanId];
  }
}
