/**
  Repayment and liquidation end to end: both keep the books, move no funds in or out,
  and return or seize exactly the collateral; a repayment fails only for reasons the
  borrower can see or when a lifetime interest counter would overflow.
 */
module Closing {
  import opened Outcomes
  import opened Arithmetic
  import opened MapSums
  import opened Model
  import opened Loans
  import opened Operations
  import opened Invariants
  import opened Conservation
  import opened Lending
  import opened Interest
  import opened Repayment

  // ---- Accrued and reassessed loans ----------------------------------------------------

  lemma AccrueFrame(l: Loan, now: Time)
    requires Accrue(l, now).Ok?
    ensures
      var r := Accrue(l, now).value;
      r == l.(accruedRay := r.accruedRay, lastAccruedAt := r.lastAccruedAt)
  {
  }

  /** Storing new interest or risk figures of an open loan changes no total and no link. */
  lemma LoanUpdateKeeps(b: Book, key: Id, l: Loan)
    requires Structure(b) && IsOpenLoan(b, key, l)
    ensures
      var next := b.(loans := b.loans[key := l]);
      Structure(next) && Moves(b, next, 0, 0) && IsOpenLoan(next, key, l)
  {
    hide Sum, OpenLoanLinked, AccountLinked, ReservedBacked;
    var next := b.(loans := b.loans[key := l]);
    LoanUpdateSums(b, key, l, "");
    forall id | id in next.mandates ensures MandateSound(next, id) && next.mandates[id].lent == Sum(next.loans, OwedTo(id)) {
      LoanUpdateSums(b, key, l, id);
      assert MandateSound(b, id);
    }
    LoanUpdateLinks(b, key, l);
  }

  lemma LoanUpdateLinks(b: Book, key: Id, l: Loan)
    requires Structure(b) && IsOpenLoan(b, key, l)
    ensures
      var next := b.(loans := b.loans[key := l]);
      && (forall k :: k in next.loans ==> OpenLoanLinked(next, k))
      && (forall o :: o in next.accounts ==> AccountLinked(next, o))
  {
    hide Sum, LoanSound, ReservedBacked, LentBacked, MandateSound;
    var next := b.(loans := b.loans[key := l]);
    forall k | k in next.loans ensures OpenLoanLinked(next, k) {
      assert OpenLoanLinked(b, k);
      LoanSoundSame(b.mandates, b.loans[key], l);
    }
    forall o | o in next.accounts ensures AccountLinked(next, o) {
      assert AccountLinked(b, o);
    }
  }

  lemma LoanSoundSame(mandates: map<Id, Mandate>, l: Loan, l': Loan)
    requires l'.collateral == l.collateral && l'.principal == l.principal
    requires l'.borrowerApr == l.borrowerApr && l'.tranches == l.tranches
    ensures LoanSound(mandates, l) <==> LoanSound(mandates, l')
  {
  }

  lemma LoanUpdateSums(b: Book, key: Id, l: Loan, id: Id)
    requires IsOpenLoan(b, key, l)
    ensures Sum(b.loans[key := l], OwedTo(id)) == Sum(b.loans, OwedTo(id))
    ensures Sum(b.loans[key := l], OpenPrincipal()) == Sum(b.loans, OpenPrincipal())
  {
    SumUpdate(b.loans, key, l, OwedTo(id));
    SumUpdate(b.loans, key, l, OpenPrincipal());
  }

  // ---- Funds in place ---------------------------------------------------------------------

  lemma SoundLoanRepayable(b: Book, key: Id, l: Loan, interest: nat)
    requires Structure(b) && IsOpenLoan(b, key, l)
    requires interest <= MAX64 && FreeUsdt0(b) - b.backstopUsdt0 + l.principal + interest <= MAX64
    ensures Repayable(b, l, interest)
  {
    OpenLoanFacts(b, key, l);
    forall t | t in l.tranches ensures Returnable(b, t) && t.principal <= l.principal {
      LoanReturnable(b, key, l, t);
    }
    hide Sum, OpenLoanLinked, AccountLinked, MandateSound, LentBacked, Returnable, Priced;
  }

  /** What happens to FXRP does not matter to a distribution. */
  lemma RepayableIgnoresFxrp(b: Book, c: Book, l: Loan, interest: nat)
    requires Repayable(b, l, interest)
    requires c.mandates == b.mandates && c.accounts.Keys == b.accounts.Keys
    requires forall o :: o in b.accounts ==> c.accounts[o].usdt0 == b.accounts[o].usdt0
    requires c.protocolReserve == b.protocolReserve
    ensures Repayable(c, l, interest)
    ensures Lendable(c) == Lendable(b)
  {
    SumCongruent(b.accounts, c.accounts, UsdtAvailable(), UsdtAvailable());
    hide Sum, Priced;
  }

  // ---- Repayment ------------------------------------------------------------------------------

  lemma PrincipalWithinDebt(b: Book, key: Id, l: Loan)
    requires Structure(b) && IsOpenLoan(b, key, l)
    ensures l.principal <= b.activeDebt
  {
    SumAtLeast(b.loans, key, OpenPrincipal());
  }

  lemma ReservedBackedSame(accounts: map<Owner, Account>, accounts': map<Owner, Account>, mandates: map<Id, Mandate>)
    requires ReservedBacked(accounts, mandates) && accounts'.Keys == accounts.Keys
    requires forall o :: o in accounts ==> accounts'[o].usdt0.reserved == accounts[o].usdt0.reserved
    ensures ReservedBacked(accounts', mandates)
  {
  }

  lemma LendableSame(b: Book, c: Book)
    requires c.mandates == b.mandates && c.accounts.Keys == b.accounts.Keys
    requires forall o :: o in b.accounts ==> c.accounts[o].usdt0 == b.accounts[o].usdt0
    ensures Lendable(c) == Lendable(b)
    ensures Sum(c.accounts, UsdtAvailable()) == Sum(b.accounts, UsdtAvailable())
  {
    SumCongruent(b.accounts, c.accounts, UsdtAvailable(), UsdtAvailable());
  }

  /** A distribution as a list of fields: lenders are made whole, nothing else moves. */
  ghost predicate LendersPaid(b: Book, mid: Book, l: Loan, interest: nat) {
    && mid == b.(accounts := mid.accounts, mandates := mid.mandates, protocolReserve := mid.protocolReserve)
    && mid.accounts.Keys == b.accounts.Keys && SameMandates(b.mandates, mid.mandates)
    && (forall o :: o in b.accounts ==> mid.accounts[o] == b.accounts[o].(usdt0 := mid.accounts[o].usdt0))
    && (forall id :: id in b.mandates ==>
          && mid.mandates[id].lent == b.mandates[id].lent - DrawnFrom(l.tranches, id)
          && (!mid.mandates[id].active ==> mid.mandates[id].available == 0))
    && ReservedBacked(mid.accounts, mid.mandates)
    && Lendable(mid) + mid.protocolReserve == Lendable(b) + l.principal + interest + b.protocolReserve
    && Sum(mid.mandates, MandateLent()) == Sum(b.mandates, MandateLent()) - l.principal
    && Sum(mid.accounts, FxrpHeld()) == Sum(b.accounts, FxrpHeld())
  }

  lemma DistributedPaysLenders(b: Book, mid: Book, l: Loan, interest: nat)
    requires IdleMandatesEmpty(b) && Distributed(b, mid, l, interest) && l.principal == SumPrincipal(l.tranches)
    ensures LendersPaid(b, mid, l, interest)
  {
    hide Sum, DrawnFrom, ReservedBacked, TotalEarned, SumPrincipal;
  }

  lemma PaidRecords(b: Book, mid: Book, l: Loan, interest: nat)
    requires LendersPaid(b, mid, l, interest) && l.borrower in b.accounts
    ensures l.borrower in mid.accounts
    ensures mid.accounts[l.borrower].fxrp == b.accounts[l.borrower].fxrp
    ensures mid.accounts[l.borrower].loanId == b.accounts[l.borrower].loanId
    ensures mid.loans == b.loans && mid.activeDebt == b.activeDebt && mid.processed == b.processed
    ensures mid.backstopUsdt0 == b.backstopUsdt0 && mid.backstopFxrp == b.backstopFxrp
  {
  }

  /** The records written when the loan is closed. */
  ghost predicate ClosingRecords(mid: Book, next: Book, key: Id, l: Loan, returned: int) {
    && l.borrower in mid.accounts && l.borrower in next.accounts && key in next.loans
    && var a, a' := mid.accounts[l.borrower], next.accounts[l.borrower];
       && a'.loanId == "" && a'.usdt0 == a.usdt0
       && a'.fxrp.reserved == a.fxrp.reserved - l.collateral
       && a'.fxrp.available == a.fxrp.available + returned
       && !next.loans[key].Open()
       && next == mid.(accounts := mid.accounts[l.borrower := a'],
                       loans := mid.loans[key := next.loans[key]],
                       activeDebt := next.activeDebt)
       && next.activeDebt == mid.activeDebt - l.principal
  }

  lemma ClosingRecordsWritten(mid: Book, key: Id, l: Loan, status: Status)
    requires status == Closed || status == Liquidated
    requires l.borrower in mid.accounts && l.collateral <= mid.accounts[l.borrower].fxrp.reserved
    requires mid.accounts[l.borrower].fxrp.available + mid.accounts[l.borrower].fxrp.reserved <= MAX64
    requires l.principal <= mid.activeDebt
    ensures ClosingRecords(mid, CloseLoan(ReleaseCollateral(mid, l.borrower, l, 0), key, l, l.borrower, status),
                           key, l, l.collateral)
  {
  }

  /** Lenders paid, then the records written: the loan is gone. */
  lemma PaidThenClosed(b: Book, mid: Book, next: Book, key: Id, l: Loan, interest: nat)
    requires LendersPaid(b, mid, l, interest) && ClosingRecords(mid, next, key, l, l.collateral)
    requires l.borrower in b.accounts && b.accounts[l.borrower].fxrp.reserved == l.collateral
    ensures LoanClosed(b, next, key, l)
  {
    hide Sum, DrawnFrom, ReservedBacked, Lendable, SameMandates;
    ReservedBackedSame(mid.accounts, next.accounts, mid.mandates);
  }

  lemma PaidThenClosedTotals(b: Book, mid: Book, next: Book, key: Id, l: Loan, interest: nat)
    requires LendersPaid(b, mid, l, interest) && ClosingRecords(mid, next, key, l, l.collateral)
    ensures FreeUsdt0(next) == FreeUsdt0(b) + l.principal + interest
    ensures TotalFxrp(next) == TotalFxrp(b)
  {
    hide Sum, DrawnFrom, ReservedBacked, SameMandates;
    LendableSame(mid, next);
    AccountSums(mid, l.borrower, next.accounts[l.borrower]);
  }

  // ---- Repay -----------------------------------------------------------------------------------

  /** The borrower's debit: its free balance pays the debt, its nonce is used up. */
  ghost predicate Debited(b: Book, paidIn: Book, owner: Owner, due: nat) {
    && owner in b.accounts
    && due <= b.accounts[owner].usdt0.available
    && owner in paidIn.accounts
    && paidIn == PutAccount(b, owner, paidIn.accounts[owner])
    && paidIn.accounts[owner].usdt0.available == b.accounts[owner].usdt0.available - due
    && paidIn.accounts[owner] == b.accounts[owner].(nonce := paidIn.accounts[owner].nonce, usdt0 := paidIn.accounts[owner].usdt0)
    && paidIn.accounts[owner].usdt0.reserved == b.accounts[owner].usdt0.reserved
  }

  lemma DebitedKeeps(b: Book, paidIn: Book, key: Id, l: Loan, owner: Owner, due: nat)
    requires Sound(b) && IsOpenLoan(b, key, l) && Debited(b, paidIn, owner, due)
    ensures Structure(paidIn) && IsOpenLoan(paidIn, key, l)
    ensures FreeUsdt0(paidIn) == FreeUsdt0(b) - due && TotalFxrp(paidIn) == TotalFxrp(b)
  {
    hide Structure, Sum;
    PutAccountKeeps(b, owner, paidIn.accounts[owner]);
  }

  /** The borrower's account after its nonce is used and the debt deducted. */
  function PayIn(b: Book, owner: Owner, due: u64): Book {
    var a := AccountOf(b, owner);
    PutAccount(b, owner, a.(nonce := WrapAdd(a.nonce, 1), usdt0 := a.usdt0.(available := WrapSub(a.usdt0.available, due))))
  }

  function FinishRepay(mid: Book, key: Id, l: Loan): Book {
    CloseLoan(ReleaseCollateral(mid, l.borrower, l, 0), key, l, l.borrower, Closed)
  }

  /** Nothing came in or went out, the debt is retired and the borrower has all its collateral back. */
  ghost predicate Repaid(b: Book, next: Book, key: Id, l: Loan) {
    && Sound(next)
    && Moves(b, next, 0, 0)
    && next.activeDebt == b.activeDebt - l.principal
    && next.loans == b.loans[key := l.(status := Closed)]
    && l.borrower in b.accounts && l.borrower in next.accounts
    && var a, a' := b.accounts[l.borrower], next.accounts[l.borrower];
       a'.loanId == "" && a'.fxrp.available == a.fxrp.available + l.collateral && a'.fxrp.reserved == 0
  }

  /** The funds for the distribution are in place once the borrower has paid in. */
  lemma PayInRepayable(b: Book, key: Id, l: Loan, due: u64)
    requires Sound(b) && IsOpenLoan(b, key, l) && Debt(l) == Ok(due)
    requires due <= AccountOf(b, l.borrower).usdt0.available
    ensures
      var paidIn := PayIn(b, l.borrower, due);
      && Debited(b, paidIn, l.borrower, due)
      && Structure(paidIn) && IsOpenLoan(paidIn, key, l)
      && FreeUsdt0(paidIn) == FreeUsdt0(b) - due && TotalFxrp(paidIn) == TotalFxrp(b)
      && Repayable(paidIn, l, due - l.principal)
  {
    hide Structure, FreeUsdt0, TotalFxrp, OpenLoanLinked, AccountLinked, Priced, Repayable, PayIn, Debited, IsOpenLoan;
    var paidIn := PayIn(b, l.borrower, due);
    OpenLoanFacts(b, key, l);
    FreeNonNegative(b);
    PayInDebits(b, l.borrower, due);
    DebitedKeeps(b, paidIn, key, l, l.borrower, due);
    PayInBackstop(b, l.borrower, due);
    SoundLoanRepayable(paidIn, key, l, due - l.principal);
  }

  lemma PayInDebits(b: Book, owner: Owner, due: u64)
    requires owner in b.accounts && due <= b.accounts[owner].usdt0.available
    ensures Debited(b, PayIn(b, owner, due), owner, due)
  {
  }

  lemma PayInBackstop(b: Book, owner: Owner, due: u64)
    ensures PayIn(b, owner, due).backstopUsdt0 == b.backstopUsdt0
  {
  }

  lemma FinishRepayRecords(paidIn: Book, mid: Book, key: Id, l: Loan, interest: nat)
    requires Structure(paidIn) && IsOpenLoan(paidIn, key, l) && TotalFxrp(paidIn) <= MAX64
    requires LendersPaid(paidIn, mid, l, interest)
    ensures ClosingRecords(mid, FinishRepay(mid, key, l), key, l, l.collateral)
    ensures l.borrower in paidIn.accounts && paidIn.accounts[l.borrower].fxrp.reserved == l.collateral
  {
    OpenLoanFacts(paidIn, key, l);
    PrincipalWithinDebt(paidIn, key, l);
    FxrpBounded(paidIn, l.borrower);
    PaidRecords(paidIn, mid, l, interest);
    hide Structure, Sum, OpenLoanLinked, AccountLinked, LendersPaid, Priced, CloseLoan, ReleaseCollateral, ClosingRecords;
    ClosingRecordsWritten(mid, key, l, Closed);
  }

  lemma FinishRepayBooks(paidIn: Book, mid: Book, key: Id, l: Loan, interest: nat)
    requires Structure(paidIn) && IsOpenLoan(paidIn, key, l) && TotalFxrp(paidIn) <= MAX64
    requires LendersPaid(paidIn, mid, l, interest)
    ensures
      var next := FinishRepay(mid, key, l);
      && Structure(next)
      && FreeUsdt0(next) == FreeUsdt0(paidIn) + l.principal + interest
      && TotalFxrp(next) == TotalFxrp(paidIn)
  {
    var next := FinishRepay(mid, key, l);
    hide Structure, FreeUsdt0, TotalFxrp, LendersPaid, LoanClosed, ClosingRecords, FinishRepay, IsOpenLoan;
    FinishRepayRecords(paidIn, mid, key, l, interest);
    PaidThenClosed(paidIn, mid, next, key, l, interest);
    PaidThenClosedTotals(paidIn, mid, next, key, l, interest);
    ClosedLoanKeepsStructure(paidIn, next, key, l);
  }

  /** From the distribution to the closed loan. */
  lemma FinishRepayFrom(b: Book, paidIn: Book, mid: Book, key: Id, l: Loan, interest: nat)
    requires Sound(b) && Debited(b, paidIn, l.borrower, l.principal + interest)
    requires Structure(paidIn) && IsOpenLoan(paidIn, key, l)
    requires FreeUsdt0(paidIn) == FreeUsdt0(b) - l.principal - interest && TotalFxrp(paidIn) == TotalFxrp(b)
    requires LendersPaid(paidIn, mid, l, interest)
    ensures Repaid(b, FinishRepay(mid, key, l), key, l)
  {
    hide Structure, FreeUsdt0, TotalFxrp, LendersPaid, FinishRepay, IsOpenLoan;
    var next := FinishRepay(mid, key, l);
    PaidBorrower(b, paidIn, key, l);
    PaidRecords(paidIn, mid, l, interest);
    FinishRepayRecords(paidIn, mid, key, l, interest);
    FinishRepayBooks(paidIn, mid, key, l, interest);
    FinishRepayLoans(mid, key, l);
  }

  lemma PaidBorrower(b: Book, paidIn: Book, key: Id, l: Loan)
    requires Structure(paidIn) && IsOpenLoan(paidIn, key, l)
    ensures l.borrower in paidIn.accounts
  {
    OpenLoanFacts(paidIn, key, l);
  }

  lemma FinishRepayKeeps(b: Book, mid: Book, key: Id, l: Loan, due: u64)
    requires Sound(b) && IsOpenLoan(b, key, l) && Debt(l) == Ok(due)
    requires due <= AccountOf(b, l.borrower).usdt0.available
    requires Distributed(PayIn(b, l.borrower, due), mid, l, due - l.principal)
    ensures Repaid(b, FinishRepay(mid, key, l), key, l)
  {
    hide Structure, FreeUsdt0, TotalFxrp, LendersPaid, Repayable, PayIn, FinishRepay, Distributed, Debited, Repaid, Priced;
    var paidIn, interest := PayIn(b, l.borrower, due), due - l.principal;
    PayInRepayable(b, key, l, due);
    RepayablePriced(paidIn, l, interest);
    StructureIdle(paidIn);
    DistributedPaysLenders(paidIn, mid, l, interest);
    FinishRepayFrom(b, paidIn, mid, key, l, interest);
  }

  lemma RepayablePriced(b: Book, l: Loan, interest: nat)
    requires Repayable(b, l, interest)
    ensures l.principal == SumPrincipal(l.tranches)
  {
  }

  lemma FinishRepayLoans(mid: Book, key: Id, l: Loan)
    ensures FinishRepay(mid, key, l).loans == mid.loans[key := l.(status := Closed)]
  {
  }

  /** A repayment of the accrued loan goes through exactly when no interest counter overflows. */
  lemma RepayAccrued(b: Book, key: Id, l: Loan, due: u64)
    requires Sound(b) && IsOpenLoan(b, key, l) && Debt(l) == Ok(due)
    requires due <= AccountOf(b, l.borrower).usdt0.available
    ensures
      var r := DistributeRepayment(PayIn(b, l.borrower, due), l, due - l.principal);
      if CountersFit(b.mandates, l, due - l.principal, l.tranches) then
        r.Ok? && Repaid(b, FinishRepay(r.value, key, l), key, l)
      else
        r == Err(Overflow)
  {
    var paidIn := PayIn(b, l.borrower, due);
    hide Structure, Sum, CountersFit, DistributeRepayment, Repaid, Distributed;
    PayInRepayable(b, key, l, due);
    DistributionFailsOnlyOnCounters(paidIn, l, due - l.principal);
    var r := DistributeRepayment(paidIn, l, due - l.principal);
    if r.Ok? {
      FinishRepayKeeps(b, r.value, key, l, due);
    }
  }

  /** What a borrower needs for a repayment to go through; the last line is about lifetime interest counters. */
  ghost predicate RepayReady(b: Book, owner: Owner, amount: u64, operationId: Id, nonce: u64, now: Time) {
    var a := AccountOf(b, owner);
    && operationId !in b.processed
    && a.nonce == nonce
    && a.loanId in b.loans
    && var accrued := Accrue(b.loans[a.loanId], now);
       && accrued.Ok?
       && Debt(accrued.value).Ok?
       && var due := Debt(accrued.value).value;
          && due <= amount
          && due <= a.usdt0.available
          && CountersFit(b.mandates, accrued.value, due - accrued.value.principal, accrued.value.tranches)
  }

  lemma BorrowerOf(b: Book, owner: Owner)
    requires Structure(b) && AccountOf(b, owner).loanId in b.loans
    ensures
      var key := AccountOf(b, owner).loanId;
      owner in b.accounts && b.loans[key].Open() && b.loans[key].borrower == owner
  {
    AccountReserved(b, owner);
  }

  /** A repayment succeeds if and only if it is ready; it then keeps the books, with no funds in or out. */
  lemma RepayExact(b: Book, owner: Owner, amount: u64, operationId: Id, nonce: u64, now: Time)
    requires Sound(b)
    ensures Repay(b, owner, amount, operationId, nonce, now).Ok? <==> RepayReady(b, owner, amount, operationId, nonce, now)
    ensures RepayReady(b, owner, amount, operationId, nonce, now) ==>
      var key := AccountOf(b, owner).loanId;
      Repaid(b, Repay(b, owner, amount, operationId, nonce, now).value, key, Accrue(b.loans[key], now).value)
  {
    hide Structure, Sum, CountersFit, DistributeRepayment, Accrue, Debt, FreeUsdt0, TotalFxrp;
    var a := AccountOf(b, owner);
    if operationId !in b.processed && a.nonce == nonce && a.loanId in b.loans && Accrue(b.loans[a.loanId], now).Ok? {
      BorrowerOf(b, owner);
      AccrueFrame(b.loans[a.loanId], now);
      var l := Accrue(b.loans[a.loanId], now).value;
      if Debt(l).Ok? && Debt(l).value <= amount && Debt(l).value <= a.usdt0.available {
        RepayAccrued(b, a.loanId, l, Debt(l).value);
        RepayUnfolds(b, owner, amount, operationId, nonce, now, l);
        var r := DistributeRepayment(PayIn(b, owner, Debt(l).value), l, Debt(l).value - l.principal);
        if r.Ok? {
          var closed := FinishRepay(r.value, a.loanId, l);
          LogKeeps(closed, closed.processed + {operationId}, closed.activities, closed.price);
        }
      }
    }
  }

  lemma RepayUnfolds(b: Book, owner: Owner, amount: u64, operationId: Id, nonce: u64, now: Time, l: Loan)
    requires operationId !in b.processed && AccountOf(b, owner).nonce == nonce && AccountOf(b, owner).loanId in b.loans
    requires Accrue(b.loans[AccountOf(b, owner).loanId], now) == Ok(l) && l.borrower == owner
    requires Debt(l).Ok? && Debt(l).value <= amount && Debt(l).value <= AccountOf(b, owner).usdt0.available
    ensures
      var due := Debt(l).value;
      var r := DistributeRepayment(PayIn(b, owner, due), l, due - l.principal);
      Repay(b, owner, amount, operationId, nonce, now)
      == if r.Ok? then Ok(Mark(FinishRepay(r.value, AccountOf(b, owner).loanId, l), operationId)) else Err(r.error)
  {
    hide DistributeRepayment, ReleaseCollateral, CloseLoan, Accrue;
  }

  /** A successful repayment keeps the books and only lowers the debt. */
  lemma RepayKeeps(b: Book, owner: Owner, amount: u64, operationId: Id, nonce: u64, now: Time, next: Book)
    requires Sound(b) && Repay(b, owner, amount, operationId, nonce, now) == Ok(next)
    ensures Sound(next) && Moves(b, next, 0, 0) && next.activeDebt <= b.activeDebt
  {
    RepayExact(b, owner, amount, operationId, nonce, now);
    hide Structure, FreeUsdt0, TotalFxrp, Repay, Accrue;
  }
}
