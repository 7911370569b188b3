/**
  Liquidation: the backstop pays the whole debt to the lenders and receives at most the
  collateral; the books stay sound and no funds enter or leave.
 */
module Liquidation {
  import opened Outcomes
  import opened Arithmetic
  import opened MapSums
  import opened Model
  import opened Loans
  import opened Operations
  import opened Invariants
  import opened Conservation
  import opened Lending
  import opened Interest
  import opened Repayment
  import opened Closing

  /** The exact effect of a liquidation. */
  ghost predicate LiquidatedExactly(b: Book, next: Book, key: Id, l: Loan, due: nat, seized: nat) {
    && Sound(next)
    && Moves(b, next, 0, 0)
    && next.activeDebt == b.activeDebt - l.principal
    && next.backstopUsdt0 == b.backstopUsdt0 - due
    && next.backstopFxrp == b.backstopFxrp + seized
    && seized <= l.collateral
    && next.loans == b.loans[key := l.(status := Liquidated)]
    && next.accounts.Keys == b.accounts.Keys && l.borrower in b.accounts
    && var a, a' := b.accounts[l.borrower], next.accounts[l.borrower];
       && a'.loanId == "" && a'.fxrp.reserved == 0
       && a'.fxrp.available == a.fxrp.available + l.collateral - seized
  }

  // ---- Paying and seizing -----------------------------------------------------------------

  lemma BackstopPaysKeeps(b: Book, due: u64, seized: u64)
    requires Structure(b) && due <= b.backstopUsdt0
    ensures
      var c := BackstopPays(b, due, seized);
      Structure(c) && FreeUsdt0(c) == FreeUsdt0(b) - due
  {
    var c := BackstopPays(b, due, seized);
    hide Sum, LoanSound, ReservedBacked, LentBacked;
    forall id | id in c.mandates ensures MandateSound(c, id) {
      assert MandateSound(b, id);
    }
    forall k | k in c.loans ensures OpenLoanLinked(c, k) {
      assert OpenLoanLinked(b, k);
    }
    forall o | o in c.accounts ensures AccountLinked(c, o) {
      assert AccountLinked(b, o);
    }
  }

  /** Field by field, what paying and seizing write; nothing wraps. */
  ghost predicate SeizedRecords(b: Book, c: Book, l: Loan, due: nat, seized: nat) {
    && l.borrower in b.accounts && l.borrower in c.accounts
    && var a, a' := b.accounts[l.borrower], c.accounts[l.borrower];
       && a' == a.(fxrp := a'.fxrp)
       && a.fxrp.reserved == l.collateral && a'.fxrp.reserved == 0
       && a'.fxrp.available == a.fxrp.available + l.collateral - seized
       && c == b.(accounts := b.accounts[l.borrower := a'],
                  backstopUsdt0 := c.backstopUsdt0, backstopFxrp := c.backstopFxrp)
       && c.backstopUsdt0 == b.backstopUsdt0 - due
       && c.backstopFxrp == b.backstopFxrp + seized
  }

  lemma SeizeWrites(b: Book, key: Id, l: Loan, due: u64, seized: u64)
    requires Sound(b) && IsOpenLoan(b, key, l)
    requires due <= b.backstopUsdt0 && seized <= l.collateral
    ensures SeizedRecords(b, Seize(b, l, due, seized), l, due, seized)
  {
    OpenLoanFacts(b, key, l);
    FxrpBounded(b, l.borrower);
    hide Structure, Sum, OpenLoanLinked, AccountLinked, Priced;
  }

  lemma SeizedTotals(b: Book, c: Book, l: Loan, due: nat, seized: nat)
    requires SeizedRecords(b, c, l, due, seized)
    ensures Lendable(c) == Lendable(b)
    ensures Sum(c.accounts, FxrpHeld()) == Sum(b.accounts, FxrpHeld()) - seized
  {
    hide Sum;
    LendableSame(b, c);
    AccountSums(b, l.borrower, c.accounts[l.borrower]);
  }

  lemma SeizeRepayable(b: Book, key: Id, l: Loan, due: u64, seized: u64)
    requires Sound(b) && IsOpenLoan(b, key, l) && Debt(l) == Ok(due)
    requires due <= b.backstopUsdt0 && seized <= l.collateral
    ensures Repayable(Seize(b, l, due, seized), l, due - l.principal)
    ensures IdleMandatesEmpty(Seize(b, l, due, seized))
  {
    var c, d := BackstopPays(b, due, seized), Seize(b, l, due, seized);
    FreeNonNegative(b);
    hide Structure, Sum, Repayable, BackstopPays, Numerator;
    StructureIdle(b);
    BackstopPaysKeeps(b, due, seized);
    SeizeWrites(b, key, l, due, seized);
    BackstopPaysFields(b, due, seized);
    SoundLoanRepayable(c, key, l, due - l.principal);
    RepayableIgnoresFxrp(c, d, l, due - l.principal);
  }

  lemma BackstopPaysFields(b: Book, due: u64, seized: u64)
    requires due <= b.backstopUsdt0
    ensures
      var c := BackstopPays(b, due, seized);
      && c == b.(backstopUsdt0 := c.backstopUsdt0, backstopFxrp := c.backstopFxrp)
      && c.backstopUsdt0 == b.backstopUsdt0 - due
  {
  }

  // ---- After the distribution ----------------------------------------------------------------

  /** The final records: the loan detached and liquidated. */
  ghost predicate DetachedRecords(mid: Book, next: Book, key: Id, l: Loan) {
    && l.borrower in mid.accounts && l.borrower in next.accounts
    && next.accounts[l.borrower] == mid.accounts[l.borrower].(loanId := "")
    && next == mid.(accounts := mid.accounts[l.borrower := next.accounts[l.borrower]],
                    loans := mid.loans[key := l.(status := Liquidated)],
                    activeDebt := next.activeDebt)
    && next.activeDebt == mid.activeDebt - l.principal
  }

  lemma DetachWrites(mid: Book, key: Id, l: Loan)
    requires l.borrower in mid.accounts && l.principal <= mid.activeDebt
    ensures DetachedRecords(mid, CloseLoan(mid, key, l, l.borrower, Liquidated), key, l)
  {
  }

  lemma SeizedPaidRecords(b: Book, c: Book, mid: Book, l: Loan, due: nat, seized: nat, interest: nat)
    requires SeizedRecords(b, c, l, due, seized) && LendersPaid(c, mid, l, interest)
    ensures l.borrower in b.accounts && l.borrower in mid.accounts
    ensures mid.activeDebt == b.activeDebt
    ensures mid.accounts[l.borrower].fxrp.reserved == 0
    ensures mid.accounts[l.borrower].fxrp.available == b.accounts[l.borrower].fxrp.available + l.collateral - seized
  {
    PaidRecords(c, mid, l, interest);
  }

  /** The accounts once the loan is detached: only the borrower's links and FXRP have changed, and reserves are mirrored. */
  lemma SeizedPaidDetachedAccounts(
    b: Book, c: Book, mid: Book, next: Book, key: Id, l: Loan, due: nat, seized: nat, interest: nat)
    requires SeizedRecords(b, c, l, due, seized) && LendersPaid(c, mid, l, interest) && DetachedRecords(mid, next, key, l)
    ensures next.accounts.Keys == b.accounts.Keys && l.borrower in b.accounts
    ensures forall o :: o in b.accounts && o != l.borrower ==>
              next.accounts[o].fxrp == b.accounts[o].fxrp && next.accounts[o].loanId == b.accounts[o].loanId
    ensures next.accounts[l.borrower].loanId == "" && next.accounts[l.borrower].fxrp.reserved == 0
    ensures ReservedBacked(next.accounts, next.mandates)
  {
    hide Sum, DrawnFrom, ReservedBacked, Lendable, SameMandates, SameTerms;
    SeizedPaidRecords(b, c, mid, l, due, seized, interest);
    ReservedBackedSame(mid.accounts, next.accounts, mid.mandates);
    forall o | o in b.accounts && o != l.borrower
      ensures next.accounts[o].fxrp == b.accounts[o].fxrp && next.accounts[o].loanId == b.accounts[o].loanId
    {
      assert next.accounts[o] == mid.accounts[o] && c.accounts[o] == b.accounts[o];
    }
  }

  lemma SeizedPaidDetached(b: Book, c: Book, mid: Book, next: Book, key: Id, l: Loan, due: nat, seized: nat, interest: nat)
    requires SeizedRecords(b, c, l, due, seized) && LendersPaid(c, mid, l, interest) && DetachedRecords(mid, next, key, l)
    ensures LoanClosed(b, next, key, l)
  {
    hide Sum, DrawnFrom, ReservedBacked, Lendable, SameMandates, SameTerms, SeizedRecords, LendersPaid, DetachedRecords;
    SeizedPaidDetachedAccounts(b, c, mid, next, key, l, due, seized, interest);
    SeizedPaidDetachedLoans(b, c, mid, next, key, l, due, seized, interest);
  }

  /** The mandates, the loans and the debt once the loan is detached. */
  lemma SeizedPaidDetachedLoans(
    b: Book, c: Book, mid: Book, next: Book, key: Id, l: Loan, due: nat, seized: nat, interest: nat)
    requires SeizedRecords(b, c, l, due, seized) && LendersPaid(c, mid, l, interest) && DetachedRecords(mid, next, key, l)
    ensures SameMandates(b.mandates, next.mandates)
    ensures forall id :: id in b.mandates ==>
              && next.mandates[id].lent == b.mandates[id].lent - DrawnFrom(l.tranches, id)
              && (!next.mandates[id].active ==> next.mandates[id].available == 0)
    ensures key in next.loans && !next.loans[key].Open() && next.loans == b.loans[key := next.loans[key]]
    ensures next.activeDebt == b.activeDebt - l.principal
    ensures Sum(next.mandates, MandateLent()) == Sum(b.mandates, MandateLent()) - l.principal
  {
    hide Sum, DrawnFrom, ReservedBacked, Lendable, SameTerms;
  }

  lemma SeizedPaidDetachedTotals(
    b: Book, c: Book, mid: Book, next: Book, key: Id, l: Loan, due: nat, seized: nat, interest: nat)
    requires SeizedRecords(b, c, l, due, seized) && LendersPaid(c, mid, l, interest) && DetachedRecords(mid, next, key, l)
    requires due == l.principal + interest
    ensures Moves(b, next, 0, 0)
    ensures next.backstopUsdt0 == b.backstopUsdt0 - due && next.backstopFxrp == b.backstopFxrp + seized
    ensures next.loans == b.loans[key := l.(status := Liquidated)]
    ensures next.activeDebt == b.activeDebt - l.principal
  {
    hide Sum, DrawnFrom, ReservedBacked, SameMandates;
    SeizedTotals(b, c, l, due, seized);
    LendableSame(mid, next);
    AccountSums(mid, l.borrower, next.accounts[l.borrower]);
  }

  lemma DetachedBorrower(mid: Book, next: Book, key: Id, l: Loan)
    requires DetachedRecords(mid, next, key, l)
    ensures l.borrower in mid.accounts && l.borrower in next.accounts
    ensures next.accounts[l.borrower].loanId == "" && next.accounts[l.borrower].fxrp == mid.accounts[l.borrower].fxrp
  {
  }

  lemma ClosedKeepsKeys(b: Book, next: Book, key: Id, l: Loan)
    requires LoanClosed(b, next, key, l)
    ensures next.accounts.Keys == b.accounts.Keys
  {
  }

  lemma FinishLiquidation(b: Book, c: Book, mid: Book, key: Id, l: Loan, due: nat, seized: nat, interest: nat)
    requires Sound(b) && IsOpenLoan(b, key, l) && due == l.principal + interest && seized <= l.collateral
    requires SeizedRecords(b, c, l, due, seized) && LendersPaid(c, mid, l, interest)
    ensures LiquidatedExactly(b, CloseLoan(mid, key, l, l.borrower, Liquidated), key, l, due, seized)
  {
    hide Structure, FreeUsdt0, TotalFxrp, LendersPaid, CloseLoan, IsOpenLoan, LoanClosed, SeizedRecords, DetachedRecords;
    var next := CloseLoan(mid, key, l, l.borrower, Liquidated);
    PrincipalWithinDebt(b, key, l);
    SeizedPaidRecords(b, c, mid, l, due, seized, interest);
    DetachWrites(mid, key, l);
    DetachedBorrower(mid, next, key, l);
    SeizedPaidDetached(b, c, mid, next, key, l, due, seized, interest);
    SeizedPaidDetachedTotals(b, c, mid, next, key, l, due, seized, interest);
    ClosedKeepsKeys(b, next, key, l);
    ClosedLoanKeepsStructure(b, next, key, l);
  }

  // ---- liquidateInState ---------------------------------------------------------------------------

  /** The backstop can pay, the seizure is computable and no interest counter overflows. */
  ghost predicate LiquidationReady(b: Book, l: Loan) {
    && Debt(l).Ok?
    && Debt(l).value <= b.backstopUsdt0
    && SeizeAmount(l, Debt(l).value, b.price.xrpUsdE6).Ok?
    && CountersFit(b.mandates, l, Debt(l).value - l.principal, l.tranches)
  }

  lemma LiquidateDue(b: Book, key: Id, l: Loan, due: u64, seized: u64)
    requires Sound(b) && IsOpenLoan(b, key, l) && Debt(l) == Ok(due)
    requires due <= b.backstopUsdt0 && seized <= l.collateral
    ensures
      var r := DistributeRepayment(Seize(b, l, due, seized), l, due - l.principal);
      if CountersFit(b.mandates, l, due - l.principal, l.tranches) then
        && r.Ok?
        && LiquidatedExactly(b, CloseLoan(r.value, key, l, l.borrower, Liquidated), key, l, due, seized)
      else
        r == Err(Overflow)
  {
    var c, interest := Seize(b, l, due, seized), due - l.principal;
    hide Structure, FreeUsdt0, TotalFxrp, LendersPaid, Repayable, Seize, Distributed, CountersFit, DistributeRepayment;
    hide LiquidatedExactly, CloseLoan, IsOpenLoan;
    SeizeWrites(b, key, l, due, seized);
    SeizeRepayable(b, key, l, due, seized);
    DistributionFailsOnlyOnCounters(c, l, interest);
    var r := DistributeRepayment(c, l, interest);
    if r.Ok? {
      RepayablePriced(c, l, interest);
      DistributedPaysLenders(c, r.value, l, interest);
      FinishLiquidation(b, c, r.value, key, l, due, seized, interest);
    }
  }

  /** Liquidation goes through exactly when it is ready, with an exact effect. */
  lemma LiquidationExact(b: Book, key: Id, l: Loan)
    requires Sound(b) && IsOpenLoan(b, key, l)
    ensures LiquidateInState(b, key, l).Ok? <==> LiquidationReady(b, l)
    ensures LiquidationReady(b, l) ==>
      LiquidatedExactly(b, LiquidateInState(b, key, l).value, key, l, Debt(l).value,
                        SeizeAmount(l, Debt(l).value, b.price.xrpUsdE6).value)
  {
    hide Structure, FreeUsdt0, TotalFxrp, CountersFit, DistributeRepayment, LiquidatedExactly, CloseLoan, IsOpenLoan;
    if Debt(l).Ok? && Debt(l).value <= b.backstopUsdt0 {
      var due := Debt(l).value;
      var seize := SeizeAmount(l, due, b.price.xrpUsdE6);
      if seize.Ok? {
        LiquidateDue(b, key, l, due, seize.value);
      }
    }
  }

  /** The Liquidate operation keeps the books and moves no funds. */
  lemma LiquidateKeeps(b: Book, loanId: Id, operationId: Id, next: Book)
    requires Sound(b) && Liquidate(b, loanId, operationId) == Ok(next)
    ensures Sound(next) && Moves(b, next, 0, 0)
    ensures next.activeDebt == b.activeDebt - b.loans[loanId].principal <= b.activeDebt
  {
    hide Structure, FreeUsdt0, TotalFxrp, LiquidateInState;
    var l := b.loans[loanId];
    LiquidationExact(b, loanId, l);
    var mid := LiquidateInState(b, loanId, l).value;
    LogKeeps(mid, next.processed, next.activities, next.price);
  }
}
