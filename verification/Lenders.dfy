/**
  Who gets what when a loan is repaid or liquidated: each lender's holdings grow by exactly
  its interest, and each mandate takes back exactly its own part of the principal.
 */
module Lenders {
  import opened Outcomes
  import opened Arithmetic
  import opened MapSums
  import opened Model
  import opened Loans
  import opened Operations
  import opened Invariants
  import opened Interest
  import opened Repayment
  import opened Closing
  import opened Liquidation
  import opened RiskTicks

  /** An account's USDT0, free or behind its mandates. */
  function HoldingsOf(b: Book, owner: Owner): int {
    AccountOf(b, owner).usdt0.available + AccountOf(b, owner).usdt0.reserved
  }

  /** The interest that goes to one lender. */
  function EarnedBy(l: Loan, interest: nat, ts: seq<Tranche>, lender: Owner): nat {
    if ts == [] then 0
    else (if ts[0].lender == lender then Earned(l, interest, ts[0]) else 0) + EarnedBy(l, interest, ts[1..], lender)
  }

  /** The interest that counts for one mandate. */
  function EarnedFrom(l: Loan, interest: nat, ts: seq<Tranche>, mandateId: Id): nat {
    if ts == [] then 0
    else (if ts[0].mandateId == mandateId then Earned(l, interest, ts[0]) else 0) + EarnedFrom(l, interest, ts[1..], mandateId)
  }

  ghost predicate LendersGain(b: Book, next: Book, l: Loan, interest: nat, ts: seq<Tranche>) {
    forall o :: HoldingsOf(next, o) == HoldingsOf(b, o) + EarnedBy(l, interest, ts, o)
  }

  /** An active mandate can lend its part again; from a cancelled one it goes to the lender's free balance. */
  ghost predicate MandatesRestored(b: Book, next: Book, l: Loan, interest: nat, ts: seq<Tranche>) {
    && next.mandates.Keys == b.mandates.Keys
    && forall id :: id in b.mandates ==>
         var m, m' := b.mandates[id], next.mandates[id];
         m' == m.(available := m'.available, lent := m'.lent, interestEarned := m'.interestEarned)
         && m'.available == m.available + (if m.active then DrawnFrom(ts, id) else 0)
         && m'.lent == m.lent - DrawnFrom(ts, id)
         && m'.interestEarned == m.interestEarned + EarnedFrom(l, interest, ts, id)
  }

  lemma LenderInterestEqualsEarned(l: Loan, interest: u64, t: Tranche)
    requires l.principal > 0 && l.borrowerApr > 0 && LenderInterest(l, interest, t).Ok?
    ensures LenderInterest(l, interest, t).value == Earned(l, interest, t)
  {
  }

  /** One tranche: its lender and its mandate, and nobody else. */
  ghost predicate TrancheSettled(b: Book, next: Book, t: Tranche, earned: nat) {
    && t.mandateId in b.mandates && t.mandateId in next.mandates
    && (forall o :: HoldingsOf(next, o) == HoldingsOf(b, o) + (if o == t.lender then earned else 0))
    && next.protocolReserve == b.protocolReserve
    && next.mandates == b.mandates[t.mandateId := next.mandates[t.mandateId]]
    && var m, m' := b.mandates[t.mandateId], next.mandates[t.mandateId];
       && m' == m.(available := m'.available, lent := m'.lent, interestEarned := m'.interestEarned)
       && m'.available == m.available + (if m.active then t.principal else 0)
       && m'.lent == m.lent - t.principal
       && m'.interestEarned == m.interestEarned + earned
  }

  lemma ReturnTrancheSettles(b: Book, t: Tranche, earned: u64)
    requires ReturnTranche(b, t, earned).Ok? && t.principal > 0
    ensures TrancheSettled(b, ReturnTranche(b, t, earned).value, t, earned)
  {
  }

  lemma GainThen(b: Book, mid: Book, next: Book, l: Loan, interest: nat, ts: seq<Tranche>)
    requires ts != [] && TrancheSettled(b, mid, ts[0], Earned(l, interest, ts[0]))
    requires LendersGain(mid, next, l, interest, ts[1..])
    ensures LendersGain(b, next, l, interest, ts)
    ensures mid.protocolReserve == b.protocolReserve
  {
    hide Earned;
    forall o ensures HoldingsOf(next, o) == HoldingsOf(b, o) + EarnedBy(l, interest, ts, o) {
      assert HoldingsOf(mid, o) == HoldingsOf(b, o) + (if o == ts[0].lender then Earned(l, interest, ts[0]) else 0);
      assert HoldingsOf(next, o) == HoldingsOf(mid, o) + EarnedBy(l, interest, ts[1..], o);
    }
  }

  lemma RestoredThen(b: Book, mid: Book, next: Book, l: Loan, interest: nat, ts: seq<Tranche>)
    requires ts != [] && TrancheSettled(b, mid, ts[0], Earned(l, interest, ts[0]))
    requires MandatesRestored(mid, next, l, interest, ts[1..])
    ensures MandatesRestored(b, next, l, interest, ts)
  {
    hide Earned, HoldingsOf;
  }

  /** The loop of the distribution, whatever the books: it pays each lender and restores each mandate. */
  lemma {:induction false} DistributionPaysEachLender(l: Loan, interest: u64, ts: seq<Tranche>, d: Distribution)
    requires l.principal > 0 && l.borrowerApr > 0
    requires forall t :: t in ts ==> t.principal > 0
    requires DistributeTo(l, interest, ts, d).Ok?
    ensures
      var r := DistributeTo(l, interest, ts, d).value;
      && LendersGain(d.book, r.book, l, interest, ts)
      && MandatesRestored(d.book, r.book, l, interest, ts)
      && r.paid == d.paid + TotalEarned(l, interest, ts)
      && r.book.protocolReserve == d.book.protocolReserve
    decreases |ts|
  {
    hide ReturnTranche, LenderInterest, Earned, TrancheSettled, LendersGain, MandatesRestored;
    if ts == [] {
      PaidNobody(d.book, l, interest);
    } else {
      assert ts[0] in ts;
      LenderInterestEqualsEarned(l, interest, ts[0]);
      var earned := LenderInterest(l, interest, ts[0]).value;
      var book := ReturnTranche(d.book, ts[0], earned).value;
      ReturnTrancheSettles(d.book, ts[0], earned);
      var d' := Distribution(book, d.returned + ts[0].principal, d.paid + earned);
      DistributionPaysEachLender(l, interest, ts[1..], d');
      GainThen(d.book, book, DistributeTo(l, interest, ts[1..], d').value.book, l, interest, ts);
      RestoredThen(d.book, book, DistributeTo(l, interest, ts[1..], d').value.book, l, interest, ts);
    }
  }

  lemma PaidNobody(b: Book, l: Loan, interest: nat)
    ensures LendersGain(b, b, l, interest, []) && MandatesRestored(b, b, l, interest, [])
  {
  }

  /** What a loan's closing leaves to each account, when `payer` pays `due` of it from its free balance. */
  ghost predicate EveryoneSettled(b: Book, next: Book, l: Loan, due: nat, payer: Option<Owner>) {
    && due >= l.principal
    && var interest := due - l.principal;
       && (forall o :: HoldingsOf(next, o)
                       == HoldingsOf(b, o) + EarnedBy(l, interest, l.tranches, o) - (if payer == Some(o) then due else 0))
       && MandatesRestored(b, next, l, interest, l.tranches)
       && next.protocolReserve == b.protocolReserve + interest - TotalEarned(l, interest, l.tranches)
  }

  lemma RepaymentPaysEachLender(b: Book, l: Loan, interest: u64)
    requires l.principal > 0 && l.borrowerApr > 0
    requires forall t :: t in l.tranches ==> t.principal > 0
    requires DistributeRepayment(b, l, interest).Ok?
    ensures
      var next := DistributeRepayment(b, l, interest).value;
      && LendersGain(b, next, l, interest, l.tranches)
      && MandatesRestored(b, next, l, interest, l.tranches)
      && next.protocolReserve == b.protocolReserve + interest - TotalEarned(l, interest, l.tranches)
  {
    hide DistributeTo, Earned;
    DistributionPaysEachLender(l, interest, l.tranches, Distribution(b, 0, 0));
    hide EarnedBy, EarnedFrom;
  }

  /** Closing the loan's records touches no USDT0 and no mandate. */
  lemma ClosingMovesNoUsdt0(mid: Book, key: Id, l: Loan, borrower: Owner, seized: u64, status: Status)
    ensures
      var next := CloseLoan(ReleaseCollateral(mid, borrower, l, seized), key, l, borrower, status);
      && (forall o :: HoldingsOf(next, o) == HoldingsOf(mid, o))
      && next.mandates == mid.mandates && next.protocolReserve == mid.protocolReserve
  {
  }

  lemma ReleaseMovesNoUsdt0(b: Book, borrower: Owner, l: Loan, seized: u64)
    ensures
      var next := ReleaseCollateral(b, borrower, l, seized);
      && (forall o :: HoldingsOf(next, o) == HoldingsOf(b, o))
      && next.mandates == b.mandates && next.protocolReserve == b.protocolReserve
  {
  }

  lemma DetachMovesNoUsdt0(b: Book, key: Id, l: Loan, borrower: Owner, status: Status)
    ensures
      var next := CloseLoan(b, key, l, borrower, status);
      && (forall o :: HoldingsOf(next, o) == HoldingsOf(b, o))
      && next.mandates == b.mandates && next.protocolReserve == b.protocolReserve
  {
  }

  /** The tranches of an open loan in sound books are positive, and its rate too. */
  lemma OpenLoanShape(b: Book, key: Id, l: Loan)
    requires Structure(b) && IsOpenLoan(b, key, l)
    ensures l.principal > 0 && l.borrowerApr > 0
    ensures forall t :: t in l.tranches ==> t.principal > 0
  {
    assert OpenLoanLinked(b, key);
    forall t | t in l.tranches ensures t.principal > 0 {
      assert TrancheSound(b.mandates, t);
    }
  }

  /**
    A repayment takes exactly the debt from the borrower, gives each lender exactly its interest on top of its
    principal, restores each mandate by its own part, and leaves the rest of the interest to the protocol.
   */
  lemma RepaySettlesEveryone(b: Book, owner: Owner, amount: u64, operationId: Id, nonce: u64, now: Time, next: Book)
    requires Sound(b) && Repay(b, owner, amount, operationId, nonce, now) == Ok(next)
    ensures
      var l := Accrue(b.loans[AccountOf(b, owner).loanId], now).value;
      EveryoneSettled(b, next, l, Debt(l).value, Some(owner))
  {
    hide Sum, DistributeRepayment, DistributeTo, MandatesRestored, EarnedBy, TotalEarned, Earned, EveryoneSettled;
    hide Structure, Accrue, FreeUsdt0, TotalFxrp;
    var key := AccountOf(b, owner).loanId;
    BorrowerOf(b, owner);
    AccrueFrame(b.loans[key], now);
    var l := Accrue(b.loans[key], now).value;
    OpenLoanShape(b, key, l);
    var due := Debt(l).value;
    var paidIn := PayIn(b, owner, due);
    RepayUnfolds(b, owner, amount, operationId, nonce, now, l);
    RepaymentPaysEachLender(paidIn, l, due - l.principal);
    var paid := DistributeRepayment(paidIn, l, due - l.principal).value;
    ClosingMovesNoUsdt0(paid, key, l, owner, 0, Closed);
    SettledAfterPayIn(b, paidIn, paid, next, l, due, owner);
  }

  lemma RestoredSame(b: Book, next: Book, b': Book, next': Book, l: Loan, interest: nat, ts: seq<Tranche>)
    requires MandatesRestored(b, next, l, interest, ts) && b'.mandates == b.mandates && next'.mandates == next.mandates
    ensures MandatesRestored(b', next', l, interest, ts)
  {
  }

  lemma PayInTakes(b: Book, owner: Owner, due: u64)
    requires due <= AccountOf(b, owner).usdt0.available
    ensures forall o :: HoldingsOf(PayIn(b, owner, due), o) == HoldingsOf(b, o) - (if o == owner then due else 0)
    ensures PayIn(b, owner, due).mandates == b.mandates && PayIn(b, owner, due).protocolReserve == b.protocolReserve
  {
  }

  lemma SettledAfterPayIn(b: Book, paidIn: Book, paid: Book, next: Book, l: Loan, due: nat, owner: Owner)
    requires due >= l.principal && due <= AccountOf(b, owner).usdt0.available && due <= MAX64
    requires paidIn == PayIn(b, owner, due)
    requires LendersGain(paidIn, paid, l, due - l.principal, l.tranches)
    requires MandatesRestored(paidIn, paid, l, due - l.principal, l.tranches)
    requires paid.protocolReserve == b.protocolReserve + due - l.principal - TotalEarned(l, due - l.principal, l.tranches)
    requires forall o :: HoldingsOf(next, o) == HoldingsOf(paid, o)
    requires next.mandates == paid.mandates && next.protocolReserve == paid.protocolReserve
    ensures EveryoneSettled(b, next, l, due, Some(owner))
  {
    hide EarnedBy, EarnedFrom, TotalEarned, DrawnFrom, MandatesRestored, HoldingsOf, PayIn;
    PayInTakes(b, owner, due);
    assert MandatesRestored(b, next, l, due - l.principal, l.tranches) by {
      RestoredSame(paidIn, paid, b, next, l, due - l.principal, l.tranches);
    }
    forall o
      ensures HoldingsOf(next, o)
              == HoldingsOf(b, o) + EarnedBy(l, due - l.principal, l.tranches, o) - (if o == owner then due else 0)
    {
      assert HoldingsOf(paidIn, o) == HoldingsOf(b, o) - (if o == owner then due else 0);
      assert HoldingsOf(paid, o) == HoldingsOf(paidIn, o) + EarnedBy(l, due - l.principal, l.tranches, o);
    }
  }

  /** A liquidation gives every lender and every mandate the same, with the backstop paying instead of the borrower. */
  lemma LiquidationSettlesEveryone(b: Book, key: Id, l: Loan)
    requires Sound(b) && IsOpenLoan(b, key, l) && LiquidateInState(b, key, l).Ok?
    ensures EveryoneSettled(b, LiquidateInState(b, key, l).value, l, Debt(l).value, None)
  {
    hide Sum, DistributeRepayment, DistributeTo, MandatesRestored, EarnedBy, TotalEarned, Earned, SeizeAmount;
    OpenLoanShape(b, key, l);
    hide Structure;
    var due := Debt(l).value;
    var seize := SeizeAmount(l, due, b.price.xrpUsdE6).value;
    var debited := BackstopPays(b, due, seize);
    var released := ReleaseCollateral(debited, l.borrower, l, seize);
    ReleaseMovesNoUsdt0(debited, l.borrower, l, seize);
    RepaymentPaysEachLender(released, l, due - l.principal);
    var paid := DistributeRepayment(released, l, due - l.principal).value;
    DetachMovesNoUsdt0(paid, key, l, l.borrower, Liquidated);
    SettledByBackstop(b, debited, released, paid, LiquidateInState(b, key, l).value, l, due);
  }

  lemma SettledByBackstop(b: Book, debited: Book, released: Book, paid: Book, next: Book, l: Loan, due: nat)
    requires due >= l.principal
    requires debited.accounts == b.accounts && debited.mandates == b.mandates && debited.protocolReserve == b.protocolReserve
    requires forall o :: HoldingsOf(released, o) == HoldingsOf(debited, o)
    requires released.mandates == debited.mandates && released.protocolReserve == debited.protocolReserve
    requires LendersGain(released, paid, l, due - l.principal, l.tranches)
    requires MandatesRestored(released, paid, l, due - l.principal, l.tranches)
    requires paid.protocolReserve
             == released.protocolReserve + due - l.principal - TotalEarned(l, due - l.principal, l.tranches)
    requires forall o :: HoldingsOf(next, o) == HoldingsOf(paid, o)
    requires next.mandates == paid.mandates && next.protocolReserve == paid.protocolReserve
    ensures EveryoneSettled(b, next, l, due, None)
  {
    hide EarnedBy, EarnedFrom, TotalEarned, DrawnFrom;
    forall o ensures HoldingsOf(next, o) == HoldingsOf(b, o) + EarnedBy(l, due - l.principal, l.tranches, o) {
      assert HoldingsOf(debited, o) == HoldingsOf(b, o);
      assert HoldingsOf(paid, o) == HoldingsOf(released, o) + EarnedBy(l, due - l.principal, l.tranches, o);
    }
  }

  // ---- The whole effect -----------------------------------------------------------------------------

  /** No account changes in anything but its USDT0. */
  ghost predicate OnlyUsdt0(b: Book, next: Book) {
    forall o :: AccountOf(next, o) == AccountOf(b, o).(usdt0 := AccountOf(next, o).usdt0)
  }

  lemma ReturnTrancheOnlyUsdt0(b: Book, t: Tranche, earned: u64)
    requires ReturnTranche(b, t, earned).Ok?
    ensures OnlyUsdt0(b, ReturnTranche(b, t, earned).value)
  {
  }

  lemma {:induction false} DistributionOnlyUsdt0(l: Loan, interest: u64, ts: seq<Tranche>, d: Distribution)
    requires DistributeTo(l, interest, ts, d).Ok?
    ensures OnlyUsdt0(d.book, DistributeTo(l, interest, ts, d).value.book)
    decreases |ts|
  {
    hide ReturnTranche, LenderInterest;
    if ts != [] {
      var earned := LenderInterest(l, interest, ts[0]).value;
      var book := ReturnTranche(d.book, ts[0], earned).value;
      ReturnTrancheOnlyUsdt0(d.book, ts[0], earned);
      var d' := Distribution(book, d.returned + ts[0].principal, d.paid + earned);
      DistributionOnlyUsdt0(l, interest, ts[1..], d');
      var last := DistributeTo(l, interest, ts[1..], d').value.book;
      forall o ensures AccountOf(last, o) == AccountOf(d.book, o).(usdt0 := AccountOf(last, o).usdt0) {
        assert AccountOf(book, o) == AccountOf(d.book, o).(usdt0 := AccountOf(book, o).usdt0);
      }
    }
  }

  lemma OnlyUsdt0KeepsNonces(b: Book, next: Book, o: Owner)
    requires OnlyUsdt0(b, next)
    ensures AccountOf(next, o).nonce == AccountOf(b, o).nonce
  {
    assert AccountOf(next, o) == AccountOf(b, o).(usdt0 := AccountOf(next, o).usdt0);
  }

  /** What a loan's closing leaves alone: the other accounts but for their USDT0, the price and the log of activities. */
  ghost predicate NothingElseChanges(b: Book, next: Book, borrower: Owner) {
    && (forall o :: o != borrower ==> AccountOf(next, o) == AccountOf(b, o).(usdt0 := AccountOf(next, o).usdt0))
    && next.price == b.price && next.activities == b.activities
  }

  lemma DistributionLeavesTheRest(b: Book, l: Loan, interest: u64)
    requires DistributeRepayment(b, l, interest).Ok?
    ensures
      var next := DistributeRepayment(b, l, interest).value;
      OnlyUsdt0(b, next) && DistributionFrame(b, next)
  {
    hide DistributeTo;
    DistributionOnlyUsdt0(l, interest, l.tranches, Distribution(b, 0, 0));
    DistributeToFrame(l, interest, l.tranches, Distribution(b, 0, 0));
  }

  lemma ClosedLeavesTheRest(b: Book, paidIn: Book, paid: Book, next: Book, key: Id, l: Loan, borrower: Owner)
    requires forall o :: o != borrower ==> AccountOf(paidIn, o) == AccountOf(b, o)
    requires paidIn.price == b.price && paidIn.activities == b.activities
    requires OnlyUsdt0(paidIn, paid) && DistributionFrame(paidIn, paid)
    requires forall o :: o != borrower ==> AccountOf(next, o) == AccountOf(paid, o)
    requires next.price == paid.price && next.activities == paid.activities
    ensures NothingElseChanges(b, next, borrower)
  {
    hide AccountOf;
  }

  lemma CloseTouchesOnlyTheBorrower(paid: Book, key: Id, l: Loan, borrower: Owner, status: Status)
    ensures
      var next := CloseLoan(paid, key, l, borrower, status);
      && (forall o :: o != borrower ==> AccountOf(next, o) == AccountOf(paid, o))
      && AccountOf(next, borrower).nonce == AccountOf(paid, borrower).nonce
      && next.price == paid.price && next.activities == paid.activities
      && next.processed == paid.processed && next.backstopUsdt0 == paid.backstopUsdt0 && next.backstopFxrp == paid.backstopFxrp
  {
  }

  lemma ReleaseTouchesOnlyTheBorrower(b: Book, borrower: Owner, l: Loan, seized: u64)
    ensures
      var next := ReleaseCollateral(b, borrower, l, seized);
      && (forall o :: o != borrower ==> AccountOf(next, o) == AccountOf(b, o))
      && AccountOf(next, borrower).nonce == AccountOf(b, borrower).nonce
      && next.price == b.price && next.activities == b.activities
      && next.processed == b.processed && next.backstopUsdt0 == b.backstopUsdt0 && next.backstopFxrp == b.backstopFxrp
  {
  }

  /**
    The whole effect of a repayment, record by record: the loan is closed and the debt retired, the borrower has its
    collateral back and has paid, every lender and mandate is settled, and nothing else has changed.
   */
  lemma RepayChangesExactly(b: Book, owner: Owner, amount: u64, operationId: Id, nonce: u64, now: Time, next: Book)
    requires Sound(b) && Repay(b, owner, amount, operationId, nonce, now) == Ok(next)
    ensures
      var key := AccountOf(b, owner).loanId;
      var l := Accrue(b.loans[key], now).value;
      && Repaid(b, next, key, l)
      && EveryoneSettled(b, next, l, Debt(l).value, Some(owner))
      && NothingElseChanges(b, next, owner)
    ensures next.processed == b.processed + {operationId}
    ensures next.backstopUsdt0 == b.backstopUsdt0 && next.backstopFxrp == b.backstopFxrp
    ensures AccountOf(next, owner).nonce == WrapAdd(AccountOf(b, owner).nonce, 1)
  {
    RepayExact(b, owner, amount, operationId, nonce, now);
    RepaySettlesEveryone(b, owner, amount, operationId, nonce, now, next);
    RepayLeavesTheRest(b, owner, amount, operationId, nonce, now, next);
    hide Repay, Accrue, Debt, Repaid, EveryoneSettled, NothingElseChanges, RepayReady, Structure, FreeUsdt0, TotalFxrp;
  }

  lemma RepayLeavesTheRest(b: Book, owner: Owner, amount: u64, operationId: Id, nonce: u64, now: Time, next: Book)
    requires Sound(b) && Repay(b, owner, amount, operationId, nonce, now) == Ok(next)
    ensures NothingElseChanges(b, next, owner)
    ensures next.processed == b.processed + {operationId}
    ensures next.backstopUsdt0 == b.backstopUsdt0 && next.backstopFxrp == b.backstopFxrp
    ensures AccountOf(next, owner).nonce == WrapAdd(AccountOf(b, owner).nonce, 1)
  {
    hide Sum, DistributeRepayment, OnlyUsdt0, CloseLoan, ReleaseCollateral, NothingElseChanges;
    var key := AccountOf(b, owner).loanId;
    BorrowerOf(b, owner);
    AccrueFrame(b.loans[key], now);
    hide Structure, FreeUsdt0, TotalFxrp;
    var l := Accrue(b.loans[key], now).value;
    var due := Debt(l).value;
    RepayUnfolds(b, owner, amount, operationId, nonce, now, l);
    hide Repay, Accrue, Debt;
    var paidIn := PayIn(b, owner, due);
    DistributionLeavesTheRest(paidIn, l, due - l.principal);
    var paid := DistributeRepayment(paidIn, l, due - l.principal).value;
    var released := ReleaseCollateral(paid, owner, l, 0);
    var closed := CloseLoan(released, key, l, owner, Closed);
    ReleaseTouchesOnlyTheBorrower(paid, owner, l, 0);
    CloseTouchesOnlyTheBorrower(released, key, l, owner, Closed);
    OnlyUsdt0KeepsNonces(paidIn, paid, owner);
    ClosedLeavesTheRest(b, paidIn, paid, next, key, l, owner);
  }

  /** The whole effect of a liquidation, record by record. */
  lemma LiquidationChangesExactly(b: Book, key: Id, l: Loan)
    requires Sound(b) && IsOpenLoan(b, key, l) && LiquidateInState(b, key, l).Ok?
    ensures
      var next := LiquidateInState(b, key, l).value;
      && LiquidatedExactly(b, next, key, l, Debt(l).value, SeizeAmount(l, Debt(l).value, b.price.xrpUsdE6).value)
      && EveryoneSettled(b, next, l, Debt(l).value, None)
      && NothingElseChanges(b, next, l.borrower)
      && next.processed == b.processed
      && AccountOf(next, l.borrower).nonce == AccountOf(b, l.borrower).nonce
  {
    LiquidationExact(b, key, l);
    LiquidationSettlesEveryone(b, key, l);
    LiquidationLeavesTheRest(b, key, l);
  }

  lemma LiquidationLeavesTheRest(b: Book, key: Id, l: Loan)
    requires LiquidateInState(b, key, l).Ok?
    ensures NothingElseChanges(b, LiquidateInState(b, key, l).value, l.borrower)
    ensures LiquidateInState(b, key, l).value.processed == b.processed
    ensures AccountOf(LiquidateInState(b, key, l).value, l.borrower).nonce == AccountOf(b, l.borrower).nonce
  {
    hide DistributeRepayment, OnlyUsdt0, CloseLoan, ReleaseCollateral, NothingElseChanges, SeizeAmount;
    var due := Debt(l).value;
    var seize := SeizeAmount(l, due, b.price.xrpUsdE6).value;
    hide Debt;
    var seized := Seize(b, l, due, seize);
    ReleaseTouchesOnlyTheBorrower(BackstopPays(b, due, seize), l.borrower, l, seize);
    DistributionLeavesTheRest(seized, l, due - l.principal);
    var paid := DistributeRepayment(seized, l, due - l.principal).value;
    CloseTouchesOnlyTheBorrower(paid, key, l, l.borrower, Liquidated);
    OnlyUsdt0KeepsNonces(seized, paid, l.borrower);
    ClosedLeavesTheRest(b, seized, paid, LiquidateInState(b, key, l).value, key, l, l.borrower);
  }
}
