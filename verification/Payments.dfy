/**
  What a repayment and a liquidation cost and bring everyone, in the plain figures: taken from
  the books before and after, without the functions that compute it.
 */
module Payments {
  import opened Outcomes
  import opened Arithmetic
  import opened MapSums
  import opened Model
  import opened Loans
  import opened Operations
  import opened Invariants
  import opened Interest
  import opened Repayment
  import opened Closing
  import opened Liquidation
  import opened Lenders
  import opened Figures

  /** The tranches drawn from one mandate. */
  function FromMandate(ts: seq<Tranche>, id: Id): seq<Tranche> {
    if ts == [] then []
    else (if ts[0].mandateId == id then [ts[0]] else []) + FromMandate(ts[1..], id)
  }

  /**
    Of `due`, all but the principal is interest. Each account gains the interest on its own tranches, less `due` if it
    pays; each mandate counts the interest on its own; the protocol keeps the rest.
   */
  ghost predicate Shared(b: Book, next: Book, l: Loan, due: nat, payer: Option<Owner>) {
    && l.principal <= due
    && (forall o :: GainOf(b, next, l, due, payer, o))
    && next.mandates.Keys == b.mandates.Keys
    && (forall id :: id in b.mandates ==> Counted(b, next, l, due, id))
    && b.protocolReserve <= next.protocolReserve <= b.protocolReserve + (due - l.principal)
    && InterestOn(b.protocolReserve + (due - l.principal) - next.protocolReserve, l, due - l.principal, l.tranches)
  }

  ghost predicate GainOf(b: Book, next: Book, l: Loan, due: nat, payer: Option<Owner>, o: Owner)
    requires l.principal <= due
  {
    var gain := HoldingsOf(next, o) + (if payer == Some(o) then due else 0) - HoldingsOf(b, o);
    gain >= 0 && InterestOn(gain, l, due - l.principal, OfLender(l.tranches, o))
  }

  ghost predicate Counted(b: Book, next: Book, l: Loan, due: nat, id: Id)
    requires l.principal <= due && id in b.mandates && id in next.mandates
  {
    var gain := next.mandates[id].interestEarned - b.mandates[id].interestEarned;
    && gain >= 0
    && (FromMandate(l.tranches, id) == [] ==> gain == 0)
    && (forall t :: t in l.tranches && t.mandateId == id ==> InterestOnTranche(gain, l, due - l.principal, t))
  }

  // ---- From the sums of the lenders' interest ------------------------------------------------

  lemma {:induction false} EarnedByTranches(l: Loan, interest: nat, ts: seq<Tranche>, o: Owner)
    ensures EarnedBy(l, interest, ts, o) == TotalEarned(l, interest, OfLender(ts, o))
  {
    hide Earned;
    if ts != [] {
      EarnedByTranches(l, interest, ts[1..], o);
      if ts[0].lender == o {
        assert OfLender(ts, o)[0] == ts[0] && OfLender(ts, o)[1..] == OfLender(ts[1..], o);
      } else {
        assert OfLender(ts, o) == OfLender(ts[1..], o);
      }
    }
  }

  lemma GainFromSettled(b: Book, next: Book, l: Loan, due: nat, payer: Option<Owner>, o: Owner)
    requires EveryoneSettled(b, next, l, due, payer) && l.principal > 0 && l.borrowerApr > 0
    ensures GainOf(b, next, l, due, payer, o)
  {
    hide InterestOn, EarnedBy, TotalEarned, MandatesRestored, HoldingsOf;
    EarnedByTranches(l, due - l.principal, l.tranches, o);
    TogetherEarnExactly(l, due - l.principal, OfLender(l.tranches, o));
  }

  lemma {:induction false} NothingFromAbsent(l: Loan, interest: nat, ts: seq<Tranche>, id: Id)
    ensures FromMandate(ts, id) == [] <==> forall t :: t in ts ==> t.mandateId != id
    ensures FromMandate(ts, id) == [] ==> EarnedFrom(l, interest, ts, id) == 0
  {
    hide Earned;
    if ts != [] {
      assert ts[0] in ts;
      NothingFromAbsent(l, interest, ts[1..], id);
      assert forall t :: t in ts <==> t == ts[0] || t in ts[1..];
    }
  }

  lemma {:induction false} EarnedFromOne(l: Loan, interest: nat, ts: seq<Tranche>, t: Tranche)
    requires t in ts && DistinctMandates(ts)
    ensures EarnedFrom(l, interest, ts, t.mandateId) == Earned(l, interest, t)
  {
    hide Earned;
    var i :| 0 <= i < |ts| && ts[i] == t;
    if i == 0 {
      NothingFromAbsent(l, interest, ts[1..], t.mandateId);
    } else {
      assert ts[1..][i - 1] == t;
      EarnedFromOne(l, interest, ts[1..], t);
    }
  }

  lemma CountedFromRestored(b: Book, next: Book, l: Loan, due: nat, id: Id)
    requires due >= l.principal && MandatesRestored(b, next, l, due - l.principal, l.tranches) && id in b.mandates
    requires l.principal > 0 && l.borrowerApr > 0 && DistinctMandates(l.tranches)
    ensures id in next.mandates && Counted(b, next, l, due, id)
  {
    hide EarnedFrom, Earned, InterestOnTranche, DrawnFrom;
    NothingFromAbsent(l, due - l.principal, l.tranches, id);
    forall t | t in l.tranches && t.mandateId == id
      ensures InterestOnTranche(EarnedFrom(l, due - l.principal, l.tranches, id), l, due - l.principal, t)
    {
      EarnedFromOne(l, due - l.principal, l.tranches, t);
      EarnsExactly(l, due - l.principal, t);
    }
  }

  lemma SharedFromSettled(b: Book, next: Book, l: Loan, due: nat, payer: Option<Owner>)
    requires EveryoneSettled(b, next, l, due, payer) && Priced(l) && DistinctMandates(l.tranches)
    ensures Shared(b, next, l, due, payer)
  {
    hide InterestOn, EarnedBy, TotalEarned, MandatesRestored, HoldingsOf, GainOf, Counted, SumPrincipal, AverageRate;
    forall o ensures GainOf(b, next, l, due, payer, o) {
      GainFromSettled(b, next, l, due, payer, o);
    }
    RestoredKeys(b, next, l, due - l.principal, l.tranches);
    forall id | id in b.mandates ensures Counted(b, next, l, due, id) {
      CountedFromRestored(b, next, l, due, id);
    }
    LendersNeverEarnMoreThanPaid(l, due - l.principal);
    TogetherEarnExactly(l, due - l.principal, l.tranches);
  }

  lemma RestoredKeys(b: Book, next: Book, l: Loan, interest: nat, ts: seq<Tranche>)
    requires MandatesRestored(b, next, l, interest, ts)
    ensures next.mandates.Keys == b.mandates.Keys
  {
  }

  lemma OpenLoanTerms(b: Book, key: Id, l: Loan)
    requires Sound(b) && IsOpenLoan(b, key, l)
    ensures Priced(l) && DistinctMandates(l.tranches) && l.principal > 0 && l.borrowerApr > 0
  {
    OpenLoanFacts(b, key, l);
  }

  // ---- Repayment -----------------------------------------------------------------------------

  /** A borrower that is not one of its own lenders loses exactly what it owes. */
  lemma StrangerGainsNothing(b: Book, next: Book, l: Loan, due: nat, o: Owner)
    requires l.principal <= due && l.principal > 0 && l.borrowerApr > 0 && GainOf(b, next, l, due, Some(o), o)
    requires forall t :: t in l.tranches ==> t.lender != o
    ensures HoldingsOf(next, o) == HoldingsOf(b, o) - due
  {
    hide HoldingsOf;
    var gain := HoldingsOf(next, o) + due - HoldingsOf(b, o);
    NotALender(l.tranches, o);
    assert (due - l.principal) * 0 == 0;
    MulZero(gain, l.borrowerApr);
    MulZero(gain * l.borrowerApr, l.principal);
  }

  lemma {:induction false} NotALender(ts: seq<Tranche>, o: Owner)
    requires forall t :: t in ts ==> t.lender != o
    ensures OfLender(ts, o) == []
  {
    if ts != [] {
      assert ts[0] in ts;
      NotALender(ts[1..], o);
    }
  }

  /** The effect of paying `due`, whatever it is: the payer's balance, its collateral and everyone's interest. */
  ghost predicate PaidBack(b: Book, next: Book, l: Loan, due: nat, owner: Owner) {
    && due <= AccountOf(b, owner).usdt0.available
    && Shared(b, next, l, due, Some(owner))
    && ((forall t :: t in l.tranches ==> t.lender != owner) ==> HoldingsOf(next, owner) == HoldingsOf(b, owner) - due)
    && AccountOf(next, owner).fxrp.available == AccountOf(b, owner).fxrp.available + l.collateral
    && AccountOf(next, owner).loanId == ""
  }

  lemma RepaymentPaysBack(b: Book, owner: Owner, amount: u64, operationId: Id, nonce: u64, now: Time, next: Book)
    requires Sound(b) && Repay(b, owner, amount, operationId, nonce, now) == Ok(next)
    ensures
      var key := AccountOf(b, owner).loanId;
      && key in b.loans && Accrue(b.loans[key], now).Ok?
      && var l, accrued := b.loans[key], Accrue(b.loans[key], now).value;
         && l.borrower == owner && Debt(accrued).Ok? && Debt(accrued).value <= amount
         && PaidBack(b, next, l, Debt(accrued).value, owner)
  {
    hide Structure, FreeUsdt0, TotalFxrp, Sum, EveryoneSettled, Repay, Accrue, CountersFit, HoldingsOf, Shared, GainOf;
    hide Priced;
    RepayExact(b, owner, amount, operationId, nonce, now);
    BorrowerOf(b, owner);
    var key := AccountOf(b, owner).loanId;
    var l := b.loans[key];
    var accrued := Accrue(l, now).value;
    AccrueFrame(l, now);
    OpenLoanTerms(b, key, accrued);
    RepaySettlesEveryone(b, owner, amount, operationId, nonce, now, next);
    var due := Debt(accrued).value;
    SharedFromSettled(b, next, accrued, due, Some(owner));
    SharedIgnoresAccrual(b, next, l, accrued, due, Some(owner));
    if forall t :: t in l.tranches ==> t.lender != owner {
      SharedGain(b, next, l, due, Some(owner), owner);
      StrangerGainsNothing(b, next, l, due, owner);
    }
  }

  /**
    A repayment takes the principal and the whole units of all interest up to now from the borrower, gives the
    collateral back, and shares the interest out.
   */
  lemma RepaymentCosts(b: Book, owner: Owner, amount: u64, operationId: Id, nonce: u64, now: Time, next: Book)
    requires Sound(b) && Repay(b, owner, amount, operationId, nonce, now) == Ok(next)
    ensures
      var key := AccountOf(b, owner).loanId;
      && key in b.loans
      && var l := b.loans[key];
         exists accrued: Loan ::
           && AccruedTo(l, accrued, now)
           && accrued.principal + accrued.accruedRay / 1_000_000 <= amount
           && PaidBack(b, next, l, accrued.principal + accrued.accruedRay / 1_000_000, owner)
  {
    hide Structure, FreeUsdt0, TotalFxrp, Sum, Repay, Accrue, PaidBack;
    RepaymentPaysBack(b, owner, amount, operationId, nonce, now, next);
    AccruesExactly(b.loans[AccountOf(b, owner).loanId], now);
  }

  lemma SharedGain(b: Book, next: Book, l: Loan, due: nat, payer: Option<Owner>, o: Owner)
    requires Shared(b, next, l, due, payer)
    ensures GainOf(b, next, l, due, payer, o) && l.principal <= due
  {
  }

  /** How a payment is shared depends on the loan's principal, rate and tranches only. */
  lemma SharedIgnoresAccrual(b: Book, next: Book, l: Loan, l': Loan, due: nat, payer: Option<Owner>)
    requires l'.principal == l.principal && l'.borrowerApr == l.borrowerApr && l'.tranches == l.tranches
    requires Shared(b, next, l', due, payer)
    ensures Shared(b, next, l, due, payer)
  {
    hide HoldingsOf;
    forall o ensures GainOf(b, next, l, due, payer, o) {
      assert GainOf(b, next, l', due, payer, o);
    }
    forall id | id in b.mandates ensures Counted(b, next, l, due, id) {
      assert Counted(b, next, l', due, id);
      forall t | t in l.tranches && t.mandateId == id
        ensures InterestOnTranche(next.mandates[id].interestEarned - b.mandates[id].interestEarned, l, due - l.principal, t)
      {
        var e := next.mandates[id].interestEarned - b.mandates[id].interestEarned;
        assert InterestOnTranche(e, l', due - l.principal, t);
      }
    }
  }

  // ---- Liquidation ---------------------------------------------------------------------------

  /**
    A liquidation takes the debt from the backstop, gives it the seized collateral and the borrower the rest, and
    shares the interest out as a repayment does.
   */
  lemma LiquidationCosts(b: Book, key: Id, l: Loan)
    requires Sound(b) && IsOpenLoan(b, key, l) && LiquidateInState(b, key, l).Ok?
    ensures
      var next := LiquidateInState(b, key, l).value;
      var due, s := l.principal + l.accruedRay / 1_000_000, next.backstopFxrp - b.backstopFxrp;
      && b.backstopUsdt0 - next.backstopUsdt0 == due
      && 0 <= s <= l.collateral && SeizureOf(s, l.collateral, due, b.price.xrpUsdE6)
      && AccountOf(next, l.borrower).fxrp.available == AccountOf(b, l.borrower).fxrp.available + l.collateral - s
      && Shared(b, next, l, due, None)
  {
    hide Structure, FreeUsdt0, TotalFxrp, Sum, EveryoneSettled, LiquidateInState, CountersFit, Shared, SeizeAmount;
    hide Priced, SeizureOf;
    LiquidationChangesExactly(b, key, l);
    LiquidationExact(b, key, l);
    OpenLoanTerms(b, key, l);
    var due := Debt(l).value;
    SeizesExactly(l, due, b.price.xrpUsdE6);
    SharedFromSettled(b, LiquidateInState(b, key, l).value, l, due, None);
  }

  /** A liquidation of an open loan fails only if the backstop is short, the price cannot price it, or a counter is full. */
  lemma LiquidationSucceedsExactly(b: Book, key: Id, l: Loan)
    requires Sound(b) && IsOpenLoan(b, key, l)
    ensures
      var due := l.principal + l.accruedRay / 1_000_000;
      LiquidateInState(b, key, l).Ok? <==>
        && due <= b.backstopUsdt0
        && b.price.xrpUsdE6 > 0
        && due * 10_000_000_000 / (b.price.xrpUsdE6 * 9500) < 0x1_0000_0000_0000_0000
        && CountersFit(b.mandates, l, due - l.principal, l.tranches)
  {
    hide Structure, FreeUsdt0, TotalFxrp, Sum, LiquidateInState, CountersFit, SeizeAmount, LiquidatedExactly;
    LiquidationExact(b, key, l);
    if Debt(l).Ok? {
      SeizesExactly(l, Debt(l).value, b.price.xrpUsdE6);
    }
  }
}
