/**
  What a tick takes from each loan that it liquidates, in the plain figures, read off the
  borrower's account, the stored loan and the pools.
 */
module TickFigures {
  import opened Outcomes
  import opened Arithmetic
  import opened MapSums
  import opened Model
  import opened Ordering
  import opened Loans
  import opened Operations
  import opened Invariants
  import opened Closing
  import opened TickOutcomes
  import opened Lenders
  import opened Figures

  /** The loans that a tick has liquidated, as it leaves them. */
  function LiquidatedIn(b: Book, next: Book): map<Id, Loan> {
    map k | k in b.loans && k in next.loans && b.loans[k].Open() && !next.loans[k].Open() :: next.loans[k]
  }

  /** What a liquidated loan's borrower does not get back. */
  function Kept(b: Book, next: Book, l: Loan): int {
    l.collateral - (AccountOf(next, l.borrower).fxrp.available - AccountOf(b, l.borrower).fxrp.available)
  }

  /** Of the loans in `done` only the borrower's own frees anything for it. */
  lemma OneFreed(done: map<Id, Loan>, key: Id, price: u64)
    requires key in done && forall k :: k in done && done[k].borrower == done[key].borrower ==> k == key
    ensures Sum(done, Freed(done[key].borrower, price)) == done[key].collateral - Seized(done[key], price)
  {
    hide Seized;
    var weight := Freed(done[key].borrower, price);
    SumRemove(done, key, weight);
    forall k | k in done - {key} ensures weight((done - {key})[k]) == 0 {
      assert k in done && k != key;
    }
    SumZero(done - {key}, weight);
  }

  function OwedBy(): Loan -> int {
    (l: Loan) => l.principal + l.accruedRay / 1_000_000
  }

  function KeptIn(b: Book, next: Book): Loan -> int {
    (l: Loan) => Kept(b, next, l)
  }

  lemma AssessKeepsContract(l: Loan, price: u64, now: Time)
    requires Assess(l, price, now).Ok?
    ensures
      var r := Assess(l, price, now).value;
      && r.borrower == l.borrower && r.collateral == l.collateral && (r.status == Liquidatable ==> l.Open())
      && (l.Open() ==> r.Open())
  {
    if l.Open() {
      hide Accrue, UpdateRisk;
      AccrueFrame(l, now);
      UpdateRiskFrame(Accrue(l, now).value, price, now);
    }
  }

  /** A tick's chosen loans: open before, assessed, and each the only one of its borrower. */
  ghost predicate ChosenFacts(b: Book, a: map<Id, Loan>, chosen: map<Id, Loan>) {
    && a.Keys == b.loans.Keys
    && (forall k :: k in chosen ==>
          k in a && chosen[k] == a[k] && b.loans[k].Open() && a[k].Open() && a[k].borrower == b.loans[k].borrower
          && AccountOf(b, a[k].borrower).loanId == k)
    && (forall k :: k in a && k !in chosen ==> a[k].Open() == b.loans[k].Open())
  }

  lemma ChosenAreBorrowers(b: Book, now: Time, order: seq<Id>)
    requires Sound(b) && AllAssessable(b, now)
    ensures ChosenFacts(b, Assessments(b, now), ChosenBy(b, now, order))
  {
    hide FreeUsdt0, TotalFxrp, ReservedBacked, LentBacked, LoanSound, Assess, Chosen;
    var a := Assessments(b, now);
    ChosenAreLiquidatable(a, order, b.backstopUsdt0);
    forall k | k in a ensures a[k].borrower == b.loans[k].borrower && (a[k].status == Liquidatable ==> b.loans[k].Open())
                              && (b.loans[k].Open() ==> a[k].Open()) && (a[k].Open() ==> b.loans[k].Open())
    {
      AssessKeepsContract(b.loans[k], b.price.xrpUsdE6, now);
      if !b.loans[k].Open() {
        ClosedStaysAsItIs(b.loans[k], b.price.xrpUsdE6, now);
      }
    }
    forall k | k in ChosenBy(b, now, order) ensures AccountOf(b, a[k].borrower).loanId == k {
      assert OpenLoanLinked(b, k);
    }
  }

  /** The stored loans after a tick are the chosen ones, liquidated. */
  lemma LiquidatedAreChosen(b: Book, a: map<Id, Loan>, chosen: map<Id, Loan>, next: Book)
    requires ChosenFacts(b, a, chosen)
    requires next.loans == map k | k in a :: if k in chosen then a[k].(status := Liquidated) else a[k]
    ensures LiquidatedIn(b, next).Keys == chosen.Keys
    ensures forall k :: k in chosen ==> LiquidatedIn(b, next)[k] == chosen[k].(status := Liquidated)
  {
  }

  /** What one chosen loan's borrower loses is its seizure. */
  lemma KeptIsSeized(b: Book, next: Book, a: map<Id, Loan>, chosen: map<Id, Loan>, key: Id)
    requires ChosenFacts(b, a, chosen) && key in chosen && AllSeizable(b, chosen)
    requires AccountSettled(b, next, chosen, a[key].borrower)
    ensures Kept(b, next, a[key]) == Seized(a[key], b.price.xrpUsdE6)
    ensures SeizureOf(Seized(a[key], b.price.xrpUsdE6), a[key].collateral,
                      a[key].principal + a[key].accruedRay / 1_000_000, b.price.xrpUsdE6)
  {
    hide Sum, HoldingsOf, SeizeAmount, SeizureOf;
    OneFreed(chosen, key, b.price.xrpUsdE6);
    SeizesExactly(a[key], Debt(a[key]).value, b.price.xrpUsdE6);
  }

  /** The same for a loan as it is stored afterwards. */
  ghost predicate TakenFrom(b: Book, next: Book, l: Loan, price: u64) {
    var s := Kept(b, next, l);
    0 <= s <= l.collateral && SeizureOf(s, l.collateral, l.principal + l.accruedRay / 1_000_000, price)
  }

  lemma ChosenTaken(b: Book, next: Book, a: map<Id, Loan>, chosen: map<Id, Loan>, key: Id)
    requires ChosenFacts(b, a, chosen) && key in chosen && AllSeizable(b, chosen)
    requires AccountSettled(b, next, chosen, a[key].borrower)
    ensures TakenFrom(b, next, a[key].(status := Liquidated), b.price.xrpUsdE6)
  {
    hide Sum, AccountSettled, SeizureOf;
    KeptIsSeized(b, next, a, chosen, key);
    assert Seized(a[key], b.price.xrpUsdE6) <= a[key].collateral;
  }

  lemma TickTotals(b: Book, next: Book, a: map<Id, Loan>, chosen: map<Id, Loan>)
    requires ChosenFacts(b, a, chosen) && AllSeizable(b, chosen) && TickOutcomes.Settled(b, next, chosen)
    requires LiquidatedIn(b, next).Keys == chosen.Keys
    requires forall k :: k in chosen ==> LiquidatedIn(b, next)[k] == chosen[k].(status := Liquidated)
    ensures next.backstopUsdt0 == b.backstopUsdt0 - Sum(LiquidatedIn(b, next), OwedBy())
    ensures next.backstopFxrp == b.backstopFxrp + Sum(LiquidatedIn(b, next), KeptIn(b, next))
  {
    hide Sum, AccountSettled, MandateSettled, LiquidatedIn, Seized, Kept, ChosenFacts;
    var liquidated := LiquidatedIn(b, next);
    forall k | k in liquidated ensures SeizedAt(b.price.xrpUsdE6)(chosen[k]) == KeptIn(b, next)(liquidated[k]) {
      ChosenBorrower(b, a, chosen, k);
      assert AccountSettled(b, next, chosen, a[k].borrower);
      KeptIsSeized(b, next, a, chosen, k);
      KeptIgnoresStatus(b, next, a[k]);
    }
    SumCongruent(liquidated, chosen, OwedBy(), Owes());
    SumCongruent(liquidated, chosen, KeptIn(b, next), SeizedAt(b.price.xrpUsdE6));
  }

  lemma ChosenBorrower(b: Book, a: map<Id, Loan>, chosen: map<Id, Loan>, k: Id)
    requires ChosenFacts(b, a, chosen) && k in chosen
    ensures k in a && chosen[k] == a[k]
  {
  }

  lemma KeptIgnoresStatus(b: Book, next: Book, l: Loan)
    ensures Kept(b, next, l.(status := Liquidated)) == Kept(b, next, l)
  {
  }

  /**
    From each loan that it liquidates a tick takes a seizure for the debt stored with it, at the tick's price; the
    backstop pays those debts and receives what was taken.
   */
  lemma TickTakesExactly(b: Book, price: Price, operationId: Id, now: Time, order: seq<Id>, next: Book)
    requires Sound(b) && Enumerates(order, b.loans.Keys) && RiskTick(b, price, operationId, now, order) == Ok(next)
    ensures forall k :: k in LiquidatedIn(b, next) ==> TakenFrom(b, next, LiquidatedIn(b, next)[k], price.xrpUsdE6)
    ensures next.backstopUsdt0 == b.backstopUsdt0 - Sum(LiquidatedIn(b, next), OwedBy())
    ensures next.backstopFxrp == b.backstopFxrp + Sum(LiquidatedIn(b, next), KeptIn(b, next))
  {
    hide Structure, FreeUsdt0, TotalFxrp, Sum, RiskTick, Assess, Chosen, ChosenFacts, AccountSettled, MandateSettled;
    hide CountersHold, LiquidatedIn, TakenFrom, Kept, AllSeizable, AllAssessable;
    var p := b.(price := price);
    TickSucceedsExactly(b, price, operationId, now, order);
    TickLeavesExactly(b, price, operationId, now, order, next);
    LogKeeps(b, b.processed, b.activities, price);
    ChosenAreBorrowers(p, now, order);
    var a, chosen := Assessments(p, now), ChosenBy(p, now, order);
    var ticked := next.(processed := b.processed);
    LiquidatedAreChosen(p, a, chosen, ticked);
    SameLiquidated(b, p, next, ticked);
    TickTotals(p, ticked, a, chosen);
    forall k | k in LiquidatedIn(b, next) ensures TakenFrom(b, next, LiquidatedIn(b, next)[k], price.xrpUsdE6) {
      ChosenBorrower(p, a, chosen, k);
      assert AccountSettled(p, ticked, chosen, a[k].borrower);
      ChosenTaken(p, ticked, a, chosen, k);
      SameKept(b, p, next, ticked, LiquidatedIn(b, next)[k], price.xrpUsdE6);
    }
    forall k | k in LiquidatedIn(b, next) ensures KeptIn(b, next)(LiquidatedIn(b, next)[k])
                                                == KeptIn(p, ticked)(LiquidatedIn(b, next)[k])
    {
      SameKept(b, p, next, ticked, LiquidatedIn(b, next)[k], price.xrpUsdE6);
    }
    SumCongruent(LiquidatedIn(b, next), LiquidatedIn(b, next), KeptIn(b, next), KeptIn(p, ticked));
  }

  lemma SameLiquidated(b: Book, b': Book, next: Book, next': Book)
    requires b'.loans == b.loans && next'.loans == next.loans
    ensures LiquidatedIn(b', next') == LiquidatedIn(b, next)
  {
  }

  lemma SameKept(b: Book, b': Book, next: Book, next': Book, l: Loan, price: u64)
    requires b'.accounts == b.accounts && next'.accounts == next.accounts
    ensures Kept(b', next', l) == Kept(b, next, l)
    ensures TakenFrom(b', next', l, price) == TakenFrom(b, next, l, price)
  {
  }

  // ---- What becomes of every loan --------------------------------------------------------------------

  /** An open loan after a tick: accrued, reassessed at the tick's price, and liquidated only if liquidatable. */
  ghost predicate Ticked(l: Loan, l': Loan, price: u64, now: Time) {
    exists accrued: Loan, r: Loan ::
      && AccruedTo(l, accrued, now) && Published(accrued, r, price, now)
      && (l' == r || (r.status == Liquidatable && l' == r.(status := Liquidated)))
  }

  lemma AssessedIsTicked(l: Loan, l': Loan, price: u64, now: Time)
    requires l.Open() && Assess(l, price, now).Ok?
    requires
      var r := Assess(l, price, now).value;
      l' == r || (r.status == Liquidatable && l' == r.(status := Liquidated))
    ensures Ticked(l, l', price, now)
  {
    hide Accrue, UpdateRisk, AccruedTo, Published;
    AccruesExactly(l, now);
    PublishesExactly(Accrue(l, now).value, price, now);
  }

  /** A tick accrues and reassesses every open loan, in these figures, and leaves every closed one alone. */
  lemma TickUpdatesExactly(b: Book, price: Price, operationId: Id, now: Time, order: seq<Id>, next: Book)
    requires Sound(b) && Enumerates(order, b.loans.Keys) && RiskTick(b, price, operationId, now, order) == Ok(next)
    ensures next.loans.Keys == b.loans.Keys
    ensures forall k :: k in b.loans ==>
              if b.loans[k].Open() then Ticked(b.loans[k], next.loans[k], price.xrpUsdE6, now)
              else next.loans[k] == b.loans[k]
  {
    hide Sound, RiskTick, Assess, Chosen, TickOutcomes.Settled, Ticked;
    var p := b.(price := price);
    TickLeavesExactly(b, price, operationId, now, order, next);
    ChosenAreLiquidatable(Assessments(p, now), order, b.backstopUsdt0);
    forall k | k in b.loans
      ensures if b.loans[k].Open() then Ticked(b.loans[k], next.loans[k], price.xrpUsdE6, now)
              else next.loans[k] == b.loans[k]
    {
      if b.loans[k].Open() {
        AssessedIsTicked(b.loans[k], next.loans[k], price.xrpUsdE6, now);
      } else {
        ClosedStaysAsItIs(b.loans[k], price.xrpUsdE6, now);
      }
    }
  }

  lemma ClosedStaysAsItIs(l: Loan, price: u64, now: Time)
    requires !l.Open()
    ensures Assess(l, price, now) == Ok(l) && l.status != Liquidatable
  {
  }
}
