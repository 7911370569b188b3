/**
  The risk tick: whatever the enumeration order of the loans, it keeps the books and
  liquidates until the backstop is exhausted; a second tick at the same price and
  instant changes nothing.
 */
module RiskTicks {
  import opened Outcomes
  import opened Arithmetic
  import opened Model
  import opened Ordering
  import opened Loans
  import opened Matching
  import opened Operations
  import opened Invariants
  import opened Conservation
  import opened Closing
  import opened Liquidation

  // ---- What a distribution and a liquidation leave alone ------------------------------------

  /** Only accounts, mandates and the protocol reserve differ. */
  ghost predicate DistributionFrame(b: Book, next: Book) {
    next == b.(accounts := next.accounts, mandates := next.mandates, protocolReserve := next.protocolReserve)
  }

  lemma {:induction false} DistributeToFrame(l: Loan, interest: u64, ts: seq<Tranche>, d: Distribution)
    requires DistributeTo(l, interest, ts, d).Ok?
    ensures DistributionFrame(d.book, DistributeTo(l, interest, ts, d).value.book)
    decreases |ts|
  {
    hide LenderInterest;
    if ts != [] {
      var earned := LenderInterest(l, interest, ts[0]).value;
      var book := ReturnTranche(d.book, ts[0], earned).value;
      assert DistributionFrame(d.book, book);
      hide ReturnTranche;
      var returned := CheckedAdd(d.returned, ts[0].principal).value;
      DistributeToFrame(l, interest, ts[1..], Distribution(book, returned, CheckedAdd(d.paid, earned).value));
    }
  }

  lemma LiquidationFrame(b: Book, key: Id, l: Loan)
    requires LiquidateInState(b, key, l).Ok?
    ensures
      var next := LiquidateInState(b, key, l).value;
      && next.loans == b.loans[key := l.(status := Liquidated)]
      && next.price == b.price && next.processed == b.processed && next.activities == b.activities
      && next.backstopUsdt0 <= b.backstopUsdt0
  {
    hide SeizeAmount, DistributeTo;
    var due := Debt(l).value;
    var seized := SeizeAmount(l, due, b.price.xrpUsdE6).value;
    DistributeToFrame(l, due - l.principal, l.tranches, Distribution(Seize(b, l, due, seized), 0, 0));
  }

  /** A tick of one loan touches that loan only, and the backstop never grows. */
  lemma TickLoanFrame(b: Book, key: Id, now: Time)
    requires TickLoan(b, key, now).Ok?
    ensures
      var next := TickLoan(b, key, now).value;
      && next.loans.Keys == b.loans.Keys
      && (forall k :: k in b.loans && k != key ==> next.loans[k] == b.loans[k])
      && next.price == b.price && next.processed == b.processed && next.activities == b.activities
      && next.backstopUsdt0 <= b.backstopUsdt0
  {
    if key in b.loans && b.loans[key].Open() {
      hide LiquidateInState, Accrue, UpdateRisk;
      var l := UpdateRisk(Accrue(b.loans[key], now).value, b.price.xrpUsdE6, now).value;
      if l.status == Liquidatable && b.backstopUsdt0 >= Debt(l).value {
        LiquidationFrame(b.(loans := b.loans[key := l]), key, l);
      }
    }
  }

  // ---- Maximality ----------------------------------------------------------------------------------

  /** Nothing is left to do for this loan: it is closed, or up to date and, if liquidatable, beyond the backstop. */
  ghost predicate UpToDate(b: Book, key: Id, now: Time)
    requires key in b.loans
  {
    var l := b.loans[key];
    l.Open() ==>
      && Accrue(l, now) == Ok(l)
      && UpdateRisk(l, b.price.xrpUsdE6, now) == Ok(l)
      && Debt(l).Ok?
      && (l.status == Liquidatable ==> b.backstopUsdt0 < Debt(l).value)
  }

  lemma TickLoanUpToDate(b: Book, key: Id, now: Time)
    requires key in b.loans && TickLoan(b, key, now).Ok?
    ensures key in TickLoan(b, key, now).value.loans && UpToDate(TickLoan(b, key, now).value, key, now)
  {
    if b.loans[key].Open() {
      var accrued := Accrue(b.loans[key], now).value;
      assert Accrue(accrued, now) == Ok(accrued);
      UpdateRiskFrame(accrued, b.price.xrpUsdE6, now);
      UpdateRiskIdempotent(accrued, b.price.xrpUsdE6, now);
      var l := UpdateRisk(accrued, b.price.xrpUsdE6, now).value;
      assert Accrue(l, now) == Ok(l);
      hide LiquidateInState, Accrue, UpdateRisk;
      if l.status == Liquidatable && b.backstopUsdt0 >= Debt(l).value {
        LiquidationFrame(b.(loans := b.loans[key := l]), key, l);
      }
    }
  }

  lemma {:induction false} TickAllUpToDate(b: Book, keys: seq<Id>, now: Time, done: set<Id>)
    requires TickAll(b, keys, now).Ok? && NoDuplicates(keys)
    requires forall k :: k in done ==> k !in keys && k in b.loans && UpToDate(b, k, now)
    ensures
      var next := TickAll(b, keys, now).value;
      && next.loans.Keys == b.loans.Keys
      && next.price == b.price && next.processed == b.processed
      && (forall k :: k in b.loans && (k in done || k in keys) ==> UpToDate(next, k, now))
    decreases |keys|
  {
    if keys != [] {
      var key := keys[0];
      hide TickLoan, Accrue, UpdateRisk, Debt;
      var next := TickLoan(b, key, now).value;
      TickLoanFrame(b, key, now);
      if key in b.loans {
        TickLoanUpToDate(b, key, now);
      }
      var done' := done + (if key in b.loans then {key} else {});
      assert forall k :: k in keys <==> k == key || k in keys[1..];
      TickAllUpToDate(next, keys[1..], now, done');
    }
  }

  /** After a tick every loan that is still liquidatable owes more than the whole remaining backstop. */
  lemma TickLiquidatesAllItCan(b: Book, price: Price, operationId: Id, now: Time, order: seq<Id>, next: Book)
    requires Enumerates(order, b.loans.Keys)
    requires RiskTick(b, price, operationId, now, order) == Ok(next)
    ensures next.loans.Keys == b.loans.Keys
    ensures forall k :: k in next.loans ==> UpToDate(next, k, now)
    ensures forall k :: k in next.loans && next.loans[k].status == Liquidatable ==>
      Debt(next.loans[k]).Ok? && Debt(next.loans[k]).value > next.backstopUsdt0
  {
    hide TickAll, Accrue, UpdateRisk;
    TickAllUpToDate(b.(price := price), order, now, {});
    var ticked := TickAll(b.(price := price), order, now).value;
    forall k | k in next.loans ensures UpToDate(next, k, now) {
      assert k in order;
      assert UpToDate(ticked, k, now);
    }
  }

  lemma {:induction false} TickAllIdle(b: Book, keys: seq<Id>, now: Time)
    requires forall k :: k in b.loans ==> UpToDate(b, k, now)
    ensures TickAll(b, keys, now) == Ok(b)
    decreases |keys|
  {
    if keys != [] {
      var key := keys[0];
      if key in b.loans && b.loans[key].Open() {
        assert UpToDate(b, key, now);
        assert b.(loans := b.loans[key := b.loans[key]]) == b;
      }
      TickAllIdle(b, keys[1..], now);
    }
  }

  /** A second tick at the same price and instant, in any order, succeeds and changes only the price's age and the processed set. */
  lemma SecondTickChangesNothing(
    b: Book, price: Price, operationId: Id, now: Time, order: seq<Id>, next: Book,
    price': Price, operationId': Id, order': seq<Id>)
    requires Enumerates(order, b.loans.Keys)
    requires RiskTick(b, price, operationId, now, order) == Ok(next)
    requires FreshObservation(price', now) && price'.xrpUsdE6 == price.xrpUsdE6
    requires operationId' !in next.processed
    ensures RiskTick(next, price', operationId', now, order')
         == Ok(next.(price := price', processed := next.processed + {operationId'}))
  {
    hide TickAll, Accrue, UpdateRisk;
    TickLiquidatesAllItCan(b, price, operationId, now, order, next);
    TickAllUpToDate(b.(price := price), order, now, {});
    var priced := next.(price := price');
    forall k | k in priced.loans ensures UpToDate(priced, k, now) {
      assert UpToDate(next, k, now);
    }
    TickAllIdle(priced, order', now);
  }

  // ---- The books -------------------------------------------------------------------------------------

  lemma TickLoanKeeps(b: Book, key: Id, now: Time, next: Book)
    requires Sound(b) && TickLoan(b, key, now) == Ok(next)
    ensures Sound(next) && Moves(b, next, 0, 0) && next.activeDebt <= b.activeDebt
  {
    hide Structure, FreeUsdt0, TotalFxrp, LiquidateInState, LiquidationReady, SeizeAmount;
    if key in b.loans && b.loans[key].Open() {
      AccrueFrame(b.loans[key], now);
      var accrued := Accrue(b.loans[key], now).value;
      UpdateRiskFrame(accrued, b.price.xrpUsdE6, now);
      var l := UpdateRisk(accrued, b.price.xrpUsdE6, now).value;
      hide Accrue, UpdateRisk;
      var updated := b.(loans := b.loans[key := l]);
      LoanUpdateKeeps(b, key, l);
      if l.status == Liquidatable && b.backstopUsdt0 >= Debt(l).value {
        LiquidationExact(updated, key, l);
      }
    }
  }

  lemma {:induction false} TickAllKeeps(b: Book, keys: seq<Id>, now: Time, next: Book)
    requires Sound(b) && TickAll(b, keys, now) == Ok(next)
    ensures Sound(next) && Moves(b, next, 0, 0) && next.activeDebt <= b.activeDebt
    decreases |keys|
  {
    hide Structure, FreeUsdt0, TotalFxrp, TickLoan;
    if keys != [] {
      var mid := TickLoan(b, keys[0], now).value;
      TickLoanKeeps(b, keys[0], now, mid);
      TickAllKeeps(mid, keys[1..], now, next);
    }
  }

  /** In any order, a tick keeps the books; no funds enter or leave. */
  lemma RiskTickKeeps(b: Book, price: Price, operationId: Id, now: Time, order: seq<Id>, next: Book)
    requires Sound(b) && RiskTick(b, price, operationId, now, order) == Ok(next)
    ensures Sound(next) && Moves(b, next, 0, 0) && next.activeDebt <= b.activeDebt
  {
    hide Structure, FreeUsdt0, TotalFxrp, TickAll;
    var priced := b.(price := price);
    LogKeeps(b, b.processed, b.activities, price);
    var ticked := TickAll(priced, order, now).value;
    TickAllKeeps(priced, order, now, ticked);
    LogKeeps(ticked, next.processed, ticked.activities, ticked.price);
  }
}
