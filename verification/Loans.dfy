/**
  Interest accrual, debt and the risk status of a single loan.
  The source edits the loan record inside a private copy of the state; here each
  step returns the edited record or an error.
 */
module Loans {
  import opened Outcomes
  import opened Arithmetic
  import opened Model

  const GRACE: int := 86_400

  predicate Late(l: Loan, now: Time) {
    now > l.maturesAt + GRACE
  }

  function Rate(l: Loan, now: Time): nat {
    if Late(l, now) then l.borrowerApr + 300 else l.borrowerApr
  }

  function Numerator(principal: nat, rate: nat, elapsed: nat): nat {
    principal * rate * elapsed * SCALE
  }

  function Accrue(l: Loan, now: Time): Result<Loan> {
    if now <= l.lastAccruedAt then Ok(l)
    else
      var increment :- Ratio(Numerator(l.principal, Rate(l, now), now - l.lastAccruedAt), BPS * YEAR, false);
      var accrued :- CheckedAdd(l.accruedRay, increment);
      Ok(l.(accruedRay := accrued, lastAccruedAt := now))
  }

  function Debt(l: Loan): Result<u64> {
    CheckedAdd(l.principal, l.accruedRay / SCALE)
  }

  function StatusAt(l: Loan, ltv: u64, now: Time): Status {
    if Late(l, now) || ltv >= 6500 then Liquidatable
    else if ltv >= 5500 then Warning
    else if ltv >= 5000 then Restricted
    else Healthy
  }

  function UpdateRisk(l: Loan, price: u64, now: Time): Result<Loan> {
    var value :- Ratio(l.collateral * price, SCALE, false);
    var d :- Debt(l);
    if value == 0 then Ok(l.(status := Liquidatable))
    else
      var ltv :- Ratio(d * BPS, value, false);
      if ltv == 0 then Ok(l.(healthFactor := MAX64, liquidationPrice := 0, status := Healthy))
      else
        var health :- Ratio(6500 * BPS, ltv, false);
        var floorPrice :- Ratio(d * BPS * SCALE, l.collateral * 6500, false);
        Ok(l.(healthFactor := health, liquidationPrice := floorPrice, status := StatusAt(l, ltv, now)))
  }

  // ---- Accrual over many instants ----------------------------------------------

  /** Accrue at each instant in turn, as successive risk ticks do. */
  function AccrueAll(l: Loan, times: seq<Time>): Result<Loan>
    decreases |times|
  {
    if times == [] then Ok(l)
    else
      var next :- Accrue(l, times[0]);
      AccrueAll(next, times[1..])
  }

  predicate Ascending(times: seq<Time>) {
    forall i, j :: 0 <= i < j < |times| ==> times[i] <= times[j]
  }

  lemma NumeratorAdds(principal: nat, rate: nat, rate': nat, e: nat, e': nat)
    requires rate <= rate'
    ensures Numerator(principal, rate, e) <= Numerator(principal, rate', e)
    ensures Numerator(principal, rate, e) + Numerator(principal, rate, e') == Numerator(principal, rate, e + e')
  {
    var k, k' := principal * rate, principal * rate';
    assert principal * rate == rate * principal && principal * rate' == rate' * principal;
    MulMono(rate, rate', principal);
    MulMono(k, k', e);
    assert k * (e + e') == k * e + k * e';
  }

  /** Stopping on the way accrues no more, and at most one ray unit less when the rate is the same. */
  lemma AccrueTwice(l: Loan, t: Time, last: Time)
    requires t <= last
    requires Accrue(l, last).Ok?
    ensures Accrue(l, t).Ok?
    ensures
      var step := Accrue(l, t).value;
      var direct := Accrue(l, last).value;
      && Accrue(step, last).Ok?
      && Accrue(step, last).value == direct.(accruedRay := Accrue(step, last).value.accruedRay)
      && Accrue(step, last).value.accruedRay <= direct.accruedRay
      && (Late(l, t) == Late(l, last) ==> direct.accruedRay <= Accrue(step, last).value.accruedRay + 1)
  {
    if l.lastAccruedAt < t < last {
      var e, e' := t - l.lastAccruedAt, last - t;
      var d: nat := BPS * YEAR;
      var x := Numerator(l.principal, Rate(l, t), e);
      var x' := Numerator(l.principal, Rate(l, last), e);
      var y := Numerator(l.principal, Rate(l, last), e');
      NumeratorAdds(l.principal, Rate(l, t), Rate(l, last), e, e');
      NumeratorAdds(l.principal, Rate(l, last), Rate(l, last), e, e');
      assert x <= x' && x' + y == Numerator(l.principal, Rate(l, last), e + e');
      FloorMono(x, x', d);
      FloorAdd(x', y, d);
    }
  }

  /**
    Accruing at any ascending instants never exceeds one accrual straight to the
    last of them, and falls short by less than their number when the rate stays
    the same throughout.
   */
  lemma {:induction false} SplitAccrualNeverExceedsDirect(l: Loan, times: seq<Time>)
    requires times != [] && Ascending(times)
    requires Accrue(l, times[|times| - 1]).Ok?
    ensures AccrueAll(l, times).Ok?
    ensures
      var split := AccrueAll(l, times).value;
      var direct := Accrue(l, times[|times| - 1]).value;
      && split == direct.(accruedRay := split.accruedRay)
      && l.accruedRay <= split.accruedRay <= direct.accruedRay
      && (Late(l, times[0]) == Late(l, times[|times| - 1]) ==> direct.accruedRay - split.accruedRay < |times|)
    decreases |times|
  {
    var last := times[|times| - 1];
    AccrueTwice(l, times[0], last);
    var step := Accrue(l, times[0]).value;
    if |times| == 1 {
      assert AccrueAll(step, times[1..]) == Ok(step);
    } else {
      assert times[1..][|times[1..]| - 1] == last;
      SplitAccrualNeverExceedsDirect(step, times[1..]);
    }
  }

  /** Whatever the instants, the debt never falls below the principal and never decreases. */
  lemma {:induction false} DebtNeverFallsBelowPrincipal(l: Loan, times: seq<Time>)
    requires AccrueAll(l, times).Ok?
    ensures
      var after := AccrueAll(l, times).value;
      && after.principal == l.principal
      && (Debt(after).Ok? ==> Debt(l).Ok? && l.principal <= Debt(l).value <= Debt(after).value)
    decreases |times|
  {
    if times != [] {
      var next := Accrue(l, times[0]).value;
      DebtNeverFallsBelowPrincipal(next, times[1..]);
      FloorMono(l.accruedRay, next.accruedRay, SCALE);
    }
  }

  // ---- Risk thresholds -----------------------------------------------------------

  function Severity(s: Status): nat {
    match s
    case Healthy => 0
    case Restricted => 1
    case Warning => 2
    case _ => 3
  }

  function CollateralValue(l: Loan, price: u64): nat {
    l.collateral * price / SCALE
  }

  /** Exactly when a risk update finds the loan liquidatable. A late loan whose LTV rounds to zero is not. */
  lemma LiquidatableExactly(l: Loan, price: u64, now: Time)
    requires UpdateRisk(l, price, now).Ok?
    ensures
      var value := CollateralValue(l, price);
      var d := Debt(l).value;
      UpdateRisk(l, price, now).value.status == Liquidatable <==>
        value == 0 || 6500 * value <= d * BPS || (Late(l, now) && value <= d * BPS)
  {
    var value := CollateralValue(l, price);
    var d := Debt(l).value;
    if value > 0 {
      FloorAtLeast(d * BPS, value, 6500);
      FloorAtLeast(d * BPS, value, 1);
    }
  }

  lemma LtvAntitone(d: nat, collateral: nat, low: nat, high: nat)
    requires low <= high
    ensures
      var atLow, atHigh := collateral * low / SCALE, collateral * high / SCALE;
      atLow <= atHigh && (atLow > 0 ==> d * BPS / atHigh <= d * BPS / atLow)
  {
    var atLow, atHigh := collateral * low / SCALE, collateral * high / SCALE;
    assert collateral * low == low * collateral && collateral * high == high * collateral;
    MulMono(low, high, collateral);
    FloorMono(collateral * low, collateral * high, SCALE);
    if atLow > 0 {
      FloorAntitone(d * BPS, atLow, atHigh);
    }
  }

  /** A lower price never gives a better status. */
  lemma StatusNeverImprovesWhenPriceFalls(l: Loan, low: u64, high: u64, now: Time)
    requires low <= high
    requires UpdateRisk(l, low, now).Ok? && UpdateRisk(l, high, now).Ok?
    ensures Severity(UpdateRisk(l, high, now).value.status) <= Severity(UpdateRisk(l, low, now).value.status)
  {
    LtvAntitone(Debt(l).value, l.collateral, low, high);
  }

  /**
    At every price up to the liquidation price that a risk update published, the loan is liquidatable.
    An update that finds the collateral worthless leaves the published figures as they were.
   */
  lemma AtOrBelowLiquidationPrice(l: Loan, seen: u64, price: u64, now: Time)
    requires UpdateRisk(l, seen, now).Ok? && UpdateRisk(l, price, now).Ok?
    requires CollateralValue(l, seen) > 0
    requires price <= UpdateRisk(l, seen, now).value.liquidationPrice
    ensures UpdateRisk(l, price, now).value.status == Liquidatable
  {
    PublishedPrice(l, seen, now);
    if price == 0 {
      assert l.collateral * price == 0;
    } else {
      BelowThreshold(l, Debt(l).value, price, now);
    }
  }

  lemma PublishedPrice(l: Loan, seen: u64, now: Time)
    requires UpdateRisk(l, seen, now).Ok? && CollateralValue(l, seen) > 0
    ensures l.collateral > 0
    ensures UpdateRisk(l, seen, now).value.liquidationPrice in {0, Debt(l).value * BPS * SCALE / (l.collateral * 6500)}
  {
    if l.collateral == 0 { MulZero(l.collateral, seen); }
  }

  lemma BelowThreshold(l: Loan, d: u64, price: u64, now: Time)
    requires l.collateral > 0 && UpdateRisk(l, price, now).Ok? && Debt(l) == Ok(d)
    requires price <= d * BPS * SCALE / (l.collateral * 6500)
    ensures UpdateRisk(l, price, now).value.status == Liquidatable
  {
    hide UpdateRisk;
    FloorAtLeast(d * BPS * SCALE, l.collateral * 6500, price);
    FloorBounds(l.collateral * price, SCALE);
    PriceReachesThreshold(l.collateral, price, d, CollateralValue(l, price));
    LiquidatableExactly(l, price, now);
  }

  lemma PriceReachesThreshold(collateral: nat, price: nat, d: nat, value: nat)
    requires price * (collateral * 6500) <= d * BPS * SCALE
    requires value * SCALE <= collateral * price
    ensures 6500 * value <= d * BPS
  {
    assert price * (collateral * 6500) == 6500 * (collateral * price);
  }

  /** The published health factor tells a liquidatable loan exactly: it is at most one, unless the loan is late. */
  lemma HealthFactorTells(l: Loan, price: u64, now: Time)
    requires UpdateRisk(l, price, now).Ok? && !Late(l, now) && CollateralValue(l, price) > 0
    ensures
      var r := UpdateRisk(l, price, now).value;
      r.status == Liquidatable <==> r.healthFactor <= BPS
  {
    var ltv := Debt(l).value * BPS / CollateralValue(l, price);
    if ltv > 0 {
      FloorAtLeast(6500 * BPS, ltv, BPS + 1);
    }
  }

  /** Before late maturity, collateral worth one unit more than the threshold is safe. */
  lemma AboveThresholdIsNotLiquidatable(l: Loan, price: u64, now: Time)
    requires UpdateRisk(l, price, now).Ok?
    requires !Late(l, now)
    requires CollateralValue(l, price) >= Debt(l).value * BPS / 6500 + 1
    ensures UpdateRisk(l, price, now).value.status != Liquidatable
  {
    LiquidatableExactly(l, price, now);
  }

  /** A late loan can escape: its debt is so small against the collateral that the LTV rounds to zero. */
  lemma LateLoanCanStayHealthy()
    ensures
      var l := Loan("loan", "b", 1, 20_000, 650, 7, 0, 604_800, 700_000, 0, [Tranche("m", "a", 1, 600)], Healthy, 0, 0);
      && Late(l, 700_000)
      && UpdateRisk(l, 1_000_000, 700_000).Ok?
      && UpdateRisk(l, 1_000_000, 700_000).value.status == Healthy
  {
  }

  /** Only the status and the two published figures change in a risk update. */
  lemma UpdateRiskFrame(l: Loan, price: u64, now: Time)
    requires UpdateRisk(l, price, now).Ok?
    ensures
      var r := UpdateRisk(l, price, now).value;
      && r == l.(status := r.status, healthFactor := r.healthFactor, liquidationPrice := r.liquidationPrice)
      && r.Open()
  {
  }

  /** Updating the risk twice at one price and instant is the same as once. */
  lemma UpdateRiskIdempotent(l: Loan, price: u64, now: Time)
    requires UpdateRisk(l, price, now).Ok?
    ensures UpdateRisk(UpdateRisk(l, price, now).value, price, now) == UpdateRisk(l, price, now)
  {
  }
}
