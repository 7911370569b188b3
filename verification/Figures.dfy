/**
  The ledger's figures in plain arithmetic: what accrues, what a risk update publishes, what
  a liquidation seizes and what a lender earns, each as bounds that leave one value and that
  name none of the functions computing it.
 */
module Figures {
  import opened Outcomes
  import opened Arithmetic
  import opened Model
  import opened Loans
  import opened Operations
  import opened Interest

  // ---- Quotients ---------------------------------------------------------------------------

  /** Both sides of a floor leave one quotient. */
  lemma OneQuotient(n: nat, d: nat, q: nat)
    requires d > 0
    ensures q * d <= n < (q + 1) * d <==> q == n / d
  {
    FloorBounds(n, d);
    FloorAtLeast(n, d, q);
    FloorAtLeast(n, d, q + 1);
  }

  lemma RatioExactly(n: nat, d: nat)
    ensures Ratio(n, d, false).Ok? <==> d > 0 && n < 0x1_0000_0000_0000_0000 * d
    ensures Ratio(n, d, false).Ok? ==> Ratio(n, d, false).value * d <= n < (Ratio(n, d, false).value + 1) * d
  {
    if d > 0 {
      FloorBounds(n, d);
      FloorAtLeast(n, d, 0x1_0000_0000_0000_0000);
    }
  }

  // ---- Accrual -----------------------------------------------------------------------------

  /** Basis points per year in force at an instant: 300 more from one day after maturity. */
  function RateAt(l: Loan, now: Time): nat {
    l.borrowerApr + (if now > l.maturesAt + 86_400 then 300 else 0)
  }

  /** Principal, rate and time, in millionths of a base unit, before division by 10000 and the seconds of a year. */
  function Charge(principal: nat, rate: nat, elapsed: nat): nat {
    principal * rate * elapsed * 1_000_000
  }

  /**
    Time passing adds the floor of principal, rate and time to the interest, in millionths of a base unit, and nothing
    else changes but the instant up to which it has accrued; without time passing nothing does.
   */
  predicate AccruedTo(l: Loan, r: Loan, now: Time) {
    if now <= l.lastAccruedAt then r == l
    else
      && r == l.(accruedRay := r.accruedRay, lastAccruedAt := now)
      && var d := r.accruedRay - l.accruedRay;
         var rate := l.borrowerApr + (if now > l.maturesAt + 86_400 then 300 else 0);
         && d >= 0
         && d * (10_000 * 31_536_000)
            <= l.principal * rate * (now - l.lastAccruedAt) * 1_000_000
            < (d + 1) * (10_000 * 31_536_000)
  }

  lemma AccruesExactly(l: Loan, now: Time)
    requires Accrue(l, now).Ok?
    ensures AccruedTo(l, Accrue(l, now).value, now)
  {
    if now > l.lastAccruedAt {
      RatioExactly(Charge(l.principal, RateAt(l, now), now - l.lastAccruedAt), 10_000 * 31_536_000);
    }
  }

  /** Accrual fails only when the interest, with the new part, does not fit in 64 bits. */
  lemma AccrualSucceedsExactly(l: Loan, now: Time)
    ensures
      var rate := l.borrowerApr + (if now > l.maturesAt + 86_400 then 300 else 0);
      Accrue(l, now).Ok? <==>
        || now <= l.lastAccruedAt
        || l.accruedRay + l.principal * rate * (now - l.lastAccruedAt) * 1_000_000 / (10_000 * 31_536_000)
           < 0x1_0000_0000_0000_0000
  {
    if now > l.lastAccruedAt {
      RatioExactly(Charge(l.principal, RateAt(l, now), now - l.lastAccruedAt), 10_000 * 31_536_000);
    }
  }

  /** Thirty days at 6.5 percent on a thousand units of six decimals. */
  lemma ThirtyDays()
    ensures
      var l := Loan("loan", "b", 1_000_000_000, 1, 650, 30, 0, 2_592_000, 0, 0, [], Healthy, 0, 0);
      Accrue(l, 2_592_000).Ok? && Debt(Accrue(l, 2_592_000).value) == Ok(1_005_342_465)
  {
  }

  // ---- Risk ----------------------------------------------------------------------------------

  /** A loan's debt in base units. */
  function Owed(l: Loan): nat {
    l.principal + l.accruedRay / 1_000_000
  }

  /** The collateral's worth in base units. */
  function Worth(l: Loan, price: nat): nat {
    l.collateral * price / 1_000_000
  }

  /** The published health factor: 65 percent over the loan-to-value ratio, both in rounded basis points. */
  predicate HealthOf(h: int, ltv: nat, l: Loan, worth: int) {
    && ltv * worth <= Owed(l) * 10_000 < (ltv + 1) * worth
    && h * ltv <= 65_000_000 < (h + 1) * ltv
  }

  /**
    What a risk update publishes. Worthless collateral only sets the status; a ratio that rounds to zero is healthy
    without a liquidation price, be the loan late or not; otherwise status, price and health factor are these.
   */
  ghost predicate Published(l: Loan, r: Loan, price: u64, now: Time) {
    var worth, owed := l.collateral * price / 1_000_000, l.principal + l.accruedRay / 1_000_000;
    && r == l.(status := r.status, healthFactor := r.healthFactor, liquidationPrice := r.liquidationPrice)
    && (if worth == 0 then r == l.(status := Liquidatable)
        else if owed * 10_000 < worth then
          r.status == Healthy && r.liquidationPrice == 0 && r.healthFactor == 0xFFFF_FFFF_FFFF_FFFF
        else
          && r.liquidationPrice * (l.collateral * 6500) <= owed * 10_000_000_000
                                                        < (r.liquidationPrice + 1) * (l.collateral * 6500)
          && (exists ltv: nat :: HealthOf(r.healthFactor, ltv, l, worth))
          && (r.status == Liquidatable <==> now > l.maturesAt + 86_400 || 6500 * worth <= owed * 10_000)
          && (r.status == Warning <==> now <= l.maturesAt + 86_400 && 5500 * worth <= owed * 10_000 < 6500 * worth)
          && (r.status == Restricted <==> now <= l.maturesAt + 86_400 && 5000 * worth <= owed * 10_000 < 5500 * worth)
          && (r.status == Healthy <==> now <= l.maturesAt + 86_400 && owed * 10_000 < 5000 * worth))
  }

  lemma PublishesExactly(l: Loan, price: u64, now: Time)
    requires UpdateRisk(l, price, now).Ok?
    ensures Published(l, UpdateRisk(l, price, now).value, price, now)
  {
    var worth, owed := Worth(l, price), Owed(l);
    if worth > 0 {
      var ltv := owed * 10_000 / worth;
      RatioExactly(owed * 10_000, worth);
      FloorAtLeast(owed * 10_000, worth, 1);
      if ltv > 0 {
        MulZero(l.collateral, price);
        RatioExactly(65_000_000, ltv);
        RatioExactly(owed * 10_000 * 1_000_000, l.collateral * 6500);
        FloorAtLeast(owed * 10_000, worth, 5000);
        FloorAtLeast(owed * 10_000, worth, 5500);
        FloorAtLeast(owed * 10_000, worth, 6500);
        assert HealthOf(UpdateRisk(l, price, now).value.healthFactor, ltv, l, worth);
      }
    }
  }

  /** Without the ratio in between: the health factor against debt and worth, from both sides. */
  lemma HealthFactorBounds(l: Loan, price: u64, now: Time)
    requires UpdateRisk(l, price, now).Ok?
    ensures
      var h, worth := UpdateRisk(l, price, now).value.healthFactor, l.collateral * price / 1_000_000;
      var owed := l.principal + l.accruedRay / 1_000_000;
      0 < worth <= owed * 10_000 ==>
        && h * (owed * 10_000) < (65_000_000 + h) * worth
        && 65_000_000 * worth < (h + 1) * (owed * 10_000)
  {
    var h, worth, n := UpdateRisk(l, price, now).value.healthFactor, Worth(l, price), Owed(l) * 10_000;
    PublishesExactly(l, price, now);
    if 0 < worth <= n {
      var ltv: nat :| HealthOf(h, ltv, l, worth);
      HealthBounds(h, ltv, n, worth);
    }
  }

  lemma HealthBounds(h: nat, ltv: nat, n: nat, worth: nat)
    requires 0 < worth <= n && ltv * worth <= n < (ltv + 1) * worth
    requires h * ltv <= 65_000_000 < (h + 1) * ltv
    ensures h * n < (65_000_000 + h) * worth && 65_000_000 * worth < (h + 1) * n
  {
    HealthUpper(h, ltv, n, worth);
    HealthLower(h, ltv, n, worth);
  }

  lemma HealthUpper(h: nat, ltv: nat, n: nat, worth: nat)
    requires worth > 0 && n < (ltv + 1) * worth && h * ltv <= 65_000_000
    ensures h * n < (65_000_000 + h) * worth
  {
    var m := (ltv + 1) * worth;
    MulMono(h * ltv + h, 65_000_000 + h, worth);
    assert h * m == (h * ltv + h) * worth;
    if h == 0 {
      assert h * n == 0;
      MulMono(1, worth, 65_000_000);
    } else {
      MulMono(n + 1, m, h);
      Commuted(n, m, h);
    }
  }

  lemma Commuted(n: nat, m: nat, h: nat)
    requires (n + 1) * h <= m * h
    ensures h * n + h <= h * m
  {
  }

  lemma HealthLower(h: nat, ltv: nat, n: nat, worth: nat)
    requires worth > 0 && ltv * worth <= n && 65_000_000 < (h + 1) * ltv
    ensures 65_000_000 * worth < (h + 1) * n
  {
    MulMono(65_000_001, (h + 1) * ltv, worth);
    MulMono(ltv * worth, n, h + 1);
    assert (h + 1) * ltv * worth == ltv * worth * (h + 1);
  }

  /** A risk update fails only when a figure that it needs does not fit in 64 bits. */
  lemma RiskUpdateSucceedsExactly(l: Loan, price: u64, now: Time)
    ensures
      var worth, owed := l.collateral * price / 1_000_000, l.principal + l.accruedRay / 1_000_000;
      UpdateRisk(l, price, now).Ok? <==>
        && worth < 0x1_0000_0000_0000_0000 && owed < 0x1_0000_0000_0000_0000
        && (0 < worth <= owed * 10_000 ==>
              && owed * 10_000 / worth < 0x1_0000_0000_0000_0000
              && owed * 10_000_000_000 / (l.collateral * 6500) < 0x1_0000_0000_0000_0000)
  {
    var worth, owed := Worth(l, price), Owed(l);
    if worth > 0 {
      MulZero(l.collateral, price);
      FloorAtLeast(owed * 10_000, worth, 1);
      var ltv := owed * 10_000 / worth;
      if ltv > 0 {
        FloorAntitone(65_000_000, 1, ltv);
      }
    }
  }

  /** A price that leaves more worth than the published one covers does not reach the threshold. */
  lemma BeyondPublished(collateral: nat, price: nat, p: nat, owed: nat)
    requires owed * 10_000_000_000 < (p + 1) * (collateral * 6500)
    requires collateral * price >= collateral * (p + 1) + 1_000_000
    ensures owed * 10_000 < 6500 * (collateral * price / 1_000_000)
  {
    var n, least := collateral * price, collateral * (p + 1);
    var worth := n / 1_000_000;
    assert (p + 1) * (collateral * 6500) == 6500 * least;
    assert least < worth * 1_000_000;
  }

  /**
    The published liquidation price is tight: before late maturity, a price higher by more than the rounding of
    the collateral's worth does not liquidate.
   */
  lemma AboveLiquidationPrice(l: Loan, seen: u64, price: u64, now: Time)
    requires UpdateRisk(l, seen, now).Ok? && UpdateRisk(l, price, now).Ok? && now <= l.maturesAt + 86_400
    requires 0 < l.collateral * seen / 1_000_000 <= (l.principal + l.accruedRay / 1_000_000) * 10_000
    requires l.collateral * price >= l.collateral * (UpdateRisk(l, seen, now).value.liquidationPrice + 1) + 1_000_000
    ensures UpdateRisk(l, price, now).value.status != Liquidatable
  {
    hide UpdateRisk;
    PublishesExactly(l, seen, now);
    PublishesExactly(l, price, now);
    BeyondPublished(l.collateral, price, UpdateRisk(l, seen, now).value.liquidationPrice, Owed(l));
  }

  /** Of a loan whose ratio rounds to zero the published price is 0, although a low enough price liquidates it. */
  lemma RoundedRatioHidesThePrice()
    ensures
      var l := Loan("loan", "b", 99_999_999, 1_000_000_000_000, 650, 7, 0, 604_800, 0, 0, [], Healthy, 0, 0);
      && UpdateRisk(l, 1_000_000, 0).Ok? && UpdateRisk(l, 1_000_000, 0).value.liquidationPrice == 0
      && UpdateRisk(l, 100, 0).Ok? && UpdateRisk(l, 100, 0).value.status == Liquidatable
  {
  }

  // ---- Seizure ---------------------------------------------------------------------------------

  /**
    What a liquidation may take: all the collateral if it is worth no more than the debt and a margin (10000 over
    9500 of the debt), and otherwise the floor of that much at the price.
   */
  predicate SeizureOf(s: nat, collateral: nat, owed: nat, price: nat) {
    if collateral * price * 9500 <= owed * 10_000_000_000 then s == collateral
    else s * price * 9500 <= owed * 10_000_000_000 < (s + 1) * price * 9500
  }

  lemma SeizesExactly(l: Loan, due: u64, price: u64)
    ensures SeizeAmount(l, due, price).Ok? <==>
            price > 0 && due * 10_000_000_000 / (price * 9500) < 0x1_0000_0000_0000_0000
    ensures SeizeAmount(l, due, price).Ok? ==> SeizureOf(SeizeAmount(l, due, price).value, l.collateral, due, price)
  {
    if price > 0 {
      var n, d: nat := due * 10_000_000_000, price * 9500;
      RatioExactly(n, d);
      FloorBounds(n, d);
      FloorAtLeast(n, d, l.collateral);
      assert l.collateral * d == l.collateral * price * 9500;
      var q := n / d;
      assert q * d == q * price * 9500 && (q + 1) * d == (q + 1) * price * 9500;
    }
  }

  /** Unless everything is seized, what is taken plus one unit is worth more than the debt. */
  lemma SeizureCoversTheDebt(s: nat, collateral: nat, owed: nat, price: nat)
    requires SeizureOf(s, collateral, owed, price) && s < collateral
    ensures (s + 1) * price > owed * 1_000_000
  {
    if collateral * price * 9500 > owed * 10_000_000_000 {
      assert (s + 1) * price * 9500 > owed * 1_000_000 * 9500;
    }
  }

  /** Only one amount is a seizure. */
  lemma OneSeizure(s: nat, s': nat, collateral: nat, owed: nat, price: nat)
    requires price > 0 && SeizureOf(s, collateral, owed, price) && SeizureOf(s', collateral, owed, price)
    ensures s == s'
  {
    if collateral * price * 9500 > owed * 10_000_000_000 {
      QuotientOfSeizure(s, owed, price);
      QuotientOfSeizure(s', owed, price);
    }
  }

  lemma QuotientOfSeizure(s: nat, owed: nat, price: nat)
    requires price > 0 && s * price * 9500 <= owed * 10_000_000_000 < (s + 1) * price * 9500
    ensures s == owed * 10_000_000_000 / (price * 9500)
  {
    Reassociate(s, price, 9500);
    Reassociate(s + 1, price, 9500);
    OneQuotient(owed * 10_000_000_000, price * 9500, s);
  }

  // ---- Lenders ------------------------------------------------------------------------------------

  /** A tranche's interest: the floor of its part of the principal, and of that the floor at its rate. */
  ghost predicate InterestOnTranche(e: nat, l: Loan, interest: nat, t: Tranche) {
    exists share: nat ::
      && share * l.principal <= interest * t.principal < (share + 1) * l.principal
      && e * l.borrowerApr <= share * t.apr < (e + 1) * l.borrowerApr
  }

  /**
    One lender earns its principal times its rate, over the loan's principal times the borrower's rate, of the
    interest; its two roundings take less than one unit and less than its rate over the borrower's.
   */
  lemma EarnsExactly(l: Loan, interest: nat, t: Tranche)
    requires l.principal > 0 && l.borrowerApr > 0
    ensures InterestOnTranche(Earned(l, interest, t), l, interest, t)
    ensures Earned(l, interest, t) * l.borrowerApr * l.principal <= interest * t.principal * t.apr
    ensures (Earned(l, interest, t) + 1) * l.borrowerApr * l.principal + t.apr * l.principal
            > interest * t.principal * t.apr
  {
    var p, r, n := l.principal, l.borrowerApr, interest * t.principal;
    var share, e := Share(l, interest, t), Earned(l, interest, t);
    EarnedBound(l, interest, t);
    Reassociate(interest, t.principal, t.apr);
    FloorBounds(n, p);
    FloorBounds(share * t.apr, r);
    LowerShare(n, share, e, t.apr, r, p);
  }

  lemma LowerShare(n: nat, share: nat, e: nat, apr: nat, r: nat, p: nat)
    requires p > 0 && n < (share + 1) * p && share * apr < (e + 1) * r
    ensures (e + 1) * r * p + apr * p > n * apr
  {
    MulMono(n, (share + 1) * p, apr);
    assert (share + 1) * p * apr == share * apr * p + apr * p;
    MulMono(share * apr + 1, (e + 1) * r, p);
    assert (share * apr + 1) * p == share * apr * p + p;
  }

  /** The tranches of one lender. */
  function OfLender(ts: seq<Tranche>, lender: Owner): seq<Tranche> {
    if ts == [] then []
    else (if ts[0].lender == lender then [ts[0]] else []) + OfLender(ts[1..], lender)
  }

  function SumRates(ts: seq<Tranche>): nat {
    if ts == [] then 0 else ts[0].apr + SumRates(ts[1..])
  }

  /**
    `earned` is the interest that some tranches bring: their yearly cost over the whole loan's at the borrower's rate,
    with less than one unit and less than its rate over the borrower's lost to rounding for each tranche.
   */
  predicate InterestOn(earned: nat, l: Loan, interest: nat, ts: seq<Tranche>) {
    && earned * l.borrowerApr * l.principal <= interest * YearlyCost(ts)
    && (earned + |ts|) * l.borrowerApr * l.principal + SumRates(ts) * l.principal >= interest * YearlyCost(ts)
    && (ts != [] ==>
          (earned + |ts|) * l.borrowerApr * l.principal + SumRates(ts) * l.principal > interest * YearlyCost(ts))
  }

  lemma {:induction false} TogetherEarnExactly(l: Loan, interest: nat, ts: seq<Tranche>)
    requires l.principal > 0 && l.borrowerApr > 0
    ensures InterestOn(TotalEarned(l, interest, ts), l, interest, ts)
  {
    hide Earned;
    if ts == [] {
      assert interest * 0 == 0;
    } else {
      EarnsExactly(l, interest, ts[0]);
      TogetherEarnExactly(l, interest, ts[1..]);
      EarningsAdd(l, interest, ts, Earned(l, interest, ts[0]), TotalEarned(l, interest, ts[1..]));
    }
  }

  lemma EarningsAdd(l: Loan, interest: nat, ts: seq<Tranche>, first: nat, rest: nat)
    requires ts != [] && InterestOn(rest, l, interest, ts[1..])
    requires first * l.borrowerApr * l.principal <= interest * ts[0].principal * ts[0].apr
    requires (first + 1) * l.borrowerApr * l.principal + ts[0].apr * l.principal
             > interest * ts[0].principal * ts[0].apr
    ensures InterestOn(first + rest, l, interest, ts)
  {
    var r, p, n := l.borrowerApr, l.principal, |ts[1..]|;
    AddScaled(first, rest, r, p);
    AddScaled(first + 1, rest + n, r, p);
    Distribute(ts[0].apr, SumRates(ts[1..]), p);
    Reassociate(interest, ts[0].principal, ts[0].apr);
    assert interest * (ts[0].principal * ts[0].apr + YearlyCost(ts[1..]))
        == interest * (ts[0].principal * ts[0].apr) + interest * YearlyCost(ts[1..]);
  }
}
