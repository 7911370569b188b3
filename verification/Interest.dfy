/**
  How a repayment's interest is split. Each lender gets the floor of its own rate over
  the borrower's rate applied to the floor of its pro-rata share, so a lender with an
  above-average rate can get more than its pro-rata share; the total still stays below
  the interest paid, with at least 49 parts in `borrowerApr` left for the protocol.
 */
module Interest {
  import opened Outcomes
  import opened Arithmetic
  import opened Model
  import opened Matching
  import opened Operations

  function Floor(n: nat, d: nat): nat {
    if d == 0 then 0 else n / d
  }

  /** A tranche's pro-rata share of the interest, rounded down. */
  function Share(l: Loan, interest: nat, t: Tranche): nat {
    Floor(interest * t.principal, l.principal)
  }

  /** One lender's interest as a number. */
  function Earned(l: Loan, interest: nat, t: Tranche): nat {
    Floor(Share(l, interest, t) * t.apr, l.borrowerApr)
  }

  function TotalEarned(l: Loan, interest: nat, ts: seq<Tranche>): nat {
    if ts == [] then 0 else Earned(l, interest, ts[0]) + TotalEarned(l, interest, ts[1..])
  }

  lemma EarnedBound(l: Loan, interest: nat, t: Tranche)
    requires l.principal > 0 && l.borrowerApr > 0
    ensures Earned(l, interest, t) * l.borrowerApr * l.principal <= interest * (t.principal * t.apr)
  {
    var n, share := interest * t.principal, Share(l, interest, t);
    FloorBounds(n, l.principal);
    FloorBounds(share * t.apr, l.borrowerApr);
    ScaleDown(Earned(l, interest, t) * l.borrowerApr, share, t.apr, l.principal, n);
    Reassociate(interest, t.principal, t.apr);
  }

  lemma Reassociate(a: nat, b: nat, c: nat)
    ensures a * b * c == a * (b * c)
  {
  }

  lemma ScaleDown(x: nat, share: nat, apr: nat, p: nat, n: nat)
    requires x <= share * apr && share * p <= n
    ensures x * p <= n * apr
  {
    MulMono(x, share * apr, p);
    assert share * apr * p == (share * p) * apr;
    MulMono(share * p, n, apr);
  }

  lemma {:induction false} TotalEarnedBound(l: Loan, interest: nat, ts: seq<Tranche>)
    requires l.principal > 0 && l.borrowerApr > 0
    ensures TotalEarned(l, interest, ts) * l.borrowerApr * l.principal <= interest * YearlyCost(ts)
  {
    if ts != [] {
      EarnedBound(l, interest, ts[0]);
      TotalEarnedBound(l, interest, ts[1..]);
      AddScaled(Earned(l, interest, ts[0]), TotalEarned(l, interest, ts[1..]), l.borrowerApr, l.principal);
      var first, rest := ts[0].principal * ts[0].apr, YearlyCost(ts[1..]);
      assert interest * (first + rest) == interest * first + interest * rest;
    }
  }

  lemma AddScaled(a: nat, b: nat, x: nat, y: nat)
    ensures (a + b) * x * y == a * x * y + b * x * y
  {
    Distribute(a, b, x);
    Distribute(a * x, b * x, y);
  }

  /** A loan priced as the engine prices it: the floor of the average rate plus the spread. */
  predicate Priced(l: Loan) {
    && l.principal == SumPrincipal(l.tranches) > 0
    && l.borrowerApr == AverageRate(l.tranches) + SPREAD
  }

  /** Lenders together never earn more than the borrower pays, and the protocol keeps 49 parts in the borrower's rate. */
  lemma LendersNeverEarnMoreThanPaid(l: Loan, interest: nat)
    requires Priced(l)
    ensures TotalEarned(l, interest, l.tranches) <= interest
    ensures (interest - TotalEarned(l, interest, l.tranches)) * l.borrowerApr >= 49 * interest
  {
    var total, rate := TotalEarned(l, interest, l.tranches), AverageRate(l.tranches);
    TotalEarnedBound(l, interest, l.tranches);
    FloorBounds(YearlyCost(l.tranches), l.principal);
    SpreadFromFloor(total, interest, rate, l.principal, YearlyCost(l.tranches));
  }

  lemma SpreadFromFloor(total: nat, interest: nat, rate: nat, p: nat, cost: nat)
    requires p > 0
    requires total * (rate + 50) * p <= interest * cost
    requires cost < (rate + 1) * p
    ensures total * (rate + 50) <= interest * (rate + 1)
    ensures total <= interest
    ensures (interest - total) * (rate + 50) >= 49 * interest
  {
    var x, y := total * (rate + 50), interest * (rate + 1);
    assert interest * cost <= interest * ((rate + 1) * p) by {
      MulMono(cost, (rate + 1) * p, interest);
      assert interest * cost == cost * interest && interest * ((rate + 1) * p) == ((rate + 1) * p) * interest;
    }
    assert interest * ((rate + 1) * p) == y * p;
    if y < x {
      MulMono(y + 1, x, p);
      Distribute(y, 1, p);
      assert false;
    }
    assert interest * (rate + 50) == y + 49 * interest;
    if interest < total {
      MulMono(interest + 1, total, rate + 50);
      Distribute(interest, 1, rate + 50);
      assert false;
    }
    assert (interest - total) * (rate + 50) == interest * (rate + 50) - x;
  }

  /** The engine's two checked divisions compute `Earned` whenever it fits. */
  lemma LenderInterestIsEarned(l: Loan, interest: u64, t: Tranche)
    requires l.principal > 0 && l.borrowerApr > 0
    requires t.principal <= l.principal
    requires Earned(l, interest, t) <= MAX64
    ensures LenderInterest(l, interest, t) == Ok(Earned(l, interest, t))
  {
    var n := interest * t.principal;
    MulMono(t.principal, l.principal, interest);
    assert n <= interest * l.principal;
    FloorBounds(n, l.principal);
    FloorAtLeast(n, l.principal, interest + 1);
    Distribute(interest, 1, l.principal);
    assert Share(l, interest, t) <= interest;
  }

  /** For a given interest, exactly when a lender earns more than its pro-rata share. */
  lemma BeatsProRataExactly(l: Loan, interest: nat, t: Tranche)
    requires l.borrowerApr > 0
    ensures Earned(l, interest, t) > Share(l, interest, t) <==>
            Share(l, interest, t) * t.apr >= (Share(l, interest, t) + 1) * l.borrowerApr
  {
    var share := Share(l, interest, t);
    FloorAtLeast(share * t.apr, l.borrowerApr, share + 1);
  }

  /**
    A lender never earns more than its pro-rata share, whatever the interest, if and only if its own rate does
    not exceed the borrower's. The borrower's rate is the floor of the average plus the spread, so a lender above
    the average but within the spread never does. Both rates can be read off the quote.
   */
  lemma NeverBeatsProRataExactly(l: Loan, t: Tranche)
    requires l.principal > 0 && l.borrowerApr > 0 && t.principal > 0
    ensures (forall interest: nat :: Earned(l, interest, t) <= Share(l, interest, t)) <==> t.apr <= l.borrowerApr
  {
    if t.apr <= l.borrowerApr {
      forall interest: nat ensures Earned(l, interest, t) <= Share(l, interest, t) {
        WithinRateNeverBeats(l, interest, t);
      }
    } else {
      DearLenderBeats(l, t);
    }
  }

  lemma WithinRateNeverBeats(l: Loan, interest: nat, t: Tranche)
    requires l.borrowerApr > 0 && t.apr <= l.borrowerApr
    ensures Earned(l, interest, t) <= Share(l, interest, t)
  {
    var share := Share(l, interest, t);
    BeatsProRataExactly(l, interest, t);
    assert share * t.apr <= share * l.borrowerApr by {
      MulMono(t.apr, l.borrowerApr, share);
    }
    Distribute(share, 1, l.borrowerApr);
  }

  /** With interest of `rate` times the principal, each unit of a tranche is worth a share of `rate`. */
  lemma ShareOfRate(l: Loan, rate: nat, t: Tranche)
    requires l.principal > 0
    ensures Share(l, rate * l.principal, t) == rate * t.principal
  {
    var share, p := rate * t.principal, l.principal;
    assert rate * p * t.principal == share * p;
    FloorAtLeast(share * p, p, share);
    Distribute(share, 1, p);
    FloorAtLeast(share * p, p, share + 1);
  }

  /** A share as large as the borrower's rate is enough for a lender with a higher rate. */
  lemma DearLenderBeats(l: Loan, t: Tranche)
    requires l.principal > 0 && l.borrowerApr > 0 && t.principal > 0 && t.apr > l.borrowerApr
    ensures Earned(l, l.borrowerApr * l.principal, t) > Share(l, l.borrowerApr * l.principal, t)
  {
    hide Earned, Share;
    ShareOfRate(l, l.borrowerApr, t);
    MulMono(1, t.principal, l.borrowerApr);
    LargeShareBeats(l.borrowerApr * t.principal, t.apr, l.borrowerApr);
    BeatsProRataExactly(l, l.borrowerApr * l.principal, t);
  }

  lemma LargeShareBeats(share: nat, apr: nat, rate: nat)
    requires apr > rate && share >= rate
    ensures share * apr >= (share + 1) * rate
  {
    MulMono(rate + 1, apr, share);
    assert share * apr == apr * share && share * rate == rate * share;
    Distribute(rate, 1, share);
    Distribute(share, 1, rate);
  }

  /** A lender with a rate above the borrower's that earns more than its pro-rata share. */
  lemma DearLenderBeatsProRata()
    ensures
      var ts := [Tranche("cheap", "a", 900, 600), Tranche("dear", "b", 100, 2000)];
      var l := Loan("loan", "c", 1000, 1, 790, 7, 0, 0, 0, 0, ts, Healthy, 0, 0);
      && Priced(l)
      && Earned(l, 790, ts[1]) == 200
      && Share(l, 790, ts[1]) == 79
  {
    var ts := [Tranche("cheap", "a", 900, 600), Tranche("dear", "b", 100, 2000)];
    assert ts[1..] == [ts[1]];
    assert YearlyCost(ts) == 740_000 && SumPrincipal(ts) == 1000;
  }
}
