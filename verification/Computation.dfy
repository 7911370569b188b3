/**
  The ledger's computations as the source runs them: loops over big-integer
  accumulators, sorted lists and running totals, each proved equal to the function
  that specifies it.
 */
module Computation {
  import opened Outcomes
  import opened Arithmetic
  import opened Model
  import opened Ordering
  import opened Selection
  import opened Loans
  import opened Matching
  import opened Operations

  /** mulDiv: up to four factors over one or two denominators. */
  method MulDiv(values: seq<u64>, denominator: u64, roundUp: bool) returns (r: Result<u64>)
    ensures r == Ratio(Product(values), denominator, roundUp)
  {
    ProductOf(denominator, 0, 0, 0);
    r := ComputeMulDivBy(values, [denominator], roundUp);
  }

  // ---- Quotes ------------------------------------------------------------------------------

  lemma {:induction false} YearlyCostSplit(ts: seq<Tranche>, i: nat)
    requires i < |ts|
    ensures YearlyCost(ts[..i + 1]) == YearlyCost(ts[..i]) + ts[i].principal * ts[i].apr
  {
    assert ts[..i + 1] == ts[..i] + [ts[i]];
    SumsAppend(ts[..i], ts[i]);
  }

  method ComputeWeightedAverage(ts: seq<Tranche>, total: u64) returns (r: Result<u32>)
    ensures r == WeightedAverage(ts, total)
  {
    if total == 0 {
      return Err(DivisionByZero);
    }
    var weighted: nat := 0;
    for i := 0 to |ts|
      invariant weighted == YearlyCost(ts[..i])
    {
      YearlyCostSplit(ts, i);
      weighted := weighted + ts[i].principal * ts[i].apr;
    }
    assert ts[..|ts|] == ts;
    weighted := weighted / total;
    if weighted > MAX32 {
      return Err(Overflow);
    }
    return Ok(weighted);
  }

  lemma AppendThenRest<T>(a: seq<T>, x: T, b: seq<T>)
    ensures a + ([x] + b) == (a + [x]) + b
  {
  }

  method ComputeSelection(ms: map<Id, Mandate>, order: seq<Id>, keep: Mandate -> bool) returns (chosen: seq<Mandate>)
    ensures chosen == Select(ms, order, keep)
  {
    chosen := [];
    for i := 0 to |order|
      invariant chosen + Select(ms, order[i..], keep) == Select(ms, order, keep)
    {
      ghost var before, rest := chosen, Select(ms, order[i + 1..], keep);
      assert order[i..][1..] == order[i + 1..];
      if order[i] in ms && keep(ms[order[i]]) {
        chosen := chosen + [ms[order[i]]];
        AppendThenRest(before, ms[order[i]], rest);
      } else {
        assert [] + rest == rest;
      }
    }
  }

  /** One turn of the greedy loop. */
  lemma FillStep(ms: seq<Mandate>, remaining: u64, take: u64, t: Tranche, taken: seq<Tranche>)
    requires ms != [] && remaining > 0 && take == Min(Limit(ms[0]), remaining)
    requires t == Tranche(ms[0].id, ms[0].lender, take, ms[0].minApr)
    ensures take == 0 ==> Fill(ms, remaining) == Fill(ms[1..], remaining)
    ensures take > 0 ==> taken + Fill(ms, remaining) == (taken + [t]) + Fill(ms[1..], remaining - take)
  {
    if take > 0 {
      var rest := Fill(ms[1..], remaining - take);
      AppendThenRest(taken, t, rest);
    }
  }

  lemma FillEnds(ms: seq<Mandate>, remaining: u64)
    requires ms == [] || remaining == 0
    ensures Fill(ms, remaining) == []
  {
  }

  /** The matcher's greedy loop, with its running remainder. */
  method ComputeFill(eligible: seq<Mandate>, amount: u64) returns (tranches: seq<Tranche>, remaining: u64)
    requires amount > 0
    ensures tranches == Fill(eligible, amount)
    ensures remaining == amount - SumPrincipal(tranches)
  {
    assert SumPrincipal([]) == 0;
    hide SumPrincipal, YearlyCost, Fill;
    remaining := amount;
    tranches := [];
    var i := 0;
    while i < |eligible|
      invariant 0 <= i <= |eligible|
      invariant remaining > 0
      invariant tranches + Fill(eligible[i..], remaining) == Fill(eligible, amount)
      invariant SumPrincipal(tranches) == amount - remaining
    {
      var m := eligible[i];
      assert eligible[i..][1..] == eligible[i + 1..];
      var take := m.available;
      if take > m.cap {
        take := m.cap;
      }
      if take > remaining {
        take := remaining;
      }
      var t := Tranche(m.id, m.lender, take, m.minApr);
      FillStep(eligible[i..], remaining, take, t, tranches);
      if take != 0 {
        SumsAppend(tranches, t);
        tranches := tranches + [t];
        remaining := remaining - take;
        if remaining == 0 {
          FillEnds(eligible[i + 1..], remaining);
          return;
        }
      }
      i := i + 1;
    }
    FillEnds(eligible[i..], remaining);
  }

  method ComputeLtvGate(amount: u64, collateral: u64, price: Price, now: Time) returns (r: Result<bool>)
    ensures r == CheckLtv(amount, collateral, price, now)
  {
    if price.xrpUsdE6 == 0 || now - price.updatedAt > MAX_QUOTE_AGE {
      return Err(StalePrice);
    }
    ProductOf(collateral, price.xrpUsdE6, 0, 0);
    var value := MulDiv([collateral, price.xrpUsdE6], SCALE, false);
    if value.Err? {
      return Err(value.error);
    }
    ProductOf(amount, BPS, 0, 0);
    var ltv := MulDiv([amount, BPS], value.value, false);
    if ltv.Err? {
      return Err(ltv.error);
    }
    if value.value == 0 || ltv.value > 5000 {
      return Err(LtvTooHigh);
    }
    return Ok(true);
  }

  method ComputeTerms(req: QuoteRequest, tranches: seq<Tranche>, funded: u64, priceE6: u64) returns (r: Result<Quote>)
    ensures r == Terms(req, tranches, funded, priceE6)
  {
    hide YearlyCost, Ratio, Product, WeightedAverage;
    if funded == 0 {
      return Err(InsufficientLiquidity);
    }
    var lenderApr := ComputeWeightedAverage(tranches, funded);
    if lenderApr.Err? {
      return Err(lenderApr.error);
    }
    if lenderApr.value > MAX32 - SPREAD {
      return Err(Overflow);
    }
    ProductOf(req.collateral, funded, 0, 0);
    var collateral := MulDiv([req.collateral, funded], req.amount, true);
    if collateral.Err? {
      return Err(collateral.error);
    }
    return Ok(Quote(req.id, req.borrower, funded, req.amount, req.termDays, collateral.value, req.collateral,
                    funded < req.amount, lenderApr.value, lenderApr.value + SPREAD, req.maxApr, tranches,
                    req.expiresAt, priceE6));
  }

  method ComputeQuote(b: Book, req: QuoteRequest, now: Time, order: seq<Id>, hash: Hash) returns (r: Result<Quote>)
    ensures r == MakeQuote(b, req, now, order, hash)
  {
    hide Fill, CheckLtv, Terms, Select;
    if !ValidRequest(req, now) {
      return Err(InvalidRequest);
    }
    var gate := ComputeLtvGate(req.amount, req.collateral, b.price, now);
    if gate.Err? {
      return Err(gate.error);
    }
    var eligible := ComputeSelection(b.mandates, order, EligibleFor(req));
    eligible := Sort(eligible, CheaperFor(hash, req.id));
    var tranches, remaining := ComputeFill(eligible, req.amount);
    r := ComputeTerms(req, tranches, req.amount - remaining, b.price.xrpUsdE6);
  }

  // ---- Loans -----------------------------------------------------------------------------------

  method ComputeAccrue(l: Loan, now: Time) returns (r: Result<Loan>)
    ensures r == Accrue(l, now)
  {
    if now <= l.lastAccruedAt {
      return Ok(l);
    }
    var elapsed: u64 := now - l.lastAccruedAt;
    var apr: u64 := l.borrowerApr;
    if now > l.maturesAt + GRACE {
      apr := apr + 300;
    }
    ProductOf(l.principal, apr, elapsed, SCALE);
    ProductOf(BPS, YEAR, 0, 0);
    var increment := ComputeMulDivBy([l.principal, apr, elapsed, SCALE], [BPS, YEAR], false);
    if increment.Err? {
      return Err(increment.error);
    }
    var accrued := CheckedAdd(l.accruedRay, increment.value);
    if accrued.Err? {
      return Err(accrued.error);
    }
    return Ok(l.(accruedRay := accrued.value, lastAccruedAt := now));
  }

  method ComputeUpdateRisk(l: Loan, price: u64, now: Time) returns (r: Result<Loan>)
    ensures r == UpdateRisk(l, price, now)
  {
    ProductOf(l.collateral, price, 0, 0);
    var value := MulDiv([l.collateral, price], SCALE, false);
    if value.Err? {
      return Err(value.error);
    }
    var d := Debt(l);
    if d.Err? {
      return Err(d.error);
    }
    if value.value == 0 {
      return Ok(l.(status := Liquidatable));
    }
    ProductOf(d.value, BPS, SCALE, 0);
    var ltv := MulDiv([d.value, BPS], value.value, false);
    if ltv.Err? {
      return Err(ltv.error);
    }
    if ltv.value == 0 {
      return Ok(l.(healthFactor := MAX64, liquidationPrice := 0, status := Healthy));
    }
    ProductOf(6500, BPS, 0, 0);
    var health := MulDiv([6500, BPS], ltv.value, false);
    if health.Err? {
      return Err(health.error);
    }
    ProductOf(l.collateral, 6500, 0, 0);
    var floorPrice := ComputeMulDivBy([d.value, BPS, SCALE], [l.collateral, 6500], false);
    if floorPrice.Err? {
      return Err(floorPrice.error);
    }
    return Ok(l.(healthFactor := health.value, liquidationPrice := floorPrice.value, status := StatusAt(l, ltv.value, now)));
  }

  // ---- Tranche loops ---------------------------------------------------------------------------

  method ComputeAllocation(mandates: map<Id, Mandate>, ts: seq<Tranche>) returns (r: Result<map<Id, Mandate>>)
    ensures r == Allocate(mandates, ts)
  {
    var ms := mandates;
    for i := 0 to |ts|
      invariant Allocate(ms, ts[i..]) == Allocate(mandates, ts)
    {
      var t := ts[i];
      assert ts[i..][1..] == ts[i + 1..];
      if t.mandateId !in ms || ms[t.mandateId].available < t.principal {
        return Err(LiquidityChanged);
      }
      var m := ms[t.mandateId];
      m := m.(available := WrapSub(m.available, t.principal), lent := WrapAdd(m.lent, t.principal));
      ms := ms[t.mandateId := m];
    }
    return Ok(ms);
  }

  method ComputeLenderInterest(l: Loan, interest: u64, t: Tranche) returns (r: Result<u64>)
    ensures r == LenderInterest(l, interest, t)
  {
    ProductOf(interest, t.principal, 0, 0);
    var share := MulDiv([interest, t.principal], l.principal, false);
    if share.Err? {
      return Err(share.error);
    }
    ProductOf(share.value, t.apr, 0, 0);
    r := MulDiv([share.value, t.apr], l.borrowerApr, false);
  }

  /** distributeRepayment: credit every tranche, keeping the two running totals. */
  method ComputeDistribution(b: Book, l: Loan, interest: u64) returns (r: Result<Book>)
    ensures r == DistributeRepayment(b, l, interest)
  {
    hide ReturnTranche, LenderInterest;
    var book, principalReturned, interestDistributed := b, 0, 0;
    for i := 0 to |l.tranches|
      invariant 0 <= principalReturned <= MAX64 && 0 <= interestDistributed <= MAX64
      invariant DistributeTo(l, interest, l.tranches[i..], Distribution(book, principalReturned, interestDistributed))
             == DistributeTo(l, interest, l.tranches, Distribution(b, 0, 0))
    {
      var t := l.tranches[i];
      assert l.tranches[i..][1..] == l.tranches[i + 1..];
      var lenderInterest := ComputeLenderInterest(l, interest, t);
      if lenderInterest.Err? {
        return Err(lenderInterest.error);
      }
      var credited := ReturnTranche(book, t, lenderInterest.value);
      if credited.Err? {
        return Err(credited.error);
      }
      var returned := CheckedAdd(principalReturned, t.principal);
      if returned.Err? {
        return Err(returned.error);
      }
      var paid := CheckedAdd(interestDistributed, lenderInterest.value);
      if paid.Err? {
        return Err(paid.error);
      }
      book, principalReturned, interestDistributed := credited.value, returned.value, paid.value;
    }
    if principalReturned != l.principal {
      return Err(TrancheConservation);
    }
    if interest < interestDistributed {
      return Err(LenderInterestExceedsBorrowerInterest);
    }
    var reserve := CheckedAdd(book.protocolReserve, interest - interestDistributed);
    if reserve.Err? {
      return Err(reserve.error);
    }
    return Ok(book.(protocolReserve := reserve.value));
  }

  method ComputeLiquidation(b: Book, key: Id, l: Loan) returns (r: Result<Book>)
    ensures r == LiquidateInState(b, key, l)
  {
    hide DistributeRepayment, ReleaseCollateral, CloseLoan;
    var due := Debt(l);
    if due.Err? {
      return Err(due.error);
    }
    if b.backstopUsdt0 < due.value {
      return Err(BackstopInsufficient);
    }
    ProductOf(due.value, SCALE, BPS, 0);
    ProductOf(b.price.xrpUsdE6, 9500, 0, 0);
    var seize := ComputeMulDivBy([due.value, SCALE, BPS], [b.price.xrpUsdE6, 9500], false);
    if seize.Err? {
      return Err(seize.error);
    }
    var seized := seize.value;
    if seized > l.collateral {
      seized := l.collateral;
    }
    assert SeizeAmount(l, due.value, b.price.xrpUsdE6) == Ok(seized);
    hide SeizeAmount;
    var book := b.(backstopUsdt0 := WrapSub(b.backstopUsdt0, due.value), backstopFxrp := WrapAdd(b.backstopFxrp, seized));
    book := ReleaseCollateral(book, l.borrower, l, seized);
    var interest := CheckedSub(due.value, l.principal);
    if interest.Err? {
      return Err(interest.error);
    }
    var paid := ComputeDistribution(book, l, interest.value);
    if paid.Err? {
      return Err(paid.error);
    }
    return Ok(CloseLoan(paid.value, key, l, l.borrower, Liquidated));
  }

  /** The risk tick's loop over the loans, in whatever order the map yields them. */
  method ComputeTick(b: Book, order: seq<Id>, now: Time) returns (r: Result<Book>)
    ensures r == TickAll(b, order, now)
  {
    hide LiquidateInState, Accrue, UpdateRisk;
    var book := b;
    for i := 0 to |order|
      invariant TickAll(book, order[i..], now) == TickAll(b, order, now)
    {
      var key := order[i];
      assert order[i..][1..] == order[i + 1..];
      if key in book.loans && book.loans[key].Open() {
        var accrued := ComputeAccrue(book.loans[key], now);
        if accrued.Err? {
          return Err(accrued.error);
        }
        var assessed := ComputeUpdateRisk(accrued.value, book.price.xrpUsdE6, now);
        if assessed.Err? {
          return Err(assessed.error);
        }
        var l := assessed.value;
        var due := Debt(l);
        if due.Err? {
          return Err(due.error);
        }
        var next := book.(loans := book.loans[key := l]);
        if l.status == Liquidatable && next.backstopUsdt0 >= due.value {
          var liquidated := ComputeLiquidation(next, key, l);
          if liquidated.Err? {
            return Err(liquidated.error);
          }
          next := liquidated.value;
        }
        assert TickLoan(book, key, now) == Ok(next);
        book := next;
      }
    }
    return Ok(book);
  }

  // ---- Withdrawal loops ---------------------------------------------------------------------------

  method ComputeDrain(list: seq<Mandate>, start: Drained) returns (d: Drained)
    ensures d == Drain(list, start)
  {
    d := start;
    var i := 0;
    while i < |list|
      invariant 0 <= i <= |list|
      invariant Drain(list[i..], d) == Drain(list, start)
    {
      if d.remaining == 0 {
        return;
      }
      assert list[i..][1..] == list[i + 1..];
      if list[i].id in d.mandates {
        var m := d.mandates[list[i].id];
        if m.active && m.available != 0 {
          var take := m.available;
          if take > d.remaining {
            take := d.remaining;
          }
          d := Drained(d.mandates[m.id := m.(available := WrapSub(m.available, take))],
                       WrapSub(d.reserved, take), d.remaining - take);
        }
      }
      i := i + 1;
    }
  }

  method ComputeRetire(mandates: map<Id, Mandate>, list: seq<Mandate>) returns (ms: map<Id, Mandate>)
    ensures ms == Retire(mandates, list)
  {
    ms := mandates;
    for i := 0 to |list|
      invariant Retire(ms, list[i..]) == Retire(mandates, list)
    {
      assert list[i..][1..] == list[i + 1..];
      if list[i].id in ms {
        var m := ms[list[i].id];
        if m.available == 0 && m.lent == 0 {
          m := m.(active := false);
        }
        ms := ms[list[i].id := m];
      }
    }
  }
}
