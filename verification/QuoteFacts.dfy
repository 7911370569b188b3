/**
  What a quote promises: it is independent of map enumeration order, it funds all
  the mandates allow at the least cost, its rate respects the borrower's bound,
  and a partial fill keeps the collateralisation of the request.
 */
module QuoteFacts {
  import opened Outcomes
  import opened Arithmetic
  import opened MapSums
  import opened Model
  import opened Ordering
  import opened Selection
  import opened Matching

  // ---- The ranked list is determined by the mandates ---------------------------

  lemma CheaperIsOrder(hash: Hash, requestId: Id)
    ensures StrictWeakOrder(CheaperFor(hash, requestId))
  {
    var less := CheaperFor(hash, requestId);
    forall x, y, z | less(x, z) ensures less(x, y) || less(y, z) {
      assert Cheaper(hash, requestId, x, z);
    }
  }

  /** The ranked list: exactly the eligible mandates, each once, cheapest first. */
  lemma RankedExact(ms: map<Id, Mandate>, req: QuoteRequest, order: seq<Id>, hash: Hash)
    requires KeyedById(ms) && Enumerates(order, ms.Keys)
    ensures
      var rs := Ranked(ms, req, order, hash);
      && Sorted(rs, CheaperFor(hash, req.id))
      && CheapestFirst(rs)
      && NoDuplicates(rs)
      && (forall m :: m in rs <==> m.id in ms && ms[m.id] == m && Eligible(m, req))
      && (forall i, j :: 0 <= i < j < |rs| ==> rs[i].id != rs[j].id)
  {
    var rs, less := Ranked(ms, req, order, hash), CheaperFor(hash, req.id);
    CheaperIsOrder(hash, req.id);
    SortedSelection(ms, order, EligibleFor(req), less);
    forall i, j | 0 <= i < j < |rs| ensures rs[i].minApr <= rs[j].minApr {
      assert !less(rs[j], rs[i]);
    }
  }

  lemma SameSuffix(a: string, b: string, suffix: string)
    requires a + suffix == b + suffix
    ensures a == b
  {
    assert |a| == |b|;
    assert a == (a + suffix)[..|a|] && b == (b + suffix)[..|b|];
  }

  lemma CheaperDecides(hash: Hash, requestId: Id, x: Mandate, y: Mandate)
    requires Injective(hash) && x.id != y.id
    ensures CheaperFor(hash, requestId)(x, y) || CheaperFor(hash, requestId)(y, x)
  {
    if hash(x.id + requestId) == hash(y.id + requestId) {
      SameSuffix(x.id, y.id, requestId);
    }
  }

  lemma RankedIgnoresEnumerationOrder(
    ms: map<Id, Mandate>, req: QuoteRequest, order: seq<Id>, order': seq<Id>, hash: Hash)
    requires KeyedById(ms) && Injective(hash)
    requires Enumerates(order, ms.Keys) && Enumerates(order', ms.Keys)
    ensures Ranked(ms, req, order, hash) == Ranked(ms, req, order', hash)
  {
    var less := CheaperFor(hash, req.id);
    CheaperIsOrder(hash, req.id);
    forall x: Mandate, y: Mandate | x.id != y.id ensures less(x, y) || less(y, x) {
      CheaperDecides(hash, req.id, x, y);
    }
    SortedSelectionUnique(ms, order, order', EligibleFor(req), less);
  }

  /** Go's random map order does not reach the quote. */
  lemma QuoteIgnoresEnumerationOrder(
    b: Book, req: QuoteRequest, now: Time, order: seq<Id>, order': seq<Id>, hash: Hash)
    requires KeyedById(b.mandates) && Injective(hash)
    requires Enumerates(order, b.mandates.Keys) && Enumerates(order', b.mandates.Keys)
    ensures MakeQuote(b, req, now, order, hash) == MakeQuote(b, req, now, order', hash)
  {
    RankedIgnoresEnumerationOrder(b.mandates, req, order, order', hash);
  }

  lemma RankedSum(ms: map<Id, Mandate>, req: QuoteRequest, order: seq<Id>, hash: Hash, weight: Mandate -> int)
    requires Enumerates(order, ms.Keys)
    requires forall id :: id in ms && !Eligible(ms[id], req) ==> weight(ms[id]) == 0
    ensures SeqSum(Ranked(ms, req, order, hash), weight) == Sum(ms, weight)
  {
    SortedSelectionSum(ms, order, EligibleFor(req), CheaperFor(hash, req.id), weight);
  }

  /** The fields of a successful quote. */
  lemma QuoteShape(b: Book, req: QuoteRequest, now: Time, order: seq<Id>, hash: Hash, q: Quote)
    requires MakeQuote(b, req, now, order, hash) == Ok(q)
    ensures ValidRequest(req, now)
    ensures CheckLtv(req.amount, req.collateral, b.price, now) == Ok(true)
    ensures q.tranches == Fill(Ranked(b.mandates, req, order, hash), req.amount)
    ensures q.amount == SumPrincipal(q.tranches) > 0
    ensures q.lenderApr == AverageRate(q.tranches) && q.borrowerApr == q.lenderApr + SPREAD
    ensures Ratio(req.collateral * q.amount, req.amount, true) == Ok(q.collateral)
  {
    hide Ranked, Fill, Ratio, YearlyCost;
  }

  // ---- Optimality -----------------------------------------------------------------

  /** What one borrower could take from a mandate under this request. */
  function Offer(m: Mandate, req: QuoteRequest): nat {
    if Eligible(m, req) then Limit(m) else 0
  }

  function OfferFor(req: QuoteRequest): Mandate -> int {
    (m: Mandate) => Offer(m, req)
  }

  function ShareOf(share: Id -> nat): Mandate -> int {
    (m: Mandate) => share(m.id)
  }

  function CostOf(share: Id -> nat): Mandate -> int {
    (m: Mandate) => share(m.id) * m.minApr
  }

  /** `share` lends `funded` in all, no mandate lending more than it offers. */
  ghost predicate Feasible(ms: map<Id, Mandate>, req: QuoteRequest, share: Id -> nat, funded: nat) {
    && (forall id :: id in ms ==> share(id) <= Offer(ms[id], req))
    && Sum(ms, ShareOf(share)) == funded
  }

  lemma {:induction false} LimitsAsSum(rs: seq<Mandate>, req: QuoteRequest)
    requires forall m :: m in rs ==> Eligible(m, req)
    ensures SumLimits(rs) == SeqSum(rs, OfferFor(req))
  {
    if rs != [] {
      assert rs[0] in rs;
      LimitsAsSum(rs[1..], req);
    }
  }

  lemma {:induction false} SharesAsSum(rs: seq<Mandate>, share: Id -> nat)
    ensures AllocationTotal(rs, share) == SeqSum(rs, ShareOf(share))
    ensures AllocationCost(rs, share) == SeqSum(rs, CostOf(share))
  {
    if rs != [] {
      SharesAsSum(rs[1..], share);
    }
  }

  lemma {:induction false} FillAgain(rs: seq<Mandate>, amount: u64)
    ensures SumPrincipal(Fill(rs, amount)) <= MAX64
    ensures Fill(rs, amount) == Fill(rs, SumPrincipal(Fill(rs, amount)))
    decreases |rs|
  {
    FillBounds(rs, amount);
    if rs != [] && amount != 0 {
      var take: u64 := Min(Limit(rs[0]), amount);
      FillAgain(rs[1..], amount - take);
      FillBounds(rs[1..], amount - take);
      assert SumPrincipal(Fill(rs, amount)) == take + SumPrincipal(Fill(rs[1..], amount - take));
      var funded: u64 := Min(amount, SumLimits(rs));
      assert SumLimits(rs) == Limit(rs[0]) + SumLimits(rs[1..]);
      if funded == 0 {
        assert take == 0;
        assert Fill(rs[1..], amount) == Fill(rs[1..], 0) == [];
      }
    }
  }

  /** The quote funds the request, or else everything on offer. */
  lemma QuoteFundsAllItCan(b: Book, req: QuoteRequest, now: Time, order: seq<Id>, hash: Hash, q: Quote)
    requires KeyedById(b.mandates) && Enumerates(order, b.mandates.Keys)
    requires MakeQuote(b, req, now, order, hash) == Ok(q)
    ensures q.amount == SumPrincipal(q.tranches) == Min(req.amount, Sum(b.mandates, OfferFor(req)))
  {
    var rs := Ranked(b.mandates, req, order, hash);
    QuoteShape(b, req, now, order, hash, q);
    RankedExact(b.mandates, req, order, hash);
    FillBounds(rs, req.amount);
    LimitsAsSum(rs, req);
    RankedSum(b.mandates, req, order, hash, OfferFor(req));
  }

  lemma MatchIsCheapest(ms: map<Id, Mandate>, req: QuoteRequest, order: seq<Id>, hash: Hash, share: Id -> nat)
    requires KeyedById(ms) && Enumerates(order, ms.Keys)
    requires Feasible(ms, req, share, SumPrincipal(Fill(Ranked(ms, req, order, hash), req.amount)))
    ensures YearlyCost(Fill(Ranked(ms, req, order, hash), req.amount)) <= Sum(ms, CostOf(share))
  {
    var rs := Ranked(ms, req, order, hash);
    RankedExact(ms, req, order, hash);
    FillAgain(rs, req.amount);
    forall id | id in ms && !Eligible(ms[id], req)
      ensures ShareOf(share)(ms[id]) == 0 && CostOf(share)(ms[id]) == 0
    {
      assert share(id) == 0;
      MulZero(share(id), ms[id].minApr);
    }
    RankedSum(ms, req, order, hash, ShareOf(share));
    RankedSum(ms, req, order, hash, CostOf(share));
    SharesAsSum(rs, share);
    GreedyIsCheapest(rs, SumPrincipal(Fill(rs, req.amount)), share);
  }

  /** No feasible way of lending the quoted amount costs the borrower less. */
  lemma QuoteIsCheapest(
    b: Book, req: QuoteRequest, now: Time, order: seq<Id>, hash: Hash, q: Quote, share: Id -> nat)
    requires KeyedById(b.mandates) && Enumerates(order, b.mandates.Keys)
    requires MakeQuote(b, req, now, order, hash) == Ok(q)
    requires Feasible(b.mandates, req, share, q.amount)
    ensures YearlyCost(q.tranches) <= Sum(b.mandates, CostOf(share))
  {
    QuoteShape(b, req, now, order, hash, q);
    MatchIsCheapest(b.mandates, req, order, hash, share);
  }

  // ---- Terms ------------------------------------------------------------------------

  lemma {:induction false} YearlyCostBounds(ts: seq<Tranche>, low: nat, high: nat)
    requires forall t :: t in ts ==> low <= t.apr <= high
    ensures low * SumPrincipal(ts) <= YearlyCost(ts) <= high * SumPrincipal(ts)
  {
    if ts != [] {
      assert ts[0] in ts;
      YearlyCostBounds(ts[1..], low, high);
      BoundsStep(ts[0].principal, ts[0].apr, SumPrincipal(ts[1..]), YearlyCost(ts[1..]), low, high);
    }
  }

  lemma BoundsStep(p: nat, apr: nat, sum: nat, cost: nat, low: nat, high: nat)
    requires low <= apr <= high
    requires low * sum <= cost <= high * sum
    ensures low * (p + sum) <= p * apr + cost <= high * (p + sum)
  {
    MulMono(low, apr, p);
    MulMono(apr, high, p);
    assert low * (p + sum) == low * p + low * sum;
    assert high * (p + sum) == high * p + high * sum;
    assert apr * p == p * apr;
  }

  /** The tranches of a quote come from distinct eligible mandates, at their own rates and within their limits. */
  ghost predicate TranchesFrom(ms: map<Id, Mandate>, req: QuoteRequest, ts: seq<Tranche>) {
    && DistinctMandates(ts)
    && (forall t :: t in ts ==>
          && t.mandateId in ms
          && var m := ms[t.mandateId];
             Eligible(m, req) && t.lender == m.lender && t.apr == m.minApr && 0 < t.principal <= Limit(m))
  }

  lemma QuoteTranches(b: Book, req: QuoteRequest, now: Time, order: seq<Id>, hash: Hash, q: Quote)
    requires KeyedById(b.mandates) && Enumerates(order, b.mandates.Keys)
    requires MakeQuote(b, req, now, order, hash) == Ok(q)
    ensures TranchesFrom(b.mandates, req, q.tranches)
  {
    var rs := Ranked(b.mandates, req, order, hash);
    QuoteShape(b, req, now, order, hash, q);
    RankedExact(b.mandates, req, order, hash);
    FillTranches(rs, req.amount);
    FillDistinct(rs, req.amount);
  }

  lemma AverageAtMost(ms: map<Id, Mandate>, req: QuoteRequest, ts: seq<Tranche>)
    requires TranchesFrom(ms, req, ts) && SumPrincipal(ts) > 0
    ensures AverageRate(ts) + SPREAD <= req.maxApr
  {
    assert ts[0] in ts && Eligible(ms[ts[0].mandateId], req);
    var cost, total, high := YearlyCost(ts), SumPrincipal(ts), req.maxApr - SPREAD;
    YearlyCostBounds(ts, 0, high);
    FloorAtLeast(cost, total, high + 1);
    assert (high + 1) * total == high * total + total;
  }

  /** The rate is the floor of the average plus the spread, and within the borrower's bound. */
  lemma QuoteRateWithinBound(b: Book, req: QuoteRequest, now: Time, order: seq<Id>, hash: Hash, q: Quote)
    requires KeyedById(b.mandates) && Enumerates(order, b.mandates.Keys)
    requires MakeQuote(b, req, now, order, hash) == Ok(q)
    ensures q.borrowerApr == AverageRate(q.tranches) + SPREAD && q.borrowerApr <= req.maxApr
  {
    QuoteShape(b, req, now, order, hash, q);
    QuoteTranches(b, req, now, order, hash, q);
    AverageAtMost(b.mandates, req, q.tranches);
  }

  /** Collateral that covers its pro-rata share of the request is worth at least that share of the request's value. */
  lemma PartialFillKeepsCollateralisation(amount: nat, collateral: nat, funded: nat, price: nat, quoted: nat)
    requires 0 < funded <= amount
    requires collateral * funded <= quoted * amount
    ensures
      var value := collateral * price / SCALE;
      var quotedValue := quoted * price / SCALE;
      && quotedValue >= value * funded / amount
      && (2 * amount <= value ==> 2 * funded <= quotedValue)
  {
    PartialFillWorth(amount, collateral, funded, price, quoted, collateral * price / SCALE, quoted * price / SCALE);
  }

  lemma PartialFillWorth(
    amount: nat, collateral: nat, funded: nat, price: nat, quoted: nat, value: nat, quotedValue: nat)
    requires 0 < funded <= amount && collateral * funded <= quoted * amount
    requires value == collateral * price / SCALE && quotedValue == quoted * price / SCALE
    ensures quotedValue >= value * funded / amount
    ensures 2 * amount <= value ==> 2 * funded <= quotedValue
  {
    ShareOfValue(amount, collateral, funded, price, quoted, value, value * funded / amount);
    if 2 * amount <= value {
      TwiceFits(amount, funded, value);
    }
  }

  lemma QuotedCollateralBounds(collateral: u64, funded: u64, amount: u64, quoted: u64)
    requires 0 < funded <= amount
    requires Ratio(collateral * funded, amount, true) == Ok(quoted)
    ensures collateral * funded <= quoted * amount
    ensures quoted <= collateral
    ensures collateral > 0 ==> quoted > 0
  {
    CeilingBounds(collateral * funded, amount);
    assert collateral * funded <= collateral * amount by {
      MulMono(funded, amount, collateral);
      assert collateral * funded == funded * collateral && collateral * amount == amount * collateral;
    }
    MulZero(collateral, funded);
  }

  lemma TwiceFits(amount: nat, funded: nat, value: nat)
    requires 0 < amount && 2 * amount <= value
    ensures 2 * funded <= value * funded / amount
  {
    MulMono(2 * amount, value, funded);
    assert 2 * amount * funded == 2 * funded * amount;
    FloorAtLeast(value * funded, amount, 2 * funded);
  }

  lemma ShareOfValue(amount: nat, collateral: nat, funded: nat, price: nat, quoted: nat, value: nat, w: nat)
    requires amount > 0
    requires value == collateral * price / SCALE
    requires w == value * funded / amount
    requires collateral * funded <= quoted * amount
    ensures w <= quoted * price / SCALE
  {
    FloorBounds(collateral * price, SCALE);
    FloorBounds(value * funded, amount);
    calc {
      w * SCALE * amount;
    ==
      (w * amount) * SCALE;
    <=
      (value * funded) * SCALE;
    ==
      (value * SCALE) * funded;
    <=  { MulMono(value * SCALE, collateral * price, funded); }
      collateral * price * funded;
    ==
      (collateral * funded) * price;
    <=  { MulMono(collateral * funded, quoted * amount, price); }
      quoted * amount * price;
    ==
      (quoted * price) * amount;
    }
    if quoted * price < w * SCALE {
      MulMono(quoted * price + 1, w * SCALE, amount);
      assert false;
    }
    FloorAtLeast(quoted * price, SCALE, w);
  }
}
