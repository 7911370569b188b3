/**
  The quote: which mandates are eligible, how the greedy matcher fills a request
  from them, and the terms that follow.

  The SHA-256 tie-break is an injective function from strings to numbers, and the
  enumeration order of the mandate map is a parameter.
 */
module Matching {
  import opened Outcomes
  import opened Arithmetic
  import opened Model
  import opened Ordering
  import opened Selection

  type Hash = string -> nat

  ghost predicate Injective(hash: Hash) {
    forall a, b :: hash(a) == hash(b) ==> a == b
  }

  const MAX_QUOTE_AGE: int := 300
  const SPREAD: nat := 50

  predicate Eligible(m: Mandate, req: QuoteRequest) {
    && m.active
    && m.available > 0
    && Accepts(m.termMask, TermBit(req.termDays))
    && m.minApr + SPREAD <= req.maxApr
  }

  /** Cheapest first; equal rates in the order of the request's hash. */
  predicate Cheaper(hash: Hash, requestId: Id, x: Mandate, y: Mandate) {
    if x.minApr != y.minApr then x.minApr < y.minApr
    else hash(x.id + requestId) < hash(y.id + requestId)
  }

  function CheaperFor(hash: Hash, requestId: Id): (Mandate, Mandate) -> bool {
    (x: Mandate, y: Mandate) => Cheaper(hash, requestId, x, y)
  }

  function EligibleFor(req: QuoteRequest): Mandate -> bool {
    (m: Mandate) => Eligible(m, req)
  }

  /** The eligible mandates, ranked. */
  function Ranked(ms: map<Id, Mandate>, req: QuoteRequest, order: seq<Id>, hash: Hash): seq<Mandate> {
    Sort(Select(ms, order, EligibleFor(req)), CheaperFor(hash, req.id))
  }

  /** The most one borrower may take from a mandate. */
  function Limit(m: Mandate): u64 {
    Min(m.available, m.cap)
  }

  /** The greedy loop: take as much as possible from each mandate in turn. */
  function Fill(ms: seq<Mandate>, remaining: u64): (ts: seq<Tranche>)
  {
    if ms == [] || remaining == 0 then []
    else
      var take: u64 := Min(Limit(ms[0]), remaining);
      if take == 0 then Fill(ms[1..], remaining)
      else [Tranche(ms[0].id, ms[0].lender, take, ms[0].minApr)] + Fill(ms[1..], remaining - take)
  }

  function WeightedAverage(ts: seq<Tranche>, total: u64): Result<u32> {
    if total == 0 then Err(DivisionByZero)
    else
      var average := YearlyCost(ts) / total;
      if average > MAX32 then Err(Overflow) else Ok(average)
  }

  predicate ValidRequest(req: QuoteRequest, now: Time) {
    && req.amount != 0
    && req.collateral != 0
    && TermBit(req.termDays) != 0
    && req.maxApr >= 650
    && req.expiresAt > now
  }

  /** The price and loan-to-value gate of a quote. */
  function CheckLtv(amount: u64, collateral: u64, price: Price, now: Time): Result<bool> {
    if price.xrpUsdE6 == 0 || now - price.updatedAt > MAX_QUOTE_AGE then Err(StalePrice)
    else
      var value :- Ratio(collateral * price.xrpUsdE6, SCALE, false);
      var ltv :- Ratio(amount * BPS, value, false);
      if ltv > 5000 then Err(LtvTooHigh) else Ok(true)
  }

  /** The terms for a request filled with `ts`. */
  function Terms(req: QuoteRequest, ts: seq<Tranche>, funded: u64, priceE6: u64): Result<Quote> {
    if funded == 0 then Err(InsufficientLiquidity)
    else
      var lenderApr :- WeightedAverage(ts, funded);
      if lenderApr > MAX32 - SPREAD then Err(Overflow)
      else
        var collateral :- Ratio(req.collateral * funded, req.amount, true);
        Ok(Quote(req.id, req.borrower, funded, req.amount, req.termDays, collateral, req.collateral,
                 funded < req.amount, lenderApr, lenderApr + SPREAD, req.maxApr, ts, req.expiresAt, priceE6))
  }

  function MakeQuote(b: Book, req: QuoteRequest, now: Time, order: seq<Id>, hash: Hash): Result<Quote> {
    if !ValidRequest(req, now) then Err(InvalidRequest)
    else
      var _ :- CheckLtv(req.amount, req.collateral, b.price, now);
      FillBounds(Ranked(b.mandates, req, order, hash), req.amount);
      var ts := Fill(Ranked(b.mandates, req, order, hash), req.amount);
      Terms(req, ts, SumPrincipal(ts), b.price.xrpUsdE6)
  }

  predicate FreshObservation(price: Price, now: Time) {
    price.xrpUsdE6 != 0 && price.updatedAt <= now && now - price.updatedAt <= MAX_QUOTE_AGE
  }

  function QuoteAtPrice(b: Book, req: QuoteRequest, observed: Price, now: Time, order: seq<Id>, hash: Hash): Result<Quote> {
    if !FreshObservation(observed, now) then Err(StalePrice)
    else MakeQuote(b.(price := observed), req, now, order, hash)
  }

  // ---- What the greedy loop takes ------------------------------------------------

  function SumLimits(ms: seq<Mandate>): nat {
    if ms == [] then 0 else Limit(ms[0]) + SumLimits(ms[1..])
  }

  /** The matcher funds all it can: the request, or everything the mandates allow. */
  lemma {:induction false} FillBounds(ms: seq<Mandate>, remaining: u64)
    ensures SumPrincipal(Fill(ms, remaining)) == Min(remaining, SumLimits(ms))
    decreases |ms|
  {
    if ms != [] && remaining != 0 {
      var take: u64 := Min(Limit(ms[0]), remaining);
      FillBounds(ms[1..], remaining - take);
    }
  }

  /** Every tranche copies one mandate's terms and respects its limit. */
  lemma {:induction false} FillTranches(ms: seq<Mandate>, remaining: u64)
    ensures forall t :: t in Fill(ms, remaining) ==>
      exists m :: m in ms && t == Tranche(m.id, m.lender, t.principal, m.minApr) && 0 < t.principal <= Limit(m)
    decreases |ms|
  {
    if ms != [] && remaining != 0 {
      var take: u64 := Min(Limit(ms[0]), remaining);
      FillTranches(ms[1..], remaining - take);
      forall t | t in Fill(ms, remaining)
        ensures exists m :: m in ms && t == Tranche(m.id, m.lender, t.principal, m.minApr) && 0 < t.principal <= Limit(m)
      {
        if t in Fill(ms[1..], remaining - take) {
          var m :| m in ms[1..] && t == Tranche(m.id, m.lender, t.principal, m.minApr) && 0 < t.principal <= Limit(m);
          assert m in ms;
        } else {
          assert ms[0] in ms;
        }
      }
    }
  }

  lemma {:induction false} FillDistinct(ms: seq<Mandate>, remaining: u64)
    requires forall i, j :: 0 <= i < j < |ms| ==> ms[i].id != ms[j].id
    ensures DistinctMandates(Fill(ms, remaining))
    decreases |ms|
  {
    if ms != [] && remaining != 0 {
      var take: u64 := Min(Limit(ms[0]), remaining);
      var rest := Fill(ms[1..], remaining - take);
      FillDistinct(ms[1..], remaining - take);
      FillTranches(ms[1..], remaining - take);
      forall j | 0 <= j < |rest| ensures rest[j].mandateId != ms[0].id {
        assert rest[j] in rest;
      }
    }
  }

  // ---- The greedy allocation is the cheapest ---------------------------------------

  /** An allocation in basis-point cost: how much each mandate would lend, at its own rate. */
  ghost function AllocationTotal(ms: seq<Mandate>, share: Id -> nat): nat {
    if ms == [] then 0 else share(ms[0].id) + AllocationTotal(ms[1..], share)
  }

  ghost function AllocationCost(ms: seq<Mandate>, share: Id -> nat): nat {
    if ms == [] then 0 else share(ms[0].id) * ms[0].minApr + AllocationCost(ms[1..], share)
  }

  ghost predicate CheapestFirst(ms: seq<Mandate>) {
    forall i, j :: 0 <= i < j < |ms| ==> ms[i].minApr <= ms[j].minApr
  }

  /** Filling `extra` more costs at least the lowest rate for each unit. */
  lemma {:induction false} FillMoreCosts(ms: seq<Mandate>, amount: u64, extra: u64, rate: nat)
    requires amount + extra <= SumLimits(ms) && amount + extra <= MAX64
    requires forall m :: m in ms ==> rate <= m.minApr
    ensures YearlyCost(Fill(ms, amount + extra)) >= YearlyCost(Fill(ms, amount)) + extra * rate
    decreases |ms|
  {
    hide Fill, YearlyCost;
    if ms != [] && extra > 0 {
      var m := ms[0];
      assert m in ms;
      var less: u64, more: u64 := Min(Limit(m), amount), Min(Limit(m), amount + extra);
      var rest := extra - (more - less);
      FillCost(ms, amount);
      FillCost(ms, amount + extra);
      assert SumLimits(ms) == Limit(m) + SumLimits(ms[1..]);
      FillMoreCosts(ms[1..], amount - less, rest, rate);
      CostSplit(less, more, extra, rest, m.minApr, rate);
    }
  }

  lemma CostSplit(less: nat, more: nat, extra: nat, rest: nat, apr: nat, rate: nat)
    requires rate <= apr && less <= more && extra == more - less + rest
    ensures more * apr + rest * rate >= less * apr + extra * rate
  {
    var step := more - less;
    Distribute(less, step, apr);
    Distribute(step, rest, rate);
    assert step * apr == apr * step && step * rate == rate * step;
    MulMono(rate, apr, step);
  }

  lemma FillCost(ms: seq<Mandate>, amount: u64)
    requires ms != []
    ensures
      var take: u64 := Min(Limit(ms[0]), amount);
      YearlyCost(Fill(ms, amount)) == take * ms[0].minApr + YearlyCost(Fill(ms[1..], amount - take))
  {
    if amount == 0 {
      assert Fill(ms[1..], 0) == [];
    }
  }

  lemma FillFromNothing(amount: u64)
    ensures YearlyCost(Fill([], amount)) == 0
  {
  }

  /** No other way of lending the funded amount within the limits is cheaper for the borrower. */
  lemma {:induction false} GreedyIsCheapest(ms: seq<Mandate>, funded: u64, share: Id -> nat)
    requires CheapestFirst(ms)
    requires forall m :: m in ms ==> share(m.id) <= Limit(m)
    requires AllocationTotal(ms, share) == funded
    ensures YearlyCost(Fill(ms, funded)) <= AllocationCost(ms, share)
    decreases |ms|
  {
    hide Fill, YearlyCost;
    if ms == [] {
      FillFromNothing(funded);
    } else {
      var m := ms[0];
      assert m in ms;
      var mine := share(m.id);
      var take: u64 := Min(Limit(m), funded);
      FillCost(ms, funded);
      TotalWithinLimits(ms[1..], share);
      GreedyIsCheapest(ms[1..], funded - mine, share);
      FillMoreCosts(ms[1..], funded - take, take - mine, m.minApr);
      Distribute(mine, take - mine, m.minApr);
    }
  }

  lemma {:induction false} TotalWithinLimits(ms: seq<Mandate>, share: Id -> nat)
    requires forall m :: m in ms ==> share(m.id) <= Limit(m)
    ensures AllocationTotal(ms, share) <= SumLimits(ms)
  {
    if ms != [] {
      assert ms[0] in ms;
      TotalWithinLimits(ms[1..], share);
    }
  }
}
