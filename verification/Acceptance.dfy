/**
  Quote and acceptance agree: while the mandates are unchanged, an unexpired quote is
  recomputed to the same terms at any fresh price that passes the loan-to-value gate,
  and acceptance then fails only for reasons in the borrower's own account.
 */
module Acceptance {
  import opened Outcomes
  import opened Arithmetic
  import opened MapSums
  import opened Model
  import opened Ordering
  import opened Selection
  import opened Loans
  import opened Matching
  import opened QuoteFacts
  import opened Operations
  import opened Invariants
  import opened Lending

  // ---- The same terms -------------------------------------------------------------------------

  lemma RequestRecovered(b: Book, req: QuoteRequest, price: Price, now: Time, order: seq<Id>, hash: Hash, q: Quote)
    requires QuoteAtPrice(b, req, price, now, order, hash) == Ok(q)
    ensures RequestOf(q) == req && q.expiresAt == req.expiresAt
    ensures MakeQuote(b.(price := price), req, now, order, hash) == Ok(q)
    ensures forall p: u64 :: SameQuote(q.(priceE6 := p), q)
  {
    hide Ranked, Fill, CheckLtv;
  }

  /** The quote does not depend on the price beyond the gate and the recorded figure. */
  lemma SameTermsAtAnotherPrice(
    b: Book, c: Book, req: QuoteRequest, now: Time, now': Time, order: seq<Id>, hash: Hash, q: Quote)
    requires MakeQuote(b, req, now, order, hash) == Ok(q)
    requires c.mandates == b.mandates && now' < req.expiresAt
    requires CheckLtv(req.amount, req.collateral, c.price, now') == Ok(true)
    ensures MakeQuote(c, req, now', order, hash) == Ok(q.(priceE6 := c.price.xrpUsdE6))
  {
    hide Ranked, CheckLtv, WeightedAverage, Ratio;
  }

  /** Recomputing an unexpired quote over unchanged mandates gives the same terms, in any enumeration order. */
  lemma RecomputedQuoteAgrees(
    b: Book, c: Book, req: QuoteRequest, price: Price, now: Time, now': Time,
    order: seq<Id>, order': seq<Id>, hash: Hash, q: Quote)
    requires KeyedById(b.mandates) && Injective(hash)
    requires Enumerates(order, b.mandates.Keys) && Enumerates(order', b.mandates.Keys)
    requires QuoteAtPrice(b, req, price, now, order, hash) == Ok(q)
    requires c.mandates == b.mandates && now' < q.expiresAt
    requires CheckLtv(req.amount, req.collateral, c.price, now') == Ok(true)
    ensures MakeQuote(c, RequestOf(q), now', order', hash) == Ok(q.(priceE6 := c.price.xrpUsdE6))
    ensures SameQuote(q.(priceE6 := c.price.xrpUsdE6), q)
  {
    hide MakeQuote, CheckLtv, QuoteAtPrice, SameQuote, RequestOf;
    RequestRecovered(b, req, price, now, order, hash, q);
    SameTermsAtAnotherPrice(b.(price := price), c, req, now, now', order, hash, q);
    QuoteIgnoresEnumerationOrder(c, req, now', order, order', hash);
  }

  // ---- The new loan's first risk assessment cannot fail ------------------------------------------

  lemma GateBounds(amount: u64, collateral: u64, price: Price, now: Time)
    requires CheckLtv(amount, collateral, price, now) == Ok(true)
    ensures
      var value := collateral * price.xrpUsdE6 / SCALE;
      0 < value <= MAX64 && amount * 10_000 < 5001 * value
  {
    var value := collateral * price.xrpUsdE6 / SCALE;
    assert value > 0;
    FloorAtLeast(amount * BPS, value, 5001);
  }

  /** The quoted collateral is worth at least the loan, and nearly twice as much. */
  lemma QuotedValueBounds(amount: nat, funded: nat, value: nat, w: nat)
    requires 0 < funded <= amount && amount * 10_000 < 5001 * value
    requires w == value * funded / amount
    ensures 10_000 * funded <= 5001 * (w + 1)
    ensures funded <= w
    ensures funded >= 10 ==> 8 * funded <= 5 * w
  {
    FloorBounds(value * funded, amount);
    MulMono(amount * 10_000, 5001 * value, funded);
    assert 5001 * value * funded == 5001 * (value * funded);
    assert amount * 10_000 * funded == (10_000 * funded) * amount;
    assert 5001 * ((w + 1) * amount) == (5001 * (w + 1)) * amount;
    if 5001 * (w + 1) < 10_000 * funded {
      MulMono(5001 * (w + 1), 10_000 * funded, amount);
      assert false;
    }
  }

  lemma LiquidationPriceFits(funded: nat, quoted: nat, price: nat, value: nat)
    requires quoted > 0 && price <= MAX64
    requires value == quoted * price / SCALE
    requires funded >= 10 ==> 8 * funded <= 5 * value
    ensures funded * BPS * SCALE / (quoted * 6500) <= MAX64
  {
    var n, d := funded * BPS * SCALE, quoted * 6500;
    FloorBounds(quoted * price, SCALE);
    assert quoted * price == price * quoted;
    MulMono(price, MAX64, quoted);
    assert n <= MAX64 * d;
    assert n < (MAX64 + 1) * d;
    FloorAtLeast(n, d, MAX64 + 1);
  }

  /** What the quoted collateral of a gated request is worth. */
  lemma QuotedLoanValue(amount: u64, collateral: u64, price: Price, now: Time, funded: u64, quoted: u64)
    requires CheckLtv(amount, collateral, price, now) == Ok(true)
    requires 0 < funded <= amount
    requires Ratio(collateral * funded, amount, true) == Ok(quoted)
    ensures
      var quotedValue := quoted * price.xrpUsdE6 / SCALE;
      && quoted > 0
      && 10_000 * funded <= 5001 * (quotedValue + 1)
      && funded <= quotedValue <= MAX64
      && (funded >= 10 ==> 8 * funded <= 5 * quotedValue)
      && (2 * amount <= collateral * price.xrpUsdE6 / SCALE ==> 2 * funded <= quotedValue)
  {
    var p := price.xrpUsdE6;
    GateBounds(amount, collateral, price, now);
    QuotedCollateralBounds(collateral, funded, amount, quoted);
    hide CheckLtv, Ratio;
    PositiveCollateral(collateral, p);
    QuotedWorth(amount, collateral, funded, p, quoted, collateral * p / SCALE, quoted * p / SCALE);
    QuotedNotMore(quoted, collateral, p);
  }

  lemma QuotedWorth(amount: nat, collateral: nat, funded: nat, p: nat, quoted: nat, value: nat, quotedValue: nat)
    requires 0 < funded <= amount && collateral * funded <= quoted * amount
    requires value == collateral * p / SCALE && quotedValue == quoted * p / SCALE
    requires amount * 10_000 < 5001 * value
    ensures 10_000 * funded <= 5001 * (quotedValue + 1)
    ensures funded <= quotedValue
    ensures funded >= 10 ==> 8 * funded <= 5 * quotedValue
    ensures 2 * amount <= value ==> 2 * funded <= quotedValue
  {
    var w := value * funded / amount;
    ShareOfValue(amount, collateral, funded, p, quoted, value, w);
    QuotedValueBounds(amount, funded, value, w);
    if 2 * amount <= value {
      TwiceFits(amount, funded, value);
    }
  }

  lemma PositiveCollateral(collateral: nat, price: nat)
    requires collateral * price / SCALE > 0
    ensures collateral > 0
  {
    if collateral == 0 { MulZero(collateral, price); }
  }

  /** At a price that passes the gate, opening the loan never fails on its risk figures. */
  lemma FirstAssessmentSucceeds(amount: u64, collateral: u64, price: Price, now: Time, l: Loan)
    requires CheckLtv(amount, collateral, price, now) == Ok(true)
    requires 0 < l.principal <= amount && l.accruedRay == 0
    requires Ratio(collateral * l.principal, amount, true) == Ok(l.collateral)
    ensures UpdateRisk(l, price.xrpUsdE6, now).Ok?
    ensures 2 * amount <= collateral * price.xrpUsdE6 / SCALE && !Late(l, now) ==>
      UpdateRisk(l, price.xrpUsdE6, now).value.status in {Healthy, Restricted}
  {
    hide CheckLtv, Ratio, UpdateRisk;
    QuotedLoanValue(amount, collateral, price, now, l.principal, l.collateral);
    LiquidationPriceFits(l.principal, l.collateral, price.xrpUsdE6, l.collateral * price.xrpUsdE6 / SCALE);
    AssessmentFits(l, price.xrpUsdE6, now);
  }

  lemma QuotedNotMore(quoted: nat, collateral: nat, price: nat)
    requires quoted <= collateral
    ensures quoted * price / SCALE <= collateral * price / SCALE
  {
    MulMono(quoted, collateral, price);
    FloorMono(quoted * price, collateral * price, SCALE);
  }

  lemma AssessmentFits(l: Loan, price: u64, now: Time)
    requires l.accruedRay == 0 && l.collateral > 0
    requires l.collateral * price / SCALE <= MAX64
    requires 0 < l.principal <= l.collateral * price / SCALE
    requires l.principal * BPS * SCALE / (l.collateral * 6500) <= MAX64
    ensures UpdateRisk(l, price, now).Ok?
    ensures 2 * l.principal <= l.collateral * price / SCALE && !Late(l, now) ==>
      UpdateRisk(l, price, now).value.status in {Healthy, Restricted}
  {
    var value := l.collateral * price / SCALE;
    FloorAtLeast(l.principal * BPS, value, BPS + 1);
    FloorAtLeast(l.principal * BPS, value, 5001);
    assert (BPS + 1) * value > l.principal * BPS;
  }

  /**
    The loan-to-value gate rounds down, so a request just above 50% passes it; rounding
    a tiny partial fill of it can then open a loan that is liquidatable at once.
   */
  lemma PartialFillJustAboveHalfCanStartLiquidatable()
    ensures
      var price := Price(1, 0);
      var l := Loan("loan", "b", 1, 1_999_801, 650, 7, 0, 604_800, 0, 0, [Tranche("m", "a", 1, 600)], Healthy, 0, 0);
      && CheckLtv(10_001, 20_000_000_000, price, 0) == Ok(true)
      && Ratio(20_000_000_000 * l.principal, 10_001, true) == Ok(l.collateral)
      && UpdateRisk(l, price.xrpUsdE6, 0).Ok?
      && UpdateRisk(l, price.xrpUsdE6, 0).value.status == Liquidatable
  {
  }

  /** Exactly which loans start liquidatable: those of one or two base units whose collateral is worth less than twice as much. */
  lemma OnlyDustStartsLiquidatable(amount: u64, collateral: u64, price: Price, now: Time, l: Loan)
    requires CheckLtv(amount, collateral, price, now) == Ok(true)
    requires 0 < l.principal <= amount && l.accruedRay == 0 && !Late(l, now)
    requires Ratio(collateral * l.principal, amount, true) == Ok(l.collateral)
    ensures UpdateRisk(l, price.xrpUsdE6, now).Ok?
    ensures UpdateRisk(l, price.xrpUsdE6, now).value.status == Liquidatable <==>
            l.principal <= 2 && CollateralValue(l, price.xrpUsdE6) < 2 * l.principal
  {
    hide CheckLtv, Ratio, UpdateRisk;
    FirstAssessmentSucceeds(amount, collateral, price, now, l);
    QuotedLoanValue(amount, collateral, price, now, l.principal, l.collateral);
    LiquidatableExactly(l, price.xrpUsdE6, now);
  }

  // ---- Acceptance succeeds exactly when the account allows it -------------------------------------

  /** The part of acceptance that depends on the borrower's own account. */
  predicate AccountReady(b: Book, q: Quote, nonce: u64) {
    var a := AccountOf(b, q.borrower);
    a.nonce == nonce && a.loanId == "" && q.collateral <= a.fxrp.available
  }

  /** What remains once the account is ready: allocation, the first assessment and the debt total. */
  lemma OriginateSucceedsExactly(b: Book, q: Quote, loanId: Id, nonce: u64, now: Time)
    requires Allocate(b.mandates, q.tranches).Ok?
    requires UpdateRisk(NewLoan(q, loanId, now), b.price.xrpUsdE6, now).Ok?
    requires b.activeDebt + q.amount <= MAX64
    ensures Originate(b, q, loanId, nonce, now).Ok? <==> AccountReady(b, q, nonce)
  {
    hide Allocate, UpdateRisk;
  }

  lemma QuotedTranchesAllocate(b: Book, req: QuoteRequest, q: Quote)
    requires Sound(b) && TranchesFrom(b.mandates, req, q.tranches) && q.amount == SumPrincipal(q.tranches)
    ensures Allocate(b.mandates, q.tranches).Ok?
    ensures b.activeDebt + q.amount <= MAX64
  {
    hide Structure, Allocate, SumPrincipal, Sum;
    SoundHasRoom(b, "");
    AllocateSucceeds(b.mandates, q.tranches);
    AllocateEffect(b.mandates, q.tranches);
    var after := Allocate(b.mandates, q.tranches).value;
    FreeNonNegative(b.(mandates := after));
    FreeNonNegative(b);
  }

  /**
    An unexpired quote over unchanged mandates, at a fresh price that passes the gate:
    acceptance succeeds if and only if the request is new and the borrower's account has
    the right nonce, no loan, and the collateral. Liquidity cannot have changed, and no
    arithmetic can fail.
   */
  lemma AcceptSucceedsExactly(
    b: Book, c: Book, req: QuoteRequest, price: Price, now: Time, order: seq<Id>, hash: Hash, q: Quote,
    loanId: Id, nonce: u64, price': Price, now': Time, order': seq<Id>)
    requires Sound(c) && c.mandates == b.mandates && Injective(hash)
    requires Enumerates(order, b.mandates.Keys) && Enumerates(order', b.mandates.Keys)
    requires QuoteAtPrice(b, req, price, now, order, hash) == Ok(q)
    requires now' < q.expiresAt && FreshObservation(price', now')
    requires CheckLtv(req.amount, req.collateral, price', now') == Ok(true)
    ensures AcceptQuote(c, q, loanId, nonce, Some(price'), now', order', hash).Ok? <==>
      q.requestId !in c.processed && AccountReady(c, q, nonce)
  {
    hide Structure, FreeUsdt0, TotalFxrp, MakeQuote, QuoteAtPrice, CheckLtv, RequestOf, SameQuote, Originate, TranchesFrom;
    StructureIds(c);
    var priced := c.(price := price');
    LogKeeps(c, c.processed, c.activities, price');
    RequestRecovered(b, req, price, now, order, hash, q);
    RecomputedQuoteAgrees(b, priced, req, price, now, now', order, order', hash, q);
    var recomputed := q.(priceE6 := price'.xrpUsdE6);
    QuoteShape(priced, req, now', order', hash, recomputed);
    QuoteTermsSound(priced, req, now', order', hash, recomputed);
    QuotedTranchesAllocate(priced, req, q);
    FirstAssessmentSucceeds(req.amount, req.collateral, price', now', NewLoan(q, loanId, now'));
    OriginateSucceedsExactly(priced, q, loanId, nonce, now');
  }
}
