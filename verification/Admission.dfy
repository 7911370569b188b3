/**
  When each operation is admitted, and the terms of a quote, in plain figures: every check of
  the ledger spelled out, in both directions.
 */
module Admission {
  import opened Outcomes
  import opened Arithmetic
  import opened MapSums
  import opened Model
  import opened Ordering
  import opened Selection
  import opened Loans
  import opened Matching
  import opened QuoteFacts
  import opened Operations
  import opened Invariants
  import opened Lending
  import opened Acceptance
  import opened Repayment
  import opened Figures
  import opened Payments

  // ---- Accounts and mandates ---------------------------------------------------------------------

  lemma OpenAccountSucceedsExactly(b: Book, owner: Owner, operationId: Id, nonce: u64)
    ensures OpenAccount(b, owner, operationId, nonce).Ok? <==>
            operationId !in b.processed && AccountOf(b, owner).nonce == nonce
    ensures OpenAccount(b, owner, operationId, nonce).Ok? ==>
      var next := OpenAccount(b, owner, operationId, nonce).value;
      && owner in next.accounts && next.processed == b.processed + {operationId}
      && AccountOf(next, owner) == AccountOf(b, owner).(nonce := AccountOf(next, owner).nonce)
      && next == b.(accounts := b.accounts[owner := next.accounts[owner]], processed := next.processed)
  {
  }

  /** A deposit reaches its owner's free balance, and is logged. */
  lemma DepositCreditsExactly(b: Book, owner: Owner, asset: Asset, amount: u64, depositId: Id, now: Time, next: Book)
    requires Deposit(b, owner, asset, amount, depositId, now) == Ok(next)
    ensures
      var a, a' := AccountOf(b, owner), AccountOf(next, owner);
      && owner in next.accounts
      && a'.Get(asset).available == a.Get(asset).available + amount
      && a' == a.Set(asset, a.Get(asset).(available := a'.Get(asset).available))
      && next == b.(accounts := b.accounts[owner := a'], processed := b.processed + {depositId},
                    activities := b.activities + [Activity(depositId, owner, true, asset, amount, now)])
  {
  }

  lemma SeedBackstopSucceedsExactly(b: Book, amount: u64, operationId: Id)
    ensures SeedBackstop(b, amount, operationId).Ok? <==>
            amount > 0 && operationId !in b.processed && b.backstopUsdt0 + amount < 0x1_0000_0000_0000_0000
    ensures SeedBackstop(b, amount, operationId).Ok? ==>
            SeedBackstop(b, amount, operationId).value
            == b.(backstopUsdt0 := b.backstopUsdt0 + amount, processed := b.processed + {operationId})
  {
  }

  lemma SetMandateSucceedsExactly(
    b: Book, owner: Owner, id: Id, amount: u64, minApr: u32, termMask: u8, cap: u64, nonce: u64, now: Time)
    ensures SetMandate(b, owner, id, amount, minApr, termMask, cap, nonce, now).Ok? <==>
            && amount > 0 && 600 <= minApr <= 2000 && 1 <= termMask <= 7 && cap > 0
            && id !in b.mandates
            && AccountOf(b, owner).nonce == nonce && amount <= AccountOf(b, owner).usdt0.available
  {
  }

  lemma CancelMandateSucceedsExactly(b: Book, owner: Owner, id: Id, nonce: u64)
    ensures CancelMandate(b, owner, id, nonce).Ok? <==>
            && id in b.mandates && b.mandates[id].lender == owner && b.mandates[id].active
            && AccountOf(b, owner).nonce == nonce
  {
  }

  lemma WithdrawFromMandateSucceedsExactly(
    b: Book, owner: Owner, id: Id, amount: u64, operationId: Id, nonce: u64, now: Time)
    ensures WithdrawFromMandate(b, owner, id, amount, operationId, nonce, now).Ok? <==>
            && amount > 0 && operationId !in b.processed
            && id in b.mandates && b.mandates[id].lender == owner && b.mandates[id].active
            && AccountOf(b, owner).nonce == nonce && amount <= b.mandates[id].available
    ensures WithdrawFromMandate(b, owner, id, amount, operationId, nonce, now).Ok? ==>
      var next := WithdrawFromMandate(b, owner, id, amount, operationId, nonce, now).value;
      && id in next.mandates
      && (next.mandates[id].active <==> amount < b.mandates[id].available || b.mandates[id].lent > 0)
      && next.activities == b.activities + [Activity(operationId, owner, false, USDT0, amount, now)]
  {
  }

  /** A loan is liquidated by request exactly if it is stored as liquidatable and the liquidation itself can succeed. */
  lemma LiquidateSucceedsExactly(b: Book, loanId: Id, operationId: Id)
    requires Sound(b)
    ensures Liquidate(b, loanId, operationId).Ok? <==>
            && operationId !in b.processed && loanId in b.loans && b.loans[loanId].status == Liquidatable
            && var l := b.loans[loanId];
               var due := l.principal + l.accruedRay / 1_000_000;
               && due <= b.backstopUsdt0
               && b.price.xrpUsdE6 > 0
               && due * 10_000_000_000 / (b.price.xrpUsdE6 * 9500) < 0x1_0000_0000_0000_0000
               && CountersFit(b.mandates, l, due - l.principal, l.tranches)
  {
    hide Structure, FreeUsdt0, TotalFxrp, LiquidateInState, CountersFit;
    if loanId in b.loans && b.loans[loanId].status == Liquidatable {
      LiquidationSucceedsExactly(b, loanId, b.loans[loanId]);
    }
  }

  // ---- Quotes ----------------------------------------------------------------------------------------

  /** The mandate lends for this many days: bit 0 of its mask is for 7 days, bit 1 for 14, bit 2 for 30. */
  predicate LendsFor(mask: u8, days: nat) {
    || (days == 7 && mask % 2 == 1)
    || (days == 14 && mask / 2 % 2 == 1)
    || (days == 30 && mask / 4 % 2 == 1)
  }

  /** What one borrower may draw from a mandate under a request. */
  function MayDraw(m: Mandate, days: nat, maxApr: nat): nat {
    if m.active && LendsFor(m.termMask, days) && m.minApr + 50 <= maxApr then
      (if m.available <= m.cap then m.available else m.cap)
    else 0
  }

  function MayDrawUnder(req: QuoteRequest): Mandate -> int {
    (m: Mandate) => MayDraw(m, req.termDays, req.maxApr)
  }

  lemma OfferIsMayDraw(m: Mandate, req: QuoteRequest)
    ensures Offer(m, req) == MayDraw(m, req.termDays, req.maxApr)
    ensures MayDraw(m, req.termDays, req.maxApr) > 0 ==> Eligible(m, req)
    ensures Eligible(m, req) ==> LendsFor(m.termMask, req.termDays)
  {
  }

  /** The part of a quote's checks that does not look at the mandates. */
  predicate RequestAdmitted(req: QuoteRequest, price: Price, now: Time) {
    && req.amount > 0 && req.collateral > 0 && (req.termDays == 7 || req.termDays == 14 || req.termDays == 30)
    && req.maxApr >= 650 && now < req.expiresAt
    && price.xrpUsdE6 > 0 && now - price.updatedAt <= 300
    && var worth := req.collateral * price.xrpUsdE6 / 1_000_000;
       0 < worth < 0x1_0000_0000_0000_0000 && req.amount * 10_000 < 5001 * worth
  }

  lemma RequestAdmittedExactly(req: QuoteRequest, price: Price, now: Time)
    ensures RequestAdmitted(req, price, now) <==>
            ValidRequest(req, now) && CheckLtv(req.amount, req.collateral, price, now) == Ok(true)
    ensures ValidRequest(req, now) && CheckLtv(req.amount, req.collateral, price, now).Ok? ==>
            CheckLtv(req.amount, req.collateral, price, now) == Ok(true)
    ensures RequestAdmitted(req, price, now) ==> req.amount > 0
  {
    var worth := req.collateral * price.xrpUsdE6 / 1_000_000;
    if worth > 0 {
      FloorAtLeast(req.amount * 10_000, worth, 5001);
    }
  }

  /**
    A quote is given if and only if the request is valid, the price recent, the loan-to-value ratio, rounded down to
    basis points, at most one half, and anything at all is on offer.
   */
  lemma QuoteSucceedsExactly(b: Book, req: QuoteRequest, now: Time, order: seq<Id>, hash: Hash)
    requires KeyedById(b.mandates) && Enumerates(order, b.mandates.Keys)
    ensures MakeQuote(b, req, now, order, hash).Ok? <==>
            RequestAdmitted(req, b.price, now) && Sum(b.mandates, MayDrawUnder(req)) > 0
  {
    hide Ranked, Fill, CheckLtv, ValidRequest, RequestAdmitted, Sum;
    RequestAdmittedExactly(req, b.price, now);
    var ts := Fill(Ranked(b.mandates, req, order, hash), req.amount);
    if RequestAdmitted(req, b.price, now) {
      FilledExactly(b, req, order, hash);
      FillBounds(Ranked(b.mandates, req, order, hash), req.amount);
      if SumPrincipal(ts) > 0 {
        TermsFit(b, req, order, hash, b.price.xrpUsdE6);
      }
    }
  }

  /** What the matcher funds: the request, or all that may be drawn. */
  lemma FilledExactly(b: Book, req: QuoteRequest, order: seq<Id>, hash: Hash)
    requires KeyedById(b.mandates) && Enumerates(order, b.mandates.Keys)
    ensures SumPrincipal(Fill(Ranked(b.mandates, req, order, hash), req.amount))
            == Min(req.amount, Sum(b.mandates, MayDrawUnder(req)))
  {
    hide Ranked, Fill, Sum, Offer, MayDraw;
    var rs := Ranked(b.mandates, req, order, hash);
    RankedExact(b.mandates, req, order, hash);
    FillBounds(rs, req.amount);
    LimitsAsSum(rs, req);
    forall id | id in b.mandates && !Eligible(b.mandates[id], req) ensures OfferFor(req)(b.mandates[id]) == 0 {
      OfferIsMayDraw(b.mandates[id], req);
      IneligibleOffersNothing(b.mandates[id], req);
    }
    RankedSum(b.mandates, req, order, hash, OfferFor(req));
    forall id | id in b.mandates ensures OfferFor(req)(b.mandates[id]) == MayDrawUnder(req)(b.mandates[id]) {
      OfferIsMayDraw(b.mandates[id], req);
    }
    SumCongruent(b.mandates, b.mandates, OfferFor(req), MayDrawUnder(req));
  }

  lemma IneligibleOffersNothing(m: Mandate, req: QuoteRequest)
    requires !Eligible(m, req)
    ensures Offer(m, req) == 0
  {
  }

  /** Once something is funded, average rate and collateral cannot overflow. */
  lemma TermsFit(b: Book, req: QuoteRequest, order: seq<Id>, hash: Hash, priceE6: u64)
    requires KeyedById(b.mandates) && Enumerates(order, b.mandates.Keys) && req.amount > 0
    requires
      var ts := Fill(Ranked(b.mandates, req, order, hash), req.amount);
      0 < SumPrincipal(ts) <= req.amount
    ensures
      var ts := Fill(Ranked(b.mandates, req, order, hash), req.amount);
      Matching.Terms(req, ts, SumPrincipal(ts), priceE6).Ok?
  {
    hide Ranked, Fill;
    var rs := Ranked(b.mandates, req, order, hash);
    var ts := Fill(rs, req.amount);
    RankedExact(b.mandates, req, order, hash);
    FillTranches(rs, req.amount);
    FillDistinct(rs, req.amount);
    assert TranchesFrom(b.mandates, req, ts);
    AverageAtMost(b.mandates, req, ts);
    CeilingFits(req.collateral, SumPrincipal(ts), req.amount);
  }

  lemma CeilingFits(collateral: u64, funded: nat, amount: u64)
    requires 0 < funded <= amount
    ensures Ratio(collateral * funded, amount, true).Ok?
  {
    var n := collateral * funded;
    assert n <= collateral * amount by {
      MulMono(funded, amount, collateral);
      assert collateral * funded == funded * collateral && collateral * amount == amount * collateral;
    }
    CeilingBounds(n, amount);
  }

  /**
    What a quote says: it copies the request, funds all it can, charges the floor of the average rate and 50 more, and
    asks for the least collateral that covers the funded part of the request's.
   */
  lemma QuoteSaysExactly(b: Book, req: QuoteRequest, now: Time, order: seq<Id>, hash: Hash, q: Quote)
    requires KeyedById(b.mandates) && Enumerates(order, b.mandates.Keys)
    requires MakeQuote(b, req, now, order, hash) == Ok(q)
    ensures q.requestId == req.id && q.borrower == req.borrower && q.termDays == req.termDays
    ensures q.maxApr == req.maxApr && q.expiresAt == req.expiresAt && q.priceE6 == b.price.xrpUsdE6
    ensures q.requestedAmount == req.amount && q.requestedCollateral == req.collateral
    ensures q.amount == SumPrincipal(q.tranches) == Min(req.amount, Sum(b.mandates, MayDrawUnder(req))) > 0
    ensures q.partialFill <==> q.amount < req.amount
    ensures q.lenderApr * q.amount <= YearlyCost(q.tranches) < (q.lenderApr + 1) * q.amount
    ensures q.borrowerApr == q.lenderApr + 50
    ensures q.collateral > 0
    ensures (q.collateral - 1) * req.amount < req.collateral * q.amount <= q.collateral * req.amount
  {
    hide Ranked, Fill, YearlyCost, Sum, Ratio;
    QuoteShape(b, req, now, order, hash, q);
    FilledExactly(b, req, order, hash);
    FillBounds(Ranked(b.mandates, req, order, hash), req.amount);
    FloorBounds(YearlyCost(q.tranches), q.amount);
    LeastCollateral(req.collateral, q.amount, req.amount, q.collateral);
  }

  lemma LeastCollateral(collateral: u64, funded: u64, amount: u64, quoted: u64)
    requires 0 < funded <= amount && collateral > 0 && Ratio(collateral * funded, amount, true) == Ok(quoted)
    ensures quoted > 0 && (quoted - 1) * amount < collateral * funded <= quoted * amount
  {
    QuotedCollateralBounds(collateral, funded, amount, quoted);
    FloorBounds(collateral * funded, amount);
  }

  /** The tranches of a quote are in order of rate, and at one rate in the order of the request's hash. */
  lemma QuoteOrder(b: Book, req: QuoteRequest, now: Time, order: seq<Id>, hash: Hash, q: Quote, i: nat, j: nat)
    requires KeyedById(b.mandates) && Enumerates(order, b.mandates.Keys)
    requires MakeQuote(b, req, now, order, hash) == Ok(q) && i < j < |q.tranches|
    ensures
      var x, y := q.tranches[i], q.tranches[j];
      x.apr < y.apr || (x.apr == y.apr && hash(x.mandateId + req.id) <= hash(y.mandateId + req.id))
  {
    hide Ranked, Fill;
    QuoteShape(b, req, now, order, hash, q);
    RankedExact(b.mandates, req, order, hash);
    FillInOrder(Ranked(b.mandates, req, order, hash), req.amount, hash, req.id, i, j);
  }

  /** Two tranches of mandates that the matcher ranks in this order. */
  predicate RanksBefore(x: Tranche, y: Tranche, hash: Hash, requestId: Id) {
    x.apr < y.apr || (x.apr == y.apr && hash(x.mandateId + requestId) <= hash(y.mandateId + requestId))
  }

  lemma {:induction false} FillInOrder(ms: seq<Mandate>, amount: u64, hash: Hash, requestId: Id, i: nat, j: nat)
    requires Sorted(ms, CheaperFor(hash, requestId)) && i < j < |Fill(ms, amount)|
    ensures RanksBefore(Fill(ms, amount)[i], Fill(ms, amount)[j], hash, requestId)
    decreases |ms|
  {
    hide CheaperFor, RanksBefore;
    var take: u64 := Min(Limit(ms[0]), amount);
    var rest := Fill(ms[1..], amount - take);
    if take == 0 {
      FillInOrder(ms[1..], amount, hash, requestId, i, j);
    } else if i > 0 {
      FillInOrder(ms[1..], amount - take, hash, requestId, i - 1, j - 1);
    } else {
      assert rest[j - 1] in rest;
      FirstRanksBefore(ms, amount - take, take, hash, requestId, rest[j - 1]);
    }
  }

  lemma FirstRanksBefore(ms: seq<Mandate>, amount: u64, take: u64, hash: Hash, requestId: Id, y: Tranche)
    requires ms != [] && Sorted(ms, CheaperFor(hash, requestId)) && y in Fill(ms[1..], amount)
    ensures RanksBefore(Tranche(ms[0].id, ms[0].lender, take, ms[0].minApr), y, hash, requestId)
  {
    hide Fill;
    FillTranches(ms[1..], amount);
    var m :| m in ms[1..] && y == Tranche(m.id, m.lender, y.principal, m.minApr);
    var k :| 0 <= k < |ms[1..]| && ms[1..][k] == m;
    assert !CheaperFor(hash, requestId)(ms[k + 1], ms[0]);
  }

  /** A quote at an observed price needs an observation of at most five minutes ago that is not from the future. */
  lemma QuoteAtPriceSucceedsExactly(
    b: Book, req: QuoteRequest, observed: Price, now: Time, order: seq<Id>, hash: Hash)
    requires KeyedById(b.mandates) && Enumerates(order, b.mandates.Keys)
    ensures QuoteAtPrice(b, req, observed, now, order, hash).Ok? <==>
            && RequestAdmitted(req, observed, now) && observed.updatedAt <= now
            && Sum(b.mandates, MayDrawUnder(req)) > 0
  {
    hide MakeQuote, Sum;
    QuoteSucceedsExactly(b.(price := observed), req, now, order, hash);
  }

  // ---- The loan that an acceptance writes -----------------------------------------------------------------

  /** The stored loan has the quote's terms, runs from now, has accrued nothing, and is assessed at the book's price. */
  lemma AcceptedLoanExactly(b: Book, q: Quote, loanId: Id, nonce: u64, now: Time, next: Book)
    requires Originate(b, q, loanId, nonce, now) == Ok(next)
    ensures loanId in next.loans && next.loans == b.loans[loanId := next.loans[loanId]]
    ensures
      var unassessed := Loan(loanId, q.borrower, q.amount, q.collateral, q.borrowerApr, q.termDays, now,
                             now + q.termDays * 86_400, now, 0, q.tranches, Healthy, 0, 0);
      Published(unassessed, next.loans[loanId], b.price.xrpUsdE6, now)
  {
    hide Allocate, UpdateRisk, Published;
    PublishesExactly(NewLoan(q, loanId, now), b.price.xrpUsdE6, now);
  }

  // ---- Acceptance of whatever the client sends ---------------------------------------------------------------

  /** The request that an acceptance quotes again; figures that older clients leave out are the quoted ones. */
  function Asked(q: Quote): QuoteRequest {
    QuoteRequest(q.requestId, q.borrower, if q.requestedAmount == 0 then q.amount else q.requestedAmount, q.termDays,
                 q.maxApr, if q.requestedCollateral == 0 then q.collateral else q.requestedCollateral, q.expiresAt)
  }

  /** The quote that the books give now agrees with the client's in everything but the price. */
  predicate AgreesWith(now: Quote, q: Quote) {
    now == Quote(q.requestId, q.borrower, q.amount, Asked(q).amount, q.termDays, q.collateral, Asked(q).collateral,
                 q.partialFill, q.lenderApr, q.borrowerApr, q.maxApr, q.tranches, q.expiresAt, now.priceE6)
  }

  /**
    A client's quote is accepted if and only if its request is new, the observed price, if any, recent, the books give
    the same terms now, and the borrower's account has the nonce, no loan and the collateral.
   */
  lemma AcceptanceSucceedsExactly(
    b: Book, q: Quote, loanId: Id, nonce: u64, observed: Option<Price>, now: Time, order: seq<Id>, hash: Hash)
    requires Sound(b) && Enumerates(order, b.mandates.Keys)
    ensures
      var price := if observed.Some? then observed.value else b.price;
      var a, r := AccountOf(b, q.borrower), MakeQuote(b.(price := price), Asked(q), now, order, hash);
      AcceptQuote(b, q, loanId, nonce, observed, now, order, hash).Ok? <==>
        && q.requestId !in b.processed
        && (observed.Some? ==> price.xrpUsdE6 > 0 && price.updatedAt <= now && now - price.updatedAt <= 300)
        && r.Ok? && AgreesWith(r.value, q)
        && a.nonce == nonce && a.loanId == "" && q.collateral <= a.fxrp.available
  {
    hide Structure, FreeUsdt0, TotalFxrp, MakeQuote, Originate, AccountReady, Sum;
    var price := if observed.Some? then observed.value else b.price;
    var priced := b.(price := price);
    var r := MakeQuote(priced, Asked(q), now, order, hash);
    if r.Ok? && AgreesWith(r.value, q) {
      LogKeeps(b, b.processed, b.activities, price);
      AgreedQuoteOriginates(priced, q, loanId, nonce, now, order, hash, r.value);
      ReadyIsLiteral(priced, q, nonce);
    }
  }

  lemma ReadyIsLiteral(b: Book, q: Quote, nonce: u64)
    ensures
      var a := AccountOf(b, q.borrower);
      AccountReady(b, q, nonce) <==> a.nonce == nonce && a.loanId == "" && q.collateral <= a.fxrp.available
  {
  }

  /** Once the terms agree, only the account decides. */
  lemma AgreedQuoteOriginates(
    b: Book, q: Quote, loanId: Id, nonce: u64, now: Time, order: seq<Id>, hash: Hash, again: Quote)
    requires Sound(b) && Enumerates(order, b.mandates.Keys)
    requires MakeQuote(b, Asked(q), now, order, hash) == Ok(again) && AgreesWith(again, q)
    ensures Originate(b, q, loanId, nonce, now).Ok? <==> AccountReady(b, q, nonce)
  {
    hide Structure, FreeUsdt0, TotalFxrp, MakeQuote, CheckLtv, Originate, AccountReady, TranchesFrom, Allocate, UpdateRisk;
    hide Sum;
    StructureIds(b);
    QuoteShape(b, Asked(q), now, order, hash, again);
    QuoteTermsSound(b, Asked(q), now, order, hash, again);
    QuotedTranchesAllocate(b, Asked(q), q);
    FirstAssessmentSucceeds(Asked(q).amount, Asked(q).collateral, b.price, now, NewLoan(q, loanId, now));
    OriginateSucceedsExactly(b, q, loanId, nonce, now);
  }
}
