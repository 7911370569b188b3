/**
  Opening a loan: allocating the tranches moves liquidity inside the mandates and
  nothing else, and acceptance keeps the books exactly when the loan id it is given
  is usable.
 */
module Lending {
  import opened Outcomes
  import opened Arithmetic
  import opened MapSums
  import opened Model
  import opened Ordering
  import opened Loans
  import opened Matching
  import opened Selection
  import opened QuoteFacts
  import opened Operations
  import opened Invariants
  import opened Conservation

  // ---- Allocating tranches ---------------------------------------------------------

  /** The totals that a change of mandates may move, seen as one relation. */
  ghost predicate SameMandates(before: map<Id, Mandate>, after: map<Id, Mandate>) {
    && before.Keys == after.Keys
    && (forall id :: id in before ==> SameTerms(before[id], after[id]))
  }

  /** After allocating `ts`: each mandate has lent its part of `ts`, taken from its available liquidity. */
  ghost predicate Allocated(before: map<Id, Mandate>, after: map<Id, Mandate>, ts: seq<Tranche>) {
    && SameMandates(before, after)
    && (forall id :: id in before ==>
          && after[id].available == before[id].available - DrawnFrom(ts, id)
          && after[id].lent == before[id].lent + DrawnFrom(ts, id)
          && after[id].active == before[id].active)
  }

  ghost predicate AllocatedSums(before: map<Id, Mandate>, after: map<Id, Mandate>, amount: int) {
    && Sum(after, MandateAvailable()) == Sum(before, MandateAvailable()) - amount
    && Sum(after, MandateLent()) == Sum(before, MandateLent()) + amount
    && (forall o :: Sum(after, StakeOf(o)) == Sum(before, StakeOf(o)))
  }

  lemma AllocateOne(ms: map<Id, Mandate>, t: Tranche, m: Mandate)
    requires KeyedById(ms) && t.mandateId in ms
    requires t.principal <= ms[t.mandateId].available
    requires m == ms[t.mandateId].(available := ms[t.mandateId].available - t.principal, lent := m.lent)
    requires m.lent == ms[t.mandateId].lent + t.principal
    ensures AllocatedSums(ms, ms[t.mandateId := m], t.principal)
  {
    forall o ensures Sum(ms[t.mandateId := m], StakeOf(o)) == Sum(ms, StakeOf(o)) {
      MandateSums(ms, m, o);
    }
    MandateSums(ms, m, "");
  }

  lemma {:induction false} AllocateEffect(ms: map<Id, Mandate>, ts: seq<Tranche>)
    requires KeyedById(ms)
    requires Sum(ms, MandateAvailable()) + Sum(ms, MandateLent()) <= MAX64
    requires Allocate(ms, ts).Ok?
    ensures
      var after := Allocate(ms, ts).value;
      Allocated(ms, after, ts) && AllocatedSums(ms, after, SumPrincipal(ts))
    decreases |ts|
  {
    hide Sum, AllocatedSums, Allocated;
    if ts == [] {
      AllocatedNothing(ms);
    } else {
      var t := ts[0];
      MandateBounded(ms, t.mandateId);
      var m := ms[t.mandateId];
      var m' := m.(available := WrapSub(m.available, t.principal), lent := WrapAdd(m.lent, t.principal));
      AllocateOne(ms, t, m');
      AllocatedRoom(ms, ms[t.mandateId := m'], t.principal);
      AllocateEffect(ms[t.mandateId := m'], ts[1..]);
      AllocatedStep(ms, m', Allocate(ms, ts).value, ts);
    }
  }

  lemma AllocatedNothing(ms: map<Id, Mandate>)
    ensures Allocated(ms, ms, []) && AllocatedSums(ms, ms, 0)
  {
  }

  lemma AllocatedRoom(ms: map<Id, Mandate>, ms': map<Id, Mandate>, amount: int)
    requires AllocatedSums(ms, ms', amount)
    ensures Sum(ms', MandateAvailable()) + Sum(ms', MandateLent()) == Sum(ms, MandateAvailable()) + Sum(ms, MandateLent())
  {
  }

  lemma AllocatedStep(ms: map<Id, Mandate>, m: Mandate, after: map<Id, Mandate>, ts: seq<Tranche>)
    requires ts != [] && ts[0].mandateId in ms
    requires
      var before := ms[ts[0].mandateId];
      && SameTerms(before, m) && m.active == before.active
      && m.available == before.available - ts[0].principal && m.lent == before.lent + ts[0].principal
    requires
      var mid := ms[ts[0].mandateId := m];
      && AllocatedSums(ms, mid, ts[0].principal)
      && Allocated(mid, after, ts[1..]) && AllocatedSums(mid, after, SumPrincipal(ts[1..]))
    ensures Allocated(ms, after, ts) && AllocatedSums(ms, after, SumPrincipal(ts))
  {
    hide Sum, AllocatedSums;
    AllocatedSumsAdd(ms, ms[ts[0].mandateId := m], after, ts[0].principal, SumPrincipal(ts[1..]));
  }

  lemma AllocatedSumsAdd(ms: map<Id, Mandate>, mid: map<Id, Mandate>, after: map<Id, Mandate>, first: int, rest: int)
    requires AllocatedSums(ms, mid, first) && AllocatedSums(mid, after, rest)
    ensures AllocatedSums(ms, after, first + rest)
  {
    hide Sum;
  }

  /** Allocation succeeds when every mandate has its part available. */
  lemma {:induction false} AllocateSucceeds(ms: map<Id, Mandate>, ts: seq<Tranche>)
    requires DistinctMandates(ts)
    requires forall t :: t in ts ==> t.mandateId in ms && t.principal <= ms[t.mandateId].available
    ensures Allocate(ms, ts).Ok?
    decreases |ts|
  {
    if ts != [] {
      var t := ts[0];
      assert t in ts;
      var m := ms[t.mandateId];
      var ms' := ms[t.mandateId := m.(available := WrapSub(m.available, t.principal), lent := WrapAdd(m.lent, t.principal))];
      forall u | u in ts[1..] ensures u.mandateId in ms' && u.principal <= ms'[u.mandateId].available {
        assert u in ts;
        var i :| 0 <= i < |ts[1..]| && ts[1..][i] == u;
        assert ts[0].mandateId != ts[i + 1].mandateId;
      }
      AllocateSucceeds(ms', ts[1..]);
    }
  }

  // ---- Terms of an accepted quote ------------------------------------------------------

  /** The terms that a recomputed quote guarantees for a loan. */
  ghost predicate TermsSound(mandates: map<Id, Mandate>, q: Quote) {
    && q.collateral > 0
    && q.amount == SumPrincipal(q.tranches) > 0
    && q.borrowerApr == AverageRate(q.tranches) + SPREAD
    && TranchesFrom(mandates, RequestOf(q), q.tranches)
  }

  lemma QuoteTermsSound(b: Book, req: QuoteRequest, now: Time, order: seq<Id>, hash: Hash, q: Quote)
    requires KeyedById(b.mandates) && Enumerates(order, b.mandates.Keys)
    requires MakeQuote(b, req, now, order, hash) == Ok(q)
    ensures q.collateral > 0
    ensures q.amount == SumPrincipal(q.tranches) > 0
    ensures q.amount <= req.amount
    ensures q.borrowerApr == AverageRate(q.tranches) + SPREAD
    ensures TranchesFrom(b.mandates, req, q.tranches)
  {
    QuoteShape(b, req, now, order, hash, q);
    QuoteTranches(b, req, now, order, hash, q);
    FillBounds(Ranked(b.mandates, req, order, hash), req.amount);
    QuotedCollateralBounds(req.collateral, q.amount, req.amount, q.collateral);
  }

  lemma StructureIds(b: Book)
    requires Structure(b)
    ensures KeyedById(b.mandates)
  {
    forall id | id in b.mandates ensures b.mandates[id].id == id {
      assert MandateSound(b, id);
    }
  }

  /** An accepted quote has the terms that the current books would quote, whatever the client sent. */
  lemma AcceptedTerms(
    b: Book, q: Quote, loanId: Id, nonce: u64, observed: Option<Price>, now: Time, order: seq<Id>, hash: Hash, next: Book)
    requires KeyedById(b.mandates) && Enumerates(order, b.mandates.Keys)
    requires AcceptQuote(b, q, loanId, nonce, observed, now, order, hash) == Ok(next)
    ensures TermsSound(b.mandates, q)
    ensures
      var priced := ObservePrice(b, observed, now).value;
      priced == b.(price := priced.price) && Originate(priced, q, loanId, nonce, now) == Ok(next)
  {
    var priced := ObservePrice(b, observed, now).value;
    var recomputed := MakeQuote(priced, RequestOf(q), now, order, hash).value;
    QuoteTermsSound(priced, RequestOf(q), now, order, hash, recomputed);
  }

  // ---- The new loan keeps the books ------------------------------------------------------

  /** An id under which a loan can be stored: not empty, and not the key of an open loan. */
  predicate LoanIdUsable(b: Book, loanId: Id) {
    loanId != "" && (loanId in b.loans ==> !b.loans[loanId].Open())
  }

  /** What acceptance changes, field by field and without wrapping. */
  ghost predicate Originated(b: Book, q: Quote, loanId: Id, next: Book) {
    var a := AccountOf(b, q.borrower);
    && a.loanId == ""
    && q.borrower in next.accounts && loanId in next.loans
    && var a', l := next.accounts[q.borrower], next.loans[loanId];
       && next.accounts == b.accounts[q.borrower := a']
       && a'.usdt0 == a.usdt0 && a'.loanId == loanId
       && a'.fxrp.available == a.fxrp.available - q.collateral
       && a'.fxrp.reserved == a.fxrp.reserved + q.collateral
       && Allocated(b.mandates, next.mandates, q.tranches)
       && AllocatedSums(b.mandates, next.mandates, q.amount)
       && next.loans == b.loans[loanId := l]
       && l.Open() && l.id == loanId && l.borrower == q.borrower && l.principal == q.amount
       && l.collateral == q.collateral && l.borrowerApr == q.borrowerApr && l.tranches == q.tranches
       && next.activeDebt == b.activeDebt + q.amount
       && next.protocolReserve == b.protocolReserve
       && next.backstopUsdt0 == b.backstopUsdt0 && next.backstopFxrp == b.backstopFxrp
  }

  /** Nothing can wrap: the mandate totals and the borrower's FXRP are in range. */
  ghost predicate OriginateRoom(b: Book, borrower: Owner) {
    && KeyedById(b.mandates)
    && Sum(b.mandates, MandateAvailable()) + Sum(b.mandates, MandateLent()) <= MAX64
    && AccountOf(b, borrower).fxrp.available + AccountOf(b, borrower).fxrp.reserved <= MAX64
  }

  lemma SoundHasRoom(b: Book, borrower: Owner)
    requires Sound(b)
    ensures OriginateRoom(b, borrower)
  {
    StructureIds(b);
    FreeNonNegative(b);
    if borrower in b.accounts { FxrpBounded(b, borrower); }
  }

  lemma OriginateEffect(b: Book, q: Quote, loanId: Id, nonce: u64, now: Time, next: Book)
    requires OriginateRoom(b, q.borrower) && q.amount == SumPrincipal(q.tranches)
    requires Originate(b, q, loanId, nonce, now) == Ok(next)
    ensures Originated(b, q, loanId, next)
  {
    hide Sum, SumPrincipal, DrawnFrom, Allocated, AllocatedSums, UpdateRisk;
    AllocateEffect(b.mandates, q.tranches);
    UpdateRiskFrame(NewLoan(q, loanId, now), b.price.xrpUsdE6, now);
  }

  lemma NewLoanOwed(b: Book, q: Quote, loanId: Id, next: Book, id: Id)
    requires LoanIdUsable(b, loanId) && Originated(b, q, loanId, next)
    ensures Sum(next.loans, OwedTo(id)) == Sum(b.loans, OwedTo(id)) + DrawnFrom(q.tranches, id)
    ensures Sum(next.loans, OpenPrincipal()) == Sum(b.loans, OpenPrincipal()) + q.amount
  {
    SumUpdate(b.loans, loanId, next.loans[loanId], OwedTo(id));
    SumUpdate(b.loans, loanId, next.loans[loanId], OpenPrincipal());
  }

  lemma OriginatedBacked(b: Book, q: Quote, loanId: Id, next: Book)
    requires Structure(b) && LoanIdUsable(b, loanId) && Originated(b, q, loanId, next)
    ensures ReservedBacked(next.accounts, next.mandates)
    ensures LentBacked(next.mandates, next.loans)
    ensures next.activeDebt == Sum(next.loans, OpenPrincipal()) == Sum(next.mandates, MandateLent())
  {
    hide Sum, OpenLoanLinked, AccountLinked, MandateSound;
    AccountReserved(b, q.borrower);
    NewLoanOwed(b, q, loanId, next, "");
    forall id | id in next.mandates ensures next.mandates[id].lent == Sum(next.loans, OwedTo(id)) {
      NewLoanOwed(b, q, loanId, next, id);
    }
  }

  lemma OriginatedLoanLinks(b: Book, q: Quote, loanId: Id, next: Book, key: Id)
    requires Structure(b) && TermsSound(b.mandates, q) && LoanIdUsable(b, loanId) && Originated(b, q, loanId, next)
    requires key in next.loans
    ensures OpenLoanLinked(next, key)
  {
    hide Sum, AllocatedSums, AverageRate, SumPrincipal, DrawnFrom, ReservedBacked, LentBacked;
    if key == loanId {
      forall t | t in q.tranches ensures TrancheSound(next.mandates, t) {
        assert MandateSound(b, t.mandateId);
      }
    } else {
      assert OpenLoanLinked(b, key);
      LoanSoundUnderNewTerms(b.mandates, next.mandates, b.loans[key]);
    }
  }

  lemma OriginatedAccountLinks(b: Book, q: Quote, loanId: Id, next: Book, o: Owner)
    requires Structure(b) && LoanIdUsable(b, loanId) && Originated(b, q, loanId, next)
    requires o in next.accounts
    ensures AccountLinked(next, o)
  {
    hide Sum, Allocated, AllocatedSums, ReservedBacked, LentBacked, OpenLoanLinked, MandateSound;
    AccountReserved(b, q.borrower);
    if o != q.borrower {
      assert AccountLinked(b, o);
    }
  }

  lemma OriginatedLinks(b: Book, q: Quote, loanId: Id, next: Book)
    requires Structure(b) && TermsSound(b.mandates, q) && LoanIdUsable(b, loanId) && Originated(b, q, loanId, next)
    ensures forall id :: id in next.mandates ==> MandateSound(next, id)
    ensures forall key :: key in next.loans ==> OpenLoanLinked(next, key)
    ensures forall o :: o in next.accounts ==> AccountLinked(next, o)
  {
    hide Sum, AllocatedSums, DrawnFrom, ReservedBacked, LentBacked, OpenLoanLinked, AccountLinked, TermsSound;
    forall id | id in next.mandates ensures MandateSound(next, id) {
      assert MandateSound(b, id);
    }
    forall key | key in next.loans ensures OpenLoanLinked(next, key) {
      OriginatedLoanLinks(b, q, loanId, next, key);
    }
    forall o | o in next.accounts ensures AccountLinked(next, o) {
      OriginatedAccountLinks(b, q, loanId, next, o);
    }
  }

  /** With a usable loan id, acceptance keeps the books; exactly the loan amount leaves the free funds. */
  lemma OriginatedKeeps(b: Book, q: Quote, loanId: Id, next: Book)
    requires Sound(b) && TermsSound(b.mandates, q) && LoanIdUsable(b, loanId) && Originated(b, q, loanId, next)
    ensures Sound(next)
    ensures Moves(b, next, -(q.amount as int), 0) && ClaimsUsdt0(next) == ClaimsUsdt0(b)
  {
    hide Sum, OpenLoanLinked, AccountLinked, MandateSound, ReservedBacked, LentBacked, TermsSound, Allocated;
    OriginatedBacked(b, q, loanId, next);
    OriginatedLinks(b, q, loanId, next);
    AccountSums(b, q.borrower, next.accounts[q.borrower]);
  }

  /** With any other id, acceptance breaks them. */
  lemma UnusableLoanIdBreaks(b: Book, q: Quote, loanId: Id, next: Book)
    requires Structure(b) && !LoanIdUsable(b, loanId) && Originated(b, q, loanId, next)
    ensures !Structure(next)
  {
    hide Sum, Allocated, AllocatedSums, ReservedBacked, LentBacked, MandateSound;
    if loanId != "" {
      assert OpenLoanLinked(b, loanId);
      var victim := b.loans[loanId].borrower;
      assert victim != q.borrower && next.accounts[victim].loanId == loanId;
      assert !AccountLinked(next, victim);
    }
  }

  lemma TermsAmount(mandates: map<Id, Mandate>, q: Quote)
    requires TermsSound(mandates, q)
    ensures q.amount == SumPrincipal(q.tranches)
  {
  }

  lemma OriginatedDebt(b: Book, q: Quote, loanId: Id, next: Book)
    requires Originated(b, q, loanId, next)
    ensures next.activeDebt == b.activeDebt + q.amount
  {
  }

  /**
    Acceptance does not look at the keys of existing loans. It keeps the books if and
    only if the caller's loan id is non-empty and names no open loan.
   */
  lemma AcceptKeepsBooksExactlyForUsableIds(
    b: Book, q: Quote, loanId: Id, nonce: u64, observed: Option<Price>, now: Time, order: seq<Id>, hash: Hash, next: Book)
    requires Sound(b) && Enumerates(order, b.mandates.Keys)
    requires AcceptQuote(b, q, loanId, nonce, observed, now, order, hash) == Ok(next)
    ensures Sound(next) <==> LoanIdUsable(b, loanId)
    ensures LoanIdUsable(b, loanId) ==>
      && Moves(b, next, -(q.amount as int), 0)
      && ClaimsUsdt0(next) == ClaimsUsdt0(b)
      && next.activeDebt == b.activeDebt + q.amount
  {
    hide Structure, Sum, Originate, MakeQuote, Originated, TermsSound;
    StructureIds(b);
    AcceptedTerms(b, q, loanId, nonce, observed, now, order, hash, next);
    var priced := ObservePrice(b, observed, now).value;
    LogKeeps(b, b.processed, b.activities, priced.price);
    SoundHasRoom(priced, q.borrower);
    TermsAmount(b.mandates, q);
    OriginateEffect(priced, q, loanId, nonce, now, next);
    OriginatedDebt(priced, q, loanId, next);
    if LoanIdUsable(b, loanId) {
      OriginatedKeeps(priced, q, loanId, next);
    } else {
      UnusableLoanIdBreaks(priced, q, loanId, next);
    }
  }
}
