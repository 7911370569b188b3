/**
  What a risk tick comes to: exactly when it succeeds, what it leaves behind, and how far the
  enumeration order of the loans matters.
 */
module TickOutcomes {
  import opened Outcomes
  import opened Arithmetic
  import opened MapSums
  import opened Model
  import opened Ordering
  import opened Loans
  import opened Matching
  import opened Operations
  import opened Invariants
  import opened Conservation
  import opened Interest
  import opened Repayment
  import opened Closing
  import opened Liquidation
  import opened RiskTicks
  import opened Lenders

  // ---- Assessed loans ------------------------------------------------------------------------------

  /** What a tick makes of one loan before it looks at the backstop. */
  function Assess(l: Loan, price: u64, now: Time): Result<Loan> {
    if !l.Open() then Ok(l)
    else
      var accrued :- Accrue(l, now);
      UpdateRisk(accrued, price, now)
  }

  predicate AllAssessable(b: Book, now: Time) {
    forall k :: k in b.loans ==> Assess(b.loans[k], b.price.xrpUsdE6, now).Ok?
  }

  function Assessments(b: Book, now: Time): map<Id, Loan>
    requires AllAssessable(b, now)
  {
    map k | k in b.loans :: Assess(b.loans[k], b.price.xrpUsdE6, now).value
  }

  function InterestOf(l: Loan): nat {
    l.accruedRay / SCALE
  }

  function Due(l: Loan): nat {
    l.principal + InterestOf(l)
  }

  predicate Seizable(l: Loan, price: u64) {
    Debt(l).Ok? && SeizeAmount(l, Debt(l).value, price).Ok?
  }

  function Seized(l: Loan, price: u64): nat {
    if Seizable(l, price) then SeizeAmount(l, Debt(l).value, price).value else 0
  }

  /** The loan is liquidated when its turn comes with so much in the backstop. */
  predicate InTurn(a: map<Id, Loan>, key: Id, backstop: nat) {
    key in a && a[key].status == Liquidatable && Due(a[key]) <= backstop
  }

  /** The loans that a tick liquidates when it goes through `order` with so much in the backstop. */
  function Chosen(a: map<Id, Loan>, order: seq<Id>, backstop: nat): map<Id, Loan>
    decreases |order|
  {
    if order == [] then map[]
    else
      var key := order[0];
      if InTurn(a, key, backstop) then
        Chosen(a, order[1..], backstop - Due(a[key]))[key := a[key]]
      else Chosen(a, order[1..], backstop)
  }

  // ---- What each liquidated loan contributes -----------------------------------------------------------

  function Owes(): Loan -> int {
    (l: Loan) => Due(l)
  }

  function Principal(): Loan -> int {
    (l: Loan) => l.principal
  }

  function SeizedAt(price: u64): Loan -> int {
    (l: Loan) => Seized(l, price)
  }

  function Freed(o: Owner, price: u64): Loan -> int {
    (l: Loan) => if l.borrower == o then l.collateral - Seized(l, price) else 0
  }

  function Gain(o: Owner): Loan -> int {
    (l: Loan) => EarnedBy(l, InterestOf(l), l.tranches, o)
  }

  function Part(id: Id): Loan -> int {
    (l: Loan) => DrawnFrom(l.tranches, id)
  }

  function PartEarned(id: Id): Loan -> int {
    (l: Loan) => EarnedFrom(l, InterestOf(l), l.tranches, id)
  }

  function Spread(): Loan -> int {
    (l: Loan) => InterestOf(l) - TotalEarned(l, InterestOf(l), l.tranches)
  }

  /** One account, once the loans `done` are liquidated. */
  ghost predicate AccountSettled(b: Book, next: Book, done: map<Id, Loan>, o: Owner) {
    var a, a' := AccountOf(b, o), AccountOf(next, o);
    && HoldingsOf(next, o) == HoldingsOf(b, o) + Sum(done, Gain(o))
    && a'.nonce == a.nonce
    && a'.fxrp.available == a.fxrp.available + Sum(done, Freed(o, b.price.xrpUsdE6))
    && a'.fxrp.reserved == (if a.loanId in done then 0 else a.fxrp.reserved)
    && a'.loanId == (if a.loanId in done then "" else a.loanId)
  }

  ghost predicate MandateSettled(b: Book, next: Book, done: map<Id, Loan>, id: Id)
    requires id in b.mandates && id in next.mandates
  {
    var m, m' := b.mandates[id], next.mandates[id];
    && m' == m.(available := m'.available, lent := m'.lent, interestEarned := m'.interestEarned)
    && m'.available == m.available + (if m.active then Sum(done, Part(id)) else 0)
    && m'.lent == m.lent - Sum(done, Part(id))
    && m'.interestEarned == m.interestEarned + Sum(done, PartEarned(id))
  }

  ghost predicate PoolsSettled(b: Book, next: Book, done: map<Id, Loan>) {
    && next.protocolReserve == b.protocolReserve + Sum(done, Spread())
    && next.backstopUsdt0 == b.backstopUsdt0 - Sum(done, Owes())
    && next.backstopFxrp == b.backstopFxrp + Sum(done, SeizedAt(b.price.xrpUsdE6))
    && next.activeDebt == b.activeDebt - Sum(done, Principal())
    && next.price == b.price && next.activities == b.activities && next.processed == b.processed
  }

  /** Everything but the loans, once the loans `done` are liquidated: sums, in which no order appears. */
  ghost predicate Settled(b: Book, next: Book, done: map<Id, Loan>) {
    && next.accounts.Keys == b.accounts.Keys && next.mandates.Keys == b.mandates.Keys
    && (forall o :: AccountSettled(b, next, done, o))
    && (forall id :: id in b.mandates ==> MandateSettled(b, next, done, id))
    && PoolsSettled(b, next, done)
  }

  lemma SumOfNone(weight: Loan -> int)
    ensures Sum<Id, Loan>(map[], weight) == 0
  {
  }

  lemma NothingSettled(b: Book)
    ensures Settled(b, b, map[])
  {
    hide Sum;
    forall weight: Loan -> int ensures Sum<Id, Loan>(map[], weight) == 0 {
      SumOfNone(weight);
    }
  }

  lemma DueIsDebt(l: Loan)
    ensures Debt(l).Ok? <==> Due(l) <= MAX64
    ensures Debt(l).Ok? ==> Debt(l).value == Due(l) && Debt(l).value - l.principal == InterestOf(l)
  {
  }

  // ---- One more liquidation ------------------------------------------------------------------------------

  /** The account that names the loan is its borrower's. */
  lemma OnlyTheBorrowerNamesIt(mid: Book, key: Id, l: Loan, o: Owner)
    requires Sound(mid) && IsOpenLoan(mid, key, l)
    ensures key != "" && (AccountOf(mid, o).loanId == key <==> o == l.borrower)
  {
    OpenLoanFacts(mid, key, l);
    if o in mid.accounts {
      assert AccountLinked(mid, o);
    }
  }

  lemma AccountStep(b: Book, mid: Book, next: Book, done: map<Id, Loan>, key: Id, l: Loan, o: Owner)
    requires Sound(mid) && IsOpenLoan(mid, key, l) && key !in done && mid.price == b.price
    requires AccountSettled(b, mid, done, o)
    requires Debt(l).Ok? && Seizable(l, mid.price.xrpUsdE6)
    requires LiquidatedExactly(mid, next, key, l, Debt(l).value, Seized(l, mid.price.xrpUsdE6))
    requires EveryoneSettled(mid, next, l, Debt(l).value, None) && NothingElseChanges(mid, next, l.borrower)
    requires AccountOf(next, l.borrower).nonce == AccountOf(mid, l.borrower).nonce
    ensures AccountSettled(b, next, done[key := l], o)
  {
    hide Sum, Sound, Structure, MandatesRestored, EarnedBy, TotalEarned, SeizeAmount, IsOpenLoan, Moves;
    DueIsDebt(l);
    OnlyTheBorrowerNamesIt(mid, key, l, o);
    SumUpdate(done, key, l, Gain(o));
    SumUpdate(done, key, l, Freed(o, b.price.xrpUsdE6));
    assert HoldingsOf(next, o) == HoldingsOf(mid, o) + EarnedBy(l, InterestOf(l), l.tranches, o);
  }

  lemma MandateStep(b: Book, mid: Book, next: Book, done: map<Id, Loan>, key: Id, l: Loan, id: Id)
    requires id in b.mandates && id in mid.mandates && id in next.mandates && key !in done
    requires MandateSettled(b, mid, done, id) && MandatesRestored(mid, next, l, InterestOf(l), l.tranches)
    ensures MandateSettled(b, next, done[key := l], id)
  {
    hide Sum, EarnedFrom, DrawnFrom;
    SumUpdate(done, key, l, Part(id));
    SumUpdate(done, key, l, PartEarned(id));
  }

  lemma SettledStep(b: Book, mid: Book, done: map<Id, Loan>, key: Id, l: Loan)
    requires Sound(mid) && IsOpenLoan(mid, key, l) && key !in done
    requires Settled(b, mid, done) && LiquidateInState(mid, key, l).Ok?
    ensures
      var next := LiquidateInState(mid, key, l).value;
      && Sound(next) && Settled(b, next, done[key := l])
      && next.loans == mid.loans[key := l.(status := Liquidated)]
      && Seizable(l, b.price.xrpUsdE6)
  {
    hide Sum, Sound, Structure, EarnedBy, TotalEarned, SeizeAmount, IsOpenLoan, Moves, AccountSettled, MandateSettled;
    hide HoldingsOf, DistributeRepayment, EarnedFrom, DrawnFrom;
    var next := LiquidateInState(mid, key, l).value;
    LiquidationChangesExactly(mid, key, l);
    DueIsDebt(l);
    hide LiquidateInState;
    var done' := done[key := l];
    forall o ensures AccountSettled(b, next, done', o) {
      AccountStep(b, mid, next, done, key, l, o);
    }
    forall id | id in b.mandates ensures MandateSettled(b, next, done', id) {
      MandateStep(b, mid, next, done, key, l, id);
    }
    PoolStep(b, mid, next, done, key, l);
  }

  lemma PoolStep(b: Book, mid: Book, next: Book, done: map<Id, Loan>, key: Id, l: Loan)
    requires key !in done && PoolsSettled(b, mid, done) && Seizable(l, mid.price.xrpUsdE6)
    requires LiquidatedExactly(mid, next, key, l, Due(l), Seized(l, mid.price.xrpUsdE6))
    requires EveryoneSettled(mid, next, l, Due(l), None) && NothingElseChanges(mid, next, l.borrower)
    requires next.processed == mid.processed
    ensures PoolsSettled(b, next, done[key := l])
  {
    hide Sum, Sound, MandatesRestored, EarnedBy, TotalEarned, SeizeAmount, Moves, HoldingsOf;
    SumUpdate(done, key, l, Owes());
    SumUpdate(done, key, l, Principal());
    SumUpdate(done, key, l, Spread());
    SumUpdate(done, key, l, SeizedAt(b.price.xrpUsdE6));
  }

  // ---- Counters --------------------------------------------------------------------------------------------

  lemma {:induction false} EarnedFromAbsent(l: Loan, interest: nat, ts: seq<Tranche>, id: Id)
    requires forall t :: t in ts ==> t.mandateId != id
    ensures EarnedFrom(l, interest, ts, id) == 0
  {
    if ts != [] {
      assert ts[0] in ts;
      EarnedFromAbsent(l, interest, ts[1..], id);
    }
  }

  lemma {:induction false} EarnedFromTranche(l: Loan, interest: nat, ts: seq<Tranche>, i: nat)
    requires i < |ts| && DistinctMandates(ts)
    ensures EarnedFrom(l, interest, ts, ts[i].mandateId) == Earned(l, interest, ts[i])
  {
    hide Earned;
    if i == 0 {
      EarnedFromAbsent(l, interest, ts[1..], ts[0].mandateId);
    } else {
      EarnedFromTranche(l, interest, ts[1..], i - 1);
    }
  }

  /** No lifetime interest counter overflows when the loans `done` are liquidated. */
  ghost predicate CountersHold(b: Book, done: map<Id, Loan>) {
    forall id :: id in b.mandates ==> b.mandates[id].interestEarned + Sum(done, PartEarned(id)) <= MAX64
  }

  /** The next loan's interest fits the counters as they are exactly if the counters hold with it included. */
  lemma CountersStepExactly(b: Book, mid: Book, done: map<Id, Loan>, key: Id, l: Loan)
    requires Sound(mid) && IsOpenLoan(mid, key, l) && key !in done && Settled(b, mid, done)
    ensures CountersFit(mid.mandates, l, InterestOf(l), l.tranches) <==> CountersHold(b, done[key := l])
  {
    hide Sum, Earned, AccountSettled, PoolsSettled, Sound, IsOpenLoan;
    OpenLoanTranches(mid, key, l);
    forall id | id in b.mandates
      ensures b.mandates[id].interestEarned + Sum(done[key := l], PartEarned(id))
              == mid.mandates[id].interestEarned + EarnedFrom(l, InterestOf(l), l.tranches, id)
    {
      assert MandateSettled(b, mid, done, id);
      SumUpdate(done, key, l, PartEarned(id));
    }
    forall i | 0 <= i < |l.tranches|
      ensures EarnedFrom(l, InterestOf(l), l.tranches, l.tranches[i].mandateId) == Earned(l, InterestOf(l), l.tranches[i])
    {
      EarnedFromTranche(l, InterestOf(l), l.tranches, i);
    }
    forall id | id in b.mandates && forall t :: t in l.tranches ==> t.mandateId != id
      ensures EarnedFrom(l, InterestOf(l), l.tranches, id) == 0
    {
      EarnedFromAbsent(l, InterestOf(l), l.tranches, id);
    }
  }

  lemma OpenLoanTranches(b: Book, key: Id, l: Loan)
    requires Sound(b) && IsOpenLoan(b, key, l)
    ensures DistinctMandates(l.tranches)
    ensures forall t :: t in l.tranches ==> t.mandateId in b.mandates
  {
    assert OpenLoanLinked(b, key);
    forall t | t in l.tranches ensures t.mandateId in b.mandates {
      assert TrancheSound(b.mandates, t);
    }
  }

  lemma {:induction false} SumWithin<K(!new), V(!new)>(m: map<K, V>, n: map<K, V>, weight: V -> int)
    requires forall k :: k in m ==> k in n && n[k] == m[k]
    requires forall k :: k in n ==> weight(n[k]) >= 0
    ensures Sum(m, weight) <= Sum(n, weight)
    decreases |m|
  {
    if m == map[] {
      SumNonNegative(n, weight);
    } else {
      var k :| k in m;
      SumRemove(m, k, weight);
      SumRemove(n, k, weight);
      SumWithin(m - {k}, n - {k}, weight);
    }
  }

  lemma CountersHoldWithin(b: Book, done: map<Id, Loan>, more: map<Id, Loan>)
    requires forall k :: k in done ==> k in more && more[k] == done[k]
    ensures CountersHold(b, more) ==> CountersHold(b, done)
  {
    hide Sum, EarnedFrom;
    forall id | id in b.mandates ensures Sum(done, PartEarned(id)) <= Sum(more, PartEarned(id)) {
      SumWithin(done, more, PartEarned(id));
    }
  }

  // ---- The loop ----------------------------------------------------------------------------------------------

  ghost predicate Assesses(b: Book, a: map<Id, Loan>, now: Time) {
    a.Keys == b.loans.Keys && forall k :: k in b.loans ==> Assess(b.loans[k], b.price.xrpUsdE6, now) == Ok(a[k])
  }

  /** A loan during the tick: still to come, liquidated, or assessed. */
  function Stage(b: Book, a: map<Id, Loan>, rest: seq<Id>, done: map<Id, Loan>, k: Id): Loan
    requires k in b.loans && k in a
  {
    if k in rest then b.loans[k] else if k in done then a[k].(status := Liquidated) else a[k]
  }

  /** The tick has gone through all loans but `rest` and has liquidated `done`. */
  ghost predicate Underway(b: Book, mid: Book, a: map<Id, Loan>, rest: seq<Id>, done: map<Id, Loan>) {
    && Sound(mid) && Settled(b, mid, done)
    && mid.loans.Keys == b.loans.Keys == a.Keys
    && (forall k :: k in done ==> k in a && a[k] == done[k] && k !in rest && Seizable(a[k], b.price.xrpUsdE6))
    && (forall k :: k in b.loans ==> mid.loans[k] == Stage(b, a, rest, done, k))
  }

  lemma AssessedIsOpenLoan(mid: Book, key: Id, l: Loan, price: u64, now: Time)
    requires key in mid.loans && mid.loans[key].Open() && Assess(mid.loans[key], price, now) == Ok(l)
    ensures IsOpenLoan(mid, key, l) && Debt(l).Ok?
  {
    var accrued := Accrue(mid.loans[key], now).value;
    AccrueFrame(mid.loans[key], now);
    UpdateRiskFrame(accrued, price, now);
    assert Debt(accrued).Ok?;
  }

  /** Storing an assessed loan keeps everything else. */
  lemma UpdatedUnderway(b: Book, mid: Book, a: map<Id, Loan>, key: Id, now: Time, done: map<Id, Loan>)
    requires Sound(mid) && Settled(b, mid, done) && key in mid.loans && mid.loans[key].Open() && key in a
    requires Assess(mid.loans[key], b.price.xrpUsdE6, now) == Ok(a[key])
    ensures
      var next := mid.(loans := mid.loans[key := a[key]]);
      && Sound(next) && Settled(b, next, done) && IsOpenLoan(next, key, a[key]) && next.price == b.price
    ensures Debt(a[key]).Ok? && Debt(a[key]).value == Due(a[key]) && a[key].Open()
  {
    hide Structure, FreeUsdt0, TotalFxrp, Accrue, UpdateRisk, Sum, Assess;
    var next := mid.(loans := mid.loans[key := a[key]]);
    AssessedIsOpenLoan(mid, key, a[key], b.price.xrpUsdE6, now);
    LoanUpdateKeeps(mid, key, a[key]);
    DueIsDebt(a[key]);
    SettledIgnoresLoans(b, mid, next, done);
  }

  lemma SettledIgnoresLoans(b: Book, mid: Book, next: Book, done: map<Id, Loan>)
    requires Settled(b, mid, done) && next == mid.(loans := next.loans)
    ensures Settled(b, next, done)
  {
    hide Sum;
    forall o ensures AccountSettled(b, next, done, o) {
      assert AccountSettled(b, mid, done, o);
    }
    forall id | id in b.mandates ensures MandateSettled(b, next, done, id) {
      assert MandateSettled(b, mid, done, id);
    }
  }

  lemma TickLoanUnfolds(mid: Book, key: Id, l: Loan, now: Time)
    requires key in mid.loans && mid.loans[key].Open() && Assess(mid.loans[key], mid.price.xrpUsdE6, now) == Ok(l)
    requires Debt(l).Ok? && Debt(l).value == Due(l)
    ensures
      var updated := mid.(loans := mid.loans[key := l]);
      TickLoan(mid, key, now)
      == if l.status == Liquidatable && Due(l) <= mid.backstopUsdt0 then LiquidateInState(updated, key, l) else Ok(updated)
  {
    hide Accrue, UpdateRisk, LiquidateInState, Debt, Due;
  }

  /** The first loan in line is `loans[key]`; once it is written, the next stage is reached. */
  lemma StageStep(b: Book, mid: Book, a: map<Id, Loan>, rest: seq<Id>, done: map<Id, Loan>, next: Book, done': map<Id, Loan>)
    requires rest != [] && NoDuplicates(rest) && Underway(b, mid, a, rest, done)
    requires rest[0] in b.loans ==> next.loans == mid.loans[rest[0] := Stage(b, a, rest[1..], done', rest[0])]
    requires rest[0] !in b.loans ==> next.loans == mid.loans
    requires done' == done || (rest[0] in a && done' == done[rest[0] := a[rest[0]]] && Seizable(a[rest[0]], b.price.xrpUsdE6))
    requires Sound(next) && Settled(b, next, done')
    ensures Underway(b, next, a, rest[1..], done')
  {
    hide Settled, Sound, Seizable;
    assert forall k :: k in rest <==> k == rest[0] || k in rest[1..];
  }

  /** A loan that is not liquidated: closed, not liquidatable, or beyond the backstop. */
  lemma AssessStep(b: Book, mid: Book, a: map<Id, Loan>, rest: seq<Id>, now: Time, done: map<Id, Loan>)
    requires rest != [] && NoDuplicates(rest) && Assesses(b, a, now) && Underway(b, mid, a, rest, done)
    requires !InTurn(a, rest[0], mid.backstopUsdt0)
    ensures
      var r := TickLoan(mid, rest[0], now);
      r.Ok? && Underway(b, r.value, a, rest[1..], done) && r.value.backstopUsdt0 == mid.backstopUsdt0
  {
    hide Sum, Sound, Assess, Accrue, UpdateRisk, LiquidateInState, Debt, Due, IsOpenLoan, Seizable, Chosen, TickLoan;
    hide AccountSettled, MandateSettled;
    var key := rest[0];
    if key in mid.loans && mid.loans[key].Open() {
      UpdatedUnderway(b, mid, a, key, now, done);
      TickLoanUnfolds(mid, key, a[key], now);
      StageStep(b, mid, a, rest, done, TickLoan(mid, key, now).value, done);
    } else {
      ClosedIsSkipped(b, mid, a, rest, now, done);
      StageStep(b, mid, a, rest, done, mid, done);
    }
  }

  lemma ClosedIsSkipped(b: Book, mid: Book, a: map<Id, Loan>, rest: seq<Id>, now: Time, done: map<Id, Loan>)
    requires rest != [] && NoDuplicates(rest) && Assesses(b, a, now) && Underway(b, mid, a, rest, done)
    requires rest[0] !in mid.loans || !mid.loans[rest[0]].Open()
    ensures TickLoan(mid, rest[0], now) == Ok(mid)
    ensures rest[0] in b.loans ==> mid.loans == mid.loans[rest[0] := Stage(b, a, rest[1..], done, rest[0])]
  {
    hide Settled, Sound, Seizable, Accrue, UpdateRisk;
  }

  /** The first loan in line, if it is in turn, is open and stored as it was. */
  lemma InTurnIsOpen(b: Book, mid: Book, a: map<Id, Loan>, rest: seq<Id>, now: Time, done: map<Id, Loan>)
    requires rest != [] && Assesses(b, a, now) && Underway(b, mid, a, rest, done) && InTurn(a, rest[0], mid.backstopUsdt0)
    ensures
      var key := rest[0];
      && key in mid.loans && key in b.loans && mid.loans[key].Open() && mid.price == b.price && key !in done
      && Assess(mid.loans[key], b.price.xrpUsdE6, now) == Ok(a[key])
      && a[key].status == Liquidatable && Due(a[key]) <= mid.backstopUsdt0
      && Sound(mid) && Settled(b, mid, done)
  {
    hide Sound, Accrue, UpdateRisk, Due, Seizable, AccountSettled, MandateSettled, Sum;
  }

  lemma LiquidateStep(b: Book, mid: Book, a: map<Id, Loan>, rest: seq<Id>, now: Time, done: map<Id, Loan>)
    requires rest != [] && NoDuplicates(rest) && Assesses(b, a, now) && Underway(b, mid, a, rest, done)
    requires InTurn(a, rest[0], mid.backstopUsdt0)
    ensures
      var l := a[rest[0]];
      var r := TickLoan(mid, rest[0], now);
      && (r.Ok? <==> Seizable(l, b.price.xrpUsdE6) && CountersHold(b, done[rest[0] := l]))
      && (r.Ok? ==> Underway(b, r.value, a, rest[1..], done[rest[0] := l])
                    && r.value.backstopUsdt0 == mid.backstopUsdt0 - Due(l))
  {
    hide Sum, Sound, Assess, LiquidateInState, Debt, Due, IsOpenLoan, Chosen, TickLoan, Assesses, Settled, CountersHold;
    hide Underway, Seizable;
    var key, l := rest[0], a[rest[0]];
    InTurnIsOpen(b, mid, a, rest, now, done);
    var updated := mid.(loans := mid.loans[key := l]);
    UpdatedUnderway(b, mid, a, key, now, done);
    TickLoanUnfolds(mid, key, l, now);
    LiquidationIsReadyExactly(b, updated, done, key, l);
    if LiquidateInState(updated, key, l).Ok? {
      SettledStep(b, updated, done, key, l);
      LiquidationPaysDue(updated, key, l);
      StageStep(b, mid, a, rest, done, LiquidateInState(updated, key, l).value, done[key := l]);
    }
  }

  lemma LiquidationIsReadyExactly(b: Book, mid: Book, done: map<Id, Loan>, key: Id, l: Loan)
    requires Sound(mid) && IsOpenLoan(mid, key, l) && key !in done && Settled(b, mid, done)
    requires Debt(l).Ok? && Due(l) <= mid.backstopUsdt0 && mid.price == b.price
    ensures LiquidateInState(mid, key, l).Ok? <==> Seizable(l, b.price.xrpUsdE6) && CountersHold(b, done[key := l])
  {
    hide Sum, Sound, LiquidateInState, IsOpenLoan, LiquidatedExactly, Settled, CountersFit, CountersHold, SeizeAmount;
    LiquidationExact(mid, key, l);
    DueIsDebt(l);
    CountersStepExactly(b, mid, done, key, l);
  }

  lemma LiquidationPaysDue(b: Book, key: Id, l: Loan)
    requires Sound(b) && IsOpenLoan(b, key, l) && LiquidateInState(b, key, l).Ok?
    ensures LiquidateInState(b, key, l).value.backstopUsdt0 == b.backstopUsdt0 - Due(l)
  {
    hide Sound, LiquidateInState, IsOpenLoan, SeizeAmount, CountersFit;
    LiquidationExact(b, key, l);
    DueIsDebt(l);
  }

  lemma {:induction false} ChosenWithin(a: map<Id, Loan>, order: seq<Id>, backstop: nat)
    ensures forall k :: k in Chosen(a, order, backstop) ==> k in order && k in a && Chosen(a, order, backstop)[k] == a[k]
    decreases |order|
  {
    hide InTurn, Due;
    if order != [] {
      if InTurn(a, order[0], backstop) {
        assert Due(a[order[0]]) <= backstop by { InTurnFits(a, order[0], backstop); }
        ChosenWithin(a, order[1..], backstop - Due(a[order[0]]));
      } else {
        ChosenWithin(a, order[1..], backstop);
      }
    }
  }

  lemma InTurnFits(a: map<Id, Loan>, key: Id, backstop: nat)
    requires InTurn(a, key, backstop)
    ensures key in a && Due(a[key]) <= backstop
  {
  }

  ghost predicate AllSeizable(b: Book, loans: map<Id, Loan>) {
    forall k :: k in loans ==> Seizable(loans[k], b.price.xrpUsdE6)
  }

  lemma SettledCountersHold(b: Book, mid: Book, done: map<Id, Loan>)
    requires Settled(b, mid, done)
    ensures CountersHold(b, done)
  {
    hide Sum, AccountSettled, PoolsSettled;
    forall id | id in b.mandates ensures b.mandates[id].interestEarned + Sum(done, PartEarned(id)) <= MAX64 {
      assert MandateSettled(b, mid, done, id);
    }
  }

  /** From any stage of the tick: when the rest succeeds, and what it leaves. */
  lemma {:induction false} TickAllExact(
    b: Book, mid: Book, a: map<Id, Loan>, rest: seq<Id>, now: Time, done: map<Id, Loan>)
    requires NoDuplicates(rest) && Assesses(b, a, now) && Underway(b, mid, a, rest, done)
    ensures
      var r := TickAll(mid, rest, now);
      var chosen := Chosen(a, rest, mid.backstopUsdt0);
      && (r.Ok? <==> AllSeizable(b, chosen) && CountersHold(b, done + chosen))
      && (r.Ok? ==> Underway(b, r.value, a, [], done + chosen))
    decreases |rest|
  {
    hide Settled, Sound, Seizable, CountersHold, Due, TickLoan, Assesses, Stage;
    if rest == [] {
      SettledCountersHold(b, mid, done);
      assert done + map[] == done;
    } else if InTurn(a, rest[0], mid.backstopUsdt0) {
      var key, l := rest[0], a[rest[0]];
      LiquidateStep(b, mid, a, rest, now, done);
      InTurnFits(a, key, mid.backstopUsdt0);
      var later := Chosen(a, rest[1..], mid.backstopUsdt0 - Due(l));
      ChosenWithin(a, rest[1..], mid.backstopUsdt0 - Due(l));
      var chosen := later[key := l];
      assert done[key := l] + later == done + chosen;
      CountersHoldWithin(b, done[key := l], done + chosen);
      if TickLoan(mid, key, now).Ok? {
        TickAllExact(b, TickLoan(mid, key, now).value, a, rest[1..], now, done[key := l]);
        assert AllSeizable(b, chosen) <==> AllSeizable(b, later);
      } else {
        assert key in chosen;
      }
    } else {
      AssessStep(b, mid, a, rest, now, done);
      TickAllExact(b, TickLoan(mid, rest[0], now).value, a, rest[1..], now, done);
    }
  }

  // ---- The whole tick ----------------------------------------------------------------------------------------

  lemma {:induction false} TickAllAssesses(b: Book, keys: seq<Id>, now: Time)
    requires NoDuplicates(keys) && TickAll(b, keys, now).Ok?
    ensures forall k :: k in keys && k in b.loans ==> Assess(b.loans[k], b.price.xrpUsdE6, now).Ok?
    decreases |keys|
  {
    hide Accrue, UpdateRisk, LiquidateInState;
    if keys != [] {
      TickLoanFrame(b, keys[0], now);
      TickAllAssesses(TickLoan(b, keys[0], now).value, keys[1..], now);
      assert forall k :: k in keys <==> k == keys[0] || k in keys[1..];
    }
  }

  lemma TickBegins(b: Book, order: seq<Id>, now: Time)
    requires Sound(b) && Enumerates(order, b.loans.Keys) && AllAssessable(b, now)
    ensures Assesses(b, Assessments(b, now), now)
    ensures Underway(b, b, Assessments(b, now), order, map[])
  {
    hide Settled, Sound, Assess;
    NothingSettled(b);
  }

  /** The loans that this tick liquidates. */
  function ChosenBy(b: Book, now: Time, order: seq<Id>): map<Id, Loan>
    requires AllAssessable(b, now)
  {
    Chosen(Assessments(b, now), order, b.backstopUsdt0)
  }

  lemma TickAllFromTheStart(b: Book, order: seq<Id>, now: Time)
    requires Sound(b) && Enumerates(order, b.loans.Keys)
    ensures TickAll(b, order, now).Ok? <==>
            && AllAssessable(b, now)
            && AllSeizable(b, ChosenBy(b, now, order)) && CountersHold(b, ChosenBy(b, now, order))
    ensures TickAll(b, order, now).Ok? ==>
              Underway(b, TickAll(b, order, now).value, Assessments(b, now), [], ChosenBy(b, now, order))
  {
    hide Sound, Assess, TickAll, Chosen, Underway, AllSeizable, CountersHold, Assesses;
    if TickAll(b, order, now).Ok? {
      TickAllAssesses(b, order, now);
    }
    if AllAssessable(b, now) {
      TickBegins(b, order, now);
      TickAllExact(b, b, Assessments(b, now), order, now, map[]);
      assert map[] + ChosenBy(b, now, order) == ChosenBy(b, now, order);
    }
  }

  /**
    A risk tick over sound books succeeds if and only if the price is fresh and the request new, every open loan can be
    assessed, every loan that it liquidates can be priced, and no mandate's lifetime interest overflows with all of them.
   */
  lemma TickSucceedsExactly(b: Book, price: Price, operationId: Id, now: Time, order: seq<Id>)
    requires Sound(b) && Enumerates(order, b.loans.Keys)
    ensures
      var p := b.(price := price);
      RiskTick(b, price, operationId, now, order).Ok? <==>
        && price.xrpUsdE6 > 0 && price.updatedAt <= now && now - price.updatedAt <= 300 && operationId !in b.processed
        && AllAssessable(p, now)
        && AllSeizable(p, ChosenBy(p, now, order)) && CountersHold(p, ChosenBy(p, now, order))
  {
    hide Structure, FreeUsdt0, TotalFxrp, Assess, TickAll, Chosen, AllSeizable, CountersHold, Underway, Assessments;
    LogKeeps(b, b.processed, b.activities, price);
    TickAllFromTheStart(b.(price := price), order, now);
  }

  /** What a tick leaves: the chosen loans are liquidated, the others assessed, and everything else settled by sums. */
  lemma TickLeavesExactly(b: Book, price: Price, operationId: Id, now: Time, order: seq<Id>, next: Book)
    requires Sound(b) && Enumerates(order, b.loans.Keys) && RiskTick(b, price, operationId, now, order) == Ok(next)
    ensures
      var p := b.(price := price);
      && AllAssessable(p, now)
      && var a, chosen := Assessments(p, now), ChosenBy(p, now, order);
         && Settled(p, next.(processed := b.processed), chosen)
         && next.processed == b.processed + {operationId}
         && next.loans == map k | k in a :: if k in chosen then a[k].(status := Liquidated) else a[k]
  {
    hide Structure, FreeUsdt0, TotalFxrp, Assess, TickAll, Chosen, AllSeizable, CountersHold, Settled, Underway, Seizable, Assessments;
    LogKeeps(b, b.processed, b.activities, price);
    TickAllFromTheStart(b.(price := price), order, now);
    var ticked := TickAll(b.(price := price), order, now).value;
    assert next == ticked.(processed := ticked.processed + {operationId});
    UnderwayFields(b.(price := price), ticked, Assessments(b.(price := price), now), ChosenBy(b.(price := price), now, order));
    assert next.(processed := b.processed) == ticked;
  }

  lemma UnderwayFields(b: Book, mid: Book, a: map<Id, Loan>, done: map<Id, Loan>)
    requires Underway(b, mid, a, [], done)
    ensures mid.processed == b.processed && Settled(b, mid, done)
    ensures mid.loans == map k | k in a :: if k in done then a[k].(status := Liquidated) else a[k]
  {
    hide Sound, AccountSettled, MandateSettled, Sum, Seizable;
  }

  // ---- Order ---------------------------------------------------------------------------------------------------

  lemma SettledMandatesOnce(b: Book, next: Book, next': Book, done: map<Id, Loan>)
    requires Settled(b, next, done) && Settled(b, next', done)
    ensures next.mandates == next'.mandates
  {
    hide Sum, AccountSettled, PoolsSettled;
    forall id | id in b.mandates ensures next.mandates[id] == next'.mandates[id] {
      assert MandateSettled(b, next, done, id) && MandateSettled(b, next', done, id);
    }
  }

  lemma SettledAccountsOnce(b: Book, next: Book, next': Book, done: map<Id, Loan>)
    requires Settled(b, next, done) && Settled(b, next', done) && next.mandates == next'.mandates
    requires ReservedBacked(next.accounts, next.mandates) && ReservedBacked(next'.accounts, next'.mandates)
    ensures next.accounts == next'.accounts
  {
    hide Sum, MandateSettled, PoolsSettled;
    forall o | o in b.accounts ensures next.accounts[o] == next'.accounts[o] {
      assert AccountSettled(b, next, done, o) && AccountSettled(b, next', done, o);
    }
  }

  /** Sound books with the same loans that have settled the same liquidations are equal. */
  lemma SettledOnce(b: Book, next: Book, next': Book, done: map<Id, Loan>)
    requires Settled(b, next, done) && Settled(b, next', done) && Sound(next) && Sound(next') && next.loans == next'.loans
    ensures next == next'
  {
    hide Sum, FreeUsdt0, TotalFxrp, LentBacked, ReservedBacked, AccountSettled, MandateSettled;
    SettledMandatesOnce(b, next, next', done);
    SettledAccountsOnce(b, next, next', done);
  }

  /** Two orders leave the same book if and only if they liquidate the same loans. */
  lemma OrderMattersExactly(
    b: Book, price: Price, operationId: Id, now: Time, order: seq<Id>, order': seq<Id>, next: Book, next': Book)
    requires Sound(b) && Enumerates(order, b.loans.Keys) && Enumerates(order', b.loans.Keys)
    requires RiskTick(b, price, operationId, now, order) == Ok(next)
    requires RiskTick(b, price, operationId, now, order') == Ok(next')
    ensures
      var p := b.(price := price);
      AllAssessable(p, now) && (next == next' <==> ChosenBy(p, now, order) == ChosenBy(p, now, order'))
  {
    hide Sound, RiskTick, Assess, Settled, Chosen;
    var p := b.(price := price);
    TickLeavesExactly(b, price, operationId, now, order, next);
    TickLeavesExactly(b, price, operationId, now, order', next');
    RiskTickKeeps(b, price, operationId, now, order, next);
    RiskTickKeeps(b, price, operationId, now, order', next');
    var a, c, c' := Assessments(p, now), ChosenBy(p, now, order), ChosenBy(p, now, order');
    ChosenAreLiquidatable(a, order, b.backstopUsdt0);
    ChosenAreLiquidatable(a, order', b.backstopUsdt0);
    if c == c' {
      SoundWithProcessed(next, b.processed);
      SoundWithProcessed(next', b.processed);
      SettledOnce(p, next.(processed := b.processed), next'.(processed := b.processed), c);
    } else if next == next' {
      SameLoansSameChosen(a, c, c');
    }
  }

  lemma SoundWithProcessed(b: Book, processed: set<Id>)
    requires Sound(b)
    ensures Sound(b.(processed := processed))
  {
    hide Structure, FreeUsdt0, TotalFxrp;
    LogKeeps(b, processed, b.activities, b.price);
  }

  lemma {:induction false} ChosenAreLiquidatable(a: map<Id, Loan>, order: seq<Id>, backstop: nat)
    ensures forall k :: k in Chosen(a, order, backstop) ==>
              k in a && a[k].status == Liquidatable && Chosen(a, order, backstop)[k] == a[k]
    decreases |order|
  {
    hide Due;
    if order != [] {
      if InTurn(a, order[0], backstop) {
        ChosenAreLiquidatable(a, order[1..], backstop - Due(a[order[0]]));
      } else {
        ChosenAreLiquidatable(a, order[1..], backstop);
      }
    }
  }

  lemma SameLoansSameChosen(a: map<Id, Loan>, c: map<Id, Loan>, c': map<Id, Loan>)
    requires forall k :: k in c ==> k in a && a[k].status == Liquidatable && c[k] == a[k]
    requires forall k :: k in c' ==> k in a && a[k].status == Liquidatable && c'[k] == a[k]
    requires (map k | k in a :: if k in c then a[k].(status := Liquidated) else a[k])
          == (map k | k in a :: if k in c' then a[k].(status := Liquidated) else a[k])
    ensures c == c'
  {
    var m := map k | k in a :: if k in c then a[k].(status := Liquidated) else a[k];
    var m' := map k | k in a :: if k in c' then a[k].(status := Liquidated) else a[k];
    forall k | k in a ensures k in c <==> k in c' {
      assert m[k] == m'[k];
    }
  }

  /** The loans of `keys` that the backstop would have to pay for. */
  function Liquidatables(a: map<Id, Loan>, keys: seq<Id>): map<Id, Loan> {
    map k | k in a && k in keys && a[k].status == Liquidatable :: a[k]
  }

  lemma LiquidatablesStep(a: map<Id, Loan>, order: seq<Id>)
    requires NoDuplicates(order) && order != []
    ensures
      var key, rest := order[0], Liquidatables(a, order[1..]);
      && Liquidatables(a, order) == (if key in a && a[key].status == Liquidatable then rest[key := a[key]] else rest)
      && key !in rest
  {
    assert forall k :: k in order <==> k == order[0] || k in order[1..];
  }

  lemma {:induction false} CoveredChoosesAll(a: map<Id, Loan>, order: seq<Id>, backstop: nat)
    requires NoDuplicates(order) && Sum(Liquidatables(a, order), Owes()) <= backstop
    ensures Chosen(a, order, backstop) == Liquidatables(a, order)
    decreases |order|
  {
    hide Due, Liquidatables, Sum;
    if order == [] {
      assert Liquidatables(a, order) == map[] by { NoneLiquidatable(a); }
    } else {
      var key, rest := order[0], Liquidatables(a, order[1..]);
      LiquidatablesStep(a, order);
      if key in a && a[key].status == Liquidatable {
        SumUpdate(rest, key, a[key], Owes());
        SumNonNegative(rest, Owes());
        CoveredChoosesAll(a, order[1..], backstop - Due(a[key]));
      } else {
        CoveredChoosesAll(a, order[1..], backstop);
      }
    }
  }

  lemma NoneLiquidatable(a: map<Id, Loan>)
    ensures Liquidatables(a, []) == map[]
  {
  }

  /** If the backstop covers all liquidatable debts, the order decides neither whether the tick succeeds nor what it leaves. */
  lemma CoveredTickIgnoresOrder(
    b: Book, price: Price, operationId: Id, now: Time, order: seq<Id>, order': seq<Id>)
    requires Sound(b) && Enumerates(order, b.loans.Keys) && Enumerates(order', b.loans.Keys)
    requires
      var p := b.(price := price);
      AllAssessable(p, now) ==> Sum(Liquidatables(Assessments(p, now), order), Owes()) <= b.backstopUsdt0
    ensures
      var r, r' := RiskTick(b, price, operationId, now, order), RiskTick(b, price, operationId, now, order');
      (r.Ok? <==> r'.Ok?) && (r.Ok? ==> r == r')
  {
    hide Sound, RiskTick, Assess, Sum, Chosen, AllSeizable, CountersHold;
    var p := b.(price := price);
    TickSucceedsExactly(b, price, operationId, now, order);
    TickSucceedsExactly(b, price, operationId, now, order');
    if AllAssessable(p, now) {
      var a := Assessments(p, now);
      assert Liquidatables(a, order) == Liquidatables(a, order');
      CoveredChoosesAll(a, order, b.backstopUsdt0);
      CoveredChoosesAll(a, order', b.backstopUsdt0);
      var r, r' := RiskTick(b, price, operationId, now, order), RiskTick(b, price, operationId, now, order');
      if r.Ok? {
        OrderMattersExactly(b, price, operationId, now, order, order', r.value, r'.value);
      }
    }
  }

  /** If it covers either of two loans but not both, the one that comes first is liquidated. */
  lemma ShortBackstopTakesTheFirst(a: map<Id, Loan>, x: Id, y: Id, backstop: nat)
    requires x != y && InTurn(a, x, backstop) && InTurn(a, y, backstop) && Due(a[x]) + Due(a[y]) > backstop
    ensures Chosen(a, [x, y], backstop) == map[x := a[x]] && Chosen(a, [y, x], backstop) == map[y := a[y]]
  {
    hide Due;
    forall first, second | first in {x, y} && second in {x, y} && first != second
      ensures Chosen(a, [first, second], backstop) == map[first := a[first]]
    {
      assert [first, second][1..] == [second];
      assert Chosen(a, [second], backstop - Due(a[first])) == map[];
    }
  }
}
