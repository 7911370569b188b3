/**
  Repayment and liquidation: distributing a repayment restores every mandate exactly,
  the only possible failure is an overflow of a lifetime interest counter, and closing
  a loan keeps the books while moving no funds in or out.
 */
module Repayment {
  import opened Outcomes
  import opened Arithmetic
  import opened MapSums
  import opened Model
  import opened Operations
  import opened Invariants
  import opened Lending
  import opened Interest

  // ---- One tranche -------------------------------------------------------------------

  /** The mandate can take back the tranche: it exists, it has lent it, and its lender has an account. */
  ghost predicate Returnable(b: Book, t: Tranche) {
    && t.principal > 0
    && t.mandateId in b.mandates
    && var m := b.mandates[t.mandateId];
       && m.id == t.mandateId && m.lender == t.lender && t.lender in b.accounts
       && t.principal <= m.lent
       && (!m.active ==> m.available == 0)
  }

  ghost predicate InterestFits(mandates: map<Id, Mandate>, mandateId: Id, earned: nat) {
    mandateId in mandates ==> mandates[mandateId].interestEarned + earned <= MAX64
  }

  /** The lender's free USDT0 and its mandates' liquidity together. */
  ghost function Lendable(b: Book): int {
    Sum(b.accounts, UsdtAvailable()) + Sum(b.mandates, MandateAvailable())
  }

  /** `next` differs from `b` in USDT0 balances and mandate liquidity only. */
  ghost predicate OnlyLendersChange(b: Book, next: Book) {
    && next == b.(accounts := next.accounts, mandates := next.mandates)
    && next.accounts.Keys == b.accounts.Keys
    && (forall o :: o in b.accounts ==> next.accounts[o] == b.accounts[o].(usdt0 := next.accounts[o].usdt0))
    && SameMandates(b.mandates, next.mandates)
    && (forall id :: id in b.mandates ==> next.mandates[id].active == b.mandates[id].active)
    && (forall id :: id in b.mandates && !b.mandates[id].active && b.mandates[id].available == 0 ==>
          next.mandates[id].available == 0)
  }

  ghost predicate Returned(b: Book, next: Book, principal: int, earned: int) {
    && OnlyLendersChange(b, next)
    && ReservedBacked(next.accounts, next.mandates)
    && Lendable(next) == Lendable(b) + principal + earned
    && Sum(next.mandates, MandateLent()) == Sum(b.mandates, MandateLent()) - principal
    && Sum(next.accounts, FxrpHeld()) == Sum(b.accounts, FxrpHeld())
  }

  lemma ReturnRoom(b: Book, t: Tranche, earned: nat)
    requires Returnable(b, t) && ReservedBacked(b.accounts, b.mandates)
    requires Lendable(b) + t.principal + earned <= MAX64
    ensures t.principal <= b.accounts[t.lender].usdt0.reserved
    ensures b.mandates[t.mandateId].available + t.principal <= MAX64
    ensures b.accounts[t.lender].usdt0.available + t.principal + earned <= MAX64
  {
    StakeBound(b.mandates, t.lender, t.mandateId);
    SumAtLeast(b.accounts, t.lender, UsdtAvailable());
    SumAtLeast(b.mandates, t.mandateId, MandateAvailable());
    SumNonNegative(b.accounts, UsdtAvailable());
    SumNonNegative(b.mandates, MandateAvailable());
  }

  /** Returning a tranche that fits succeeds exactly when the interest counter does not overflow. */
  lemma ReturnTrancheExact(b: Book, t: Tranche, earned: u64)
    requires Returnable(b, t) && ReservedBacked(b.accounts, b.mandates)
    requires Lendable(b) + t.principal + earned <= MAX64
    ensures
      if InterestFits(b.mandates, t.mandateId, earned) then
        ReturnTranche(b, t, earned).Ok?
      else
        ReturnTranche(b, t, earned) == Err(Overflow)
  {
    ReturnRoom(b, t, earned);
    hide Sum, Lendable, ReservedBacked;
  }

  /** The two records that change: the lender's balance and the mandate. */
  lemma ReturnTrancheRecords(b: Book, t: Tranche, earned: u64, next: Book)
    requires Returnable(b, t) && t.principal <= b.accounts[t.lender].usdt0.reserved
    requires ReturnTranche(b, t, earned) == Ok(next)
    ensures next == b.(accounts := b.accounts[t.lender := next.accounts[t.lender]],
                       mandates := b.mandates[t.mandateId := next.mandates[t.mandateId]])
    ensures
      var a, a' := b.accounts[t.lender], next.accounts[t.lender];
      var m, m' := b.mandates[t.mandateId], next.mandates[t.mandateId];
      && a' == a.(usdt0 := a'.usdt0)
      && SameTerms(m, m') && m'.active == m.active
      && m'.lent == m.lent - t.principal
      && m'.interestEarned == m.interestEarned + earned
      && (if m.active then
            && m'.available == m.available + t.principal
            && a'.usdt0.reserved == a.usdt0.reserved
            && a'.usdt0.available == a.usdt0.available + earned
          else
            && m'.available == m.available
            && a'.usdt0.reserved == a.usdt0.reserved - t.principal
            && a'.usdt0.available == a.usdt0.available + t.principal + earned)
  {
  }

  /** The reserve of every lender still mirrors its mandates. */
  lemma ReturnTrancheReserves(b: Book, t: Tranche, earned: u64, next: Book)
    requires Returnable(b, t) && ReservedBacked(b.accounts, b.mandates)
    requires t.principal <= b.accounts[t.lender].usdt0.reserved
    requires ReturnTranche(b, t, earned) == Ok(next)
    ensures ReservedBacked(next.accounts, next.mandates)
  {
    hide Sum, ReturnTranche;
    ReturnTrancheRecords(b, t, earned, next);
    forall o | o in next.accounts ensures next.accounts[o].usdt0.reserved == Sum(next.mandates, StakeOf(o)) {
      MandateSums(b.mandates, next.mandates[t.mandateId], o);
    }
  }

  /** The lender's and the mandate's funds grow by exactly principal and interest. */
  lemma ReturnTrancheTotals(b: Book, t: Tranche, earned: u64, next: Book)
    requires Returnable(b, t) && t.principal <= b.accounts[t.lender].usdt0.reserved
    requires ReturnTranche(b, t, earned) == Ok(next)
    ensures Lendable(next) == Lendable(b) + t.principal + earned
    ensures Sum(next.mandates, MandateLent()) == Sum(b.mandates, MandateLent()) - t.principal
    ensures Sum(next.accounts, FxrpHeld()) == Sum(b.accounts, FxrpHeld())
  {
    hide Sum, ReturnTranche;
    ReturnTrancheRecords(b, t, earned, next);
    AccountSums(b, t.lender, next.accounts[t.lender]);
    MandateSums(b.mandates, next.mandates[t.mandateId], t.lender);
  }

  lemma ReturnTrancheEffect(b: Book, t: Tranche, earned: u64, next: Book)
    requires Returnable(b, t) && ReservedBacked(b.accounts, b.mandates)
    requires Lendable(b) + t.principal + earned <= MAX64
    requires ReturnTranche(b, t, earned) == Ok(next)
    ensures Returned(b, next, t.principal, earned)
    ensures next.mandates.Keys == b.mandates.Keys
    ensures forall id :: id in b.mandates ==>
      && next.mandates[id].lent == b.mandates[id].lent - (if id == t.mandateId then t.principal else 0)
      && next.mandates[id].interestEarned == b.mandates[id].interestEarned + (if id == t.mandateId then earned else 0)
  {
    hide Sum, ReturnTranche, ReservedBacked, Lendable;
    ReturnRoom(b, t, earned);
    ReturnTrancheReserves(b, t, earned, next);
    ReturnTrancheTotals(b, t, earned, next);
    ReturnTrancheRecords(b, t, earned, next);
  }

  // ---- All tranches ----------------------------------------------------------------------

  /** Every listed tranche can be returned, from distinct mandates, and its interest is within the payment. */
  ghost predicate AllReturnable(b: Book, l: Loan, interest: nat, ts: seq<Tranche>) {
    && l.principal > 0 && l.borrowerApr > 0 && interest <= MAX64
    && DistinctMandates(ts)
    && (forall t :: t in ts ==> Returnable(b, t) && t.principal <= l.principal)
    && ReservedBacked(b.accounts, b.mandates)
    && Lendable(b) + SumPrincipal(ts) + TotalEarned(l, interest, ts) <= MAX64
  }

  ghost predicate CountersFit(mandates: map<Id, Mandate>, l: Loan, interest: nat, ts: seq<Tranche>) {
    forall t :: t in ts ==> InterestFits(mandates, t.mandateId, Earned(l, interest, t))
  }

  ghost predicate AllReturned(b: Book, next: Book, l: Loan, interest: nat, ts: seq<Tranche>) {
    && Returned(b, next, SumPrincipal(ts), TotalEarned(l, interest, ts))
    && (forall id :: id in b.mandates ==> next.mandates[id].lent == b.mandates[id].lent - DrawnFrom(ts, id))
  }

  lemma FirstReturnable(b: Book, l: Loan, interest: u64, ts: seq<Tranche>)
    requires ts != [] && AllReturnable(b, l, interest, ts)
    ensures Returnable(b, ts[0])
    ensures Earned(l, interest, ts[0]) <= MAX64
    ensures Lendable(b) + ts[0].principal + Earned(l, interest, ts[0]) <= MAX64
    ensures LenderInterest(l, interest, ts[0]) == Ok(Earned(l, interest, ts[0]))
  {
    assert ts[0] in ts;
    SumNonNegative(b.accounts, UsdtAvailable());
    SumNonNegative(b.mandates, MandateAvailable());
    hide Sum, Earned, LenderInterest, ReservedBacked;
    LenderInterestIsEarned(l, interest, ts[0]);
  }

  lemma RestReturnable(b: Book, l: Loan, interest: u64, ts: seq<Tranche>, next: Book)
    requires ts != [] && AllReturnable(b, l, interest, ts)
    requires Earned(l, interest, ts[0]) <= MAX64
    requires ReturnTranche(b, ts[0], Earned(l, interest, ts[0])) == Ok(next)
    requires Returned(b, next, ts[0].principal, Earned(l, interest, ts[0]))
    requires forall id :: id in b.mandates ==>
      next.mandates[id].lent == b.mandates[id].lent - (if id == ts[0].mandateId then ts[0].principal else 0)
    ensures AllReturnable(next, l, interest, ts[1..])
  {
    hide Sum, Earned, ReturnTranche, ReservedBacked;
    forall t | t in ts[1..] ensures Returnable(next, t) && t.principal <= l.principal {
      assert t in ts && Returnable(b, t);
      var i :| 0 <= i < |ts[1..]| && ts[1..][i] == t;
      assert ts[0].mandateId != ts[i + 1].mandateId;
    }
  }

  lemma ReturnedThen(b: Book, mid: Book, next: Book, p: int, e: int, p': int, e': int)
    requires Returned(b, mid, p, e) && Returned(mid, next, p', e')
    ensures Returned(b, next, p + p', e + e')
  {
    hide Sum, ReservedBacked;
  }

  lemma {:induction false} DistributeExact(
    l: Loan, interest: u64, ts: seq<Tranche>, d: Distribution)
    requires AllReturnable(d.book, l, interest, ts)
    requires d.returned + SumPrincipal(ts) <= MAX64 && d.paid + TotalEarned(l, interest, ts) <= MAX64
    ensures
      var r := DistributeTo(l, interest, ts, d);
      if CountersFit(d.book.mandates, l, interest, ts) then
        && r.Ok?
        && r.value.returned == d.returned + SumPrincipal(ts)
        && r.value.paid == d.paid + TotalEarned(l, interest, ts)
        && AllReturned(d.book, r.value.book, l, interest, ts)
      else
        r == Err(Overflow)
    decreases |ts|
  {
    hide Sum, Earned, LenderInterest, ReturnTranche, Returnable, Lendable, OnlyLendersChange, AllReturnable, AllReturned;
    hide Returned, CountersFit, InterestFits, DrawnFrom, ReservedBacked;
    AllReturnableBacked(d.book, l, interest, ts);
    if ts == [] {
      ReturnedNothing(d.book, l, interest);
    } else {
      var t := ts[0];
      FirstReturnable(d.book, l, interest, ts);
      CountersFirst(d.book.mandates, l, interest, ts);
      var earned := Earned(l, interest, t);
      ReturnTrancheExact(d.book, t, earned);
      if InterestFits(d.book.mandates, t.mandateId, earned) {
        var next := ReturnTranche(d.book, t, earned).value;
        ReturnTrancheEffect(d.book, t, earned, next);
        RestReturnable(d.book, l, interest, ts, next);
        var d' := Distribution(next, d.returned + t.principal, d.paid + earned);
        CountersStep(d.book, next, l, interest, ts);
        DistributeExact(l, interest, ts[1..], d');
        if CountersFit(d.book.mandates, l, interest, ts) {
          AllReturnedStep(d.book, next, DistributeTo(l, interest, ts[1..], d').value.book, l, interest, ts);
        }
      }
    }
  }

  lemma AllReturnableBacked(b: Book, l: Loan, interest: u64, ts: seq<Tranche>)
    requires AllReturnable(b, l, interest, ts)
    ensures ReservedBacked(b.accounts, b.mandates) && DistinctMandates(ts)
  {
  }

  lemma CountersFirst(mandates: map<Id, Mandate>, l: Loan, interest: nat, ts: seq<Tranche>)
    requires ts != []
    ensures CountersFit(mandates, l, interest, ts) ==> InterestFits(mandates, ts[0].mandateId, Earned(l, interest, ts[0]))
  {
    hide Earned, InterestFits;
    assert ts[0] in ts;
  }

  lemma ReturnedNothing(b: Book, l: Loan, interest: nat)
    requires ReservedBacked(b.accounts, b.mandates)
    ensures AllReturned(b, b, l, interest, [])
    ensures CountersFit(b.mandates, l, interest, [])
  {
  }

  lemma AllReturnedStep(b: Book, mid: Book, next: Book, l: Loan, interest: nat, ts: seq<Tranche>)
    requires ts != []
    requires Returned(b, mid, ts[0].principal, Earned(l, interest, ts[0]))
    requires forall id :: id in b.mandates ==>
      mid.mandates[id].lent == b.mandates[id].lent - (if id == ts[0].mandateId then ts[0].principal else 0)
    requires AllReturned(mid, next, l, interest, ts[1..])
    ensures AllReturned(b, next, l, interest, ts)
  {
    hide Sum, Earned, Lendable, ReservedBacked;
    ReturnedThen(b, mid, next, ts[0].principal, Earned(l, interest, ts[0]),
                 SumPrincipal(ts[1..]), TotalEarned(l, interest, ts[1..]));
  }

  /** The counters of the remaining mandates are untouched by the first return. */
  lemma CountersStep(b: Book, next: Book, l: Loan, interest: nat, ts: seq<Tranche>)
    requires ts != [] && DistinctMandates(ts)
    requires InterestFits(b.mandates, ts[0].mandateId, Earned(l, interest, ts[0]))
    requires next.mandates.Keys == b.mandates.Keys
    requires forall id :: id in b.mandates ==>
      next.mandates[id].interestEarned
      == b.mandates[id].interestEarned + (if id == ts[0].mandateId then Earned(l, interest, ts[0]) else 0)
    ensures CountersFit(next.mandates, l, interest, ts[1..]) <==> CountersFit(b.mandates, l, interest, ts)
  {
    hide Earned;
    forall t | t in ts[1..]
      ensures InterestFits(next.mandates, t.mandateId, Earned(l, interest, t))
              <==> InterestFits(b.mandates, t.mandateId, Earned(l, interest, t))
    {
      var i :| 0 <= i < |ts[1..]| && ts[1..][i] == t;
      assert ts[0].mandateId != ts[i + 1].mandateId;
    }
    assert forall t :: t in ts <==> t == ts[0] || t in ts[1..];
  }

  // ---- A whole repayment -------------------------------------------------------------------

  /** `l` is the stored open loan `key`, up to accrued interest and risk figures. */
  ghost predicate IsOpenLoan(b: Book, key: Id, l: Loan) {
    && key in b.loans
    && var stored := b.loans[key];
       && stored.Open() && l.Open()
       && l == stored.(accruedRay := l.accruedRay, lastAccruedAt := l.lastAccruedAt, status := l.status,
                       healthFactor := l.healthFactor, liquidationPrice := l.liquidationPrice)
  }

  lemma OpenLoanFacts(b: Book, key: Id, l: Loan)
    requires Structure(b) && IsOpenLoan(b, key, l)
    ensures OpenLoanLinked(b, key) && AccountLinked(b, l.borrower)
    ensures l.borrower in b.accounts && b.accounts[l.borrower].loanId == key && key != ""
    ensures b.accounts[l.borrower].fxrp.reserved == l.collateral
    ensures Priced(l) && DistinctMandates(l.tranches)
  {
  }

  lemma LoanReturnable(b: Book, key: Id, l: Loan, t: Tranche)
    requires Structure(b) && IsOpenLoan(b, key, l) && t in l.tranches
    ensures Returnable(b, t) && t.principal <= l.principal
  {
    assert OpenLoanLinked(b, key) && TrancheSound(b.mandates, t) && MandateSound(b, t.mandateId);
    var i :| 0 <= i < |l.tranches| && l.tranches[i] == t;
    DrawnFromTranche(l.tranches, i);
    SumPrincipalBounds(l.tranches, t);
    SumAtLeast(b.loans, key, OwedTo(t.mandateId));
  }

  /** The funds are in place for `l` to be repaid with `interest` in book `b`. */
  ghost predicate Repayable(b: Book, l: Loan, interest: nat) {
    && Priced(l) && DistinctMandates(l.tranches) && interest <= MAX64
    && (forall t :: t in l.tranches ==> Returnable(b, t) && t.principal <= l.principal)
    && ReservedBacked(b.accounts, b.mandates)
    && Lendable(b) + l.principal + interest + b.protocolReserve <= MAX64
  }

  /** What a successful distribution does. */
  ghost predicate Distributed(b: Book, next: Book, l: Loan, interest: nat) {
    && AllReturned(b, next.(protocolReserve := b.protocolReserve), l, interest, l.tranches)
    && next.protocolReserve == b.protocolReserve + interest - TotalEarned(l, interest, l.tranches)
  }

  lemma RepayableFacts(b: Book, l: Loan, interest: u64)
    requires Repayable(b, l, interest)
    ensures AllReturnable(b, l, interest, l.tranches)
    ensures l.principal == SumPrincipal(l.tranches)
    ensures TotalEarned(l, interest, l.tranches) <= interest
    ensures l.principal + interest + b.protocolReserve <= MAX64
  {
    LendersNeverEarnMoreThanPaid(l, interest);
    SumNonNegative(b.accounts, UsdtAvailable());
    SumNonNegative(b.mandates, MandateAvailable());
    hide Sum, TotalEarned, SumPrincipal;
  }

  /**
    Distribution of a repayment that is in place fails only when a lifetime interest
    counter would overflow: a missing mandate, an allocation or reserve underflow, a
    tranche mismatch and lenders earning more than was paid are all impossible.
   */
  lemma DistributionFailsOnlyOnCounters(b: Book, l: Loan, interest: u64)
    requires Repayable(b, l, interest)
    ensures
      var r := DistributeRepayment(b, l, interest);
      if CountersFit(b.mandates, l, interest, l.tranches) then
        r.Ok? && Distributed(b, r.value, l, interest)
      else
        r == Err(Overflow)
  {
    hide Sum, Earned, TotalEarned, DistributeTo, AllReturnable, AllReturned, Returned, Lendable, CountersFit;
    hide Repayable, Priced, SumPrincipal;
    RepayableFacts(b, l, interest);
    DistributeExact(l, interest, l.tranches, Distribution(b, 0, 0));
    var r := DistributeTo(l, interest, l.tranches, Distribution(b, 0, 0));
    if r.Ok? {
      AllReturnedReserve(b, r.value.book, l, interest, l.tranches);
    }
  }

  lemma AllReturnedReserve(b: Book, next: Book, l: Loan, interest: nat, ts: seq<Tranche>)
    requires AllReturned(b, next, l, interest, ts)
    ensures next.protocolReserve == b.protocolReserve
  {
  }

  // ---- Closing the loan ------------------------------------------------------------------------

  /** The loan is gone from every record that mentioned it. */
  ghost predicate LoanClosed(b: Book, next: Book, key: Id, l: Loan) {
    && next.accounts.Keys == b.accounts.Keys
    && (forall o :: o in b.accounts && o != l.borrower ==>
          next.accounts[o].fxrp == b.accounts[o].fxrp && next.accounts[o].loanId == b.accounts[o].loanId)
    && l.borrower in b.accounts
    && next.accounts[l.borrower].loanId == ""
    && next.accounts[l.borrower].fxrp.reserved == 0
    && ReservedBacked(next.accounts, next.mandates)
    && SameMandates(b.mandates, next.mandates)
    && (forall id :: id in b.mandates ==>
          && next.mandates[id].lent == b.mandates[id].lent - DrawnFrom(l.tranches, id)
          && (!next.mandates[id].active ==> next.mandates[id].available == 0))
    && key in next.loans && !next.loans[key].Open() && next.loans == b.loans[key := next.loans[key]]
    && next.activeDebt == b.activeDebt - l.principal
    && Sum(next.mandates, MandateLent()) == Sum(b.mandates, MandateLent()) - l.principal
  }

  lemma ClosedLoanOwed(b: Book, next: Book, key: Id, l: Loan, id: Id)
    requires IsOpenLoan(b, key, l) && LoanClosed(b, next, key, l)
    ensures Sum(next.loans, OwedTo(id)) == Sum(b.loans, OwedTo(id)) - DrawnFrom(l.tranches, id)
    ensures Sum(next.loans, OpenPrincipal()) == Sum(b.loans, OpenPrincipal()) - l.principal
  {
    SumUpdate(b.loans, key, next.loans[key], OwedTo(id));
    SumUpdate(b.loans, key, next.loans[key], OpenPrincipal());
  }

  lemma ClosedBacked(b: Book, next: Book, key: Id, l: Loan)
    requires Structure(b) && IsOpenLoan(b, key, l) && LoanClosed(b, next, key, l)
    ensures LentBacked(next.mandates, next.loans)
    ensures next.activeDebt == Sum(next.loans, OpenPrincipal()) == Sum(next.mandates, MandateLent())
  {
    hide Sum, OpenLoanLinked, AccountLinked, MandateSound, ReservedBacked;
    ClosedLoanOwed(b, next, key, l, "");
    forall id | id in next.mandates ensures next.mandates[id].lent == Sum(next.loans, OwedTo(id)) {
      ClosedLoanOwed(b, next, key, l, id);
    }
  }

  lemma ClosedLinks(b: Book, next: Book, key: Id, l: Loan)
    requires Structure(b) && IsOpenLoan(b, key, l) && LoanClosed(b, next, key, l)
    ensures forall id :: id in next.mandates ==> MandateSound(next, id)
    ensures forall k :: k in next.loans ==> OpenLoanLinked(next, k)
    ensures forall o :: o in next.accounts ==> AccountLinked(next, o)
  {
    hide Sum, ReservedBacked, LentBacked, DrawnFrom, AverageRate, SumPrincipal;
    forall id | id in next.mandates ensures MandateSound(next, id) {
      assert MandateSound(b, id);
    }
    forall k | k in next.loans ensures OpenLoanLinked(next, k) {
      ClosedLoanLink(b, next, key, l, k);
    }
    forall o | o in next.accounts ensures AccountLinked(next, o) {
      ClosedAccountLink(b, next, key, l, o);
    }
  }

  lemma ClosedLoanLink(b: Book, next: Book, key: Id, l: Loan, k: Id)
    requires Structure(b) && IsOpenLoan(b, key, l) && LoanClosed(b, next, key, l) && k in next.loans
    ensures OpenLoanLinked(next, k)
  {
    hide Sum, ReservedBacked, LentBacked, LoanSound;
    if k != key {
      assert OpenLoanLinked(b, k) && OpenLoanLinked(b, key);
      LoanSoundUnderNewTerms(b.mandates, next.mandates, b.loans[k]);
    }
  }

  lemma ClosedAccountLink(b: Book, next: Book, key: Id, l: Loan, o: Owner)
    requires Structure(b) && IsOpenLoan(b, key, l) && LoanClosed(b, next, key, l) && o in next.accounts
    ensures AccountLinked(next, o)
  {
    hide Sum, ReservedBacked, LentBacked, LoanSound, SameMandates;
    if o != l.borrower {
      assert AccountLinked(b, o);
    }
  }

  lemma ClosedLoanKeepsStructure(b: Book, next: Book, key: Id, l: Loan)
    requires Structure(b) && IsOpenLoan(b, key, l) && LoanClosed(b, next, key, l)
    ensures Structure(next)
  {
    hide Sum, OpenLoanLinked, AccountLinked, MandateSound, LentBacked, SameMandates, IsOpenLoan;
    ClosedBacked(b, next, key, l);
    ClosedLinks(b, next, key, l);
    LoanClosedKeys(b, next, key, l);
  }

  lemma LoanClosedKeys(b: Book, next: Book, key: Id, l: Loan)
    requires Structure(b) && IsOpenLoan(b, key, l) && LoanClosed(b, next, key, l)
    ensures "" !in next.loans
    ensures ReservedBacked(next.accounts, next.mandates)
  {
    hide Sum, OpenLoanLinked, AccountLinked, MandateSound, LentBacked;
  }
}
