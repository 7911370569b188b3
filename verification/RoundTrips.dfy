/**
  What one operation undoes of another: a cancelled mandate, a withdrawn deposit and a loan
  repaid at once leave everyone's funds as they were.
 */
module RoundTrips {
  import opened Outcomes
  import opened Arithmetic
  import opened MapSums
  import opened Model
  import opened Ordering
  import opened Loans
  import opened Matching
  import opened QuoteFacts
  import opened Operations
  import opened Invariants
  import opened Conservation
  import opened Lending
  import opened Interest
  import opened Closing
  import opened Lenders

  /** Setting a mandate and cancelling it restores the balances; only the nonce and an empty, inactive mandate remain. */
  lemma CancelUndoesSet(
    b: Book, owner: Owner, id: Id, amount: u64, minApr: u32, termMask: u8, cap: u64, nonce: u64, nonce': u64, now: Time,
    set': Book, next: Book)
    requires Sound(b)
    requires SetMandate(b, owner, id, amount, minApr, termMask, cap, nonce, now) == Ok(set')
    requires CancelMandate(set', owner, id, nonce') == Ok(next)
    ensures next == b.(accounts := b.accounts[owner := AccountOf(b, owner).(nonce := WrapAdd(nonce', 1))],
                       mandates := b.mandates[id := Mandate(id, owner, 0, minApr, termMask, cap, false, now, 0, 0)])
  {
    hide Structure, FreeUsdt0, TotalFxrp, Sum;
    StakeRoom(b, owner);
    var a := AccountOf(b, owner);
    assert next.accounts[owner] == a.(nonce := WrapAdd(nonce', 1));
    assert next.accounts == b.accounts[owner := next.accounts[owner]];
    assert next.mandates == b.mandates[id := next.mandates[id]];
  }

  /** Withdrawing what was just deposited restores every balance and every mandate; only the nonce and the logs remember. */
  lemma WithdrawUndoesDeposit(
    b: Book, owner: Owner, asset: Asset, amount: u64, depositId: Id, operationId: Id, nonce: u64, now: Time, now': Time,
    order: seq<Id>, deposited: Book, next: Book)
    requires Deposit(b, owner, asset, amount, depositId, now) == Ok(deposited)
    requires Withdraw(deposited, owner, asset, amount, operationId, nonce, now', order) == Ok(next)
    ensures next == b.(accounts := b.accounts[owner := AccountOf(b, owner).(nonce := WrapAdd(nonce, 1))],
                       processed := b.processed + {depositId, operationId},
                       activities := b.activities + [Activity(depositId, owner, true, asset, amount, now),
                                                     Activity(operationId, owner, false, asset, amount, now')])
  {
    hide Drain, ByAge, Retire;
    assert next.accounts[owner] == AccountOf(b, owner).(nonce := WrapAdd(nonce, 1));
    assert next.accounts == b.accounts[owner := next.accounts[owner]];
    assert next.activities == b.activities + [Activity(depositId, owner, true, asset, amount, now),
                                              Activity(operationId, owner, false, asset, amount, now')];
    assert next.processed == b.processed + {depositId, operationId};
  }

  lemma NothingEarned(l: Loan, t: Tranche)
    ensures Earned(l, 0, t) == 0
  {
    assert 0 * t.principal == 0;
    assert Share(l, 0, t) == 0;
    assert 0 * t.apr == 0;
  }

  lemma {:induction false} NobodyEarns(l: Loan, ts: seq<Tranche>, lender: Owner, mandateId: Id)
    ensures EarnedBy(l, 0, ts, lender) == 0 && EarnedFrom(l, 0, ts, mandateId) == 0 && TotalEarned(l, 0, ts) == 0
  {
    hide Earned;
    if ts != [] {
      NothingEarned(l, ts[0]);
      NobodyEarns(l, ts[1..], lender, mandateId);
    }
  }

  /** Allocating a quote's tranches and returning them without interest restores every mandate. */
  lemma AllocationUndone(b: Book, mid: Book, next: Book, req: QuoteRequest, l: Loan)
    requires Allocated(b.mandates, mid.mandates, l.tranches) && TranchesFrom(b.mandates, req, l.tranches)
    requires forall id :: id in b.mandates ==> mid.mandates[id].interestEarned == b.mandates[id].interestEarned
    requires MandatesRestored(mid, next, l, 0, l.tranches)
    ensures next.mandates == b.mandates
  {
    forall id | id in b.mandates ensures next.mandates[id] == b.mandates[id] {
      NobodyEarns(l, l.tranches, "", id);
      if !b.mandates[id].active {
        DrawnFromAbsent(l.tranches, id);
      }
    }
  }

  lemma {:induction false} AllocateKeepsEarnings(ms: map<Id, Mandate>, ts: seq<Tranche>)
    requires Allocate(ms, ts).Ok?
    ensures Allocate(ms, ts).value.Keys == ms.Keys
    ensures forall id :: id in ms ==> Allocate(ms, ts).value[id].interestEarned == ms[id].interestEarned
    decreases |ts|
  {
    if ts != [] {
      var t := ts[0];
      var m := ms[t.mandateId];
      var lent := m.(available := WrapSub(m.available, t.principal), lent := WrapAdd(m.lent, t.principal));
      AllocateKeepsEarnings(ms[t.mandateId := lent], ts[1..]);
    }
  }

  /** Just after acceptance the loan owes its principal and nothing else; it turns late one day after its term. */
  lemma FreshLoanOwesItsPrincipal(b: Book, q: Quote, loanId: Id, nonce: u64, now: Time, next: Book)
    requires Originate(b, q, loanId, nonce, now) == Ok(next)
    ensures loanId in next.loans && AccountOf(next, q.borrower).loanId == loanId
    ensures
      var l := next.loans[loanId];
      && Accrue(l, now) == Ok(l) && Debt(l) == Ok(q.amount)
      && l.principal == q.amount && l.tranches == q.tranches && l.collateral == q.collateral && l.borrower == q.borrower
      && (forall t: Time :: Late(l, t) <==> t > now + (q.termDays + 1) * 86_400)
    ensures Allocate(b.mandates, q.tranches) == Ok(next.mandates)
    ensures next.protocolReserve == b.protocolReserve
    ensures forall o :: AccountOf(next, o).usdt0 == AccountOf(b, o).usdt0
  {
    hide Allocate, UpdateRisk;
    UpdateRiskFrame(NewLoan(q, loanId, now), b.price.xrpUsdE6, now);
  }

  /**
    A loan that is accepted and repaid at the same instant restores every mandate, every lender's balances, the
    borrower's collateral, the debt and the pools; the borrower has paid back exactly the amount that was paid out.
   */
  lemma RepayUndoesAccept(
    b: Book, q: Quote, loanId: Id, nonce: u64, observed: Option<Price>, now: Time, order: seq<Id>, hash: Hash,
    accepted: Book, amount: u64, operationId: Id, nonce': u64, next: Book)
    requires Sound(b) && Enumerates(order, b.mandates.Keys) && LoanIdUsable(b, loanId)
    requires AcceptQuote(b, q, loanId, nonce, observed, now, order, hash) == Ok(accepted)
    requires Repay(accepted, q.borrower, amount, operationId, nonce', now) == Ok(next)
    ensures next.mandates == b.mandates
    ensures next.activeDebt == b.activeDebt && next.protocolReserve == b.protocolReserve
    ensures forall o ::
              && AccountOf(next, o).usdt0.reserved == AccountOf(b, o).usdt0.reserved
              && AccountOf(next, o).usdt0.available
                 == AccountOf(b, o).usdt0.available - (if o == q.borrower then q.amount else 0)
    ensures AccountOf(next, q.borrower).fxrp == AccountOf(b, q.borrower).fxrp
    ensures AccountOf(next, q.borrower).loanId == AccountOf(b, q.borrower).loanId == ""
  {
    hide MakeQuote, Originate, Repay, Accrue, Structure, FreeUsdt0, TotalFxrp, Sum, EveryoneSettled, Originated;
    hide TermsSound, Allocated;
    AcceptKeepsBooksExactlyForUsableIds(b, q, loanId, nonce, observed, now, order, hash, accepted);
    StructureIds(b);
    AcceptedTerms(b, q, loanId, nonce, observed, now, order, hash, accepted);
    var priced := ObservePrice(b, observed, now).value;
    AcceptedRecords(b, priced, q, loanId, nonce, now, accepted);
    FreshLoanOwesItsPrincipal(priced, q, loanId, nonce, now, accepted);
    var l := accepted.loans[loanId];
    RepayExact(accepted, q.borrower, amount, operationId, nonce', now);
    RepaySettlesEveryone(accepted, q.borrower, amount, operationId, nonce', now, next);
    MandatesUndone(b, accepted, next, q, l);
    NobodyEarns(l, l.tranches, "", "");
    forall o
      ensures
        && AccountOf(next, o).usdt0.reserved == AccountOf(b, o).usdt0.reserved
        && AccountOf(next, o).usdt0.available
           == AccountOf(b, o).usdt0.available - (if o == q.borrower then q.amount else 0)
    {
      NobodyEarns(l, l.tranches, o, "");
      SameReserved(b, next, o);
      HoldingsAfter(accepted, next, l, q.amount, q.borrower, o);
    }
    SettledReserve(accepted, next, l, q.amount, q.borrower);
  }

  lemma AcceptedRecords(b: Book, priced: Book, q: Quote, loanId: Id, nonce: u64, now: Time, accepted: Book)
    requires Sound(b) && priced == b.(price := priced.price) && TermsSound(b.mandates, q)
    requires Originate(priced, q, loanId, nonce, now) == Ok(accepted)
    ensures Allocated(b.mandates, accepted.mandates, q.tranches)
    ensures TranchesFrom(b.mandates, RequestOf(q), q.tranches)
    ensures accepted.protocolReserve == b.protocolReserve
    ensures
      var a, a' := AccountOf(b, q.borrower), AccountOf(accepted, q.borrower);
      && a.loanId == "" && a.fxrp.reserved == 0
      && a'.fxrp.available == a.fxrp.available - q.collateral && a'.fxrp.reserved == q.collateral
    ensures q.borrower in accepted.accounts
  {
    hide Originate, FreeUsdt0, TotalFxrp, Sum, Allocated, AllocatedSums, TranchesFrom, ReservedBacked, LentBacked;
    LogKeeps(b, b.processed, b.activities, priced.price);
    SoundHasRoom(priced, q.borrower);
    OriginateEffect(priced, q, loanId, nonce, now, accepted);
    AccountReserved(b, q.borrower);
  }

  lemma MandatesUndone(b: Book, accepted: Book, next: Book, q: Quote, l: Loan)
    requires Allocated(b.mandates, accepted.mandates, q.tranches) && TranchesFrom(b.mandates, RequestOf(q), q.tranches)
    requires Allocate(b.mandates, q.tranches) == Ok(accepted.mandates)
    requires l.tranches == q.tranches && l.principal == q.amount
    requires EveryoneSettled(accepted, next, l, q.amount, Some(q.borrower))
    ensures next.mandates == b.mandates
  {
    hide Allocated, TranchesFrom, MandatesRestored, Allocate;
    AllocateKeepsEarnings(b.mandates, q.tranches);
    AllocationUndone(b, accepted, next, RequestOf(q), l);
  }

  lemma SameReserved(b: Book, next: Book, o: Owner)
    requires Sound(b) && Sound(next) && next.mandates == b.mandates
    ensures AccountOf(next, o).usdt0.reserved == AccountOf(b, o).usdt0.reserved
  {
    AccountReserved(b, o);
    AccountReserved(next, o);
  }

  lemma HoldingsAfter(accepted: Book, next: Book, l: Loan, amount: u64, borrower: Owner, o: Owner)
    requires EveryoneSettled(accepted, next, l, amount, Some(borrower)) && l.principal == amount
    requires EarnedBy(l, 0, l.tranches, o) == 0
    ensures HoldingsOf(next, o) == HoldingsOf(accepted, o) - (if o == borrower then amount else 0)
  {
    hide MandatesRestored;
    assert EarnedBy(l, amount - l.principal, l.tranches, o) == 0;
  }

  lemma SettledReserve(accepted: Book, next: Book, l: Loan, amount: u64, borrower: Owner)
    requires EveryoneSettled(accepted, next, l, amount, Some(borrower)) && l.principal == amount
    requires TotalEarned(l, 0, l.tranches) == 0
    ensures next.protocolReserve == accepted.protocolReserve
  {
    hide MandatesRestored;
  }
}
