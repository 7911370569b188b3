/**
  What sound books say about one borrower: at most one open loan, named by its
  account, and a bounded debt to each mandate.
 */
module Exposure {
  import opened MapSums
  import opened Model
  import opened Invariants

  /** What one borrower's open loans owe one mandate. */
  function OwedBy(borrower: Owner, mandateId: Id): Loan -> int {
    (l: Loan) => if l.Open() && l.borrower == borrower then DrawnFrom(l.tranches, mandateId) else 0
  }

  predicate OpenLoanOf(b: Book, owner: Owner, key: Id) {
    key in b.loans && b.loans[key].Open() && b.loans[key].borrower == owner
  }

  /** An account names its open loan and reserves that loan's collateral; with no open loan it reserves nothing. */
  lemma AtMostOneOpenLoan(b: Book, owner: Owner)
    requires Sound(b) && owner in b.accounts
    ensures forall j, k :: OpenLoanOf(b, owner, j) && OpenLoanOf(b, owner, k) ==> j == k
    ensures forall k :: OpenLoanOf(b, owner, k) <==> k in b.loans && k == b.accounts[owner].loanId
    ensures b.accounts[owner].fxrp.reserved ==
            if b.accounts[owner].loanId in b.loans then b.loans[b.accounts[owner].loanId].collateral else 0
  {
    hide ReservedBacked, LentBacked, Sum, FreeUsdt0, TotalFxrp, LoanSound;
    assert AccountLinked(b, owner);
    forall k | OpenLoanOf(b, owner, k) ensures k == b.accounts[owner].loanId {
      assert OpenLoanLinked(b, k);
    }
  }

  lemma {:induction false} OnePartBounded(ts: seq<Tranche>, mandateId: Id, cap: nat)
    requires DistinctMandates(ts)
    requires forall t :: t in ts && t.mandateId == mandateId ==> t.principal <= cap
    ensures DrawnFrom(ts, mandateId) <= cap
  {
    if i: nat :| i < |ts| && ts[i].mandateId == mandateId {
      DrawnFromTranche(ts, i);
      assert ts[i] in ts;
    } else {
      DrawnFromAbsent(ts, mandateId);
    }
  }

  /** Only the borrower's one open loan weighs in. */
  lemma OwedByOneLoan(b: Book, borrower: Owner, mandateId: Id)
    requires forall j, k :: OpenLoanOf(b, borrower, j) && OpenLoanOf(b, borrower, k) ==> j == k
    ensures forall k :: OpenLoanOf(b, borrower, k) ==>
              Sum(b.loans, OwedBy(borrower, mandateId)) == DrawnFrom(b.loans[k].tranches, mandateId)
    ensures (forall k :: !OpenLoanOf(b, borrower, k)) ==> Sum(b.loans, OwedBy(borrower, mandateId)) == 0
  {
    var weight := OwedBy(borrower, mandateId);
    forall k | OpenLoanOf(b, borrower, k) ensures Sum(b.loans, weight) == DrawnFrom(b.loans[k].tranches, mandateId) {
      SumRemove(b.loans, k, weight);
      forall j | j in b.loans - {k} ensures weight((b.loans - {k})[j]) == 0 {
        assert OpenLoanOf(b, borrower, j) ==> j == k;
      }
      SumZero(b.loans - {k}, weight);
    }
    if forall k :: !OpenLoanOf(b, borrower, k) {
      forall j | j in b.loans ensures weight(b.loans[j]) == 0 {
        assert !OpenLoanOf(b, borrower, j);
      }
      SumZero(b.loans, weight);
    }
  }

  /** Over all its open loans, a borrower never owes a mandate more than the mandate's per-borrower cap. */
  lemma PerBorrowerCapHolds(b: Book, borrower: Owner, mandateId: Id)
    requires Sound(b) && mandateId in b.mandates
    ensures Sum(b.loans, OwedBy(borrower, mandateId)) <= b.mandates[mandateId].cap
  {
    hide ReservedBacked, LentBacked, Sum, FreeUsdt0, TotalFxrp, OwedBy;
    forall j, k | OpenLoanOf(b, borrower, j) && OpenLoanOf(b, borrower, k) ensures j == k {
      assert OpenLoanLinked(b, j) && OpenLoanLinked(b, k);
    }
    OwedByOneLoan(b, borrower, mandateId);
    if key :| OpenLoanOf(b, borrower, key) {
      assert OpenLoanLinked(b, key);
      var ts, cap := b.loans[key].tranches, b.mandates[mandateId].cap;
      forall t | t in ts && t.mandateId == mandateId ensures t.principal <= cap {
        assert TrancheSound(b.mandates, t);
      }
      OnePartBounded(ts, mandateId, cap);
    }
  }
}
