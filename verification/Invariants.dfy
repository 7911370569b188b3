/**
  The books' invariant: every redundantly stored total agrees with the records it
  summarises, and the totals fit in 64 bits.
 */
module Invariants {
  import opened Arithmetic
  import opened MapSums
  import opened Model
  import opened Matching
  import opened Operations

  // ---- Weights -------------------------------------------------------------------

  function UsdtAvailable(): Account -> int {
    (a: Account) => a.usdt0.available
  }

  function FxrpHeld(): Account -> int {
    (a: Account) => a.fxrp.available + a.fxrp.reserved
  }

  function MandateAvailable(): Mandate -> int {
    (m: Mandate) => m.available
  }

  function MandateLent(): Mandate -> int {
    (m: Mandate) => m.lent
  }

  /** A lender's principal in one mandate, lendable or lent. */
  function StakeOf(owner: Owner): Mandate -> int {
    (m: Mandate) => if m.lender == owner then m.available + m.lent else 0
  }

  function OpenPrincipal(): Loan -> int {
    (l: Loan) => if l.Open() then l.principal else 0
  }

  /** What an open loan owes one mandate. */
  function OwedTo(mandateId: Id): Loan -> int {
    (l: Loan) => if l.Open() then DrawnFrom(l.tranches, mandateId) else 0
  }

  // ---- Totals ----------------------------------------------------------------------

  /** All USDT0 that the ledger could pay out without waiting for a repayment. */
  ghost function FreeUsdt0(b: Book): int {
    Sum(b.accounts, UsdtAvailable()) + Sum(b.mandates, MandateAvailable()) + b.protocolReserve + b.backstopUsdt0
  }

  /** All USDT0 claims: free funds plus principal out on loan. */
  ghost function ClaimsUsdt0(b: Book): int {
    FreeUsdt0(b) + b.activeDebt
  }

  ghost function TotalFxrp(b: Book): int {
    Sum(b.accounts, FxrpHeld()) + b.backstopFxrp
  }

  ghost function TotalOf(b: Book, asset: Asset): int {
    if asset == FXRP then TotalFxrp(b) else FreeUsdt0(b)
  }

  // ---- The invariant -----------------------------------------------------------------

  ghost predicate MandateSound(b: Book, id: Id)
    requires id in b.mandates
  {
    var m := b.mandates[id];
    && m.id == id
    && m.lender in b.accounts
    && 600 <= m.minApr <= 2000
    && m.cap > 0
    && (!m.active ==> m.available == 0)
  }

  /** Reserved USDT0 is exactly the lender's stake over all its mandates. */
  ghost predicate ReservedBacked(accounts: map<Owner, Account>, mandates: map<Id, Mandate>) {
    forall o :: o in accounts ==> accounts[o].usdt0.reserved == Sum(mandates, StakeOf(o))
  }

  /** Lent principal is exactly what open loans owe the mandate. */
  ghost predicate LentBacked(mandates: map<Id, Mandate>, loans: map<Id, Loan>) {
    forall id :: id in mandates ==> mandates[id].lent == Sum(loans, OwedTo(id))
  }

  ghost predicate TrancheSound(mandates: map<Id, Mandate>, t: Tranche) {
    && t.mandateId in mandates
    && var m := mandates[t.mandateId];
       t.lender == m.lender && t.apr == m.minApr && 0 < t.principal <= m.cap
  }

  ghost predicate LoanSound(mandates: map<Id, Mandate>, l: Loan) {
    && l.collateral > 0
    && l.principal == SumPrincipal(l.tranches) > 0
    && l.borrowerApr == AverageRate(l.tranches) + SPREAD
    && DistinctMandates(l.tranches)
    && (forall t :: t in l.tranches ==> TrancheSound(mandates, t))
  }

  /** An open loan is sound, stored under its own id, and is the one its borrower's account names. */
  ghost predicate OpenLoanLinked(b: Book, key: Id)
    requires key in b.loans
  {
    var l := b.loans[key];
    l.Open() ==>
      && l.id == key
      && LoanSound(b.mandates, l)
      && l.borrower in b.accounts
      && b.accounts[l.borrower].loanId == key
  }

  /** An account names an open loan of its own, whose collateral is its reserved FXRP, or none. */
  ghost predicate AccountLinked(b: Book, o: Owner)
    requires o in b.accounts
  {
    var a := b.accounts[o];
    if a.loanId == "" then a.fxrp.reserved == 0
    else
      && a.loanId in b.loans
      && var l := b.loans[a.loanId];
         l.Open() && l.borrower == o && a.fxrp.reserved == l.collateral
  }

  ghost predicate Structure(b: Book) {
    && (forall id :: id in b.mandates ==> MandateSound(b, id))
    && ReservedBacked(b.accounts, b.mandates)
    && LentBacked(b.mandates, b.loans)
    && "" !in b.loans
    && (forall key :: key in b.loans ==> OpenLoanLinked(b, key))
    && (forall o :: o in b.accounts ==> AccountLinked(b, o))
    && b.activeDebt == Sum(b.loans, OpenPrincipal()) == Sum(b.mandates, MandateLent())
  }

  ghost predicate Bounded(b: Book) {
    ClaimsUsdt0(b) <= MAX64 && TotalFxrp(b) <= MAX64
  }

  ghost predicate Sound(b: Book) {
    Structure(b) && Bounded(b)
  }

  ghost predicate IdleMandatesEmpty(b: Book) {
    forall id :: id in b.mandates && !b.mandates[id].active ==> b.mandates[id].available == 0
  }

  lemma StructureIdle(b: Book)
    requires Structure(b)
    ensures IdleMandatesEmpty(b)
  {
    forall id | id in b.mandates && !b.mandates[id].active ensures b.mandates[id].available == 0 {
      assert MandateSound(b, id);
    }
  }

  lemma NewBookSound()
    ensures Sound(NEW_BOOK)
    ensures FreeUsdt0(NEW_BOOK) == TotalFxrp(NEW_BOOK) == 0
  {
    EmptyBookSound(NEW_BOOK);
  }

  lemma EmptyBookSound(b: Book)
    requires b.accounts == map[] && b.mandates == map[] && b.loans == map[]
    requires b.activeDebt == b.protocolReserve == b.backstopUsdt0 == b.backstopFxrp == 0
    ensures Sound(b)
    ensures FreeUsdt0(b) == TotalFxrp(b) == 0
  {
    EmptySums(b.accounts, UsdtAvailable(), FxrpHeld());
    EmptySums(b.mandates, MandateAvailable(), MandateLent());
    EmptySums(b.loans, OpenPrincipal(), OpenPrincipal());
  }

  lemma EmptySums<K(!new), V(!new)>(m: map<K, V>, f: V -> int, g: V -> int)
    requires m == map[]
    ensures Sum(m, f) == 0 && Sum(m, g) == 0
  {
  }

  // ---- Every stored figure is bounded by a total --------------------------------------

  lemma AvailableBounded(b: Book, o: Owner)
    requires o in b.accounts
    ensures b.accounts[o].usdt0.available <= Sum(b.accounts, UsdtAvailable()) <= FreeUsdt0(b)
  {
    SumAtLeast(b.accounts, o, UsdtAvailable());
    SumNonNegative(b.mandates, MandateAvailable());
  }

  lemma FxrpBounded(b: Book, o: Owner)
    requires o in b.accounts
    ensures b.accounts[o].fxrp.available + b.accounts[o].fxrp.reserved + b.backstopFxrp <= TotalFxrp(b)
  {
    SumAtLeast(b.accounts, o, FxrpHeld());
  }

  lemma MandateBounded(mandates: map<Id, Mandate>, id: Id)
    requires id in mandates
    ensures mandates[id].available + mandates[id].lent <= Sum(mandates, MandateAvailable()) + Sum(mandates, MandateLent())
  {
    SumAtLeast(mandates, id, MandateAvailable());
    SumAtLeast(mandates, id, MandateLent());
  }

  lemma FreeNonNegative(b: Book)
    ensures Sum(b.accounts, UsdtAvailable()) >= 0
    ensures Sum(b.mandates, MandateAvailable()) >= 0
    ensures Sum(b.mandates, MandateLent()) >= 0
    ensures Sum(b.accounts, FxrpHeld()) >= 0
    ensures 0 <= FreeUsdt0(b) <= ClaimsUsdt0(b) && 0 <= TotalFxrp(b)
  {
    SumNonNegative(b.accounts, UsdtAvailable());
    SumNonNegative(b.mandates, MandateAvailable());
    SumNonNegative(b.mandates, MandateLent());
    SumNonNegative(b.accounts, FxrpHeld());
  }

  lemma StakeBound(mandates: map<Id, Mandate>, owner: Owner, id: Id)
    requires id in mandates && mandates[id].lender == owner
    ensures mandates[id].available + mandates[id].lent <= Sum(mandates, StakeOf(owner))
  {
    SumAtLeast(mandates, id, StakeOf(owner));
  }

  lemma {:induction false} StakeSplit(mandates: map<Id, Mandate>, owner: Owner)
    ensures Sum(mandates, StakeOf(owner)) <= Sum(mandates, MandateAvailable()) + Sum(mandates, MandateLent())
    decreases |mandates|
  {
    if mandates != map[] {
      var id :| id in mandates;
      SumRemove(mandates, id, StakeOf(owner));
      SumRemove(mandates, id, MandateAvailable());
      SumRemove(mandates, id, MandateLent());
      StakeSplit(mandates - {id}, owner);
    }
  }

  lemma NoStakeWithoutAccount(b: Book, owner: Owner)
    requires Structure(b) && owner !in b.accounts
    ensures Sum(b.mandates, StakeOf(owner)) == 0
  {
    forall id | id in b.mandates ensures StakeOf(owner)(b.mandates[id]) == 0 {
      assert MandateSound(b, id);
    }
    SumZero(b.mandates, StakeOf(owner));
  }

  /** A blank account is as sound as a stored one. */
  lemma AccountReserved(b: Book, owner: Owner)
    requires Structure(b)
    ensures AccountOf(b, owner).usdt0.reserved == Sum(b.mandates, StakeOf(owner))
    ensures AccountOf(b, owner).loanId == "" ==> AccountOf(b, owner).fxrp.reserved == 0
    ensures AccountOf(b, owner).loanId != "" ==> owner in b.accounts && AccountLinked(b, owner)
  {
    if owner !in b.accounts {
      NoStakeWithoutAccount(b, owner);
    } else {
      assert AccountLinked(b, owner);
    }
  }

  lemma NothingOwedToNewMandate(b: Book, id: Id)
    requires Structure(b) && id !in b.mandates
    ensures Sum(b.loans, OwedTo(id)) == 0
  {
    forall key | key in b.loans ensures OwedTo(id)(b.loans[key]) == 0 {
      var l := b.loans[key];
      if l.Open() {
        assert OpenLoanLinked(b, key);
        forall t | t in l.tranches ensures t.mandateId != id {
          assert TrancheSound(b.mandates, t);
        }
        DrawnFromAbsent(l.tranches, id);
      }
    }
    SumZero(b.loans, OwedTo(id));
  }

  // ---- Writing one account, and one account with one of its mandates --------------------

  lemma AccountSums(b: Book, owner: Owner, a: Account)
    ensures
      var before := AccountOf(b, owner);
      && Sum(b.accounts[owner := a], UsdtAvailable())
         == Sum(b.accounts, UsdtAvailable()) - before.usdt0.available + a.usdt0.available
      && Sum(b.accounts[owner := a], FxrpHeld())
         == Sum(b.accounts, FxrpHeld()) - FxrpHeld()(before) + FxrpHeld()(a)
  {
    SumUpdate(b.accounts, owner, a, UsdtAvailable());
    SumUpdate(b.accounts, owner, a, FxrpHeld());
  }

  /** Free balances and nonces can change without touching anything else. */
  lemma PutAccountKeeps(b: Book, owner: Owner, a: Account)
    requires Structure(b)
    requires
      var before := AccountOf(b, owner);
      && a.usdt0.reserved == before.usdt0.reserved
      && a.fxrp.reserved == before.fxrp.reserved
      && a.loanId == before.loanId
    ensures Structure(PutAccount(b, owner, a))
    ensures FreeUsdt0(PutAccount(b, owner, a)) == FreeUsdt0(b) - AccountOf(b, owner).usdt0.available + a.usdt0.available
    ensures TotalFxrp(PutAccount(b, owner, a)) == TotalFxrp(b) - AccountOf(b, owner).fxrp.available + a.fxrp.available
  {
    var next := PutAccount(b, owner, a);
    AccountSums(b, owner, a);
    AccountReserved(b, owner);
    forall id | id in next.mandates ensures MandateSound(next, id) {
      assert MandateSound(b, id);
    }
    forall key | key in next.loans ensures OpenLoanLinked(next, key) {
      assert OpenLoanLinked(b, key);
    }
    forall o | o in next.accounts ensures AccountLinked(next, o) {
      assert o != owner ==> AccountLinked(b, o);
    }
  }

  /** What stays fixed when a mandate's liquidity changes. */
  predicate SameTerms(m: Mandate, m': Mandate) {
    m' == m.(available := m'.available, lent := m'.lent, active := m'.active, interestEarned := m'.interestEarned)
  }

  lemma MandateSums(mandates: map<Id, Mandate>, m: Mandate, owner: Owner)
    ensures
      var before := if m.id in mandates then mandates[m.id] else m.(available := 0, lent := 0);
      && Sum(mandates[m.id := m], MandateAvailable()) == Sum(mandates, MandateAvailable()) - before.available + m.available
      && Sum(mandates[m.id := m], MandateLent()) == Sum(mandates, MandateLent()) - before.lent + m.lent
      && Sum(mandates[m.id := m], StakeOf(owner)) == Sum(mandates, StakeOf(owner)) - StakeOf(owner)(before) + StakeOf(owner)(m)
  {
    SumUpdate(mandates, m.id, m, MandateAvailable());
    SumUpdate(mandates, m.id, m, MandateLent());
    SumUpdate(mandates, m.id, m, StakeOf(owner));
  }

  /** A stake change: lender `owner` gets record `a`, and its mandate becomes `m` with the same lent principal. */
  ghost predicate StakeChange(b: Book, owner: Owner, a: Account, m: Mandate) {
    && m.lender == owner && 600 <= m.minApr <= 2000 && m.cap > 0 && (!m.active ==> m.available == 0)
    && (if m.id in b.mandates then SameTerms(b.mandates[m.id], m) && m.lent == b.mandates[m.id].lent else m.lent == 0)
    && var before := AccountOf(b, owner);
       && a.fxrp == before.fxrp && a.loanId == before.loanId
       && a.usdt0.reserved - before.usdt0.reserved == m.available - PriorAvailable(b, m.id)
  }

  function PriorAvailable(b: Book, id: Id): u64 {
    if id in b.mandates then b.mandates[id].available else 0
  }

  lemma StakeChangeReserved(b: Book, owner: Owner, a: Account, m: Mandate)
    requires Structure(b) && StakeChange(b, owner, a, m)
    ensures ReservedBacked(b.accounts[owner := a], b.mandates[m.id := m])
  {
    AccountReserved(b, owner);
    var accounts := b.accounts[owner := a];
    forall o | o in accounts ensures accounts[o].usdt0.reserved == Sum(b.mandates[m.id := m], StakeOf(o)) {
      MandateSums(b.mandates, m, o);
    }
  }

  lemma StakeChangeLent(b: Book, owner: Owner, a: Account, m: Mandate)
    requires Structure(b) && StakeChange(b, owner, a, m)
    ensures LentBacked(b.mandates[m.id := m], b.loans)
    ensures Sum(b.mandates[m.id := m], MandateLent()) == Sum(b.mandates, MandateLent())
  {
    MandateSums(b.mandates, m, owner);
    if m.id !in b.mandates {
      NothingOwedToNewMandate(b, m.id);
    }
  }

  lemma StakeChangeLinks(b: Book, owner: Owner, a: Account, m: Mandate)
    requires Structure(b) && StakeChange(b, owner, a, m)
    ensures
      var next := PutMandate(PutAccount(b, owner, a), m);
      && (forall id :: id in next.mandates ==> MandateSound(next, id))
      && (forall key :: key in next.loans ==> OpenLoanLinked(next, key))
      && (forall o :: o in next.accounts ==> AccountLinked(next, o))
  {
    var next := PutMandate(PutAccount(b, owner, a), m);
    forall id | id in next.mandates ensures MandateSound(next, id) {
      assert id in b.mandates ==> MandateSound(b, id);
    }
    forall key | key in next.loans ensures OpenLoanLinked(next, key) {
      assert OpenLoanLinked(b, key);
      LoanSoundUnderNewTerms(b.mandates, next.mandates, b.loans[key]);
    }
    AccountReserved(b, owner);
    forall o | o in next.accounts ensures AccountLinked(next, o) {
      assert o != owner ==> AccountLinked(b, o);
    }
  }

  /**
    A lender and one of its mandates change together: the reserved balance moves by
    exactly the change of the mandate's stake, and lent principal stays.
   */
  lemma StakeChangeKeeps(b: Book, owner: Owner, a: Account, m: Mandate)
    requires Structure(b) && StakeChange(b, owner, a, m)
    ensures
      var next := PutMandate(PutAccount(b, owner, a), m);
      && Structure(next)
      && FreeUsdt0(next) == FreeUsdt0(b) - AccountOf(b, owner).usdt0.available + a.usdt0.available
                            - PriorAvailable(b, m.id) + m.available
      && TotalFxrp(next) == TotalFxrp(b)
  {
    StakeChangeReserved(b, owner, a, m);
    StakeChangeLent(b, owner, a, m);
    StakeChangeLinks(b, owner, a, m);
    AccountSums(b, owner, a);
    MandateSums(b.mandates, m, owner);
  }

  /** A loan stays sound while every mandate keeps its terms. */
  lemma LoanSoundUnderNewTerms(mandates: map<Id, Mandate>, mandates': map<Id, Mandate>, l: Loan)
    requires forall id :: id in mandates ==> id in mandates' && SameTerms(mandates[id], mandates'[id])
    ensures LoanSound(mandates, l) ==> LoanSound(mandates', l)
  {
    if LoanSound(mandates, l) {
      forall t | t in l.tranches ensures TrancheSound(mandates', t) {
        assert TrancheSound(mandates, t);
      }
    }
  }

  /** Totals and structure do not depend on the log, the processed set, the price or the activities. */
  lemma LogKeeps(b: Book, processed: set<Id>, activities: seq<Activity>, price: Price)
    ensures
      var next := b.(processed := processed, activities := activities, price := price);
      && (Structure(b) ==> Structure(next))
      && FreeUsdt0(next) == FreeUsdt0(b)
      && TotalFxrp(next) == TotalFxrp(b)
  {
    var next := b.(processed := processed, activities := activities, price := price);
    if Structure(b) {
      forall id | id in next.mandates ensures MandateSound(next, id) {
        assert MandateSound(b, id);
      }
      forall key | key in next.loans ensures OpenLoanLinked(next, key) {
        assert OpenLoanLinked(b, key);
      }
      forall o | o in next.accounts ensures AccountLinked(next, o) {
        assert AccountLinked(b, o);
      }
    }
  }

  /** The same for the two USDT0 pools that no record mirrors. */
  lemma PoolsKeep(b: Book, reserve: u64, backstop: u64)
    requires Structure(b)
    ensures
      var next := b.(protocolReserve := reserve, backstopUsdt0 := backstop);
      && Structure(next)
      && FreeUsdt0(next) == FreeUsdt0(b) - b.protocolReserve - b.backstopUsdt0 + reserve + backstop
      && TotalFxrp(next) == TotalFxrp(b)
  {
    var next := b.(protocolReserve := reserve, backstopUsdt0 := backstop);
    forall id | id in next.mandates ensures MandateSound(next, id) {
      assert MandateSound(b, id);
    }
    forall key | key in next.loans ensures OpenLoanLinked(next, key) {
      assert OpenLoanLinked(b, key);
    }
    forall o | o in next.accounts ensures AccountLinked(next, o) {
      assert AccountLinked(b, o);
    }
  }
}
