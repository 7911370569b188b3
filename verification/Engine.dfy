/**
  The engine object: its durable store, its in-memory state and the signal that is
  closed when no anchor is pending. Every mutation works on a copy of the state and
  becomes visible only through `Commit`.
 */
module Engine {
  import opened Outcomes
  import opened Arithmetic
  import opened Model
  import opened Ordering
  import opened Loans
  import opened Selection
  import opened Matching
  import opened Operations
  import opened Computation

  /** A Go channel used as a one-shot signal; closing it twice would panic. */
  class Signal {
    var closed: bool

    constructor ()
      ensures !closed
    {
      closed := false;
    }

    method Close()
      requires !closed
      modifies this
      ensures closed
    {
      closed := true;
    }
  }

  /** The journal's hash chain, idealised: a hash is the record it was computed from. */
  datatype JournalHash = Start | Link(sequence: nat, kind: Kind, stateRoot: Root, previous: JournalHash)

  datatype JournalRecord = JournalRecord(sequence: nat, kind: Kind, stateRoot: Root, previousHash: JournalHash, hash: JournalHash)

  function HashOf(sequence: nat, kind: Kind, stateRoot: Root, previous: JournalHash): JournalHash {
    Link(sequence, kind, stateRoot, previous)
  }

  /** A record carries its place in the journal, its predecessor's hash and its own hash over both. */
  predicate LinkedAt(journal: seq<JournalRecord>, i: nat)
    requires i < |journal|
  {
    var r := journal[i];
    && r.sequence == i + 1
    && r.previousHash == (if i == 0 then Start else journal[i - 1].hash)
    && r.hash == HashOf(r.sequence, r.kind, r.stateRoot, r.previousHash)
  }

  ghost predicate Chained(journal: seq<JournalRecord>) {
    forall i: nat :: i < |journal| ==> LinkedAt(journal, i)
  }

  lemma ChainedPrefix(journal: seq<JournalRecord>, n: nat)
    requires Chained(journal) && n <= |journal|
    ensures Chained(journal[..n])
  {
    forall i: nat | i < n ensures LinkedAt(journal[..n], i) {
      assert LinkedAt(journal, i);
    }
  }

  /** Two chained journals whose last records have the same hash are identical: history cannot be rewritten. */
  lemma {:induction false} EqualHeadsEqualJournals(a: seq<JournalRecord>, b: seq<JournalRecord>)
    requires Chained(a) && Chained(b) && |a| > 0 && |b| > 0
    requires a[|a| - 1].hash == b[|b| - 1].hash
    ensures a == b
    decreases |a|
  {
    var n := |a| - 1;
    assert LinkedAt(a, n) && LinkedAt(b, |b| - 1);
    assert |a| == |b|;
    if n > 0 {
      ChainedPrefix(a, n);
      ChainedPrefix(b, n);
      EqualHeadsEqualJournals(a[..n], b[..n]);
    }
    assert a == a[..n] + [a[n]] && b == b[..n] + [b[n]];
  }

  lemma ChainedAppend(journal: seq<JournalRecord>, r: JournalRecord)
    requires Chained(journal) && LinkedAt(journal + [r], |journal|)
    ensures Chained(journal + [r])
  {
    forall i: nat | i < |journal| + 1 ensures LinkedAt(journal + [r], i) {
      assert i < |journal| ==> LinkedAt(journal, i);
    }
  }

  /** The encrypted database: the current state, if any was ever written, and the journal. */
  class Store {
    var current: Option<State>
    var journal: seq<JournalRecord>

    constructor ()
      ensures current == None && journal == []
    {
      current := None;
      journal := [];
    }

    function Loaded(): State
      reads this
    {
      if current.Some? then current.value else NEW_STATE
    }

    ghost predicate Valid()
      reads this
    {
      && Chained(journal)
      && |journal| == Loaded().sequence
      && (|journal| > 0 ==> journal[|journal| - 1].stateRoot == Loaded().root)
    }

    /** One transaction: a journal record and the new state, or nothing at all. */
    method Commit(state: State, kind: Kind, available: bool) returns (ok: bool)
      requires Valid() && state.sequence == Loaded().sequence + 1
      modifies this
      ensures ok == available
      ensures Valid()
      ensures ok ==> Loaded() == state && |journal| == |old(journal)| + 1 && journal[..|old(journal)|] == old(journal)
      ensures ok ==> journal[|old(journal)|].kind == kind && journal[|old(journal)|].stateRoot == state.root
      ensures !ok ==> current == old(current) && journal == old(journal)
    {
      if !available {
        return false;
      }
      var previousHash := Start;
      if |journal| > 0 {
        previousHash := journal[|journal| - 1].hash;
      }
      var hash := HashOf(state.sequence, kind, state.root, previousHash);
      var record := JournalRecord(state.sequence, kind, state.root, previousHash, hash);
      ChainedAppend(journal, record);
      journal := journal + [record];
      current := Some(state);
      return true;
    }

    method SaveState(state: State, available: bool) returns (ok: bool)
      requires Valid() && state.sequence == Loaded().sequence && state.root == Loaded().root
      modifies this
      ensures ok == available
      ensures Valid() && journal == old(journal)
      ensures Loaded() == if ok then state else old(Loaded())
    {
      if !available {
        return false;
      }
      current := Some(state);
      return true;
    }
  }

  /** A pending anchor describes the step that led to the current sequence and root. */
  ghost predicate PendingMatches(s: State) {
    s.pending.Some? ==>
      && s.pending.value.nextSequence == s.sequence
      && s.pending.value.nextRoot == s.root
      && s.pending.value.previousSequence + 1 == s.sequence
  }

  /** The outcome of a mutation whose edit of the book is `result`, when the database is or is not available. */
  ghost predicate Mutated(
    before: State, after: State, kind: Kind, operationId: Id, result: Result<Book>, available: bool, err: Option<Error>)
  {
    if before.pending.Some? then
      err in {Some(AnchorPending), Some(InvalidRequest), Some(StalePrice)} && after == before
    else match result
      case Err(e) => err == Some(e) && after == before
      case Ok(next) =>
        if available then err == None && after == Committed(before, kind, operationId, next)
        else err == Some(StorageFailure) && after == before
  }

  /** The engine and its journal as other threads have left them when a waiting call is woken. */
  datatype Interlude = Interlude(state: State, journal: seq<JournalRecord>)
  {
    ghost predicate Consistent() {
      && Chained(journal) && |journal| == state.sequence
      && (|journal| > 0 ==> journal[|journal| - 1].stateRoot == state.root)
      && PendingMatches(state)
    }
  }

  /** What others do during the waits of one call. */
  ghost predicate AllConsistent(waits: seq<Interlude>) {
    forall w :: w in waits ==> w.Consistent()
  }

  /**
    Where the wait at the start of `mutate` ends. The call is woken once for each interlude and looks again; it goes on
    when no anchor is pending, and gives up when its time is over, which is after the last interlude.
   */
  function Entered(s: State, waits: seq<Interlude>): State
    decreases |waits|
  {
    if s.pending == None || waits == [] then s else Entered(waits[0].state, waits[1..])
  }

  /** The state that a call looks at for the `k`th time. */
  function Seen(s: State, waits: seq<Interlude>, k: nat): State
    requires k <= |waits|
  {
    if k == 0 then s else waits[k - 1].state
  }

  /** The wait ends at the first look that finds no anchor pending, or at the last. */
  predicate StopsAt(s: State, waits: seq<Interlude>, k: nat, end: State) {
    && k <= |waits| && end == Seen(s, waits, k)
    && (forall j: nat :: j < k ==> Seen(s, waits, j).pending.Some?)
    && (end.pending == None || k == |waits|)
  }

  class Engine {
    const store: Store
    var state: State
    var anchorCleared: Signal

    ghost predicate Valid()
      reads this, store, anchorCleared
    {
      && store.Valid()
      && state == store.Loaded()
      && PendingMatches(state)
      && (anchorCleared.closed <==> state.pending == None)
    }

    /** Start, or restart after a crash: load the durable state and rebuild the signal. */
    constructor (store: Store)
      requires store.Valid() && PendingMatches(store.Loaded())
      ensures Valid() && this.store == store && state == store.Loaded() && fresh(anchorCleared)
    {
      this.store := store;
      var s := store.Loaded();
      state := s;
      var signal := new Signal();
      if s.pending == None {
        signal.Close();
      }
      anchorCleared := signal;
    }

    /** The loop at the start of `mutate`. While it waits it does not hold the lock. */
    method AwaitAnchor(waits: seq<Interlude>)
      requires Valid() && AllConsistent(waits)
      modifies this, store
      ensures Valid() && state == Entered(old(state), waits)
      ensures exists k: nat :: StopsAt(old(state), waits, k, state)
      ensures anchorCleared == old(anchorCleared) || fresh(anchorCleared)
      ensures old(state).pending == None ==> store.current == old(store.current) && store.journal == old(store.journal)
    {
      var k := 0;
      while state.pending.Some? && k < |waits|
        invariant 0 <= k <= |waits|
        invariant Valid() && Entered(state, waits[k..]) == Entered(old(state), waits)
        invariant state == Seen(old(state), waits, k)
        invariant forall j: nat :: j < k ==> Seen(old(state), waits, j).pending.Some?
        invariant anchorCleared == old(anchorCleared) || fresh(anchorCleared)
        invariant old(state).pending == None ==>
                    state == old(state) && store.current == old(store.current) && store.journal == old(store.journal)
      {
        assert waits[k] in waits;
        Interrupt(waits[k]);
        k := k + 1;
      }
      assert StopsAt(old(state), waits, k, state);
    }

    /** Another thread's turn. */
    method Interrupt(w: Interlude)
      requires Valid() && w.Consistent()
      modifies this, store
      ensures Valid() && state == w.state && fresh(anchorCleared)
    {
      store.current := Some(w.state);
      store.journal := w.journal;
      state := w.state;
      var signal := new Signal();
      if w.state.pending == None {
        signal.Close();
      }
      anchorCleared := signal;
    }

    /** The end of `mutate`: persist the edited copy, then make it current with a new open signal. */
    method Commit(kind: Kind, operationId: Id, next: Book, available: bool) returns (err: Option<Error>)
      requires Valid() && state.pending == None
      modifies this, store
      ensures Valid()
      ensures Mutated(old(state), state, kind, operationId, Ok(next), available, err)
      ensures err == None ==> fresh(anchorCleared)
      ensures err != None ==> anchorCleared == old(anchorCleared)
    {
      var committed := Committed(state, kind, operationId, next);
      var nextAnchorCleared := new Signal();
      var ok := store.Commit(committed, kind, available);
      if !ok {
        return Some(StorageFailure);
      }
      state := committed;
      anchorCleared := nextAnchorCleared;
      return None;
    }

    method ConfirmAnchor(sequence: nat, root: Root, available: bool) returns (err: Option<Error>)
      requires Valid()
      modifies this, store, anchorCleared
      ensures Valid() && store.journal == old(store.journal) && anchorCleared == old(anchorCleared)
      ensures old(state.pending) == None ==>
        state == old(state) && (err == None <==> sequence == state.sequence && root == state.root)
      ensures old(state.pending).Some? ==>
        var matches := sequence == old(state.sequence) && root == old(state.root);
        && (err == None <==> matches && available)
        && state == if err == None then old(state).(pending := None) else old(state)
    {
      if state.pending == None {
        if state.sequence == sequence && state.root == root {
          return None;
        }
        return Some(NoAnchorPending);
      }
      if state.pending.value.nextSequence != sequence || state.pending.value.nextRoot != root {
        return Some(AnchorMismatch);
      }
      var next := state.(pending := None);
      var ok := store.SaveState(next, available);
      if !ok {
        return Some(StorageFailure);
      }
      state := next;
      anchorCleared.Close();
      return None;
    }

    method OpenAccount(owner: Owner, operationId: Id, nonce: u64, available: bool, waits: seq<Interlude>)
      returns (err: Option<Error>)
      requires Valid() && AllConsistent(waits)
      modifies this, store
      ensures Valid()
      ensures
        var entered := Entered(old(state), waits);
        Mutated(entered, state, OpenAccountKind, operationId,
                Operations.OpenAccount(entered.book, owner, operationId, nonce), available, err)
    {
      AwaitAnchor(waits);
      if state.pending.Some? {
        return Some(AnchorPending);
      }
      var next := state.book;
      if operationId in next.processed {
        return Some(Duplicate);
      }
      var a := ConsumeNonce(AccountOf(next, owner), nonce);
      if a.Err? {
        return Some(a.error);
      }
      next := PutAccount(next, owner, a.value);
      next := Mark(next, operationId);
      err := Commit(OpenAccountKind, operationId, next, available);
    }

    method Deposit(owner: Owner, asset: Asset, amount: u64, depositId: Id, now: Time, available: bool,
        waits: seq<Interlude>)
      returns (err: Option<Error>)
      requires Valid() && AllConsistent(waits)
      modifies this, store
      ensures Valid()
      ensures
        var entered := Entered(old(state), if amount == 0 then [] else waits);
        Mutated(entered, state, DepositKind, depositId,
                Operations.Deposit(entered.book, owner, asset, amount, depositId, now), available, err)
    {
      if amount == 0 {
        return Some(InvalidRequest);
      }
      AwaitAnchor(waits);
      if state.pending.Some? {
        return Some(AnchorPending);
      }
      var next := state.book;
      if depositId in next.processed {
        return Some(Duplicate);
      }
      var a := AccountOf(next, owner);
      var balance := a.Get(asset);
      if MAX64 - balance.available < amount {
        return Some(BalanceOverflow);
      }
      balance := balance.(available := WrapAdd(balance.available, amount));
      next := PutAccount(next, owner, a.Set(asset, balance));
      next := Mark(next, depositId);
      next := next.(activities := next.activities + [Activity(depositId, owner, true, asset, amount, now)]);
      err := Commit(DepositKind, depositId, next, available);
    }

    method SeedBackstop(amount: u64, operationId: Id, available: bool, waits: seq<Interlude>)
      returns (err: Option<Error>)
      requires Valid() && AllConsistent(waits)
      modifies this, store
      ensures Valid()
      ensures
        var entered := Entered(old(state), if amount == 0 then [] else waits);
        Mutated(entered, state, BackstopDepositKind, operationId,
                Operations.SeedBackstop(entered.book, amount, operationId), available, err)
    {
      if amount == 0 {
        return Some(InvalidRequest);
      }
      AwaitAnchor(waits);
      if state.pending.Some? {
        return Some(AnchorPending);
      }
      var next := state.book;
      if operationId in next.processed {
        return Some(Duplicate);
      }
      if MAX64 - next.backstopUsdt0 < amount {
        return Some(BalanceOverflow);
      }
      next := next.(backstopUsdt0 := WrapAdd(next.backstopUsdt0, amount));
      next := Mark(next, operationId);
      err := Commit(BackstopDepositKind, operationId, next, available);
    }

    method SetMandate(
      owner: Owner, id: Id, amount: u64, minApr: u32, termMask: u8, cap: u64, nonce: u64, now: Time, available: bool,
      waits: seq<Interlude>)
      returns (err: Option<Error>)
      requires Valid() && AllConsistent(waits)
      modifies this, store
      ensures Valid()
      ensures
        var entered := Entered(old(state), if !ValidMandate(amount, minApr, termMask, cap) then [] else waits);
        Mutated(entered, state, SetMandateKind, id,
                Operations.SetMandate(entered.book, owner, id, amount, minApr, termMask, cap, nonce, now),
                available, err)
    {
      if !ValidMandate(amount, minApr, termMask, cap) {
        return Some(InvalidRequest);
      }
      AwaitAnchor(waits);
      if state.pending.Some? {
        return Some(AnchorPending);
      }
      var next := state.book;
      if id in next.mandates {
        return Some(Duplicate);
      }
      var a := ConsumeNonce(AccountOf(next, owner), nonce);
      if a.Err? {
        return Some(a.error);
      }
      var balance := a.value.usdt0;
      if balance.available < amount {
        return Some(InsufficientBalance);
      }
      balance := balance.(available := WrapSub(balance.available, amount));
      balance := balance.(reserved := WrapAdd(balance.reserved, amount));
      next := PutAccount(next, owner, a.value.(usdt0 := balance));
      next := PutMandate(next, Mandate(id, owner, amount, minApr, termMask, cap, true, now, 0, 0));
      err := Commit(SetMandateKind, id, next, available);
    }

    method CancelMandate(owner: Owner, id: Id, nonce: u64, available: bool, waits: seq<Interlude>)
      returns (err: Option<Error>)
      requires Valid() && AllConsistent(waits)
      modifies this, store
      ensures Valid()
      ensures
        var entered := Entered(old(state), waits);
        Mutated(entered, state, CancelMandateKind, id,
                Operations.CancelMandate(entered.book, owner, id, nonce), available, err)
    {
      AwaitAnchor(waits);
      if state.pending.Some? {
        return Some(AnchorPending);
      }
      var next := state.book;
      if id !in next.mandates || next.mandates[id].lender != owner || !next.mandates[id].active {
        return Some(MandateUnavailable);
      }
      var m := next.mandates[id];
      var a := ConsumeNonce(AccountOf(next, owner), nonce);
      if a.Err? {
        return Some(a.error);
      }
      var balance := a.value.usdt0;
      balance := balance.(reserved := WrapSub(balance.reserved, m.available));
      balance := balance.(available := WrapAdd(balance.available, m.available));
      next := PutAccount(next, owner, a.value.(usdt0 := balance));
      m := m.(available := 0);
      m := m.(active := false);
      next := next.(mandates := next.mandates[id := m]);
      err := Commit(CancelMandateKind, id, next, available);
    }

    method QuoteAtPrice(req: QuoteRequest, observed: Price, now: Time, order: seq<Id>,
        hash: Hash) returns (r: Result<Quote>)
      ensures r == Matching.QuoteAtPrice(state.book, req, observed, now, order, hash)
    {
      if !FreshObservation(observed, now) {
        return Err(StalePrice);
      }
      r := ComputeQuote(state.book.(price := observed), req, now, order, hash);
    }

    method AcceptQuote(
      q: Quote, loanId: Id, nonce: u64, observed: Option<Price>, now: Time, order: seq<Id>, hash: Hash, available: bool,
      waits: seq<Interlude>)
      returns (err: Option<Error>)
      requires Valid() && AllConsistent(waits)
      modifies this, store
      ensures Valid()
      ensures
        var entered := Entered(old(state), waits);
        Mutated(entered, state, BorrowAcceptKind, q.requestId,
                Operations.AcceptQuote(entered.book, q, loanId, nonce, observed, now, order, hash), available, err)
    {
      hide MakeQuote, Allocate, UpdateRisk;
      AwaitAnchor(waits);
      if state.pending.Some? {
        return Some(AnchorPending);
      }
      var next := state.book;
      if q.requestId in next.processed {
        return Some(Duplicate);
      }
      if observed.Some? {
        if !FreshObservation(observed.value, now) {
          return Some(StalePrice);
        }
        next := next.(price := observed.value);
      }
      var recomputed := ComputeQuote(next, RequestOf(q), now, order, hash);
      if recomputed.Err? || !SameQuote(recomputed.value, q) {
        return Some(LiquidityChanged);
      }
      var a := ConsumeNonce(AccountOf(next, q.borrower), nonce);
      if a.Err? {
        return Some(a.error);
      }
      if a.value.loanId != "" {
        return Some(LoanAlreadyOpen);
      }
      var fxrp := a.value.fxrp;
      if fxrp.available < q.collateral {
        return Some(InsufficientBalance);
      }
      fxrp := fxrp.(available := WrapSub(fxrp.available, q.collateral));
      fxrp := fxrp.(reserved := WrapAdd(fxrp.reserved, q.collateral));
      var mandates := ComputeAllocation(next.mandates, q.tranches);
      if mandates.Err? {
        return Some(mandates.error);
      }
      var loan := ComputeUpdateRisk(NewLoan(q, loanId, now), next.price.xrpUsdE6, now);
      if loan.Err? {
        return Some(loan.error);
      }
      var activeDebt := CheckedAdd(next.activeDebt, q.amount);
      if activeDebt.Err? {
        return Some(activeDebt.error);
      }
      next := next.(accounts := next.accounts[q.borrower := a.value.(fxrp := fxrp, loanId := loanId)],
                    mandates := mandates.value,
                    loans := next.loans[loanId := loan.value],
                    activeDebt := activeDebt.value);
      next := Mark(next, q.requestId);
      err := Commit(BorrowAcceptKind, q.requestId, next, available);
    }

    method RiskTick(price: Price, operationId: Id, now: Time, order: seq<Id>, available: bool, waits: seq<Interlude>)
      returns (err: Option<Error>)
      requires Valid() && AllConsistent(waits)
      modifies this, store
      ensures Valid()
      ensures
        var entered := Entered(old(state), if !FreshObservation(price, now) then [] else waits);
        Mutated(entered, state, RiskTickKind, operationId,
                Operations.RiskTick(entered.book, price, operationId, now, order), available, err)
    {
      if !FreshObservation(price, now) {
        return Some(StalePrice);
      }
      AwaitAnchor(waits);
      if state.pending.Some? {
        return Some(AnchorPending);
      }
      var next := state.book;
      if operationId in next.processed {
        return Some(Duplicate);
      }
      next := next.(price := price);
      var ticked := ComputeTick(next, order, now);
      if ticked.Err? {
        return Some(ticked.error);
      }
      next := Mark(ticked.value, operationId);
      err := Commit(RiskTickKind, operationId, next, available);
    }

    method Repay(owner: Owner, amount: u64, operationId: Id, nonce: u64, now: Time, available: bool,
      waits: seq<Interlude>)
      returns (err: Option<Error>)
      requires Valid() && AllConsistent(waits)
      modifies this, store
      ensures Valid()
      ensures
        var entered := Entered(old(state), waits);
        Mutated(entered, state, ApplyRepaymentKind, operationId,
                Operations.Repay(entered.book, owner, amount, operationId, nonce, now), available, err)
    {
      hide DistributeRepayment, Accrue, ReleaseCollateral, CloseLoan;
      AwaitAnchor(waits);
      if state.pending.Some? {
        return Some(AnchorPending);
      }
      var next := state.book;
      if operationId in next.processed {
        return Some(Duplicate);
      }
      var a := ConsumeNonce(AccountOf(next, owner), nonce);
      if a.Err? {
        return Some(a.error);
      }
      if a.value.loanId !in next.loans {
        return Some(NoActiveLoan);
      }
      var l := ComputeAccrue(next.loans[a.value.loanId], now);
      if l.Err? {
        return Some(l.error);
      }
      var due := Debt(l.value);
      if due.Err? {
        return Some(due.error);
      }
      if amount < due.value {
        return Some(RepaymentTooSmall);
      }
      var balance := a.value.usdt0;
      if balance.available < due.value {
        return Some(InsufficientBalance);
      }
      balance := balance.(available := WrapSub(balance.available, due.value));
      next := PutAccount(next, owner, a.value.(usdt0 := balance));
      var interest := CheckedSub(due.value, l.value.principal);
      if interest.Err? {
        return Some(interest.error);
      }
      var paid := ComputeDistribution(next, l.value, interest.value);
      if paid.Err? {
        return Some(paid.error);
      }
      next := ReleaseCollateral(paid.value, owner, l.value, 0);
      next := CloseLoan(next, a.value.loanId, l.value, owner, Closed);
      next := Mark(next, operationId);
      err := Commit(ApplyRepaymentKind, operationId, next, available);
    }

    method Liquidate(loanId: Id, operationId: Id, available: bool, waits: seq<Interlude>) returns (err: Option<Error>)
      requires Valid() && AllConsistent(waits)
      modifies this, store
      ensures Valid()
      ensures
        var entered := Entered(old(state), waits);
        Mutated(entered, state, LiquidateKind, operationId,
                Operations.Liquidate(entered.book, loanId, operationId), available, err)
    {
      hide LiquidateInState;
      AwaitAnchor(waits);
      if state.pending.Some? {
        return Some(AnchorPending);
      }
      var next := state.book;
      if operationId in next.processed {
        return Some(Duplicate);
      }
      if loanId !in next.loans || next.loans[loanId].status != Liquidatable {
        return Some(NotLiquidatable);
      }
      var liquidated := ComputeLiquidation(next, loanId, next.loans[loanId]);
      if liquidated.Err? {
        return Some(liquidated.error);
      }
      next := Mark(liquidated.value, operationId);
      err := Commit(LiquidateKind, operationId, next, available);
    }

    method Withdraw(
      owner: Owner, asset: Asset, amount: u64, operationId: Id, nonce: u64, now: Time, order: seq<Id>, available: bool,
      waits: seq<Interlude>)
      returns (err: Option<Error>)
      requires Valid() && AllConsistent(waits)
      modifies this, store
      ensures Valid()
      ensures
        var entered := Entered(old(state), if amount == 0 then [] else waits);
        Mutated(entered, state, WithdrawRequestKind, operationId,
                Operations.Withdraw(entered.book, owner, asset, amount, operationId, nonce, now, order),
                available, err)
    {
      hide Drain, Retire, Select, Sort;
      if amount == 0 {
        return Some(InvalidRequest);
      }
      AwaitAnchor(waits);
      if state.pending.Some? {
        return Some(AnchorPending);
      }
      var next := state.book;
      if operationId in next.processed {
        return Some(Duplicate);
      }
      var a := ConsumeNonce(AccountOf(next, owner), nonce);
      if a.Err? {
        return Some(a.error);
      }
      var balance := a.value.Get(asset);
      var remaining := amount;
      if balance.available >= remaining {
        balance := balance.(available := WrapSub(balance.available, remaining));
        remaining := 0;
      } else {
        remaining := remaining - balance.available;
        balance := balance.(available := 0);
      }
      if remaining > 0 {
        if asset != USDT0 {
          return Some(InsufficientBalance);
        }
        var list := ComputeSelection(next.mandates, order, LentBy(owner));
        list := Sort(list, ByAgeOrder());
        var d := ComputeDrain(list, Drained(next.mandates, balance.reserved, remaining));
        if d.remaining > 0 {
          return Some(InsufficientBalance);
        }
        balance := balance.(reserved := d.reserved);
        var mandates := ComputeRetire(d.mandates, list);
        next := next.(mandates := mandates);
      }
      next := PutAccount(next, owner, a.value.Set(asset, balance));
      next := LogWithdrawal(next, owner, asset, amount, operationId, now);
      err := Commit(WithdrawRequestKind, operationId, next, available);
    }

    method WithdrawFromMandate(
      owner: Owner, mandateId: Id, amount: u64, operationId: Id, nonce: u64, now: Time, available: bool,
      waits: seq<Interlude>)
      returns (err: Option<Error>)
      requires Valid() && AllConsistent(waits)
      modifies this, store
      ensures Valid()
      ensures
        var entered := Entered(old(state), if amount == 0 then [] else waits);
        Mutated(entered, state, WithdrawFromMandateKind, operationId,
                Operations.WithdrawFromMandate(entered.book, owner, mandateId, amount, operationId, nonce, now),
                available, err)
    {
      if amount == 0 {
        return Some(InvalidRequest);
      }
      AwaitAnchor(waits);
      if state.pending.Some? {
        return Some(AnchorPending);
      }
      var next := state.book;
      if operationId in next.processed {
        return Some(Duplicate);
      }
      if mandateId !in next.mandates || next.mandates[mandateId].lender != owner || !next.mandates[mandateId].active {
        return Some(MandateUnavailable);
      }
      var m := next.mandates[mandateId];
      var a := ConsumeNonce(AccountOf(next, owner), nonce);
      if a.Err? {
        return Some(a.error);
      }
      if m.available < amount {
        return Some(InsufficientBalance);
      }
      var balance := a.value.usdt0;
      balance := balance.(reserved := WrapSub(balance.reserved, amount));
      m := m.(available := WrapSub(m.available, amount));
      if m.available == 0 && m.lent == 0 {
        m := m.(active := false);
      }
      next := PutAccount(next, owner, a.value.(usdt0 := balance));
      next := next.(mandates := next.mandates[mandateId := m]);
      next := LogWithdrawal(next, owner, USDT0, amount, operationId, now);
      err := Commit(WithdrawFromMandateKind, operationId, next, available);
    }
  }
}
