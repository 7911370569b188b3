/**
  Which credits the ledger refuses. Deposits share the processed set with the operations that
  users name themselves, so a credit can find its id taken by something that is no credit.
 */
module Credits {
  import opened Outcomes
  import opened Arithmetic
  import opened MapSums
  import opened Model
  import opened Invariants
  import opened Conservation
  import opened Ledger
  import opened Settlements
  import opened Vault
  import opened Handlers
  import opened Protocol
  import opened Runs

  predicate TakenAt(h: seq<Entry>, i: nat, id: Id) {
    i < |h| && Marks(h[i].op) && !IsCredit(h[i].op) && OperationId(h[i].op) == id
  }

  /** Some operation that is no credit has left `id` in the processed set. */
  predicate TakenByAnother(h: seq<Entry>, id: Id) {
    exists i: nat :: i < |h| && TakenAt(h, i, id)
  }

  lemma MarkedIsBookedOrTaken(h: seq<Entry>, id: Id)
    ensures id in MarkedIds(h) <==> id in BookedIds(h) || TakenByAnother(h, id)
  {
    if id in MarkedIds(h) {
      var i :| 0 <= i < |h| && Marks(h[i].op) && OperationId(h[i].op) == id;
      assert IsCredit(h[i].op) || TakenAt(h, i, id);
    }
    if id in BookedIds(h) {
      var i :| 0 <= i < |h| && IsCredit(h[i].op) && h[i].op.operationId == id;
      assert Marks(h[i].op) && OperationId(h[i].op) == id;
    }
  }

  /** Within the bound on the totals, a positive credit is booked if its id is new, and otherwise is a duplicate. */
  lemma CreditOutcome(b: Book, op: Operation, env: Env)
    requires Sound(b) && IsCredit(op) && op.amount > 0 && Permitted(b, op)
    ensures
      if op.operationId in b.processed then Apply(b, op, env) == Err(Duplicate)
      else Apply(b, op, env).Ok?
  {
    hide Structure, FreeUsdt0, TotalFxrp;
    match op
    case DepositOp(owner, asset, amount, id) =>
      RoomForDeposit(b, asset, amount);
      DepositSucceedsExactly(b, owner, asset, amount, id, env.now);
    case BackstopOp(amount, id) => BackstopBounded(b);
  }

  lemma RoomForDeposit(b: Book, asset: Asset, amount: u64)
    requires ClaimsUsdt0(b) + (if asset == USDT0 then amount else 0) <= MAX64
    requires TotalFxrp(b) + (if asset == FXRP then amount else 0) <= MAX64
    ensures Fits(b, asset, amount)
  {
  }

  lemma BackstopBounded(b: Book)
    ensures b.backstopUsdt0 <= ClaimsUsdt0(b)
  {
    FreeNonNegative(b);
    hide Sum;
  }

  /** An authentic credit carries a positive amount. */
  lemma AuthenticIsPositive(v: VaultState, op: Operation, hash: CreditHash)
    requires CreditsNumbered(v, hash) && IsCredit(op) && Authentic(v.credits, op)
    ensures op.amount > 0
  {
  }

  /**
    After every run, an authentic credit is accepted if and only if no operation of the ledger has booked it and no
    other operation has taken its id; otherwise it is refused as a duplicate, and RECOVER_DEPOSIT reports it as
    already processed.
   */
  lemma CreditAcceptedExactly(events: seq<Event>, w: World, s: System, op: Operation, env: Env)
    requires CollisionFree(w.hash) && Run(events, w, s)
    requires IsCredit(op) && Authentic(s.vault.credits, op)
    ensures Apply(s.durable.book, op, env).Ok? <==>
            op.operationId !in BookedIds(s.history) && !TakenByAnother(s.history, op.operationId)
    ensures Apply(s.durable.book, op, env).Err? ==> Apply(s.durable.book, op, env) == Err(Duplicate)
  {
    hide Run, Apply, HistorySound, WorkSound, Lockstep, ExecutedInOrder, Solvent, Backed, Sound, NetBooked, TotalOf;
    hide BookedIds, MarkedIds, TakenByAnother, Authentic, Permitted, Numbered, Faithful;
    EveryRunKeepsInv(events, w, s);
    AuthenticIsPositive(s.vault, op, w.hash);
    MarkedIsBookedOrTaken(s.history, op.operationId);
    if op.operationId in s.durable.book.processed {
      ProcessedIsDuplicate(s.durable.book, op, env);
    } else {
      CreditsAreKeyed(s.vault, w.hash);
      BackedCreditsArePermitted(s, op);
      CreditOutcome(s.durable.book, op, env);
    }
  }

  lemma ProcessedIsDuplicate(b: Book, op: Operation, env: Env)
    requires IsCredit(op) && op.amount > 0 && op.operationId in b.processed
    ensures Apply(b, op, env) == Err(Duplicate)
  {
  }

  /** A credit whose id was taken before it was booked is never booked, whatever happens next. */
  lemma {:induction false} TakenCreditIsNeverBooked(s: System, events: seq<Event>, w: World, id: Id)
    requires CollisionFree(w.hash) && Inv(s, w) && Follows(s, events, w)
    requires id in s.durable.book.processed && id !in BookedIds(s.history)
    ensures id !in BookedIds(After(s, events, w).history)
    decreases |events|
  {
    hide Next, Possible, Inv, BookedIds;
    if events != [] {
      EventKeeps(s, events[0], w);
      TakenStaysTaken(s, events[0], w, id);
      TakenCreditIsNeverBooked(Next(s, events[0], w), events[1..], w, id);
    }
  }

  lemma TakenStaysTaken(s: System, e: Event, w: World, id: Id)
    requires Inv(s, w) && Possible(s, e, w)
    requires id in s.durable.book.processed && id !in BookedIds(s.history)
    ensures id in Next(s, e, w).durable.book.processed && id !in BookedIds(Next(s, e, w).history)
  {
    hide HistorySound, Lockstep, MoneySound, CreditsNumbered, ExecutedInOrder, Faithful, Apply, BookedIds, MarkedIds;
    hide Deposited, Funded, Execute, Possible;
    if e.Persists? && s.work == None {
      var result := Apply(s.memory.book, e.op, e.context.env);
      if result.Ok? {
        ApplyProcesses(s.memory.book, e.op, e.context.env, result.value);
        IdsGrow(s.history, Entry(e.op, e.destination, result.value));
      }
    }
  }

  // ---- An id can be taken ------------------------------------------------------------------------------

  /** The id of the first deposit, once its sender and amount are known. */
  function FirstDepositId(w: World): Id {
    w.hash(CreditPreimage("lender", USDT0, 5, 1, false))
  }

  const QUIET := Context(Env(0, [], [], (x: string) => 0), "request", None, true, true, true)

  lemma OneCreditFits(v: VaultState, id: Id, c: Credit)
    requires v.credits == map[][id := c]
    ensures CreditsFit(v)
  {
    var none: map<Id, Credit> := map[];
    SumUpdate(none, id, c, AmountIn(USDT0));
    SumUpdate(none, id, c, AmountIn(FXRP));
  }

  function FirstDeposit(w: World): System {
    var id := FirstDepositId(w);
    START.(vault := NEW_VAULT.(usdt0 := 5, depositNonce := 1,
                               credits := map[id := Credit(id, "lender", USDT0, 5, false)],
                               records := map[id := DepositRecord("lender", USDT0, 5, 1)]))
  }

  lemma FirstDepositHappens(w: World)
    ensures Run([Deposits("lender", Supported(USDT0), 5, 5, true, 1)], w, FirstDeposit(w))
  {
    var deposit := Deposits("lender", Supported(USDT0), 5, 5, true, 1);
    var id := FirstDepositId(w);
    assert Next(START, deposit, w) == FirstDeposit(w);
    OneCreditFits(FirstDeposit(w).vault, id, Credit(id, "lender", USDT0, 5, false));
    assert Possible(START, deposit, w);
    hide Possible, Next;
    assert Run([], w, START);
    RunThen([], w, START, deposit);
    assert [] + [deposit] == [deposit];
  }

  lemma OpeningTakesTheId(w: World)
    ensures
      var id := FirstDepositId(w);
      var persist := Persists(OpenAccountOp("other", id, 0), ZERO_ADDRESS, "other", QUIET);
      var s := Next(FirstDeposit(w), persist, w);
      && Possible(FirstDeposit(w), persist, w)
      && s.vault == FirstDeposit(w).vault && id in s.durable.book.processed
      && |s.history| == 1 && s.history[0].op == persist.op
  {
    hide CreditsFit;
  }

  /** An account opened under the id of a deposit that is still under way: the deposit is on chain, and refused. */
  lemma DepositIdCanBeTaken(w: World)
    ensures
      var id := FirstDepositId(w);
      exists events, s ::
        && Run(events, w, s)
        && id in s.vault.credits && id !in BookedIds(s.history) && TakenByAnother(s.history, id)
        && Apply(s.durable.book, DepositOp("lender", USDT0, 5, id), QUIET.env) == Err(Duplicate)
  {
    hide Possible, Next, Apply, Run;
    var id := FirstDepositId(w);
    var persist := Persists(OpenAccountOp("other", id, 0), ZERO_ADDRESS, "other", QUIET);
    FirstDepositHappens(w);
    OpeningTakesTheId(w);
    var s := Next(FirstDeposit(w), persist, w);
    RunThen([Deposits("lender", Supported(USDT0), 5, 5, true, 1)], w, FirstDeposit(w), persist);
    assert TakenAt(s.history, 0, id);
    ProcessedIsDuplicate(s.durable.book, DepositOp("lender", USDT0, 5, id), QUIET.env);
  }
}
