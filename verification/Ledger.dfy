/**
  The ledger as one step function over all its operations, what each step moves, and
  what every run of steps keeps.
 */
module Ledger {
  import opened Outcomes
  import opened Arithmetic
  import opened Model
  import opened Ordering
  import opened Loans
  import opened Matching
  import opened Operations
  import opened Invariants
  import opened Conservation
  import opened Lending
  import opened Closing
  import opened Liquidation
  import opened RiskTicks
  import opened Withdrawals

  datatype Operation =
    | OpenAccountOp(owner: Owner, operationId: Id, nonce: u64)
    | DepositOp(owner: Owner, asset: Asset, amount: u64, operationId: Id)
    | SetMandateOp(owner: Owner, operationId: Id, amount: u64, minApr: u32, termMask: u8, cap: u64, nonce: u64)
    | CancelMandateOp(owner: Owner, operationId: Id, nonce: u64)
    | AcceptOp(quote: Quote, loanId: Id, nonce: u64, observed: Option<Price>)
    | RiskTickOp(price: Price, operationId: Id)
    | RepayOp(owner: Owner, amount: u64, operationId: Id, nonce: u64)
    | LiquidateOp(loanId: Id, operationId: Id)
    | BackstopOp(amount: u64, operationId: Id)
    | WithdrawOp(owner: Owner, asset: Asset, amount: u64, operationId: Id, nonce: u64)
    | WithdrawFromMandateOp(owner: Owner, mandateId: Id, amount: u64, operationId: Id, nonce: u64)

  /** What one operation sees besides the book: the clock, and how Go happens to enumerate the maps. */
  datatype Env = Env(now: Time, mandateOrder: seq<Id>, loanOrder: seq<Id>, hash: Hash)

  ghost predicate ValidEnv(b: Book, env: Env) {
    Enumerates(env.mandateOrder, b.mandates.Keys) && Enumerates(env.loanOrder, b.loans.Keys)
  }

  function Apply(b: Book, op: Operation, env: Env): Result<Book> {
    match op
    case OpenAccountOp(owner, id, nonce) => OpenAccount(b, owner, id, nonce)
    case DepositOp(owner, asset, amount, id) => Deposit(b, owner, asset, amount, id, env.now)
    case SetMandateOp(owner, id, amount, minApr, termMask, cap, nonce) =>
      SetMandate(b, owner, id, amount, minApr, termMask, cap, nonce, env.now)
    case CancelMandateOp(owner, id, nonce) => CancelMandate(b, owner, id, nonce)
    case AcceptOp(q, loanId, nonce, observed) =>
      AcceptQuote(b, q, loanId, nonce, observed, env.now, env.mandateOrder, env.hash)
    case RiskTickOp(price, id) => RiskTick(b, price, id, env.now, env.loanOrder)
    case RepayOp(owner, amount, id, nonce) => Repay(b, owner, amount, id, nonce, env.now)
    case LiquidateOp(loanId, id) => Liquidate(b, loanId, id)
    case BackstopOp(amount, id) => SeedBackstop(b, amount, id)
    case WithdrawOp(owner, asset, amount, id, nonce) =>
      Withdraw(b, owner, asset, amount, id, nonce, env.now, env.mandateOrder)
    case WithdrawFromMandateOp(owner, mandateId, amount, id, nonce) =>
      WithdrawFromMandate(b, owner, mandateId, amount, id, nonce, env.now)
  }

  function KindOf(op: Operation): Kind {
    match op
    case OpenAccountOp(_, _, _) => OpenAccountKind
    case DepositOp(_, _, _, _) => DepositKind
    case SetMandateOp(_, _, _, _, _, _, _) => SetMandateKind
    case CancelMandateOp(_, _, _) => CancelMandateKind
    case AcceptOp(_, _, _, _) => BorrowAcceptKind
    case RiskTickOp(_, _) => RiskTickKind
    case RepayOp(_, _, _, _) => ApplyRepaymentKind
    case LiquidateOp(_, _) => LiquidateKind
    case BackstopOp(_, _) => BackstopDepositKind
    case WithdrawOp(_, _, _, _, _) => WithdrawRequestKind
    case WithdrawFromMandateOp(_, _, _, _, _) => WithdrawFromMandateKind
  }

  /** The id that `mutate` records for the operation. */
  function OperationId(op: Operation): Id {
    if op.AcceptOp? then op.quote.requestId else op.operationId
  }

  /** Funds that the operation books in. */
  function CreditOf(op: Operation, asset: Asset): nat {
    match op
    case DepositOp(_, a, amount, _) => if a == asset then amount else 0
    case BackstopOp(amount, _) => if asset == USDT0 then amount else 0
    case _ => 0
  }

  /** Funds that the operation books out, to be paid by the vault. */
  function DebitOf(op: Operation, asset: Asset): nat {
    match op
    case AcceptOp(q, _, _, _) => if asset == USDT0 then q.amount else 0
    case WithdrawOp(_, a, amount, _, _) => if a == asset then amount else 0
    case WithdrawFromMandateOp(_, _, amount, _, _) => if asset == USDT0 then amount else 0
    case _ => 0
  }

  /** What the callers owe the ledger: credits that fit the 64-bit totals, and usable loan ids. */
  ghost predicate Permitted(b: Book, op: Operation) {
    && ClaimsUsdt0(b) + CreditOf(op, USDT0) <= MAX64
    && TotalFxrp(b) + CreditOf(op, FXRP) <= MAX64
    && (op.AcceptOp? ==> LoanIdUsable(b, op.loanId))
  }

  /** The exact movement of one step, in both assets. */
  ghost predicate StepMoves(b: Book, next: Book, op: Operation) {
    && FreeUsdt0(next) == FreeUsdt0(b) + CreditOf(op, USDT0) - DebitOf(op, USDT0)
    && TotalFxrp(next) == TotalFxrp(b) + CreditOf(op, FXRP) - DebitOf(op, FXRP)
    && ClaimsUsdt0(next) <= ClaimsUsdt0(b) + CreditOf(op, USDT0)
  }

  /** The operations on balances and mandates. */
  lemma FundsApplyKeeps(b: Book, op: Operation, env: Env, next: Book)
    requires Sound(b) && ValidEnv(b, env) && Permitted(b, op)
    requires !op.AcceptOp? && !op.RiskTickOp? && !op.RepayOp? && !op.LiquidateOp?
    requires Apply(b, op, env) == Ok(next)
    ensures Sound(next) && StepMoves(b, next, op)
  {
    hide Structure, FreeUsdt0, TotalFxrp, LoanIdUsable;
    hide OpenAccount, Deposit, SetMandate, CancelMandate, SeedBackstop, Withdraw, WithdrawFromMandate;
    match op
    case OpenAccountOp(owner, id, nonce) => OpenAccountKeeps(b, owner, id, nonce, next);
    case DepositOp(owner, asset, amount, id) => DepositKeeps(b, owner, asset, amount, id, env.now, next);
    case SetMandateOp(owner, id, amount, minApr, termMask, cap, nonce) =>
      SetMandateKeeps(b, owner, id, amount, minApr, termMask, cap, nonce, env.now, next);
    case CancelMandateOp(owner, id, nonce) => CancelMandateKeeps(b, owner, id, nonce, next);
    case BackstopOp(amount, id) => SeedBackstopKeeps(b, amount, id, next);
    case WithdrawOp(owner, asset, amount, id, nonce) =>
      WithdrawKeeps(b, owner, asset, amount, id, nonce, env.now, env.mandateOrder, next);
    case WithdrawFromMandateOp(owner, mandateId, amount, id, nonce) =>
      WithdrawFromMandateKeeps(b, owner, mandateId, amount, id, nonce, env.now, next);
  }

  /** The operations on loans. */
  lemma LoansApplyKeeps(b: Book, op: Operation, env: Env, next: Book)
    requires Sound(b) && ValidEnv(b, env) && Permitted(b, op)
    requires op.AcceptOp? || op.RiskTickOp? || op.RepayOp? || op.LiquidateOp?
    requires Apply(b, op, env) == Ok(next)
    ensures Sound(next) && StepMoves(b, next, op)
  {
    hide Structure, FreeUsdt0, TotalFxrp, RepayReady, LoanIdUsable;
    hide AcceptQuote, RiskTick, Repay, Liquidate;
    match op
    case AcceptOp(q, loanId, nonce, observed) =>
      AcceptKeepsBooksExactlyForUsableIds(b, q, loanId, nonce, observed, env.now, env.mandateOrder, env.hash, next);
    case RiskTickOp(price, id) => RiskTickKeeps(b, price, id, env.now, env.loanOrder, next);
    case RepayOp(owner, amount, id, nonce) => RepayKeeps(b, owner, amount, id, nonce, env.now, next);
    case LiquidateOp(loanId, id) => LiquidateKeeps(b, loanId, id, next);
  }

  /** Every operation keeps the books and moves exactly what it credits or debits. */
  lemma ApplyKeeps(b: Book, op: Operation, env: Env, next: Book)
    requires Sound(b) && ValidEnv(b, env) && Permitted(b, op)
    requires Apply(b, op, env) == Ok(next)
    ensures Sound(next) && StepMoves(b, next, op)
  {
    hide Sound, StepMoves, Apply, Permitted, ValidEnv;
    if op.AcceptOp? || op.RiskTickOp? || op.RepayOp? || op.LiquidateOp? {
      LoansApplyKeeps(b, op, env, next);
    } else {
      FundsApplyKeeps(b, op, env, next);
    }
  }

  // ---- The processed set ------------------------------------------------------------------------

  /** Operations that leave their id in the processed set; a mandate's id is its key among the mandates instead. */
  predicate Marks(op: Operation) {
    !op.SetMandateOp? && !op.CancelMandateOp?
  }

  function MarkedBy(op: Operation): set<Id> {
    if Marks(op) then {OperationId(op)} else {}
  }

  /** The processed set grows by exactly the operation's id, which must be new to it. */
  ghost predicate Processes(b: Book, op: Operation, next: Book) {
    && next.processed == b.processed + MarkedBy(op)
    && (Marks(op) ==> OperationId(op) !in b.processed)
  }

  lemma RepayProcesses(b: Book, owner: Owner, amount: u64, operationId: Id, nonce: u64, now: Time)
    requires Repay(b, owner, amount, operationId, nonce, now).Ok?
    ensures Repay(b, owner, amount, operationId, nonce, now).value.processed == b.processed + {operationId}
    ensures operationId !in b.processed
  {
    hide DistributeTo, Accrue, Debt;
    var a := ConsumeNonce(AccountOf(b, owner), nonce).value;
    var l := Accrue(b.loans[a.loanId], now).value;
    var due := Debt(l).value;
    var usdt0 := a.usdt0.(available := WrapSub(a.usdt0.available, due));
    DistributeToFrame(l, due - l.principal, l.tranches, Distribution(PutAccount(b, owner, a.(usdt0 := usdt0)), 0, 0));
  }

  lemma AcceptProcesses(
    b: Book, q: Quote, loanId: Id, nonce: u64, observed: Option<Price>, now: Time, order: seq<Id>, hash: Hash, next: Book)
    requires AcceptQuote(b, q, loanId, nonce, observed, now, order, hash) == Ok(next)
    ensures next.processed == b.processed + {q.requestId} && q.requestId !in b.processed
  {
    hide MakeQuote, Allocate, UpdateRisk, NewLoan, SameQuote, RequestOf, FreshObservation;
  }

  /** The operations without a loan. */
  lemma SimpleProcesses(b: Book, op: Operation, env: Env, next: Book)
    requires !op.AcceptOp? && !op.RiskTickOp? && !op.RepayOp? && !op.LiquidateOp?
    requires Apply(b, op, env) == Ok(next)
    ensures Processes(b, op, next)
  {
    hide Drain, ByAge, Retire, Settled;
  }

  /** Processed ids are never forgotten, each is new when it is recorded, and no other id is recorded with it. */
  lemma ApplyProcesses(b: Book, op: Operation, env: Env, next: Book)
    requires Apply(b, op, env) == Ok(next)
    ensures Processes(b, op, next)
  {
    hide OpenAccount, Deposit, SetMandate, CancelMandate, AcceptQuote, Repay, SeedBackstop, Withdraw, WithdrawFromMandate;
    hide TickAll, LiquidateInState;
    match op
    case AcceptOp(q, loanId, nonce, observed) =>
      AcceptProcesses(b, q, loanId, nonce, observed, env.now, env.mandateOrder, env.hash, next);
    case RiskTickOp(price, id) => TickAllProcesses(b.(price := price), env.loanOrder, env.now);
    case RepayOp(owner, amount, id, nonce) => RepayProcesses(b, owner, amount, id, nonce, env.now);
    case LiquidateOp(loanId, id) => LiquidationFrame(b, loanId, b.loans[loanId]);
    case _ => SimpleProcesses(b, op, env, next);
  }

  lemma {:induction false} TickAllProcesses(b: Book, keys: seq<Id>, now: Time)
    requires TickAll(b, keys, now).Ok?
    ensures TickAll(b, keys, now).value.processed == b.processed
    decreases |keys|
  {
    hide TickLoan;
    if keys != [] {
      TickLoanFrame(b, keys[0], now);
      TickAllProcesses(TickLoan(b, keys[0], now).value, keys[1..], now);
    }
  }
}
