/**
  The extension's handlers: each runs one engine mutation and, if it succeeds, signs a
  settlement over the anchor that is pending afterwards.
 */
module Handlers {
  import opened Outcomes
  import opened Arithmetic
  import opened Model
  import Matching
  import Operations
  import opened Ledger
  import opened Engine
  import opened Settlements
  import opened Vault

  /**
    What one call sees besides its arguments: the clock, the maps' enumeration, the database and the signer.
    `refusal` is the failure of a step before the engine: decoding, decrypting, checking the sender's
    signature, or reading the vault. `delivers` says whether the response leaves the enclave; for an action
    signed by the user this takes a response key that is a point of the curve, which no check before
    the encryption of the response looks at.
   */
  datatype Context = Context(
    env: Env, requestId: Id, refusal: Option<Error>, database: bool, signer: bool, delivers: bool)

  /** The outcome of signing `terms` over the pending anchor. */
  ghost predicate Signs(
    s: State, signed: set<Settlement>, signed': set<Settlement>, terms: Terms, account: Owner, c: Context, r: Result<Settlement>)
  {
    if s.pending == None then r == Err(NoAnchorPending) && signed' == signed
    else if !c.signer then r == Err(SigningFailed) && signed' == signed
    else
      var settlement := AnchorSettlement(s.pending.value, c.requestId, terms, account, c.env.now);
      r == Ok(settlement) && signed' == signed + {settlement}
  }

  /** The outcome of one handler: the engine's step, then the signature that the operation calls for. */
  ghost predicate Handled(
    before: State, after: State, signed: set<Settlement>, signed': set<Settlement>,
    op: Operation, destination: Owner, account: Owner, c: Context, r: Result<Settlement>)
  {
    var result := Apply(before.book, op, c.env);
    if c.refusal.Some? then r == Err(c.refusal.value) && after == before && signed' == signed
    else if before.pending.Some? then r.Err? && after == before && signed' == signed
    else if result.Err? then r == Err(result.error) && after == before && signed' == signed
    else if !c.database then r == Err(StorageFailure) && after == before && signed' == signed
    else
      && after == Committed(before, KindOf(op), OperationId(op), result.value)
      && Signs(after, signed, signed', TermsOf(op, destination), account, c, r)
  }

  function AssetForToken(token: Token): Result<Asset> {
    if token.Supported? then Ok(token.asset) else Err(UnsupportedAsset)
  }

  /** A payout is not even attempted when the cached vault balance is unknown or too small. */
  function LiquidityCheck(liquidity: Option<nat>, amount: nat): Option<Error> {
    match liquidity
    case None => Some(LiquidityUnknown)
    case Some(balance) => if balance < amount then Some(InsufficientLiquidity) else None
  }

  /** A mandate withdrawal is recorded under the request's id, whatever the user sent. */
  function Addressed(action: Operation, c: Context): Operation {
    if action.WithdrawFromMandateOp? then action.(operationId := c.requestId) else action
  }

  /** A signed action: a mutation, or a query with the error that it may end in. */
  datatype DirectAction = Mutation(op: Operation) | Query(error: Option<Error>)

  /** The mutations that a signed action may ask for; a mandate withdrawal must also look payable. */
  predicate DirectlyRunnable(op: Operation, liquidity: Option<nat>) {
    IsMutation(op) || (op.WithdrawFromMandateOp? && LiquidityCheck(liquidity, op.amount) == None)
  }

  /** verifyDepositRecord: the vault holds a record that agrees with the payload in every field. */
  predicate RecordAgrees(v: VaultState, account: Owner, token: Token, amount: u64, depositId: Id) {
    && account != ZERO_ADDRESS && token != ZeroToken && amount != 0
    && depositId in v.records
    && var r := v.records[depositId];
       r.submittedAt != 0 && r.account == account && Supported(r.asset) == token && r.amount == amount
  }

  /** What a mutation refuses before it waits for anything. */
  predicate RefusedAtOnce(op: Operation, now: Time) {
    match op
    case DepositOp(_, _, amount, _) => amount == 0
    case BackstopOp(amount, _) => amount == 0
    case SetMandateOp(_, _, amount, minApr, termMask, cap, _) => !Operations.ValidMandate(amount, minApr, termMask, cap)
    case RiskTickOp(price, _) => !Matching.FreshObservation(price, now)
    case WithdrawOp(_, _, amount, _, _) => amount == 0
    case WithdrawFromMandateOp(_, _, amount, _, _) => amount == 0
    case _ => false
  }

  /** The state to which a handler's call is applied: the one it finds after its waits, if it comes to wait. */
  function EnteredBy(s: State, op: Operation, c: Context, waits: seq<Interlude>): State {
    Entered(s, if c.refusal.Some? || RefusedAtOnce(op, c.env.now) then [] else waits)
  }

  class Extension {
    const engine: Engine
    var signed: set<Settlement>

    constructor (engine: Engine)
      ensures this.engine == engine && signed == {}
    {
      this.engine := engine;
      signed := {};
    }

    method Sign(terms: Terms, account: Owner, c: Context) returns (r: Result<Settlement>)
      modifies this
      ensures Signs(engine.state, old(signed), signed, terms, account, c, r)
    {
      if engine.state.pending == None {
        return Err(NoAnchorPending);
      }
      if !c.signer {
        return Err(SigningFailed);
      }
      var settlement := AnchorSettlement(engine.state.pending.value, c.requestId, terms, account, c.env.now);
      signed := signed + {settlement};
      return Ok(settlement);
    }

    method Checkpoint(account: Owner, c: Context) returns (r: Result<Settlement>)
      modifies this
      ensures Signs(engine.state, old(signed), signed, NO_MONEY, account, c, r)
    {
      r := Sign(NO_MONEY, account, c);
    }

    method HandleDeposit(sender: Owner, token: Token, amount: u64, depositId: Id, c: Context, waits: seq<Interlude>)
      returns (r: Result<Settlement>)
      requires engine.Valid() && AllConsistent(waits)
      modifies this, engine, engine.store
      ensures engine.Valid()
      ensures !token.Supported? ==>
        r == Err(if c.refusal.Some? then c.refusal.value else UnsupportedAsset)
        && engine.state == old(engine.state) && signed == old(signed)
      ensures token.Supported? ==>
        var op := DepositOp(sender, token.asset, amount, depositId);
        Handled(EnteredBy(old(engine.state), op, c, waits), engine.state, old(signed), signed,
                op, ZERO_ADDRESS, sender, c, r)
      ensures r.Ok? ==> r.value.terms == Terms(SettlementType.Checkpoint, ZeroToken, 0, "")
    {
      hide Operations.Deposit;
      if c.refusal.Some? {
        return Err(c.refusal.value);
      }
      var asset := AssetForToken(token);
      if asset.Err? {
        return Err(asset.error);
      }
      var err := engine.Deposit(sender, asset.value, amount, depositId, c.env.now, c.database, waits);
      if err.Some? {
        return Err(err.value);
      }
      r := Checkpoint(sender, c);
    }

    method HandleBackstopDeposit(funder: Owner, amount: u64, depositId: Id, c: Context, waits: seq<Interlude>)
      returns (r: Result<Settlement>)
      requires engine.Valid() && AllConsistent(waits)
      modifies this, engine, engine.store
      ensures engine.Valid()
      ensures
        var op := BackstopOp(amount, depositId);
        Handled(EnteredBy(old(engine.state), op, c, waits), engine.state, old(signed), signed,
                op, ZERO_ADDRESS, funder, c, r)
      ensures r.Ok? ==> r.value.terms == Terms(SettlementType.Checkpoint, ZeroToken, 0, "")
    {
      hide Operations.SeedBackstop;
      if c.refusal.Some? {
        return Err(c.refusal.value);
      }
      var err := engine.SeedBackstop(amount, depositId, c.database, waits);
      if err.Some? {
        return Err(err.value);
      }
      r := Checkpoint(funder, c);
    }

    /** The borrower is the sender of the transaction, whatever the quote says. */
    method HandleBorrowAccept(
      sender: Owner, quote: Quote, loanId: Id, nonce: u64, observed: Price, c: Context, waits: seq<Interlude>)
      returns (r: Result<Settlement>)
      requires engine.Valid() && AllConsistent(waits)
      modifies this, engine, engine.store
      ensures engine.Valid()
      ensures
        var op := AcceptOp(quote.(borrower := sender), loanId, nonce, Some(observed));
        Handled(EnteredBy(old(engine.state), op, c, waits), engine.state, old(signed), signed, op, sender, sender, c, r)
      ensures r.Ok? ==> r.value.terms == Terms(BorrowPayout, Supported(USDT0), quote.amount, sender)
    {
      hide Operations.AcceptQuote;
      if c.refusal.Some? {
        return Err(c.refusal.value);
      }
      var q := quote.(borrower := sender);
      var err := engine.AcceptQuote(q, loanId, nonce, Some(observed), c.env.now, c.env.mandateOrder, c.env.hash,
                                    c.database, waits);
      if err.Some? {
        return Err(err.value);
      }
      r := Sign(Terms(BorrowPayout, Supported(USDT0), q.amount, sender), sender, c);
    }

    /** The nonce comes from a snapshot `seen` that may be older than the books the withdrawal is applied to. */
    method HandleWithdrawal(
      sender: Owner, token: Token, amount: u64, destination: Owner, liquidity: Option<nat>, seen: Book, c: Context,
        waits: seq<Interlude>)
      returns (r: Result<Settlement>)
      requires engine.Valid() && AllConsistent(waits)
      modifies this, engine, engine.store
      ensures engine.Valid()
      ensures
        if token.Supported? && liquidity.Some? && amount <= liquidity.value && sender in seen.accounts then
          var op := WithdrawOp(sender, token.asset, amount, c.requestId, seen.accounts[sender].nonce);
          Handled(EnteredBy(old(engine.state), op, c, waits), engine.state, old(signed), signed,
                  op, destination, sender, c, r)
        else
          r.Err? && engine.state == old(engine.state) && signed == old(signed)
      ensures r.Ok? ==> r.value.terms == Terms(UserWithdrawal, token, amount, destination)
    {
      hide Operations.Withdraw;
      if c.refusal.Some? {
        return Err(c.refusal.value);
      }
      var asset := AssetForToken(token);
      if asset.Err? {
        return Err(asset.error);
      }
      var refusal := LiquidityCheck(liquidity, amount);
      if refusal.Some? {
        return Err(refusal.value);
      }
      if sender !in seen.accounts {
        return Err(UnknownAccount);
      }
      var nonce := seen.accounts[sender].nonce;
      var err := engine.Withdraw(sender, asset.value, amount, c.requestId, nonce, c.env.now, c.env.mandateOrder,
                                 c.database, waits);
      if err.Some? {
        return Err(err.value);
      }
      r := Sign(Terms(UserWithdrawal, token, amount, destination), sender, c);
    }

    method HandleRiskTick(price: Price, c: Context, waits: seq<Interlude>) returns (r: Result<Settlement>)
      requires engine.Valid() && AllConsistent(waits)
      modifies this, engine, engine.store
      ensures engine.Valid()
      ensures
        var op := RiskTickOp(price, c.requestId);
        Handled(EnteredBy(old(engine.state), op, c, waits), engine.state, old(signed), signed,
                op, ZERO_ADDRESS, ZERO_ADDRESS, c, r)
      ensures r.Ok? ==> r.value.terms == Terms(SettlementType.Checkpoint, ZeroToken, 0, "")
    {
      hide Operations.RiskTick;
      if c.refusal.Some? {
        return Err(c.refusal.value);
      }
      var err := engine.RiskTick(price, c.requestId, c.env.now, c.env.loanOrder, c.database, waits);
      if err.Some? {
        return Err(err.value);
      }
      r := Checkpoint(ZERO_ADDRESS, c);
    }

    /** The engine call that a signed action asks for. */
    method RunDirect(op: Operation, liquidity: Option<nat>, c: Context, waits: seq<Interlude>)
      returns (err: Option<Error>)
      requires engine.Valid() && AllConsistent(waits)
      modifies engine, engine.store
      ensures engine.Valid()
      ensures
        if DirectlyRunnable(op, liquidity) then
          var entered := Entered(old(engine.state), if RefusedAtOnce(Addressed(op, c), c.env.now) then [] else waits);
          Mutated(entered, engine.state, KindOf(op), OperationId(Addressed(op, c)),
                  Apply(entered.book, Addressed(op, c), c.env), c.database, err)
        else
          err.Some? && engine.state == old(engine.state)
    {
      hide Operations.OpenAccount, Operations.SetMandate, Operations.CancelMandate, Operations.Repay;
      hide Operations.WithdrawFromMandate, Mutated;
      match op {
        case OpenAccountOp(sender, operationId, nonce) =>
          err := engine.OpenAccount(sender, operationId, nonce, c.database, waits);
        case SetMandateOp(sender, mandateId, amount, minApr, termMask, cap, nonce) =>
          err := engine.SetMandate(sender, mandateId, amount, minApr, termMask, cap, nonce, c.env.now,
                                   c.database, waits);
        case CancelMandateOp(sender, mandateId, nonce) =>
          err := engine.CancelMandate(sender, mandateId, nonce, c.database, waits);
        case WithdrawFromMandateOp(sender, mandateId, amount, _, nonce) =>
          err := LiquidityCheck(liquidity, amount);
          if err == None {
            err := engine.WithdrawFromMandate(sender, mandateId, amount, c.requestId, nonce, c.env.now,
                                             c.database, waits);
          }
        case RepayOp(sender, amount, operationId, nonce) =>
          err := engine.Repay(sender, amount, operationId, nonce, c.env.now, c.database, waits);
        case _ =>
          err := Some(UnsupportedAction);
      }
    }

    /** A mandate withdrawal signs its own payout, the other mutations a checkpoint. */
    method MutateDirect(op: Operation, destination: Owner, liquidity: Option<nat>, c: Context, waits: seq<Interlude>)
      returns (r: Result<Settlement>)
      requires engine.Valid() && AllConsistent(waits)
      modifies this, engine, engine.store
      ensures engine.Valid()
      ensures
        if DirectlyRunnable(op, liquidity) then
          Handled(EnteredBy(old(engine.state), Addressed(op, c), c, waits), engine.state, old(signed), signed,
                  Addressed(op, c), destination, op.owner, c, r)
        else
          r.Err? && engine.state == old(engine.state) && signed == old(signed)
      ensures r.Ok? ==>
        r.value.terms
        == if op.WithdrawFromMandateOp? then Terms(UserWithdrawal, Supported(USDT0), op.amount, destination)
           else Terms(SettlementType.Checkpoint, ZeroToken, 0, "")
    {
      hide Apply;
      if c.refusal.Some? {
        return Err(c.refusal.value);
      }
      var err := RunDirect(op, liquidity, c, waits);
      if err.Some? {
        return Err(err.value);
      }
      if op.WithdrawFromMandateOp? {
        r := Sign(Terms(UserWithdrawal, Supported(USDT0), op.amount, destination), op.owner, c);
      } else {
        r := Checkpoint(op.owner, c);
      }
    }

    /**
      An action signed by the user. A query changes nothing. When the response cannot be encrypted, the
      settlement that was signed is lost to the caller.
     */
    method HandleSignedDirect(action: DirectAction, destination: Owner, liquidity: Option<nat>, c: Context,
        waits: seq<Interlude>)
      returns (r: Result<Option<Settlement>>)
      requires engine.Valid() && AllConsistent(waits)
      modifies this, engine, engine.store
      ensures engine.Valid()
      ensures action.Query? ==> engine.state == old(engine.state) && signed == old(signed) && (r.Ok? ==> r == Ok(None))
      ensures action.Mutation? ==>
        var op := action.op;
        var runs :=
          || op.OpenAccountOp? || op.SetMandateOp? || op.CancelMandateOp? || op.RepayOp?
          || (op.WithdrawFromMandateOp? && liquidity.Some? && op.amount <= liquidity.value);
        if !runs then r.Err? && engine.state == old(engine.state) && signed == old(signed)
        else
          var booked :=
            if op.WithdrawFromMandateOp? then WithdrawFromMandateOp(op.owner, op.mandateId, op.amount, c.requestId, op.nonce)
            else op;
          exists direct: Result<Settlement> ::
            && Handled(EnteredBy(old(engine.state), booked, c, waits), engine.state, old(signed), signed,
                       booked, destination, op.owner, c, direct)
            && r == match direct
                    case Ok(settlement) => if c.delivers then Ok(Some(settlement)) else Err(EncryptionFailed)
                    case Err(e) => Err(e)
      ensures r.Ok? && r.value.Some? ==>
        && action.Mutation?
        && r.value.value.terms
           == if action.op.WithdrawFromMandateOp? then
                Terms(UserWithdrawal, Supported(USDT0), action.op.amount, destination)
              else Terms(SettlementType.Checkpoint, ZeroToken, 0, "")
    {
      hide Handled;
      match action {
        case Query(error) =>
          if c.refusal.Some? {
            return Err(c.refusal.value);
          }
          r := if error.Some? then Err(error.value) else if c.delivers then Ok(None) else Err(EncryptionFailed);
        case Mutation(op) =>
          var direct := MutateDirect(op, destination, liquidity, c, waits);
          match direct {
            case Ok(settlement) => r := if c.delivers then Ok(Some(settlement)) else Err(EncryptionFailed);
            case Err(e) => r := Err(e);
          }
      }
    }

    /**
      The vault's sequence and root are two independent view reads, so they may come from
      two different moments of its past.
     */
    method HandleAnchorConfirmation(
      sequence: nat, root: Root, readSequence: nat, readRoot: Root, refusal: Option<Error>, database: bool)
      returns (err: Option<Error>)
      requires engine.Valid()
      modifies engine, engine.store, engine.anchorCleared
      ensures engine.Valid()
      ensures err == None <==>
        && refusal == None
        && sequence == readSequence == old(engine.state.sequence) && root == readRoot == old(engine.state.root)
        && (old(engine.state.pending).Some? ==> database)
      ensures engine.state == if err == None then old(engine.state).(pending := None) else old(engine.state)
    {
      if refusal.Some? {
        return refusal;
      }
      if readSequence != sequence || readRoot != root {
        return Some(AnchorMismatch);
      }
      err := engine.ConfirmAnchor(sequence, root, database);
    }

    method HandleAnchorRecovery(c: Context) returns (r: Result<Settlement>)
      modifies this
      ensures
        var s := engine.state;
        if s.pending.Some? && Recoverable(s.pending.value.kind)
        then Signs(s, old(signed), signed, NO_MONEY, ZERO_ADDRESS, c, r)
        else r.Err? && signed == old(signed)
      ensures r.Ok? ==> r.value.terms == Terms(SettlementType.Checkpoint, ZeroToken, 0, "")
    {
      if engine.state.pending == None {
        return Err(NoAnchorPending);
      }
      if !Recoverable(engine.state.pending.value.kind) {
        return Err(NotRecoverable);
      }
      r := Checkpoint(ZERO_ADDRESS, c);
    }

    /** The second path to a deposit's credit; `Ok(None)` means that it was already processed. */
    method HandleDepositRecovery(account: Owner, token: Token, amount: u64, depositId: Id, vault: VaultState,
        c: Context, waits: seq<Interlude>)
      returns (r: Result<Option<Settlement>>)
      requires engine.Valid() && AllConsistent(waits)
      modifies this, engine, engine.store
      ensures engine.Valid()
      ensures
        var agrees :=
          && account != "" && amount > 0 && token.Supported? && depositId in vault.records
          && var d := vault.records[depositId];
             d.submittedAt > 0 && d.account == account && d.asset == token.asset && d.amount == amount;
        if !agrees then r.Err? && engine.state == old(engine.state) && signed == old(signed)
        else
          var op := DepositOp(account, token.asset, amount, depositId);
          exists direct: Result<Settlement> ::
            && Handled(EnteredBy(old(engine.state), op, c, waits), engine.state, old(signed), signed, op, ZERO_ADDRESS,
                       account, c, direct)
            && r == match direct
                    case Ok(settlement) => Ok(Some(settlement))
                    case Err(e) => if e == Duplicate then Ok(None) else Err(e)
      ensures r.Ok? && r.value.Some? ==> r.value.value.terms == Terms(SettlementType.Checkpoint, ZeroToken, 0, "")
    {
      hide Operations.Deposit;
      if !RecordAgrees(vault, account, token, amount, depositId) {
        return Err(RecordMismatch);
      }
      var direct := HandleDeposit(account, token, amount, depositId, c, waits);
      match direct {
        case Ok(settlement) => r := Ok(Some(settlement));
        case Err(e) => r := if e == Duplicate then Ok(None) else Err(e);
      }
    }
  }
}
