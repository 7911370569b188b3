/**
  The whole system as a state machine: depositors, the enclave's handlers, the vault, the
  relayer carrying settlements and confirmations, crashes and restarts. Everything that is
  not the enclave or the vault is free to do anything, in any order, any number of times.
 */
module Protocol {
  import opened Outcomes
  import opened Arithmetic
  import opened MapSums
  import opened Model
  import opened Invariants
  import opened Lending
  import opened Ledger
  import opened Settlements
  import opened Vault
  import opened Handlers

  /** One committed mutation: the operation, the destination its handler was given, and the book it led to. */
  datatype Entry = Entry(op: Operation, destination: Owner, book: Book)

  /** What a thread that has written the database still has to do before it releases the lock, or right after. */
  datatype Work = InstallAndSign(terms: Terms, account: Owner, context: Context) | JustInstall

  /**
    The engine's memory and its database differ while some thread is at `work` between writing the one and
    the other. Of the settlements that the enclave `signed`, those `delivered` have left it. `history` and
    `executed` only record what happened; no step looks at them.
   */
  datatype System = System(
    memory: State, durable: State, work: Option<Work>, signed: set<Settlement>, delivered: set<Settlement>,
    vault: VaultState, history: seq<Entry>, executed: seq<Settlement>)

  const START := System(NEW_STATE, NEW_STATE, None, {}, {}, NEW_VAULT, [], [])

  /** The enclave has signed a settlement, and its response leaves the enclave or not. */
  function Signed(s: System, x: Settlement, delivers: bool): System {
    s.(signed := s.signed + {x}, delivered := if delivers then s.delivered + {x} else s.delivered)
  }

  /** The vault's own address and the hash that makes its deposit ids. */
  datatype World = World(self: Owner, hash: CreditHash)

  datatype Event =
    | Deposits(sender: Owner, token: Token, amount: nat, received: nat, instructed: bool, now: nat)
    | FundsBackstop(sender: Owner, operator: bool, amount: nat, received: nat, instructed: bool)
    | SendsTokens(asset: Asset, amount: nat)
    | Persists(op: Operation, destination: Owner, account: Owner, context: Context)
    | Confirms(sequence: nat, root: Root, readSequence: nat, readRoot: Root, database: bool)
    | Installs
    | Recovers(context: Context)
    | Executes(settlement: Settlement, now: nat, paused: bool)
    | Crashes

  /** A handler up to the end of the database transaction: the edited copy is durable, the old state still in memory. */
  function AfterPersisting(s: System, op: Operation, destination: Owner, account: Owner, c: Context): System {
    var result := Apply(s.memory.book, op, c.env);
    if s.work.Some? || c.refusal.Some? || s.memory.pending.Some? || result.Err? || !c.database then s
    else
      s.(durable := Committed(s.memory, KindOf(op), OperationId(op), result.value),
         history := s.history + [Entry(op, destination, result.value)],
         work := Some(InstallAndSign(TermsOf(op, destination), account, c)))
  }

  function AfterConfirming(s: System, sequence: nat, root: Root, readSequence: nat, readRoot: Root, database: bool): System {
    if s.work.Some? || s.memory.pending == None || readSequence != sequence || readRoot != root
       || s.memory.pending.value.nextSequence != sequence || s.memory.pending.value.nextRoot != root || !database then s
    else s.(durable := s.memory.(pending := None), work := Some(JustInstall))
  }

  /** The new state becomes current; the handler of a mutation then signs over the anchor that it reads there. */
  function AfterInstalling(s: System): System {
    if s.work == None then s
    else
      var installed := s.(memory := s.durable, work := None);
      match s.work.value
      case JustInstall => installed
      case InstallAndSign(terms, account, c) =>
        if s.durable.pending == None || !c.signer then installed
        else
          Signed(installed, AnchorSettlement(s.durable.pending.value, c.requestId, terms, account, c.env.now), c.delivers)
  }

  function AfterRecovery(s: System, c: Context): System {
    if s.work.Some? || s.memory.pending == None || !Recoverable(s.memory.pending.value.kind) || !c.signer then s
    else
      Signed(s, AnchorSettlement(s.memory.pending.value, c.requestId, NO_MONEY, ZERO_ADDRESS, c.env.now), c.delivers)
  }

  /** A settlement that the enclave never signed is not authentic. */
  function AfterExecution(s: System, settlement: Settlement, now: nat, paused: bool, self: Owner): System {
    var r := Execute(s.vault, settlement, now, paused, settlement in s.signed, self);
    if r.Err? then s else s.(vault := r.value, executed := s.executed + [settlement])
  }

  /** What an event makes of the system; refused events change nothing. */
  function Next(s: System, e: Event, w: World): System {
    match e
    case Deposits(sender, token, amount, received, instructed, now) =>
      var r := Deposited(s.vault, sender, token, amount, received, instructed, now, w.hash);
      if r.Err? then s else s.(vault := r.value)
    case FundsBackstop(sender, operator, amount, received, instructed) =>
      var r := Funded(s.vault, sender, operator, amount, received, instructed, w.hash);
      if r.Err? then s else s.(vault := r.value)
    case SendsTokens(asset, amount) => s.(vault := s.vault.SetBalance(asset, s.vault.Balance(asset) + amount))
    case Persists(op, destination, account, c) => AfterPersisting(s, op, destination, account, c)
    case Confirms(sequence, root, readSequence, readRoot, database) =>
      AfterConfirming(s, sequence, root, readSequence, readRoot, database)
    case Installs => AfterInstalling(s)
    case Recovers(c) => AfterRecovery(s, c)
    case Executes(settlement, now, paused) => AfterExecution(s, settlement, now, paused, w.self)
    case Crashes => s.(memory := s.durable, work := None)
  }

  // ---- What the surroundings guarantee -----------------------------------------------------------

  function AmountIn(asset: Asset): Credit -> int {
    (c: Credit) => if c.asset == asset then c.amount else 0
  }

  /** Everything that was ever deposited or put into the backstop. */
  ghost function CumulativeCredits(v: VaultState, asset: Asset): int {
    Sum(v.credits, AmountIn(asset))
  }

  ghost predicate CreditsFit(v: VaultState) {
    CumulativeCredits(v, USDT0) <= MAX64 && CumulativeCredits(v, FXRP) <= MAX64
  }

  /** A credit operation carries an instruction that the vault sent, or a deposit that the vault has on record. */
  predicate Authentic(credits: map<Id, Credit>, op: Operation) {
    match op
    case DepositOp(owner, asset, amount, id) => id in credits && credits[id] == Credit(id, owner, asset, amount, false)
    case BackstopOp(amount, id) =>
      id in credits && credits[id] == Credit(id, credits[id].sender, USDT0, amount, true)
    case _ => true
  }

  /** A root that the vault had at some moment up to now. */
  ghost predicate OnceRoot(s: System, root: Root) {
    root == Genesis || exists i :: 0 <= i < |s.executed| && s.executed[i].nextRoot == root
  }

  /**
    The hypotheses about the surroundings: cumulative deposits per asset fit in 64 bits,
    handlers see authentic credits, loan ids are fresh, and view reads return values that
    the vault had at some moment, not necessarily the same one.
   */
  ghost predicate Possible(s: System, e: Event, w: World) {
    match e
    case Persists(op, _, _, c) =>
      && Exposed(op) && Authentic(s.vault.credits, op) && ValidEnv(s.memory.book, c.env)
      && (op.AcceptOp? ==> LoanIdUsable(s.memory.book, op.loanId))
    case Confirms(_, _, readSequence, readRoot, _) => readSequence <= s.vault.sequence && OnceRoot(s, readRoot)
    case Deposits(_, _, _, _, _, _) => CreditsFit(Next(s, e, w).vault)
    case FundsBackstop(_, _, _, _, _) => CreditsFit(Next(s, e, w).vault)
    case _ => true
  }

  /** A run: events from the start, each possible when it happens. */
  ghost predicate Run(events: seq<Event>, w: World, s: System)
    decreases |events|
  {
    if events == [] then s == START
    else
      var n := |events| - 1;
      exists before: System ::
        Run(events[..n], w, before) && Possible(before, events[n], w) && s == Next(before, events[n], w)
  }

  /** Where a list of events leads from a given state, and whether each of them is possible when it happens. */
  function After(s: System, events: seq<Event>, w: World): System
    decreases |events|
  {
    if events == [] then s else After(Next(s, events[0], w), events[1..], w)
  }

  ghost predicate Follows(s: System, events: seq<Event>, w: World)
    decreases |events|
  {
    events == [] || (Possible(s, events[0], w) && Follows(Next(s, events[0], w), events[1..], w))
  }

  /** A state that some run reaches. */
  ghost predicate Reachable(w: World, s: System) {
    exists events :: Run(events, w, s)
  }

  // ---- What holds after every run ------------------------------------------------------------------

  function BookAt(h: seq<Entry>, n: nat): Book
    requires n <= |h|
  {
    if n == 0 then NEW_BOOK else h[n - 1].book
  }

  function RootAt(h: seq<Entry>, n: nat): Root
    requires n <= |h|
  {
    if n == 0 then Genesis else Digest(n, h[n - 1].book)
  }

  function AnchorOf(h: seq<Entry>): PendingAnchor
    requires |h| > 0
  {
    var n, op := |h|, h[|h| - 1].op;
    PendingAnchor(KindOf(op), OperationId(op), n - 1, n, RootAt(h, n - 1), RootAt(h, n))
  }

  /** The engine is at the end of the history, and a pending anchor describes its last entry. */
  ghost predicate AtEndOf(h: seq<Entry>, s: State) {
    && s.sequence == |h| && s.book == BookAt(h, |h|) && s.root == RootAt(h, |h|)
    && (s.pending.Some? ==> |h| > 0 && s.pending.value == AnchorOf(h))
  }

  /** With no anchor pending the vault is level with the engine; otherwise it is level or exactly one behind. */
  ghost predicate Lockstep(s: System) {
    && s.vault.sequence <= |s.history|
    && s.vault.root == RootAt(s.history, s.vault.sequence)
    && (s.vault.sequence == |s.history| || (s.durable.pending.Some? && s.vault.sequence == |s.history| - 1))
  }

  /** A signed settlement moves the vault to one entry of the history and pays exactly what that entry booked. */
  predicate Faithful(h: seq<Entry>, x: Settlement) {
    && 1 <= x.nextSequence <= |h|
    && var e := h[x.nextSequence - 1];
       && x.protocolVersion == PROTOCOL_VERSION
       && x.terms == TermsOf(e.op, e.destination)
       && x.previousSequence == x.nextSequence - 1
       && x.previousRoot == RootAt(h, x.previousSequence)
       && x.nextRoot == RootAt(h, x.nextSequence)
       && x.settlementId == SettlementId(x.requestId, x.nextRoot, KindOf(e.op))
  }

  /** One executed settlement for each step of the vault. */
  ghost predicate ExecutedInOrder(s: System) {
    && |s.executed| == s.vault.sequence
    && (forall i :: 0 <= i < |s.executed| ==> s.executed[i] in s.signed && s.executed[i].nextSequence == i + 1)
    && s.vault.used == (set i | 0 <= i < |s.executed| :: s.executed[i].settlementId)
  }

  predicate IsCredit(op: Operation) {
    op.DepositOp? || op.BackstopOp?
  }

  /** The credits that the ledger has booked. */
  function BookedIds(h: seq<Entry>): set<Id> {
    set i | 0 <= i < |h| && IsCredit(h[i].op) :: h[i].op.operationId
  }

  function Unbooked(booked: set<Id>, asset: Asset): Credit -> int {
    (c: Credit) => if c.asset == asset && c.id !in booked then c.amount else 0
  }

  /** Every credit that is on chain and that no operation of the ledger has booked. */
  ghost function UnbookedCredits(s: System, asset: Asset): int {
    Sum(s.vault.credits, Unbooked(BookedIds(s.history), asset))
  }

  /** The last entry's payout, while the vault has not executed it. */
  function Owed(s: System, asset: Asset): nat {
    if s.vault.sequence < |s.history| then DebitOf(s.history[|s.history| - 1].op, asset) else 0
  }

  /** All claims on an asset; for USDT0 this includes the principal that is out on loan. */
  ghost function ClaimsOf(b: Book, asset: Asset): int {
    if asset == FXRP then TotalFxrp(b) else ClaimsUsdt0(b)
  }

  /** The vault holds all free balances, the payout still to be made and every credit still to be booked. */
  ghost predicate Solvent(s: System, asset: Asset) {
    s.vault.Balance(asset) >= TotalOf(s.durable.book, asset) + Owed(s, asset) + UnbookedCredits(s, asset)
  }

  /** Claims never exceed what was put in. */
  ghost predicate Backed(s: System, asset: Asset) {
    ClaimsOf(s.durable.book, asset) + UnbookedCredits(s, asset) <= CumulativeCredits(s.vault, asset) <= MAX64
  }

  /** Everything ever booked in, less everything ever booked out. */
  function NetBooked(h: seq<Entry>, asset: Asset): int {
    if h == [] then 0
    else
      var n := |h| - 1;
      NetBooked(h[..n], asset) + CreditOf(h[n].op, asset) - DebitOf(h[n].op, asset)
  }

  /** The ids that the operations of the history have left in the processed set. */
  function MarkedIds(h: seq<Entry>): set<Id> {
    set i | 0 <= i < |h| && Marks(h[i].op) :: OperationId(h[i].op)
  }

  /** Each credit in the history is authentic and booked only once; the processed set is what the history has marked. */
  ghost predicate CreditedOnce(s: System) {
    && s.durable.book.processed == MarkedIds(s.history)
    && (forall i :: 0 <= i < |s.history| && IsCredit(s.history[i].op) ==> Authentic(s.vault.credits, s.history[i].op))
    && (forall i, j :: 0 <= i < j < |s.history| && IsCredit(s.history[i].op) && IsCredit(s.history[j].op) ==>
          s.history[i].op.operationId != s.history[j].op.operationId)
  }

  /** An operation that calls for a payout books out more than nothing. */
  predicate PaysSomething(op: Operation) {
    TermsOf(op, ZERO_ADDRESS).settlementType == Checkpoint || TermsOf(op, ZERO_ADDRESS).amount > 0
  }

  ghost predicate HistorySound(s: System) {
    && AtEndOf(s.history, s.durable)
    && (forall e :: e in s.history ==> Exposed(e.op) && PaysSomething(e.op))
  }

  /** Memory lags behind the database only while a thread is at work; what it will sign is the last entry's terms. */
  ghost predicate WorkSound(s: System) {
    match s.work
    case None => s.memory == s.durable
    case Some(JustInstall) => s.durable == s.memory.(pending := None)
    case Some(InstallAndSign(terms, _, _)) =>
      && s.durable.pending.Some? && |s.history| > 0
      && terms == TermsOf(s.history[|s.history| - 1].op, s.history[|s.history| - 1].destination)
  }

  ghost predicate MoneySound(s: System) {
    && Sound(s.durable.book)
    && Solvent(s, USDT0) && Solvent(s, FXRP)
    && Backed(s, USDT0) && Backed(s, FXRP)
    && TotalOf(s.durable.book, USDT0) == NetBooked(s.history, USDT0)
    && TotalOf(s.durable.book, FXRP) == NetBooked(s.history, FXRP)
  }

  /** What every run keeps. */
  ghost predicate Inv(s: System, w: World) {
    && HistorySound(s)
    && WorkSound(s)
    && Lockstep(s)
    && (forall x :: x in s.signed ==> Faithful(s.history, x))
    && s.delivered <= s.signed
    && ExecutedInOrder(s)
    && CreditsNumbered(s.vault, w.hash)
    && CreditedOnce(s)
    && MoneySound(s)
  }
}
