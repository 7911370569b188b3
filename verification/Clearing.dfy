/**
  Which pending anchors can still be cleared. A payout anchor is never signed again, so it
  depends on a settlement that left the enclave, is not expired and names a destination.
 */
module Clearing {
  import opened Outcomes
  import opened Model
  import opened Ledger
  import opened Settlements
  import opened Vault
  import opened Handlers
  import opened Protocol
  import opened Runs
  import opened Safety

  /** The chain's clock does not run backwards. */
  predicate NotBefore(e: Event, start: nat) {
    e.Executes? ==> start <= e.now
  }

  /** Nobody outside the enclave has a signed settlement that never left it. */
  predicate Carried(s: System, e: Event) {
    e.Executes? && e.settlement in s.signed ==> e.settlement in s.delivered
  }

  /** A continuation from a given state, no execution being earlier than `start`. */
  ghost predicate Continues(s: System, events: seq<Event>, w: World, start: nat)
    decreases |events|
  {
    events == []
    || (&& NotBefore(events[0], start) && Carried(s, events[0]) && Possible(s, events[0], w)
        && Continues(Next(s, events[0], w), events[1..], w, start))
  }

  predicate Cleared(s: System) {
    s.work == None && s.memory.pending == None
  }

  ghost predicate Clearable(s: System, w: World, start: nat) {
    exists events :: Continues(s, events, w, start) && Cleared(After(s, events, w))
  }

  /** The engine is at rest with an anchor pending that the vault has not executed. */
  ghost predicate Behind(s: System) {
    s.work == None && s.memory.pending.Some? && s.vault.sequence < s.memory.sequence
  }

  /** A settlement for the pending anchor that has left the enclave and that the vault would still pay at `start`. */
  predicate CanStillPay(s: System, x: Settlement, start: nat) {
    x in s.delivered && x.nextSequence == |s.history| && start <= x.deadline && x.terms.destination != ZERO_ADDRESS
  }

  lemma ClearableStep(s: System, e: Event, w: World, start: nat)
    requires NotBefore(e, start) && Carried(s, e) && Possible(s, e, w) && Clearable(Next(s, e, w), w, start)
    ensures Clearable(s, w, start)
  {
    hide Possible, Next;
    var events :| Continues(Next(s, e, w), events, w, start) && Cleared(After(Next(s, e, w), events, w));
    assert ([e] + events)[1..] == events;
    assert Continues(s, [e] + events, w, start) && Cleared(After(s, [e] + events, w));
  }

  lemma ClearedIsClearable(s: System, w: World, start: nat)
    requires Cleared(s)
    ensures Clearable(s, w, start)
  {
    assert Continues(s, [], w, start) && Cleared(After(s, [], w));
  }

  /** Once the vault is level, a confirmation clears the anchor. */
  lemma LevelIsClearable(s: System, w: World, start: nat)
    requires Inv(s, w) && s.work == None && s.memory.pending.Some? && s.vault.sequence == |s.history| == |s.executed| > 0
    requires s.vault.root == s.executed[|s.executed| - 1].nextRoot
    ensures Clearable(s, w, start)
  {
    hide MoneySound, CreditedOnce, CreditsNumbered, Faithful, KindOf, OperationId, TermsOf, Exposed, PaysSomething, BookAt, Clearable;
    var confirm := Confirms(s.vault.sequence, s.vault.root, s.vault.sequence, s.vault.root, true);
    var confirmed := Next(s, confirm, w);
    assert Possible(s, confirm, w);
    assert Cleared(Next(confirmed, Installs, w));
    ClearedIsClearable(Next(confirmed, Installs, w), w, start);
    ClearableStep(confirmed, Installs, w, start);
    ClearableStep(s, confirm, w, start);
  }

  /** A delivered settlement that is timely clears the anchor, with an execution, a confirmation and its installation. */
  lemma TimelyIsClearable(s: System, w: World, x: Settlement, start: nat)
    requires Inv(s, w) && Behind(s) && x in s.delivered && Timely(s.vault, x, start, false)
    ensures Clearable(s, w, start)
  {
    hide MoneySound, CreditedOnce, CreditsNumbered, Faithful, KindOf, OperationId, TermsOf, Exposed, PaysSomething, BookAt;
    hide Clearable, Execute, AtEndOf, RootAt;
    SignedInInvExecutesExactly(s, w, x, start, false);
    var e := Executes(x, start, false);
    var s' := Next(s, e, w);
    ExecutionEventKeeps(s, w, x, start, false);
    ExecutionPays(s.vault, x, start, false, true, w.self, USDT0);
    ExecutedIsPending(s, w, x, start, false);
    LevelIsClearable(s', w, start);
    ClearableStep(s, e, w, start);
  }

  /** The pending anchor is the last entry's. */
  lemma BehindFacts(s: System, w: World)
    requires Inv(s, w) && Behind(s)
    ensures |s.history| == s.vault.sequence + 1
    ensures s.memory.pending == Some(AnchorOf(s.history))
    ensures s.memory.pending.value.kind == KindOf(s.history[|s.history| - 1].op)
    ensures Exposed(s.history[|s.history| - 1].op)
  {
    hide MoneySound, CreditedOnce, CreditsNumbered, Faithful, KindOf, OperationId, TermsOf, PaysSomething, BookAt, RootAt;
    hide ExecutedInOrder, Exposed;
    assert s.history[|s.history| - 1] in s.history;
  }

  lemma RecoverableIsClearable(s: System, w: World, c: Context)
    requires Inv(s, w) && Behind(s) && Recoverable(s.memory.pending.value.kind) && c.signer && c.delivers
    ensures Clearable(s, w, c.env.now)
  {
    hide MoneySound, CreditedOnce, CreditsNumbered, Faithful, KindOf, OperationId, TermsOf, PaysSomething, BookAt, RootAt;
    hide Clearable, Recoverable, Exposed, ExecutedInOrder, Lockstep;
    BehindFacts(s, w);
    var s' := Next(s, Recovers(c), w);
    RecoveryEventKeeps(s, w, c);
    var x := AnchorSettlement(s.memory.pending.value, c.requestId, NO_MONEY, ZERO_ADDRESS, c.env.now);
    assert x in s'.delivered;
    TimelyIsClearable(s', w, x, c.env.now);
    ClearableStep(s, Recovers(c), w, c.env.now);
  }

  /** Nothing that has left the enclave can be paid any more, and nothing more will be signed. */
  ghost predicate Stranded(s: System, w: World, start: nat) {
    && Inv(s, w) && Behind(s)
    && !Recoverable(s.memory.pending.value.kind)
    && forall x :: x in s.delivered ==> !CanStillPay(s, x, start)
  }

  /** In a stranded system the vault accepts no settlement. */
  lemma StrandedNeverExecutes(s: System, w: World, x: Settlement, now: nat, paused: bool, start: nat)
    requires Stranded(s, w, start) && start <= now && Carried(s, Executes(x, now, paused))
    ensures Next(s, Executes(x, now, paused), w) == s
  {
    hide MoneySound, CreditedOnce, CreditsNumbered, Faithful, OperationId, PaysSomething, BookAt, RootAt, TermsOf, Transfer;
    if Execute(s.vault, x, now, paused, x in s.signed, w.self).Ok? {
      ExecutedIsPending(s, w, x, now, paused);
      BehindFacts(s, w);
      var e := s.history[|s.history| - 1];
      RecoveryNeverDropsAPayout(e.op, e.destination);
      assert false;
    }
  }

  lemma StrandedStays(s: System, e: Event, w: World, start: nat)
    requires CollisionFree(w.hash) && Stranded(s, w, start) && NotBefore(e, start) && Carried(s, e) && Possible(s, e, w)
    ensures Stranded(Next(s, e, w), w, start)
  {
    hide Inv, Receive, Execute, Recoverable, Apply, Possible;
    EventKeeps(s, e, w);
    match e
    case Executes(x, now, paused) => StrandedNeverExecutes(s, w, x, now, paused, start);
    case Confirms(sequence, root, readSequence, readRoot, database) =>
      StrandedNeverConfirms(s, w, sequence, root, readSequence, readRoot, database, start);
    case Deposits(sender, token, amount, received, instructed, now) =>
      CreditKeepsSequence(s.vault, sender, token, amount, received, instructed, false, w.hash);
    case FundsBackstop(sender, operator, amount, received, instructed) =>
      CreditKeepsSequence(s.vault, sender, Supported(USDT0), amount, received, instructed, true, w.hash);
    case Crashes => CrashAtRest(s, w);
    case _ =>
  }

  lemma CrashAtRest(s: System, w: World)
    requires Inv(s, w) && s.work == None
    ensures Next(s, Crashes, w) == s
  {
    hide HistorySound, Lockstep, MoneySound, CreditedOnce, CreditsNumbered, ExecutedInOrder, Faithful;
  }

  lemma CreditKeepsSequence(
    v: VaultState, sender: Owner, token: Token, amount: nat, received: nat, instructed: bool, backstop: bool, hash: CreditHash)
    ensures
      var r := Receive(v, sender, token, amount, received, instructed, backstop, hash);
      r.Ok? ==> r.value.0.sequence == v.sequence
  {
  }

  lemma StrandedNeverConfirms(
    s: System, w: World, sequence: nat, root: Root, readSequence: nat, readRoot: Root, database: bool, start: nat)
    requires Stranded(s, w, start) && Possible(s, Confirms(sequence, root, readSequence, readRoot, database), w)
    ensures Next(s, Confirms(sequence, root, readSequence, readRoot, database), w) == s
  {
    hide MoneySound, CreditedOnce, CreditsNumbered, Faithful, ExecutedInOrder, Recoverable, OnceRoot, RootAt, BookAt;
    hide Exposed, PaysSomething;
    ConfirmationIsNeverEarly(s, w, sequence, root, readSequence, readRoot, database);
  }

  lemma {:induction false} StrandedForGood(s: System, events: seq<Event>, w: World, start: nat)
    requires CollisionFree(w.hash) && Stranded(s, w, start) && Continues(s, events, w, start)
    ensures !Cleared(After(s, events, w))
    decreases |events|
  {
    hide Next, Possible, Inv, Recoverable;
    if events != [] {
      StrandedStays(s, events[0], w, start);
      StrandedForGood(Next(s, events[0], w), events[1..], w, start);
    }
  }

  function ContextAt(now: Time): Context {
    Context(Env(now, [], [], (x: string) => 0), "recovery", None, true, true, true)
  }

  /**
    Exactly which pending anchors that the vault has not executed can still be cleared, by whatever continuation:
    those of a recoverable kind, and those for which a settlement has left the enclave that is not expired and
    names a destination. A payout without one holds up every further mutation: because signing failed, the
    response was lost, the deadline passed, or the destination is zero.
   */
  lemma ClearableExactly(events: seq<Event>, w: World, s: System, start: Time)
    requires CollisionFree(w.hash) && Run(events, w, s) && Behind(s)
    ensures Clearable(s, w, start) <==>
            || Recoverable(s.memory.pending.value.kind)
            || exists x :: CanStillPay(s, x, start)
  {
    hide Inv, Run, Clearable, CanStillPay, Recoverable;
    EveryRunKeepsInv(events, w, s);
    ClearableInInvExactly(w, s, start);
  }

  lemma ClearableInInvExactly(w: World, s: System, start: Time)
    requires CollisionFree(w.hash) && Inv(s, w) && Behind(s)
    ensures Clearable(s, w, start) <==>
            || Recoverable(s.memory.pending.value.kind)
            || exists x :: CanStillPay(s, x, start)
  {
    hide Possible, Next, Recoverable, MoneySound, CreditedOnce, CreditsNumbered, TermsOf, RootAt, KindOf, Exposed;
    if Recoverable(s.memory.pending.value.kind) {
      RecoverableIsClearable(s, w, ContextAt(start));
    } else if x :| CanStillPay(s, x, start) {
      BehindFacts(s, w);
      assert Faithful(s.history, x);
      TimelyIsClearable(s, w, x, start);
    } else if Clearable(s, w, start) {
      var next :| Continues(s, next, w, start) && Cleared(After(s, next, w));
      StrandedForGood(s, next, w, start);
    }
  }

  // ---- What a caller can check before a payout --------------------------------------------------------

  /** The state after a handler that committed, and signed if its signer answered. */
  lemma HandlerLeavesBehind(s: System, w: World, op: Operation, destination: Owner, account: Owner, c: Context)
    requires Inv(s, w) && Possible(s, Persists(op, destination, account, c), w)
    requires s.work == None && s.memory.pending == None && c.refusal == None && c.database
    requires Apply(s.memory.book, op, c.env).Ok?
    ensures
      var t := AfterHandling(s, op, destination, account, c);
      && Inv(t, w) && Behind(t)
      && t.memory.pending.value.kind == KindOf(op)
      && t.memory.book == Apply(s.memory.book, op, c.env).value && t.vault == s.vault
      && t.history == s.history + [Entry(op, destination, t.memory.book)]
      && var x := AnchorSettlement(t.memory.pending.value, c.requestId, TermsOf(op, destination), account, c.env.now);
         && x.nextSequence == |t.history|
         && t.signed == (if c.signer then s.signed + {x} else s.signed)
         && t.delivered == (if c.signer && c.delivers then s.delivered + {x} else s.delivered)
  {
    hide Apply, KindOf, OperationId, TermsOf, MoneySound, CreditedOnce, CreditsNumbered, Faithful, RootAt, Exposed, PaysSomething;
    hide Possible, ExecutedInOrder;
    PersistEventKeeps(s, w, op, destination, account, c);
    InstallEventKeeps(Next(s, Persists(op, destination, account, c), w), w);
  }

  /** For a payout that a handler commits and signs: whether it was delivered, and to whom its terms pay. */
  lemma CommittedPayoutClearableExactly(
    events: seq<Event>, w: World, s: System, op: Operation, destination: Owner, account: Owner, c: Context, start: Time)
    requires CollisionFree(w.hash) && Run(events, w, s) && Possible(s, Persists(op, destination, account, c), w)
    requires s.work == None && s.memory.pending == None && c.refusal == None && c.database && c.signer
    requires Apply(s.memory.book, op, c.env).Ok? && !Recoverable(KindOf(op))
    requires start <= c.env.now + VALIDITY
    ensures Clearable(AfterHandling(s, op, destination, account, c), w, start) <==>
            c.delivers && TermsOf(op, destination).destination != ZERO_ADDRESS
  {
    hide Run, Possible, Apply, Clearable, AfterHandling, Recoverable, KindOf, TermsOf, HistorySound, WorkSound, Lockstep;
    hide MoneySound, CreditedOnce, CreditsNumbered, ExecutedInOrder;
    EveryRunKeepsInv(events, w, s);
    var t := AfterHandling(s, op, destination, account, c);
    HandlerLeavesBehind(s, w, op, destination, account, c);
    ClearableInInvExactly(w, t, start);
    var x := AnchorSettlement(t.memory.pending.value, c.requestId, TermsOf(op, destination), account, c.env.now);
    forall y | CanStillPay(t, y, start) ensures y == x && c.delivers {
      assert y in s.delivered ==> Faithful(s.history, y);
    }
    if c.delivers && TermsOf(op, destination).destination != ZERO_ADDRESS {
      assert CanStillPay(t, x, start);
    }
  }
}
