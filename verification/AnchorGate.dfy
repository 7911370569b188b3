/**
  The gate of `mutate` under every interleaving of threads. Each step is one access to
  shared memory, one lock operation or one wait; the process may crash between any two.
 */
module AnchorGate {
  import opened Outcomes
  import opened Model

  type Thread = nat
  type Channel = nat

  /** Where a thread is. All but `Idle`, `Entering`, `Waiting` and `Confirming` hold the lock. */
  datatype Pc =
    | Idle
      // mutate
    | Entering
    | Inspecting
    | Capturing(channel: Channel, anchor: nat)
    | Waiting(channel: Channel, anchor: nat)
    | Editing
    | Installing(channel: Channel)
    | Signalling(channel: Channel)
    | Leaving
      // ConfirmAnchor
    | Confirming
    | Deciding
    | Forgetting
    | Clearing

  /** The part of the state that the gate looks at. */
  datatype Anchor = Anchor(sequence: nat, pending: bool)

  /**
    `current` is the channel in `anchorCleared`; channels below `unused` have been made.
    `commits` and `confirmations` count completed calls.
   */
  datatype Process = Process(
    lock: Option<Thread>, memory: Anchor, durable: Anchor, current: Channel, closed: set<Channel>, unused: Channel,
    threads: map<Thread, Pc>, panicked: bool, commits: nat, confirmations: nat)
  {
    function At(t: Thread): Pc {
      if t in threads then threads[t] else Idle
    }

    function Goto(t: Thread, pc: Pc): Process {
      this.(threads := threads[t := pc])
    }
  }

  datatype Action =
    | CallMutate | CallConfirm | Lock | Inspect | Unlock | Wake | TimeOut
    | Edit(ok: bool, stored: bool) | Install | Signal
    | Decide(matches: bool, stored: bool) | Forget | Close | Crash

  /** NewEngine: load the durable state, make a channel, close it if no anchor is pending. */
  function Boot(durable: Anchor, unused: Channel, closed: set<Channel>, commits: nat, confirmations: nat): Process {
    Process(None, durable, durable, unused, if durable.pending then closed else closed + {unused}, unused + 1,
            map[], false, commits, confirmations)
  }

  /** One step of one thread; `None` when the thread cannot take it. */
  function Step(p: Process, t: Thread, a: Action): Option<Process> {
    match (p.At(t), a)
    case (Idle, CallMutate) => Some(p.Goto(t, Entering))
    case (Idle, CallConfirm) => Some(p.Goto(t, Confirming))
    case (Entering, Lock) => if p.lock.None? then Some(p.Goto(t, Inspecting).(lock := Some(t))) else None
    case (Confirming, Lock) => if p.lock.None? then Some(p.Goto(t, Deciding).(lock := Some(t))) else None
      // mutate, lock held
    case (Inspecting, Inspect) =>
      Some(p.Goto(t, if p.memory.pending then Capturing(p.current, p.memory.sequence) else Editing))
    case (Capturing(channel, anchor), Unlock) => Some(p.Goto(t, Waiting(channel, anchor)).(lock := None))
    case (Editing, Edit(ok, stored)) =>
      if !ok || !stored then Some(p.Goto(t, Leaving).(unused := p.unused + 1))
      else Some(p.Goto(t, Installing(p.unused))
                 .(unused := p.unused + 1, durable := Anchor(p.memory.sequence + 1, true), commits := p.commits + 1))
    case (Installing(channel), Install) => Some(p.Goto(t, Signalling(channel)).(memory := Anchor(p.memory.sequence + 1, true)))
    case (Signalling(channel), Signal) => Some(p.Goto(t, Leaving).(current := channel))
    case (Leaving, Unlock) => Some(p.Goto(t, Idle).(lock := None))
      // mutate, waiting without the lock
    case (Waiting(channel, _), Wake) => if channel in p.closed then Some(p.Goto(t, Entering)) else None
    case (Waiting(_, _), TimeOut) => Some(p.Goto(t, Idle))
      // ConfirmAnchor, lock held
    case (Deciding, Decide(matches, stored)) =>
      if !p.memory.pending || !matches || !stored then Some(p.Goto(t, Leaving))
      else
        Some(p.Goto(t, Forgetting).(durable := p.memory.(pending := false), confirmations := p.confirmations + 1))
    case (Forgetting, Forget) => Some(p.Goto(t, Clearing).(memory := p.memory.(pending := false)))
    case (Clearing, Close) =>
      Some(p.Goto(t, Leaving).(closed := p.closed + {p.current}, panicked := p.panicked || p.current in p.closed))
    case (_, Crash) => Some(Boot(p.durable, p.unused, p.closed, p.commits, p.confirmations))
    case _ => None
  }

  predicate HoldsLock(pc: Pc) {
    match pc
    case Idle => false
    case Entering => false
    case Waiting(_, _) => false
    case Confirming => false
    case _ => true
  }

  /** What the thread that holds the lock knows. */
  predicate HolderKnows(p: Process, pc: Pc) {
    match pc
    case Inspecting => p.durable == p.memory && (p.current in p.closed <==> !p.memory.pending)
    case Capturing(_, _) => p.durable == p.memory && (p.current in p.closed <==> !p.memory.pending)
    case Deciding => p.durable == p.memory && (p.current in p.closed <==> !p.memory.pending)
    case Leaving => p.durable == p.memory && (p.current in p.closed <==> !p.memory.pending)
    case Editing => p.durable == p.memory && p.current in p.closed && !p.memory.pending
    case Installing(channel) =>
      && p.durable == Anchor(p.memory.sequence + 1, true)
      && p.current in p.closed && !p.memory.pending && channel < p.unused && channel !in p.closed
      && NobodyCaptured(p, channel)
    case Signalling(channel) =>
      && p.durable == p.memory && p.memory.pending
      && p.current in p.closed && channel < p.unused && channel !in p.closed
      && NobodyCaptured(p, channel)
    case Forgetting => p.durable == p.memory.(pending := false) && p.memory.pending && p.current !in p.closed
    case Clearing => p.durable == p.memory && !p.memory.pending && p.current !in p.closed
    case _ => true
  }

  predicate NobodyCaptured(p: Process, channel: Channel) {
    forall t :: t in p.threads ==>
      match p.threads[t]
      case Capturing(c, _) => c != channel
      case Waiting(c, _) => c != channel
      case _ => true
  }

  predicate Captures(p: Process) {
    forall t :: t in p.threads ==>
      match p.threads[t]
      case Capturing(c, a) => Captured(p, c, a)
      case Waiting(c, a) => Captured(p, c, a)
      case _ => true
  }

  /**
    While the channel is open it is the current one, and its anchor is the last one made,
    pending or just being cleared; once it is closed, that anchor is no longer pending.
   */
  predicate Captured(p: Process, channel: Channel, anchor: nat) {
    && channel < p.unused
    && anchor <= p.memory.sequence
    && (channel !in p.closed ==> channel == p.current && anchor == p.memory.sequence)
    && (channel in p.closed ==> anchor < p.memory.sequence || !p.memory.pending)
  }

  predicate Inv(p: Process) {
    && !p.panicked
    && p.current < p.unused
    && (forall c :: c in p.closed ==> c < p.unused)
    && (forall t :: t in p.threads && HoldsLock(p.threads[t]) ==> p.lock == Some(t))
    && (p.lock.Some? ==> HoldsLock(p.At(p.lock.value)) && HolderKnows(p, p.At(p.lock.value)))
    && (p.lock.None? ==> p.durable == p.memory && (p.current in p.closed <==> !p.memory.pending))
    && Captures(p)
    && p.commits == p.confirmations + (if p.durable.pending then 1 else 0)
  }

  lemma EnteringKeepsInv(p: Process, t: Thread, a: Action)
    requires Inv(p) && Step(p, t, a).Some?
    requires a.CallMutate? || a.CallConfirm? || a.Lock?
    ensures Inv(Step(p, t, a).value)
  {
  }

  lemma InspectingKeepsInv(p: Process, t: Thread, a: Action)
    requires Inv(p) && Step(p, t, a).Some?
    requires a.Inspect? || a.Unlock?
    ensures Inv(Step(p, t, a).value)
  {
  }

  lemma WaitingKeepsInv(p: Process, t: Thread, a: Action)
    requires Inv(p) && Step(p, t, a).Some?
    requires a.Wake? || a.TimeOut?
    ensures Inv(Step(p, t, a).value)
  {
  }

  lemma MutatingKeepsInv(p: Process, t: Thread, a: Action)
    requires Inv(p) && Step(p, t, a).Some?
    requires a.Edit? || a.Install? || a.Signal?
    ensures Inv(Step(p, t, a).value)
  {
  }

  lemma ConfirmingKeepsInv(p: Process, t: Thread, a: Action)
    requires Inv(p) && Step(p, t, a).Some?
    requires a.Decide? || a.Forget? || a.Close?
    ensures Inv(Step(p, t, a).value)
  {
  }

  lemma CrashingKeepsInv(p: Process, t: Thread, a: Action)
    requires Inv(p) && Step(p, t, a).Some?
    requires a.Crash?
    ensures Inv(Step(p, t, a).value)
  {
  }

  /** Every step of every thread, and every crash, keeps the invariant. */
  lemma StepKeepsInv(p: Process, t: Thread, a: Action)
    requires Inv(p) && Step(p, t, a).Some?
    ensures Inv(Step(p, t, a).value)
  {
    hide Inv, Step;
    match a
    case CallMutate => EnteringKeepsInv(p, t, a);
    case CallConfirm => EnteringKeepsInv(p, t, a);
    case Lock => EnteringKeepsInv(p, t, a);
    case Inspect => InspectingKeepsInv(p, t, a);
    case Unlock => InspectingKeepsInv(p, t, a);
    case Wake => WaitingKeepsInv(p, t, a);
    case TimeOut => WaitingKeepsInv(p, t, a);
    case Edit(_, _) => MutatingKeepsInv(p, t, a);
    case Install => MutatingKeepsInv(p, t, a);
    case Signal => MutatingKeepsInv(p, t, a);
    case Decide(_, _) => ConfirmingKeepsInv(p, t, a);
    case Forget => ConfirmingKeepsInv(p, t, a);
    case Close => ConfirmingKeepsInv(p, t, a);
    case Crash => CrashingKeepsInv(p, t, a);
  }

  // ---- Every interleaving -----------------------------------------------------------------------

  /** A run from a start with the given durable state: any threads, in any order. */
  ghost predicate Run(durable: Anchor, steps: seq<(Thread, Action)>, p: Process)
    decreases |steps|
  {
    if steps == [] then p == Boot(durable, 0, {}, if durable.pending then 1 else 0, 0)
    else
      var n := |steps| - 1;
      exists before: Process :: Run(durable, steps[..n], before) && Step(before, steps[n].0, steps[n].1) == Some(p)
  }

  lemma {:induction false} EveryRunKeepsInv(durable: Anchor, steps: seq<(Thread, Action)>, p: Process)
    requires Run(durable, steps, p)
    ensures Inv(p)
    decreases |steps|
  {
    hide Step;
    if steps != [] {
      hide Inv;
      var n := |steps| - 1;
      var before: Process :| Run(durable, steps[..n], before) && Step(before, steps[n].0, steps[n].1) == Some(p);
      EveryRunKeepsInv(durable, steps[..n], before);
      StepKeepsInv(before, steps[n].0, steps[n].1);
    }
  }

  /** The lock excludes: two threads are never between lock and unlock together. */
  lemma LockExcludes(durable: Anchor, steps: seq<(Thread, Action)>, p: Process, t: Thread, u: Thread)
    requires Run(durable, steps, p) && HoldsLock(p.At(t)) && HoldsLock(p.At(u))
    ensures t == u
  {
    hide Run, Captures, HolderKnows;
    EveryRunKeepsInv(durable, steps, p);
  }

  /**
    Whenever the lock is free, the signal is closed exactly when no anchor is pending. No channel is
    ever closed twice, and at most one committed mutation is unconfirmed.
   */
  lemma SignalTellsWhetherAnAnchorIsPending(durable: Anchor, steps: seq<(Thread, Action)>, p: Process)
    requires Run(durable, steps, p)
    ensures p.lock.None? ==> p.memory == p.durable && (p.current in p.closed <==> !p.memory.pending)
    ensures !p.panicked
    ensures p.commits == p.confirmations + (if p.durable.pending then 1 else 0)
  {
    hide Run, Captures, HolderKnows;
    EveryRunKeepsInv(durable, steps, p);
  }

  /**
    No lost wake-up: the channel that a waiter captured is closed exactly when its anchor is no longer
    pending, except while the confirming thread stands between clearing the anchor and closing that
    very channel.
   */
  lemma NoLostWakeUp(durable: Anchor, steps: seq<(Thread, Action)>, p: Process, t: Thread)
    requires Run(durable, steps, p) && p.At(t).Waiting?
    ensures
      var channel, anchor := p.At(t).channel, p.At(t).anchor;
      var pending := p.memory == Anchor(anchor, true);
      if pending then channel == p.current && channel !in p.closed
      else if channel in p.closed then Step(p, t, Wake).Some?
      else
        && p.lock.Some? && p.At(p.lock.value) == Clearing
        && Step(p, p.lock.value, Close).Some?
        && channel in Step(p, p.lock.value, Close).value.closed
  {
    hide Run;
    EveryRunKeepsInv(durable, steps, p);
    assert Captured(p, p.At(t).channel, p.At(t).anchor);
  }

  /** Own steps that the holder of the lock still has to take. */
  function StepsToUnlock(pc: Pc): nat {
    match pc
    case Inspecting => 5
    case Editing => 4
    case Installing(_) => 3
    case Signalling(_) => 2
    case Deciding => 4
    case Forgetting => 3
    case Clearing => 2
    case Capturing(_, _) => 1
    case Leaving => 1
    case _ => 0
  }

  /** The lock is never held for good: its holder can always take a step that brings it closer to the unlock. */
  lemma HolderCanProceed(durable: Anchor, steps: seq<(Thread, Action)>, p: Process)
    requires Run(durable, steps, p) && p.lock.Some?
    ensures exists a ::
              var next := Step(p, p.lock.value, a);
              && next.Some? && a != Crash
              && StepsToUnlock(next.value.At(p.lock.value)) < StepsToUnlock(p.At(p.lock.value))
              && (StepsToUnlock(next.value.At(p.lock.value)) == 0 ==> next.value.lock.None?)
  {
    hide Run, Captures, HolderKnows;
    EveryRunKeepsInv(durable, steps, p);
    var t := p.lock.value;
    var a := match p.At(t)
             case Inspecting => Inspect
             case Editing => Edit(true, true)
             case Installing(_) => Install
             case Signalling(_) => Signal
             case Deciding => Decide(true, true)
             case Forgetting => Forget
             case Clearing => Close
             case _ => Unlock;
    assert Step(p, t, a).Some? && a != Crash;
  }

  // ---- The gate inside the engine -----------------------------------------------------------------

  function Steps(p: Process, t: Thread, actions: seq<Action>): Option<Process>
    decreases |actions|
  {
    if actions == [] then Some(p)
    else
      match Step(p, t, actions[0])
      case None => None
      case Some(next) => Steps(next, t, actions[1..])
  }

  /** What the gate sees of the engine's state. */
  function SeenOf(s: State): Anchor {
    Anchor(s.sequence, s.pending.Some?)
  }

  /** A process at rest whose memory, database and signal are those of an engine in state `s`. */
  predicate Shows(p: Process, s: State) {
    && p.lock == None
    && p.memory == p.durable == SeenOf(s)
    && (p.current in p.closed <==> s.pending == None)
  }

  const MUTATION := [CallMutate, Lock, Inspect] + [Edit(true, true), Install] + [Signal, Unlock]
  const CONFIRMATION := [CallConfirm, Lock] + [Decide(true, true), Forget] + [Close, Unlock]

  lemma {:induction false} StepsAppend(p: Process, t: Thread, first: seq<Action>, rest: seq<Action>)
    requires Steps(p, t, first).Some?
    ensures Steps(p, t, first + rest) == Steps(Steps(p, t, first).value, t, rest)
    decreases |first|
  {
    hide Step;
    if first == [] {
      assert first + rest == rest;
    } else {
      assert (first + rest)[1..] == first[1..] + rest;
      StepsAppend(Step(p, t, first[0]).value, t, first[1..], rest);
    }
  }

  lemma TwoSteps(p: Process, t: Thread, a: Action, b: Action, q: Process)
    requires Step(p, t, a) == Some(q) && Step(q, t, b).Some?
    ensures Steps(p, t, [a, b]) == Step(q, t, b)
  {
    hide Step;
    assert [a, b][1..] == [b] && [b][1..] == [];
    assert Steps(q, t, [b]) == Step(q, t, b);
  }

  lemma ReachEditing(p: Process, t: Thread)
    requires p.lock == None && !p.memory.pending && p.At(t) == Idle
    ensures Steps(p, t, [CallMutate, Lock, Inspect]) == Some(p.Goto(t, Editing).(lock := Some(t)))
  {
    var p1, p2 := p.Goto(t, Entering), p.Goto(t, Inspecting).(lock := Some(t));
    assert p1.Goto(t, Inspecting).(lock := Some(t)) == p2;
    assert Step(p1, t, Lock) == Some(p2);
    assert p2.Goto(t, Editing) == p.Goto(t, Editing).(lock := Some(t));
    assert Step(p2, t, Inspect) == Some(p2.Goto(t, Editing));
    TwoSteps(p1, t, Lock, Inspect, p2);
    hide Step;
    assert [CallMutate, Lock, Inspect][1..] == [Lock, Inspect];
    assert Step(p, t, CallMutate) == Some(p1) by { CallStarts(p, t); }
  }

  lemma CallStarts(p: Process, t: Thread)
    requires p.At(t) == Idle
    ensures Step(p, t, CallMutate) == Some(p.Goto(t, Entering)) && Step(p, t, CallConfirm) == Some(p.Goto(t, Confirming))
  {
  }

  lemma WriteMutation(p: Process, t: Thread)
    requires p.At(t) == Editing
    ensures
      var written := Anchor(p.memory.sequence + 1, true);
      Steps(p, t, [Edit(true, true), Install])
      == Some(p.Goto(t, Signalling(p.unused)).(unused := p.unused + 1, durable := written, memory := written, commits := p.commits + 1))
  {
    var written := Anchor(p.memory.sequence + 1, true);
    var q := p.Goto(t, Installing(p.unused)).(unused := p.unused + 1, durable := written, commits := p.commits + 1);
    assert q.Goto(t, Signalling(p.unused)).threads == p.Goto(t, Signalling(p.unused)).threads;
    TwoSteps(p, t, Edit(true, true), Install, q);
  }

  lemma ReplaceSignal(p: Process, t: Thread)
    requires p.At(t).Signalling?
    ensures Steps(p, t, [Signal, Unlock]) == Some(p.Goto(t, Idle).(current := p.At(t).channel, lock := None))
  {
    var q := p.Goto(t, Leaving).(current := p.At(t).channel);
    assert q.Goto(t, Idle).threads == p.Goto(t, Idle).threads;
    TwoSteps(p, t, Signal, Unlock, q);
  }

  lemma ReachDeciding(p: Process, t: Thread)
    requires p.lock == None && p.At(t) == Idle
    ensures Steps(p, t, [CallConfirm, Lock]) == Some(p.Goto(t, Deciding).(lock := Some(t)))
  {
    var q := p.Goto(t, Confirming);
    CallStarts(p, t);
    assert q.Goto(t, Deciding).threads == p.Goto(t, Deciding).threads;
    TwoSteps(p, t, CallConfirm, Lock, q);
  }

  lemma WriteConfirmation(p: Process, t: Thread)
    requires p.At(t) == Deciding && p.memory.pending
    ensures
      var cleared := p.memory.(pending := false);
      Steps(p, t, [Decide(true, true), Forget])
      == Some(p.Goto(t, Clearing).(durable := cleared, memory := cleared, confirmations := p.confirmations + 1))
  {
    var q := p.Goto(t, Forgetting).(durable := p.memory.(pending := false), confirmations := p.confirmations + 1);
    assert q.Goto(t, Clearing).threads == p.Goto(t, Clearing).threads;
    TwoSteps(p, t, Decide(true, true), Forget, q);
  }

  lemma CloseSignal(p: Process, t: Thread)
    requires p.At(t) == Clearing && p.current !in p.closed
    ensures Steps(p, t, [Close, Unlock]) == Some(p.Goto(t, Idle).(closed := p.closed + {p.current}, lock := None))
  {
    var q := p.Goto(t, Leaving).(closed := p.closed + {p.current});
    assert q.Goto(t, Idle).threads == p.Goto(t, Idle).threads;
    TwoSteps(p, t, Close, Unlock, q);
  }

  /**
    A whole `mutate` of the engine, taken one access at a time by a thread that nobody overtakes, leads from the
    engine's state to the committed one, with a new signal that is open.
   */
  lemma MutationIsAPath(p: Process, t: Thread, s: State, kind: Kind, operationId: Id, next: Book)
    requires Inv(p) && Shows(p, s) && s.pending == None && p.At(t) == Idle
    ensures Steps(p, t, MUTATION).Some?
    ensures
      var q := Steps(p, t, MUTATION).value;
      && Shows(q, Committed(s, kind, operationId, next)) && q.At(t) == Idle
      && q.current == p.unused && q.current !in q.closed && q.commits == p.commits + 1
  {
    ClosedAreMade(p);
    hide Inv, Steps, Step;
    ReachEditing(p, t);
    var p1 := p.Goto(t, Editing).(lock := Some(t));
    WriteMutation(p1, t);
    var p2 := Steps(p1, t, [Edit(true, true), Install]).value;
    ReplaceSignal(p2, t);
    StepsAppend(p, t, [CallMutate, Lock, Inspect], [Edit(true, true), Install]);
    StepsAppend(p, t, [CallMutate, Lock, Inspect] + [Edit(true, true), Install], [Signal, Unlock]);
  }

  /** A whole `ConfirmAnchor` leads to the same state without its anchor, and closes the very signal that was open. */
  lemma ConfirmationIsAPath(p: Process, t: Thread, s: State)
    requires Shows(p, s) && s.pending.Some? && p.At(t) == Idle
    ensures Steps(p, t, CONFIRMATION).Some?
    ensures
      var q := Steps(p, t, CONFIRMATION).value;
      && Shows(q, s.(pending := None)) && q.At(t) == Idle
      && q.current == p.current && q.panicked == p.panicked && q.confirmations == p.confirmations + 1
  {
    hide Steps, Step;
    ReachDeciding(p, t);
    var p1 := p.Goto(t, Deciding).(lock := Some(t));
    WriteConfirmation(p1, t);
    var p2 := Steps(p1, t, [Decide(true, true), Forget]).value;
    CloseSignal(p2, t);
    StepsAppend(p, t, [CallConfirm, Lock], [Decide(true, true), Forget]);
    StepsAppend(p, t, [CallConfirm, Lock] + [Decide(true, true), Forget], [Close, Unlock]);
  }

  lemma ClosedAreMade(p: Process)
    requires Inv(p)
    ensures p.unused !in p.closed
  {
  }
}
