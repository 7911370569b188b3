/**
  How the relayer brings a settlement to the chain: look whether it is executed, send it if
  not, wait for the receipt, and after any failure look again. Broadcasts may be lost, reads
  may fail, anyone may execute the settlement meanwhile, and the relayer may crash.
 */
module Sending {
  import opened Outcomes
  import opened Model
  import opened Settlements
  import opened Jobs

  type Hash = nat

  /** Who broadcast a transaction; of its own, the relayer's are recorded with what it had seen when it looked. */
  datatype Sender = Anyone | Relayer(broadcasts: nat, executions: nat)

  datatype Tx = Tx(id: SettlementId, sender: Sender)

  /**
    The chain as the relayer's endpoint shows it. A transaction's hash is its place in `txs`; `statuses` are
    the receipts of those that are in a block, and `executions` lists the successful ones in block order.
   */
  datatype View = View(txs: seq<Tx>, statuses: map<Hash, bool>, executions: seq<Hash>)

  const NEW_VIEW := View([], map[], [])

  predicate Executes(txs: seq<Tx>, h: Hash, id: SettlementId) {
    h < |txs| && txs[h].id == id
  }

  /** The last SettlementExecuted event for an id. */
  function ExecutionOf(txs: seq<Tx>, executions: seq<Hash>, id: SettlementId): (r: Option<Hash>)
    ensures r.Some? ==> r.value in executions && Executes(txs, r.value, id)
    ensures r.None? ==> forall h :: h in executions ==> !Executes(txs, h, id)
  {
    if executions == [] then None
    else
      var n := |executions| - 1;
      if Executes(txs, executions[n], id) then Some(executions[n]) else ExecutionOf(txs, executions[..n], id)
  }

  predicate Used(c: View, id: SettlementId) {
    ExecutionOf(c.txs, c.executions, id).Some?
  }

  /** settlementTransaction: the id's flag in the vault, then its event. A used id without an event is a failure too. */
  function LookUp(c: View, id: SettlementId, readable: bool): Reply<Option<Hash>> {
    if !readable then Fails(Other) else Got(ExecutionOf(c.txs, c.executions, id))
  }

  function Broadcast(c: View, id: SettlementId, sender: Sender): View {
    c.(txs := c.txs + [Tx(id, sender)])
  }

  /** What happens on the chain besides: others broadcast, and blocks include transactions. */
  datatype Move = OthersBroadcast(id: SettlementId) | Includes(hash: Hash, ok: bool)

  /** The vault reverts a settlement whose id is used; it may revert any other for reasons of its own. */
  function Moved(c: View, m: Move): View {
    match m
    case OthersBroadcast(id) => Broadcast(c, id, Anyone)
    case Includes(hash, ok) =>
      if hash >= |c.txs| || hash in c.statuses || (ok && Used(c, c.txs[hash].id)) then c
      else c.(statuses := c.statuses[hash := ok], executions := if ok then c.executions + [hash] else c.executions)
  }

  function AllMoved(c: View, moves: seq<Move>): View
    decreases |moves|
  {
    if moves == [] then c else AllMoved(Moved(c, moves[0]), moves[1..])
  }

  // ---- One call of `execute` -----------------------------------------------------------------------------

  /** Handing the transaction over: refused before it went out, gone out with the answer lost, or gone out. */
  datatype Write = Refused | Lost | Sent

  /** The answers that one call gets, and what happens on the chain before each of them. */
  datatype Script = Script(
    beforeLook: seq<Move>, readable: bool, beforeWrite: seq<Move>, write: Write,
    beforeReceipt: seq<Move>, shown: bool, beforeRecheck: seq<Move>, readableAgain: bool)

  /** The outcome of the `catch` branch: whatever failed, an execution found now is returned. */
  function Rechecked(c: View, id: SettlementId, m: Script): (View, Reply<Hash>) {
    var after := AllMoved(c, m.beforeRecheck);
    match LookUp(after, id, m.readableAgain)
    case Got(Some(h)) => (after, Got(h))
    case _ => (after, Fails(Other))
  }

  /** A receipt that says success; waiting may also fail, time out or show a revert. */
  predicate Succeeds(c: View, h: Hash, shown: bool) {
    shown && h in c.statuses && c.statuses[h]
  }

  /** `execute`: what one call leaves on the chain and returns. */
  function Called(c: View, id: SettlementId, m: Script): (View, Reply<Hash>) {
    var looked := AllMoved(c, m.beforeLook);
    match LookUp(looked, id, m.readable)
    case Fails(f) => (looked, Fails(f))
    case Got(Some(h)) => (looked, Got(h))
    case Got(None) =>
      var ready := AllMoved(looked, m.beforeWrite);
      if m.write == Refused then Rechecked(ready, id, m)
      else
        var h := |ready.txs|;
        var sent := Broadcast(ready, id, Relayer(|looked.txs|, |looked.executions|));
        if m.write == Lost then Rechecked(sent, id, m)
        else
          var waited := AllMoved(sent, m.beforeReceipt);
          if Succeeds(waited, h, m.shown) then (waited, Got(h)) else Rechecked(waited, id, m)
  }

  // ---- The relayer as a state machine ----------------------------------------------------------------------

  datatype Pc = Looking | Writing(broadcasts: nat, executions: nat) | Awaiting(hash: Hash) | Rechecking

  datatype Call = Call(id: SettlementId, pc: Pc)

  datatype Return = Return(id: SettlementId, hash: Hash)

  /** The drain handles one job at a time, so one call at most is open. `returned` only records what calls returned. */
  datatype Sending = Sending(chain: View, call: Option<Call>, returned: seq<Return>)

  const START := Sending(NEW_VIEW, None, [])

  /** `Calls` comes from anywhere: a job, its retry, the recovery of a deposit or of an anchor. */
  datatype Event =
    | Moves(move: Move)
    | Calls(id: SettlementId)
    | Looks(readable: bool)
    | Writes(write: Write)
    | Waits(shown: bool)
    | Crashes

  function Returning(s: Sending, h: Hash): Sending
    requires s.call.Some?
  {
    s.(call := None, returned := s.returned + [Return(s.call.value.id, h)])
  }

  function AfterLooking(s: Sending, readable: bool): Sending {
    if s.call == None || s.call.value.pc !in {Looking, Rechecking} then s
    else
      match LookUp(s.chain, s.call.value.id, readable)
      case Got(Some(h)) => Returning(s, h)
      case Got(None) =>
        if s.call.value.pc == Rechecking then s.(call := None)
        else s.(call := Some(Call(s.call.value.id, Writing(|s.chain.txs|, |s.chain.executions|))))
      case Fails(_) => s.(call := None)
  }

  function AfterWriting(s: Sending, write: Write): Sending {
    if s.call == None || !s.call.value.pc.Writing? then s
    else
      var id, pc := s.call.value.id, s.call.value.pc;
      var sent := Broadcast(s.chain, id, Relayer(pc.broadcasts, pc.executions));
      match write
      case Refused => s.(call := Some(Call(id, Rechecking)))
      case Lost => s.(chain := sent, call := Some(Call(id, Rechecking)))
      case Sent => s.(chain := sent, call := Some(Call(id, Awaiting(|s.chain.txs|))))
  }

  function AfterWaiting(s: Sending, shown: bool): Sending {
    if s.call == None || !s.call.value.pc.Awaiting? then s
    else if Succeeds(s.chain, s.call.value.pc.hash, shown) then Returning(s, s.call.value.pc.hash)
    else s.(call := Some(Call(s.call.value.id, Rechecking)))
  }

  /** One step; a step that is not due changes nothing. */
  function Next(s: Sending, e: Event): Sending {
    match e
    case Moves(m) => s.(chain := Moved(s.chain, m))
    case Calls(id) => if s.call.Some? then s else s.(call := Some(Call(id, Looking)))
    case Looks(readable) => AfterLooking(s, readable)
    case Writes(write) => AfterWriting(s, write)
    case Waits(shown) => AfterWaiting(s, shown)
    case Crashes => s.(call := None)
  }

  function After(s: Sending, events: seq<Event>): Sending
    decreases |events|
  {
    if events == [] then s else After(Next(s, events[0]), events[1..])
  }

  // ---- What holds after every run -----------------------------------------------------------------------------

  /** Receipts and executions agree, and no settlement is executed twice. */
  ghost predicate ViewSound(c: View) {
    && (forall h :: h in c.statuses ==> h < |c.txs|)
    && (forall h :: h in c.executions <==> h in c.statuses && c.statuses[h])
    && (forall a, b, id :: 0 <= a < b < |c.executions| && Executes(c.txs, c.executions[a], id) ==>
          !Executes(c.txs, c.executions[b], id))
  }

  /** At that moment, so many broadcasts and executions into the run, the id was not executed. */
  ghost predicate UnusedAt(c: View, id: SettlementId, executions: nat) {
    executions <= |c.executions| && forall k :: 0 <= k < executions ==> !Executes(c.txs, c.executions[k], id)
  }

  predicate OwnAt(c: View, i: int) {
    0 <= i < |c.txs| && c.txs[i].sender.Relayer?
  }

  /** When the relayer sent a transaction, its look-up, later than all its earlier sendings, had found the id unused. */
  ghost predicate SentUnused(c: View, j: int)
    requires OwnAt(c, j)
  {
    && c.txs[j].sender.broadcasts <= j
    && UnusedAt(c, c.txs[j].id, c.txs[j].sender.executions)
    && forall i :: i < j && OwnAt(c, i) ==> i < c.txs[j].sender.broadcasts
  }

  ghost predicate CallSound(s: Sending) {
    match s.call
    case Some(Call(id, Writing(broadcasts, executions))) =>
      && broadcasts <= |s.chain.txs| && UnusedAt(s.chain, id, executions)
      && (forall i :: OwnAt(s.chain, i) ==> i < broadcasts)
      && (forall r :: r in s.returned ==> r.id != id)
    case Some(Call(id, Awaiting(hash))) => Executes(s.chain.txs, hash, id)
    case _ => true
  }

  ghost predicate Inv(s: Sending) {
    && ViewSound(s.chain)
    && (forall r :: r in s.returned ==> r.hash in s.chain.executions && Executes(s.chain.txs, r.hash, r.id))
    && (forall j :: OwnAt(s.chain, j) ==> SentUnused(s.chain, j))
    && CallSound(s)
  }

  /** Logs only grow. */
  ghost predicate Grows(c: View, d: View) {
    c.txs <= d.txs && c.executions <= d.executions
  }

  lemma NextGrows(s: Sending, e: Event)
    ensures Grows(s.chain, Next(s, e).chain) && s.returned <= Next(s, e).returned
  {
  }

  lemma {:induction false} AfterGrows(s: Sending, events: seq<Event>)
    ensures Grows(s.chain, After(s, events).chain) && s.returned <= After(s, events).returned
    decreases |events|
  {
    if events != [] {
      NextGrows(s, events[0]);
      AfterGrows(Next(s, events[0]), events[1..]);
    }
  }


  // ---- Every run keeps the invariant ------------------------------------------------------------------------------

  lemma MoveKeepsView(c: View, m: Move)
    requires ViewSound(c)
    ensures ViewSound(Moved(c, m))
  {
    var d := Moved(c, m);
    if d.executions != c.executions {
      assert d.executions == c.executions + [m.hash];
      assert forall h :: h in d.executions <==> h in c.executions || h == m.hash;
    }
    forall a, b, id | 0 <= a < b < |d.executions| && Executes(d.txs, d.executions[a], id)
      ensures !Executes(d.txs, d.executions[b], id)
    {
      ExecutionsStay(c, d, a, id);
      assert b < |c.executions| ==> c.executions[b] in c.executions;
    }
  }

  /** An execution is of a transaction that was there. */
  lemma ExecutionsStay(c: View, d: View, k: int, id: SettlementId)
    requires ViewSound(c) && Grows(c, d) && 0 <= k < |c.executions|
    ensures d.executions[k] == c.executions[k]
    ensures Executes(d.txs, d.executions[k], id) <==> Executes(c.txs, c.executions[k], id)
  {
    assert c.executions[k] in c.executions;
  }

  lemma UnusedStays(c: View, d: View, id: SettlementId, executions: nat)
    requires ViewSound(c) && Grows(c, d) && UnusedAt(c, id, executions)
    ensures UnusedAt(d, id, executions)
  {
    forall k | 0 <= k < executions ensures !Executes(d.txs, d.executions[k], id) {
      ExecutionsStay(c, d, k, id);
    }
  }

  /** Facts about what was sent survive any growth of the view. */
  lemma SentUnusedStays(c: View, d: View, j: int)
    requires ViewSound(c) && Grows(c, d) && OwnAt(c, j) && SentUnused(c, j)
    ensures SentUnused(d, j)
  {
    UnusedStays(c, d, c.txs[j].id, c.txs[j].sender.executions);
    assert forall i :: i < j && OwnAt(d, i) ==> OwnAt(c, i);
  }

  lemma GrowthKeeps(s: Sending, t: Sending)
    requires Inv(s) && Grows(s.chain, t.chain) && t.call == s.call && t.returned == s.returned
    requires forall i :: OwnAt(t.chain, i) ==> OwnAt(s.chain, i)
    ensures forall j :: OwnAt(t.chain, j) ==> SentUnused(t.chain, j)
    ensures CallSound(t)
  {
    hide SentUnused, UnusedAt, ViewSound;
    forall j | OwnAt(t.chain, j) ensures SentUnused(t.chain, j) {
      SentUnusedStays(s.chain, t.chain, j);
    }
    if s.call.Some? && s.call.value.pc.Writing? {
      UnusedStays(s.chain, t.chain, s.call.value.id, s.call.value.pc.executions);
    }
  }

  lemma MoveKeeps(s: Sending, m: Move)
    requires Inv(s)
    ensures Inv(Next(s, Moves(m)))
  {
    hide Used, SentUnused, CallSound, ViewSound;
    MoveKeepsView(s.chain, m);
    NextGrows(s, Moves(m));
    GrowthKeeps(s, Next(s, Moves(m)));
  }

  lemma LookKeeps(s: Sending, readable: bool)
    requires Inv(s)
    ensures Inv(Next(s, Looks(readable)))
  {
  }

  lemma WriteKeeps(s: Sending, write: Write)
    requires Inv(s)
    ensures Inv(Next(s, Writes(write)))
  {
    hide UnusedAt, ExecutionOf;
    var t := Next(s, Writes(write));
    if t.chain != s.chain {
      var id := s.call.value.id;
      UnusedStays(s.chain, t.chain, id, s.call.value.pc.executions);
      forall j | OwnAt(t.chain, j) ensures SentUnused(t.chain, j) {
        if j < |s.chain.txs| {
          assert OwnAt(s.chain, j);
          SentUnusedStays(s.chain, t.chain, j);
        } else {
          assert forall i :: i < j && OwnAt(t.chain, i) ==> OwnAt(s.chain, i);
        }
      }
      BroadcastKeepsView(s.chain, id, t.chain.txs[|s.chain.txs|].sender);
    }
  }

  lemma BroadcastKeepsView(c: View, id: SettlementId, sender: Sender)
    requires ViewSound(c)
    ensures ViewSound(Broadcast(c, id, sender))
  {
    var d := Broadcast(c, id, sender);
    forall a, b, x | 0 <= a < b < |d.executions| && Executes(d.txs, d.executions[a], x)
      ensures !Executes(d.txs, d.executions[b], x)
    {
      ExecutionsStay(c, d, a, x);
      ExecutionsStay(c, d, b, x);
    }
  }

  lemma WaitKeeps(s: Sending, shown: bool)
    requires Inv(s)
    ensures Inv(Next(s, Waits(shown)))
  {
  }

  lemma NextKeeps(s: Sending, e: Event)
    requires Inv(s)
    ensures Inv(Next(s, e))
  {
    match e
    case Moves(m) => MoveKeeps(s, m);
    case Looks(readable) => LookKeeps(s, readable);
    case Writes(write) => WriteKeeps(s, write);
    case Waits(shown) => WaitKeeps(s, shown);
    case _ =>
  }

  lemma {:induction false} AfterKeeps(s: Sending, events: seq<Event>)
    requires Inv(s)
    ensures Inv(After(s, events))
    decreases |events|
  {
    hide Inv, Next;
    if events != [] {
      NextKeeps(s, events[0]);
      AfterKeeps(Next(s, events[0]), events[1..]);
    }
  }

  lemma StartKeeps(events: seq<Event>)
    ensures Inv(After(START, events))
  {
    hide Next;
    AfterKeeps(START, events);
  }

  // ---- What every run keeps --------------------------------------------------------------------------------------

  /** Both are hashes of the one execution of the id. */
  lemma OneExecution(c: View, g: Hash, h: Hash, id: SettlementId)
    requires ViewSound(c) && g in c.executions && h in c.executions && Executes(c.txs, g, id) && Executes(c.txs, h, id)
    ensures g == h
  {
    var a :| 0 <= a < |c.executions| && c.executions[a] == g;
    var b :| 0 <= b < |c.executions| && c.executions[b] == h;
  }

  lemma NotSentOnceReturned(s: Sending, e: Event, r: Return)
    requires Inv(s) && r in s.returned
    ensures forall j :: |s.chain.txs| <= j && OwnAt(Next(s, e).chain, j) ==> Next(s, e).chain.txs[j].id != r.id
    ensures r in Next(s, e).returned
  {
    hide SentUnused, ViewSound, UnusedAt;
    NextGrows(s, e);
  }

  lemma {:induction false} NeverSentOnceReturned(s: Sending, later: seq<Event>, r: Return)
    requires Inv(s) && r in s.returned
    ensures r in After(s, later).returned
    ensures forall j :: |s.chain.txs| <= j && OwnAt(After(s, later).chain, j) ==> After(s, later).chain.txs[j].id != r.id
    decreases |later|
  {
    hide Inv, Next;
    if later != [] {
      var next := Next(s, later[0]);
      NextKeeps(s, later[0]);
      NextGrows(s, later[0]);
      NotSentOnceReturned(s, later[0], r);
      NeverSentOnceReturned(next, later[1..], r);
      AfterGrows(next, later[1..]);
      forall j | |s.chain.txs| <= j && OwnAt(After(s, later).chain, j) ensures After(s, later).chain.txs[j].id != r.id {
        assert j < |next.chain.txs| ==> OwnAt(next.chain, j);
      }
    }
  }

  /**
    Once a call has returned for a settlement, whatever happens later, retries, recoveries and crashes included,
    the relayer sends no transaction for it, every other return for it is the same hash, and a call that can
    read returns that hash at its first look.
   */
  lemma ReturnedIsNeverSentAgain(events: seq<Event>, later: seq<Event>, r: Return)
    requires r in After(START, events).returned
    ensures
      var s := After(START, events);
      var t := After(s, later);
      && (forall j :: |s.chain.txs| <= j && OwnAt(t.chain, j) ==> t.chain.txs[j].id != r.id)
      && (forall other :: other in t.returned && other.id == r.id ==> other.hash == r.hash)
      && (t.call == Some(Call(r.id, Looking)) ==> Next(t, Looks(true)) == Returning(t, r.hash))
  {
    hide Next, OwnAt, CallSound, SentUnused;
    var s := After(START, events);
    var t := After(s, later);
    StartKeeps(events);
    AfterKeeps(s, later);
    NeverSentOnceReturned(s, later, r);
    forall other | other in t.returned && other.id == r.id ensures other.hash == r.hash {
      OneExecution(t.chain, other.hash, r.hash, r.id);
    }
    if t.call == Some(Call(r.id, Looking)) {
      LookReturns(t, r);
    }
  }

  lemma LookReturns(t: Sending, r: Return)
    requires Inv(t) && r in t.returned && t.call == Some(Call(r.id, Looking))
    ensures Next(t, Looks(true)) == Returning(t, r.hash)
  {
    hide CallSound, SentUnused;
    var found := ExecutionOf(t.chain.txs, t.chain.executions, r.id);
    OneExecution(t.chain, found.value, r.hash, r.id);
  }

  /**
    When the relayer sends a second transaction for a settlement, the look-up before it came after the first was
    broadcast and found no execution, the first one's included; and at most one of the two is ever executed.
   */
  lemma SecondSendFoundNoExecution(events: seq<Event>, i: int, j: int)
    requires
      var c := After(START, events).chain;
      i < j && OwnAt(c, i) && OwnAt(c, j) && c.txs[i].id == c.txs[j].id
    ensures
      var c := After(START, events).chain;
      var seen := c.txs[j].sender;
      && i < seen.broadcasts <= j
      && seen.executions <= |c.executions| && i !in c.executions[..seen.executions]
      && (forall k :: 0 <= k < seen.executions ==> !Executes(c.txs, c.executions[k], c.txs[j].id))
      && !(i in c.executions && j in c.executions)
  {
    hide Next, CallSound;
    StartKeeps(events);
    var c := After(START, events).chain;
    assert SentUnused(c, j);
    if i in c.executions && j in c.executions {
      OneExecution(c, i, j, c.txs[i].id);
    }
  }

  /** Whatever a call returned is the settlement's one execution. */
  lemma ReturnedIsExecuted(events: seq<Event>, r: Return)
    requires r in After(START, events).returned
    ensures
      var c := After(START, events).chain;
      && ExecutionOf(c.txs, c.executions, r.id) == Some(r.hash)
      && forall h :: h in c.executions && Executes(c.txs, h, r.id) ==> h == r.hash
  {
    hide Next, CallSound, SentUnused;
    StartKeeps(events);
    var c := After(START, events).chain;
    forall h | h in c.executions && Executes(c.txs, h, r.id) ensures h == r.hash {
      OneExecution(c, h, r.hash, r.id);
    }
  }

  const ID := SettlementId("request", Genesis, DepositKind)

  /** The first broadcast's answer is lost and it is not in a block yet when the call looks again. */
  const LOST_ANSWER := [Calls(ID), Looks(true), Writes(Lost), Looks(true)]

  /** The retry sends a second one; the first is executed, the second reverts, and the call returns the first. */
  const RETRY := [Calls(ID), Looks(true), Writes(Sent), Moves(Includes(0, true)), Moves(Includes(1, false)), Waits(true), Looks(true)]

  lemma AfterSplits(s: Sending, first: seq<Event>, second: seq<Event>)
    ensures After(s, first + second) == After(After(s, first), second)
    decreases |first|
  {
    hide Next;
    if first == [] {
      assert first + second == second;
    } else {
      assert (first + second)[1..] == first[1..] + second;
    }
  }

  /** A run in which one settlement is sent twice and executed once. */
  lemma LostAnswerIsSentTwice()
    ensures
      var t := After(After(START, LOST_ANSWER), RETRY);
      && |t.chain.txs| == 2 && OwnAt(t.chain, 0) && OwnAt(t.chain, 1)
      && t.chain.txs[0].id == t.chain.txs[1].id == ID
      && t.chain.executions == [0] && t.returned == [Return(ID, 0)] && t.call == None
  {
    hide After;
    LostAnswerIsSent();
    RetryIsSent();
  }

  const SENT_ONCE := Sending(View([Tx(ID, Relayer(0, 0))], map[], []), None, [])

  lemma LostAnswerIsSent()
    ensures After(START, LOST_ANSWER) == SENT_ONCE
  {
    hide After;
    assert LOST_ANSWER[0..] == LOST_ANSWER;
    var writing := Sending(NEW_VIEW, Some(Call(ID, Writing(0, 0))), []);
    Unfold(START, LOST_ANSWER, 0, START.(call := Some(Call(ID, Looking))));
    Unfold(START.(call := Some(Call(ID, Looking))), LOST_ANSWER, 1, writing);
    Unfold(writing, LOST_ANSWER, 2, SENT_ONCE.(call := Some(Call(ID, Rechecking))));
    Unfold(SENT_ONCE.(call := Some(Call(ID, Rechecking))), LOST_ANSWER, 3, SENT_ONCE);
    Ends(SENT_ONCE, LOST_ANSWER);
  }

  lemma RetryIsSent()
    ensures After(SENT_ONCE, RETRY) == Sending(
              View([Tx(ID, Relayer(0, 0)), Tx(ID, Relayer(1, 0))], map[0 := true, 1 := false], [0]), None, [Return(ID, 0)])
  {
    hide After;
    assert RETRY[0..] == RETRY;
    var looking := SENT_ONCE.(call := Some(Call(ID, Looking)));
    var writing := SENT_ONCE.(call := Some(Call(ID, Writing(1, 0))));
    var sent := Sending(View([Tx(ID, Relayer(0, 0)), Tx(ID, Relayer(1, 0))], map[], []), Some(Call(ID, Awaiting(1))), []);
    var first := sent.(chain := View(sent.chain.txs, map[0 := true], [0]));
    var both := sent.(chain := View(sent.chain.txs, map[0 := true, 1 := false], [0]));
    var rechecking := both.(call := Some(Call(ID, Rechecking)));
    Unfold(SENT_ONCE, RETRY, 0, looking);
    Unfold(looking, RETRY, 1, writing);
    Unfold(writing, RETRY, 2, sent);
    Unfold(sent, RETRY, 3, first);
    Unfold(first, RETRY, 4, both);
    Unfold(both, RETRY, 5, rechecking);
    Unfold(rechecking, RETRY, 6, Returning(rechecking, 0));
    Ends(Returning(rechecking, 0), RETRY);
  }

  lemma Unfold(s: Sending, events: seq<Event>, k: nat, next: Sending)
    requires k < |events| && Next(s, events[k]) == next
    ensures After(s, events[k..]) == After(next, events[k + 1..])
  {
    hide Next;
  }

  lemma Ends(s: Sending, events: seq<Event>)
    ensures After(s, events[|events|..]) == s
  {
  }

  // ---- One call, whatever happens meanwhile ---------------------------------------------------------------------------

  /** What happens besides keeps the view sound and adds no transaction of the relayer's. */
  ghost predicate Undisturbed(c: View, d: View) {
    ViewSound(d) && Grows(c, d) && forall i :: OwnAt(d, i) ==> OwnAt(c, i)
  }

  lemma {:induction false} AllMovedUndisturbed(c: View, moves: seq<Move>)
    requires ViewSound(c)
    ensures Undisturbed(c, AllMoved(c, moves))
    decreases |moves|
  {
    hide ViewSound, Moved;
    if moves != [] {
      MoveKeepsView(c, moves[0]);
      MoveGrows(c, moves[0]);
      AllMovedUndisturbed(Moved(c, moves[0]), moves[1..]);
    }
  }

  lemma MoveGrows(c: View, m: Move)
    ensures Grows(c, Moved(c, m)) && forall i :: OwnAt(Moved(c, m), i) ==> OwnAt(c, i)
  {
  }

  lemma RecheckedFacts(c: View, id: SettlementId, m: Script)
    requires ViewSound(c)
    ensures
      var (d, r) := Rechecked(c, id, m);
      && Undisturbed(c, d)
      && (r.Got? <==> m.readableAgain && Used(d, id))
      && (r.Got? ==> ExecutionOf(d.txs, d.executions, id) == Some(r.value))
  {
    hide ViewSound, ExecutionOf;
    AllMovedUndisturbed(c, m.beforeRecheck);
  }

  /** The view when a call has made its first look. */
  function Looked(c: View, m: Script): View {
    AllMoved(c, m.beforeLook)
  }

  /** The call gets as far as handing a transaction over: its first look succeeds and finds the id unused. */
  predicate Tries(c: View, id: SettlementId, m: Script) {
    m.readable && !Used(Looked(c, m), id)
  }

  /** The relayer's only new transaction is the one with hash `h`, for that id. */
  ghost predicate SentOne(c: View, d: View, id: SettlementId, h: Hash) {
    |c.txs| <= h && OwnAt(d, h) && d.txs[h].id == id && forall i :: OwnAt(d, i) && i != h ==> OwnAt(c, i)
  }

  lemma UndisturbedTwice(a: View, b: View, c: View)
    requires Undisturbed(a, b) && Undisturbed(b, c)
    ensures Undisturbed(a, c)
  {
    hide ViewSound;
  }

  lemma SentBetween(a: View, b: View, id: SettlementId, sender: Sender, c: View)
    requires Undisturbed(a, b) && sender.Relayer? && Undisturbed(Broadcast(b, id, sender), c)
    ensures Grows(a, c) && SentOne(a, c, id, |b.txs|)
  {
    hide ViewSound;
    var sent := Broadcast(b, id, sender);
    forall i | OwnAt(c, i) && i != |b.txs| ensures OwnAt(a, i) {
      assert OwnAt(sent, i);
      assert OwnAt(b, i);
    }
  }

  /**
    A call sends a transaction if and only if its first look succeeds and finds the id unused and the endpoint
    does not refuse the transaction; and then it sends one, for that id.
   */
  lemma CallSendsExactly(c: View, id: SettlementId, m: Script)
    requires ViewSound(c)
    ensures
      var d := Called(c, id, m).0;
      if Tries(c, id, m) && m.write != Refused then Grows(c, d) && exists h :: SentOne(c, d, id, h) else Undisturbed(c, d)
  {
    hide ViewSound, ExecutionOf, Rechecked, Succeeds, Undisturbed, SentOne, Grows;
    AllMovedUndisturbed(c, m.beforeLook);
    var looked := Looked(c, m);
    if Tries(c, id, m) {
      LookedIsSound(c, looked);
      AllMovedUndisturbed(looked, m.beforeWrite);
      var ready := AllMoved(looked, m.beforeWrite);
      UndisturbedTwice(c, looked, ready);
      LookedIsSound(c, ready);
      if m.write == Refused {
        RecheckedFacts(ready, id, m);
        UndisturbedTwice(c, ready, Rechecked(ready, id, m).0);
      } else {
        var sender := Relayer(|looked.txs|, |looked.executions|);
        var sent := Broadcast(ready, id, sender);
        BroadcastKeepsView(ready, id, sender);
        RecheckedFacts(sent, id, m);
        AllMovedUndisturbed(sent, m.beforeReceipt);
        var waited := AllMoved(sent, m.beforeReceipt);
        LookedIsSound(sent, waited);
        RecheckedFacts(waited, id, m);
        UndisturbedTwice(sent, waited, Rechecked(waited, id, m).0);
        SentBetween(c, ready, id, sender, Called(c, id, m).0);
      }
    }
  }

  lemma LookedIsSound(c: View, d: View)
    requires Undisturbed(c, d)
    ensures ViewSound(d)
  {
  }

  /**
    What a call returns is the settlement's execution, whoever sent it. If both its looks can read, it returns
    exactly if the settlement is executed by then; if the first cannot, it fails without having done anything.
   */
  lemma CallReturnsExactly(c: View, id: SettlementId, m: Script)
    requires ViewSound(c)
    ensures
      var (d, r) := Called(c, id, m);
      && (r.Got? ==> ExecutionOf(d.txs, d.executions, id) == Some(r.value))
      && (m.readable && m.readableAgain ==> (r.Got? <==> Used(d, id)))
      && (!m.readable ==> r.Fails? && d == Looked(c, m))
  {
    hide ViewSound, ExecutionOf, Rechecked;
    AllMovedUndisturbed(c, m.beforeLook);
    var looked := Looked(c, m);
    if Tries(c, id, m) {
      AllMovedUndisturbed(looked, m.beforeWrite);
      var ready := AllMoved(looked, m.beforeWrite);
      var sent := Broadcast(ready, id, Relayer(|looked.txs|, |looked.executions|));
      BroadcastKeepsView(ready, id, Relayer(|looked.txs|, |looked.executions|));
      AllMovedUndisturbed(sent, m.beforeReceipt);
      var waited := AllMoved(sent, m.beforeReceipt);
      RecheckedFacts(ready, id, m);
      RecheckedFacts(sent, id, m);
      RecheckedFacts(waited, id, m);
      if Succeeds(waited, |ready.txs|, m.shown) {
        SucceededIsTheExecution(waited, |ready.txs|, id);
      }
    }
  }

  lemma SucceededIsTheExecution(c: View, h: Hash, id: SettlementId)
    requires ViewSound(c) && Executes(c.txs, h, id) && Succeeds(c, h, true)
    ensures ExecutionOf(c.txs, c.executions, id) == Some(h)
  {
    hide ExecutionOf;
    OneExecution(c, ExecutionOf(c.txs, c.executions, id).value, h, id);
  }

  // ---- A call is a path of the state machine -----------------------------------------------------------------------------

  ghost predicate Leads(s: Sending, t: Sending) {
    exists events :: After(s, events) == t
  }

  lemma LeadsOn(s: Sending, t: Sending, e: Event)
    requires Leads(s, t)
    ensures Leads(s, Next(t, e))
  {
    hide Next;
    var events :| After(s, events) == t;
    AfterSplits(s, events, [e]);
    assert After(s, events + [e]) == Next(t, e);
  }

  lemma {:induction false} LeadsThroughMoves(s: Sending, t: Sending, moves: seq<Move>)
    requires Leads(s, t)
    ensures Leads(s, t.(chain := AllMoved(t.chain, moves)))
    decreases |moves|
  {
    hide Leads, Moved;
    if moves != [] {
      LeadsOn(s, t, Moves(moves[0]));
      LeadsThroughMoves(s, Next(t, Moves(moves[0])), moves[1..]);
    }
  }

  /** The state after a call: the view it leaves, and what it returned. */
  function Closed(s: Sending, id: SettlementId, m: Script): Sending {
    var (c, r) := Called(s.chain, id, m);
    s.(chain := c, call := None, returned := if r.Got? then s.returned + [Return(id, r.value)] else s.returned)
  }

  lemma RecheckLeads(s: Sending, t: Sending, id: SettlementId, m: Script)
    requires Leads(s, t) && t.call == Some(Call(id, Rechecking))
    ensures
      var (c, r) := Rechecked(t.chain, id, m);
      Leads(s, t.(chain := c, call := None, returned := if r.Got? then t.returned + [Return(id, r.value)] else t.returned))
  {
    hide Leads, ExecutionOf;
    LeadsThroughMoves(s, t, m.beforeRecheck);
    LeadsOn(s, t.(chain := AllMoved(t.chain, m.beforeRecheck)), Looks(m.readableAgain));
  }

  lemma LeadsHere(s: Sending)
    ensures Leads(s, s)
  {
    assert After(s, []) == s;
  }

  /** From the moment at which the transaction is handed over. */
  lemma WriteLeads(s: Sending, t: Sending, id: SettlementId, m: Script, looked: View)
    requires Leads(s, t) && t.call == Some(Call(id, Writing(|looked.txs|, |looked.executions|)))
    requires t.chain == AllMoved(looked, m.beforeWrite)
    requires m.readable && LookUp(looked, id, m.readable) == Got(None) && looked == Looked(s.chain, m) && t.returned == s.returned
    requires s.call == None
    ensures Leads(s, Closed(s, id, m))
  {
    hide Leads, ExecutionOf, Rechecked;
    var written := Next(t, Writes(m.write));
    LeadsOn(s, t, Writes(m.write));
    if m.write != Sent {
      RecheckLeads(s, written, id, m);
    } else {
      LeadsThroughMoves(s, written, m.beforeReceipt);
      var waiting := written.(chain := AllMoved(written.chain, m.beforeReceipt));
      LeadsOn(s, waiting, Waits(m.shown));
      if !Succeeds(waiting.chain, |t.chain.txs|, m.shown) {
        RecheckLeads(s, Next(waiting, Waits(m.shown)), id, m);
      }
    }
  }

  /** A call, with all that happens meanwhile, is a run of the state machine. */
  lemma CallIsAPath(s: Sending, id: SettlementId, m: Script)
    requires s.call == None
    ensures Leads(s, Closed(s, id, m))
  {
    hide Leads, ExecutionOf, Rechecked, Succeeds;
    LeadsHere(s);
    LeadsOn(s, s, Calls(id));
    var called := Next(s, Calls(id));
    LeadsThroughMoves(s, called, m.beforeLook);
    var looking := called.(chain := Looked(s.chain, m));
    LeadsOn(s, looking, Looks(m.readable));
    if Tries(s.chain, id, m) {
      var writing := Next(looking, Looks(m.readable));
      LeadsThroughMoves(s, writing, m.beforeWrite);
      WriteLeads(s, writing.(chain := AllMoved(writing.chain, m.beforeWrite)), id, m, looking.chain);
    }
  }

  // ---- The client as an object -----------------------------------------------------------------------------------------------

  class ChainClient {
    var chain: View

    constructor (chain: View)
      ensures this.chain == chain
    {
      this.chain := chain;
    }

    /** While the client waits. */
    method Await(moves: seq<Move>)
      modifies this
      ensures chain == AllMoved(old(chain), moves)
    {
      chain := AllMoved(chain, moves);
    }

    method SettlementTransaction(id: SettlementId, readable: bool) returns (r: Reply<Option<Hash>>)
      ensures r == LookUp(chain, id, readable)
    {
      if !readable {
        return Fails(Other);
      }
      if !Used(chain, id) {
        return Got(None);
      }
      return Got(ExecutionOf(chain.txs, chain.executions, id));
    }

    /** writeContract: an error may come back although the transaction went out. */
    method WriteContract(id: SettlementId, write: Write, looked: View) returns (r: Reply<Hash>)
      modifies this
      ensures write == Refused ==> chain == old(chain)
      ensures write != Refused ==> chain == Broadcast(old(chain), id, Relayer(|looked.txs|, |looked.executions|))
      ensures r == if write == Sent then Got(|old(chain).txs|) else Fails(Other)
    {
      if write == Refused {
        return Fails(Other);
      }
      var hash := |chain.txs|;
      chain := Broadcast(chain, id, Relayer(|looked.txs|, |looked.executions|));
      return if write == Sent then Got(hash) else Fails(Other);
    }

    /** `execute`: every failure after the first look ends in the second one. */
    method Execute(id: SettlementId, m: Script) returns (r: Reply<Hash>)
      modifies this
      ensures (chain, r) == Called(old(chain), id, m)
    {
      Await(m.beforeLook);
      var looked := chain;
      var existing := SettlementTransaction(id, m.readable);
      if existing.Fails? {
        return Fails(existing.failure);
      }
      if existing.value.Some? {
        return Got(existing.value.value);
      }
      Await(m.beforeWrite);
      var hash := WriteContract(id, m.write, looked);
      if hash.Got? {
        Await(m.beforeReceipt);
        if Succeeds(chain, hash.value, m.shown) {
          return hash;
        }
      }
      Await(m.beforeRecheck);
      var recovered := SettlementTransaction(id, m.readableAgain);
      if recovered.Got? && recovered.value.Some? {
        return Got(recovered.value.value);
      }
      return Fails(Other);
    }
  }
}
