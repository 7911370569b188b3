/**
  The relayer as a whole: the indexer's scan of the chain and the orchestrator's drain, interleaved
  with each other, with new requests, with failures of the chain's endpoint and with crashes.
 */
module Relayer {
  import opened Outcomes
  import opened Jobs

  const MAX_BLOCK_RANGE: nat := 30

  datatype ChainEvent = ChainEvent(key: Key, account: Address, command: string, requestId: Key, blockNumber: nat)

  type Blocks = seq<seq<ChainEvent>>

  function PayloadOf(e: ChainEvent): Payload {
    Chain(e.command, e.requestId, e.blockNumber)
  }

  predicate Occurs(chain: Blocks, b: nat, i: nat, e: ChainEvent) {
    b < |chain| && i < |chain[b]| && chain[b][i] == e
  }

  /** A log entry has its own request id, hence its own key. */
  ghost predicate DistinctEvents(chain: Blocks) {
    forall b: nat, i: nat, b': nat, i': nat, e, e' ::
      Occurs(chain, b, i, e) && Occurs(chain, b', i', e') && e.key == e'.key ==> b == b' && i == i'
  }

  /** The events of blocks `lo` up to `hi`, in block order. */
  function EventsIn(chain: Blocks, lo: nat, hi: nat): seq<ChainEvent>
    requires lo <= hi <= |chain|
  {
    if lo == hi then [] else EventsIn(chain, lo, hi - 1) + chain[hi - 1]
  }

  predicate IsJobOf(jobs: seq<Job>, i: nat, e: ChainEvent) {
    && HasKey(jobs, i, e.key) && jobs[i].account == e.account
    && jobs[i].payload == Chain(e.command, e.requestId, e.blockNumber)
  }

  ghost predicate HasJob(jobs: seq<Job>, e: ChainEvent) {
    exists i: nat :: IsJobOf(jobs, i, e)
  }

  /** Every event of blocks `lo` up to `hi` has a job, or is among `missing`. */
  ghost predicate Covered(chain: Blocks, jobs: seq<Job>, lo: nat, hi: nat, missing: seq<ChainEvent>) {
    forall b: nat, i: nat, e :: lo <= b < hi && Occurs(chain, b, i, e) ==> e in missing || HasJob(jobs, e)
  }

  /** No job carries a key that is not some event's. */
  ghost predicate FromChain(chain: Blocks, jobs: seq<Job>) {
    forall i: nat, key :: HasKey(jobs, i, key) ==>
      exists b: nat, k: nat, e :: Occurs(chain, b, k, e) && e.key == key && IsJobOf(jobs, i, e)
  }

  // ---- The state machine ---------------------------------------------------------------------------------

  /** A fetched window: the events still to be enqueued, and the block after the window. */
  datatype Window = Window(events: seq<ChainEvent>, end: nat)

  /** One poll: the next block to fetch and the number of blocks it knows of. */
  datatype Scan = Scan(next: nat, height: nat, window: Option<Window>)

  /** `chain`, `jobs` and `cursor` survive a crash; the rest does not. */
  datatype Relay = Relay(
    chain: Blocks, jobs: seq<Job>, cursor: Option<nat>,
    running: bool, wakeRequested: bool, inFlight: Option<nat>, scan: Option<Scan>)

  function StartOf(r: Relay, startBlock: nat): nat {
    if r.cursor.Some? then r.cursor.value else startBlock
  }

  /** Take the next job; when none is left, go round again if a wake-up came in, else stop. */
  function DrainOn(r: Relay): Relay
    decreases r.wakeRequested
  {
    var job := NextRunnable(r.jobs);
    if job.Some? then r.(inFlight := job)
    else if r.wakeRequested then DrainOn(r.(wakeRequested := false))
    else r.(running := false, inFlight := None)
  }

  function Wake(r: Relay): Relay {
    if r.running then r.(wakeRequested := true) else DrainOn(r.(running := true, wakeRequested := false))
  }

  function Enqueue(r: Relay, account: Address, payload: Payload, key: Option<Key>): Relay {
    Wake(r.(jobs := Created(r.jobs, account, payload, key)))
  }

  datatype Event =
    | Mine(block: seq<ChainEvent>)
    | BeginPoll(height: nat)
    | Fetch
    | EnqueueNext
    | MoveCursor
    | EndPoll
    | EnqueueDirect(account: Address, payload: Payload)
    | RetryJob(id: nat)
    | Progress(job: Job)
    | Finish(answers: Answers)
    | Crash

  /** One event; `None` when it cannot happen. A failing endpoint ends the poll (`EndPoll`) wherever it is waiting. */
  function Next(r: Relay, e: Event, startBlock: nat): Option<Relay> {
    match e
    case Mine(block) => Some(r.(chain := r.chain + [block]))
    case BeginPoll(height) =>
      if r.scan.Some? || height > |r.chain| then None
      else Some(r.(scan := Some(Scan(StartOf(r, startBlock), height, None))))
    case Fetch =>
      if r.scan.None? || r.scan.value.window.Some? || r.scan.value.next >= r.scan.value.height
         || r.scan.value.height > |r.chain| then None
      else
        var s := r.scan.value;
        var end := if s.next + MAX_BLOCK_RANGE < s.height then s.next + MAX_BLOCK_RANGE else s.height;
        Some(r.(scan := Some(s.(window := Some(Window(EventsIn(r.chain, s.next, end), end))))))
    case EnqueueNext =>
      if r.scan.None? || r.scan.value.window.None? || r.scan.value.window.value.events == [] then None
      else
        var w := r.scan.value.window.value;
        var found := w.events[0];
        Some(Enqueue(r.(scan := Some(r.scan.value.(window := Some(w.(events := w.events[1..]))))),
                     found.account, PayloadOf(found), Some(found.key)))
    case MoveCursor =>
      if r.scan.None? || r.scan.value.window.None? || r.scan.value.window.value.events != [] then None
      else
        var end := r.scan.value.window.value.end;
        Some(r.(cursor := Some(end), scan := Some(Scan(end, r.scan.value.height, None))))
    case EndPoll => if r.scan.None? || r.scan.value.window.Some? then None else Some(r.(scan := None))
    case EnqueueDirect(account, payload) => Some(Enqueue(r, account, payload, None))
    case RetryJob(id) =>
      if id >= |r.jobs| || ResetForRetry(r.jobs[id]).Err? then None
      else Some(Wake(r.(jobs := r.jobs[id := ResetForRetry(r.jobs[id]).value])))
    case Progress(job) =>
      if r.inFlight.None? || r.inFlight.value >= |r.jobs|
         || !job.Runnable() || !job.SameOrigin(r.jobs[r.inFlight.value]) then None
      else Some(r.(jobs := r.jobs[r.inFlight.value := job]))
    case Finish(answers) =>
      if r.inFlight.None? || r.inFlight.value >= |r.jobs| then None
      else
        var id := r.inFlight.value;
        Some(DrainOn(r.(jobs := r.jobs[id := Processed(r.jobs[id], answers)], inFlight := None)))
    case Crash => Some(Wake(r.(running := false, wakeRequested := false, inFlight := None, scan := None)))
  }

  // ---- What holds between any two events ----------------------------------------------------------------------

  /** A running drain has a job in flight; a stopped one has left nothing runnable and no wake-up unheard. */
  ghost predicate DrainSound(r: Relay) {
    && (r.running <==> r.inFlight.Some?)
    && (r.inFlight.Some? ==> r.inFlight.value < |r.jobs| && r.jobs[r.inFlight.value].Runnable())
    && (!r.running ==> !r.wakeRequested && NextRunnable(r.jobs) == None)
  }

  ghost predicate ScanSound(r: Relay, startBlock: nat) {
    && (r.cursor.Some? ==> r.cursor.value <= |r.chain|)
    && Covered(r.chain, r.jobs, startBlock, StartOf(r, startBlock), [])
    && (r.scan.Some? ==>
          var s := r.scan.value;
          && s.next == StartOf(r, startBlock) && s.height <= |r.chain|
          && (s.window.Some? ==>
                var w := s.window.value;
                && s.next <= w.end <= |r.chain|
                && Covered(r.chain, r.jobs, s.next, w.end, w.events)
                && (forall e :: e in w.events ==> exists b: nat, i: nat :: Occurs(r.chain, b, i, e))))
  }

  ghost predicate Inv(r: Relay, startBlock: nat) {
    && DistinctEvents(r.chain)
    && UniqueKeys(r.jobs)
    && FromChain(r.chain, r.jobs)
    && ScanSound(r, startBlock)
    && DrainSound(r)
  }

  lemma {:induction false} EventsInOccur(chain: Blocks, lo: nat, hi: nat)
    requires lo <= hi <= |chain|
    ensures forall e :: e in EventsIn(chain, lo, hi) ==> exists b: nat, i: nat :: Occurs(chain, b, i, e)
    ensures forall b: nat, i: nat, e :: lo <= b < hi && Occurs(chain, b, i, e) ==> e in EventsIn(chain, lo, hi)
    decreases hi
  {
    if lo < hi {
      EventsInOccur(chain, lo, hi - 1);
      var last := chain[hi - 1];
      forall e | e in last ensures exists b: nat, i: nat :: Occurs(chain, b, i, e) {
        var i: nat :| i < |last| && last[i] == e;
        assert Occurs(chain, hi - 1, i, e);
      }
    }
  }

  lemma DrainOnSound(r: Relay)
    requires r.running
    ensures
      var d := DrainOn(r);
      && DrainSound(d)
      && d == r.(running := d.running, wakeRequested := d.wakeRequested, inFlight := d.inFlight)
    decreases r.wakeRequested
  {
  }

  /** Whoever changed the table, a wake-up leaves the drain sound. */
  lemma WakeSound(before: Relay, r: Relay)
    requires DrainSound(before)
    requires r.running == before.running && r.inFlight == before.inFlight
    requires r.inFlight.Some? ==> r.inFlight.value < |r.jobs| && r.jobs[r.inFlight.value].Runnable()
    ensures
      var w := Wake(r);
      && DrainSound(w)
      && w == r.(running := w.running, wakeRequested := w.wakeRequested, inFlight := w.inFlight)
  {
    if !r.running { DrainOnSound(r.(running := true, wakeRequested := false)); }
  }

  /** A table that keeps every row's origin, and may have more rows. */
  ghost predicate Extends(jobs: seq<Job>, next: seq<Job>) {
    |jobs| <= |next| && forall i :: 0 <= i < |jobs| ==> next[i].SameOrigin(jobs[i])
  }

  lemma ExtendedKeepsCoverage(chain: Blocks, jobs: seq<Job>, next: seq<Job>, lo: nat, hi: nat, missing: seq<ChainEvent>)
    requires Extends(jobs, next) && Covered(chain, jobs, lo, hi, missing)
    ensures Covered(chain, next, lo, hi, missing)
  {
    forall b: nat, i: nat, e | lo <= b < hi && Occurs(chain, b, i, e) ensures e in missing || HasJob(next, e) {
      if e !in missing {
        var k: nat :| IsJobOf(jobs, k, e);
        assert IsJobOf(next, k, e);
      }
    }
  }

  lemma ExtendedKeepsScan(r: Relay, r': Relay, startBlock: nat)
    requires ScanSound(r, startBlock) && Extends(r.jobs, r'.jobs)
    requires r'.chain == r.chain && r'.cursor == r.cursor && (r'.scan == r.scan || r'.scan == None)
    ensures ScanSound(r', startBlock)
  {
    ExtendedKeepsCoverage(r.chain, r.jobs, r'.jobs, startBlock, StartOf(r, startBlock), []);
    if r.scan.Some? && r.scan.value.window.Some? {
      var w := r.scan.value.window.value;
      ExtendedKeepsCoverage(r.chain, r.jobs, r'.jobs, r.scan.value.next, w.end, w.events);
    }
  }

  /** Changing a row without its origin keeps every fact about keys. */
  lemma UpdateKeepsOrigins(chain: Blocks, jobs: seq<Job>, id: nat, job: Job)
    requires UniqueKeys(jobs) && FromChain(chain, jobs) && id < |jobs| && job.SameOrigin(jobs[id])
    ensures UniqueKeys(jobs[id := job]) && FromChain(chain, jobs[id := job]) && Extends(jobs, jobs[id := job])
  {
    UpdatedKeepsUniqueKeys(jobs, id, job);
    var next := jobs[id := job];
    forall i: nat, key | HasKey(next, i, key)
      ensures exists b: nat, k: nat, e :: Occurs(chain, b, k, e) && e.key == key && IsJobOf(next, i, e)
    {
      assert HasKey(jobs, i, key);
      var b: nat, k: nat, e :| Occurs(chain, b, k, e) && e.key == key && IsJobOf(jobs, i, e);
      assert IsJobOf(next, i, e);
    }
  }

  /** Creating a job for an event of the chain, known or not, gives the event its one job. */
  lemma CreateForEvent(chain: Blocks, jobs: seq<Job>, b: nat, i: nat, e: ChainEvent)
    requires DistinctEvents(chain) && UniqueKeys(jobs) && FromChain(chain, jobs) && Occurs(chain, b, i, e)
    ensures
      var next := Created(jobs, e.account, PayloadOf(e), Some(e.key));
      UniqueKeys(next) && FromChain(chain, next) && Extends(jobs, next) && jobs <= next && HasJob(next, e)
  {
    var next := Created(jobs, e.account, PayloadOf(e), Some(e.key));
    CreatedKeepsUniqueKeys(jobs, e.account, PayloadOf(e), Some(e.key));
    if Known(jobs, e.key) {
      var k: nat :| HasKey(jobs, k, e.key);
      var b': nat, i': nat, e' :| Occurs(chain, b', i', e') && e'.key == e.key && IsJobOf(jobs, k, e');
      assert IsJobOf(next, k, e);
    } else {
      assert IsJobOf(next, |jobs|, e);
      forall k: nat, key | HasKey(next, k, key)
        ensures exists b': nat, i': nat, e' :: Occurs(chain, b', i', e') && e'.key == key && IsJobOf(next, k, e')
      {
        if k < |jobs| {
          assert HasKey(jobs, k, key);
          var b': nat, i': nat, e' :| Occurs(chain, b', i', e') && e'.key == key && IsJobOf(jobs, k, e');
          assert IsJobOf(next, k, e');
        }
      }
    }
  }

  lemma CreateDirect(chain: Blocks, jobs: seq<Job>, account: Address, payload: Payload)
    requires UniqueKeys(jobs) && FromChain(chain, jobs)
    ensures
      var next := Created(jobs, account, payload, None);
      UniqueKeys(next) && FromChain(chain, next) && Extends(jobs, next) && jobs <= next
  {
    var next := Created(jobs, account, payload, None);
    CreatedKeepsUniqueKeys(jobs, account, payload, None);
    forall k: nat, key | HasKey(next, k, key)
      ensures exists b: nat, i: nat, e :: Occurs(chain, b, i, e) && e.key == key && IsJobOf(next, k, e)
    {
      assert HasKey(jobs, k, key);
      var b: nat, i: nat, e :| Occurs(chain, b, i, e) && e.key == key && IsJobOf(jobs, k, e);
      assert IsJobOf(next, k, e);
    }
  }

  lemma MineKeeps(r: Relay, block: seq<ChainEvent>, startBlock: nat)
    requires Inv(r, startBlock) && DistinctEvents(r.chain + [block])
    ensures Inv(r.(chain := r.chain + [block]), startBlock)
  {
    hide UniqueKeys, DistinctEvents;
    var chain := r.chain + [block];
    assert forall b: nat, i: nat, e :: b < |r.chain| ==> Occurs(chain, b, i, e) == Occurs(r.chain, b, i, e);
    forall k: nat, key | HasKey(r.jobs, k, key)
      ensures exists b: nat, i: nat, e :: Occurs(chain, b, i, e) && e.key == key && IsJobOf(r.jobs, k, e)
    {
      var b: nat, i: nat, e :| Occurs(r.chain, b, i, e) && e.key == key && IsJobOf(r.jobs, k, e);
      assert Occurs(chain, b, i, e);
    }
    if r.scan.Some? && r.scan.value.window.Some? {
      forall e | e in r.scan.value.window.value.events ensures exists b: nat, i: nat :: Occurs(chain, b, i, e) {
        var b: nat, i: nat :| Occurs(r.chain, b, i, e);
        assert Occurs(chain, b, i, e);
      }
    }
  }

  lemma ScanStepKeeps(r: Relay, e: Event, startBlock: nat)
    requires Inv(r, startBlock) && Next(r, e, startBlock).Some?
    requires e.BeginPoll? || e == Fetch || e == MoveCursor || e == EndPoll
    ensures Inv(Next(r, e, startBlock).value, startBlock)
  {
    hide UniqueKeys, DistinctEvents, FromChain, HasJob;
    if e == Fetch {
      var s := r.scan.value;
      var end := if s.next + MAX_BLOCK_RANGE < s.height then s.next + MAX_BLOCK_RANGE else s.height;
      EventsInOccur(r.chain, s.next, end);
    }
  }

  /** The scan after one of its events has been given its job. */
  lemma EnqueueNextKeeps(r: Relay, startBlock: nat)
    requires Inv(r, startBlock) && Next(r, EnqueueNext, startBlock).Some?
    ensures Inv(Next(r, EnqueueNext, startBlock).value, startBlock)
  {
    hide UniqueKeys, DistinctEvents, FromChain, Wake, Created;
    var s := r.scan.value;
    var w := s.window.value;
    var found := w.events[0];
    assert found in w.events;
    var b: nat, i: nat :| Occurs(r.chain, b, i, found);
    CreateForEvent(r.chain, r.jobs, b, i, found);
    var jobs := Created(r.jobs, found.account, PayloadOf(found), Some(found.key));
    var created := r.(jobs := jobs, scan := Some(s.(window := Some(w.(events := w.events[1..])))));
    WakeSound(r, created);
    ExtendedKeepsCoverage(r.chain, r.jobs, jobs, startBlock, StartOf(r, startBlock), []);
    ExtendedKeepsCoverage(r.chain, r.jobs, jobs, s.next, w.end, w.events);
    assert Covered(r.chain, jobs, s.next, w.end, w.events[1..]) by { hide HasJob; }
    assert forall e :: e in w.events[1..] ==> e in w.events;
  }

  lemma EnqueueDirectKeeps(r: Relay, account: Address, payload: Payload, startBlock: nat)
    requires Inv(r, startBlock)
    ensures Inv(Enqueue(r, account, payload, None), startBlock)
  {
    hide UniqueKeys, DistinctEvents, FromChain, Wake, Created, ScanSound;
    CreateDirect(r.chain, r.jobs, account, payload);
    var created := r.(jobs := Created(r.jobs, account, payload, None));
    WakeSound(r, created);
    ExtendedKeepsScan(r, Wake(created), startBlock);
  }

  lemma RowEventKeeps(r: Relay, e: Event, startBlock: nat)
    requires Inv(r, startBlock) && Next(r, e, startBlock).Some?
    requires e.RetryJob? || e.Progress? || e.Finish?
    ensures Inv(Next(r, e, startBlock).value, startBlock)
  {
    hide UniqueKeys, DistinctEvents, FromChain, Wake, DrainOn, ScanSound, Processed, NextRunnable;
    var id := if e.RetryJob? then e.id else r.inFlight.value;
    var job := if e.RetryJob? then ResetForRetry(r.jobs[id]).value
               else if e.Progress? then e.job else Processed(r.jobs[id], e.answers);
    if e.Finish? { ProcessingEndsTheJob(r.jobs[id], e.answers); }
    UpdateKeepsOrigins(r.chain, r.jobs, id, job);
    var updated := r.(jobs := r.jobs[id := job]);
    if e.RetryJob? { WakeSound(r, updated); }
    if e.Finish? { DrainOnSound(updated.(inFlight := None)); }
    ExtendedKeepsScan(r, Next(r, e, startBlock).value, startBlock);
  }

  lemma CrashKeeps(r: Relay, startBlock: nat)
    requires Inv(r, startBlock)
    ensures Inv(Next(r, Crash, startBlock).value, startBlock)
  {
    hide UniqueKeys, DistinctEvents, FromChain, DrainOn, ScanSound, NextRunnable;
    DrainOnSound(r.(running := true, wakeRequested := false, inFlight := None, scan := None));
    ExtendedKeepsScan(r, Next(r, Crash, startBlock).value, startBlock);
  }

  lemma EventKeeps(r: Relay, e: Event, startBlock: nat)
    requires Inv(r, startBlock) && Next(r, e, startBlock).Some?
    requires DistinctEvents(Next(r, e, startBlock).value.chain)
    ensures Inv(Next(r, e, startBlock).value, startBlock)
  {
    hide Inv, Enqueue, Wake, DrainOn;
    match e
    case Mine(block) => MineKeeps(r, block, startBlock);
    case BeginPoll(_) => ScanStepKeeps(r, e, startBlock);
    case Fetch => ScanStepKeeps(r, e, startBlock);
    case EnqueueNext => EnqueueNextKeeps(r, startBlock);
    case MoveCursor => ScanStepKeeps(r, e, startBlock);
    case EndPoll => ScanStepKeeps(r, e, startBlock);
    case EnqueueDirect(account, payload) => EnqueueDirectKeeps(r, account, payload, startBlock);
    case RetryJob(_) => RowEventKeeps(r, e, startBlock);
    case Progress(_) => RowEventKeeps(r, e, startBlock);
    case Finish(_) => RowEventKeeps(r, e, startBlock);
    case Crash => CrashKeeps(r, startBlock);
  }

  // ---- Every run --------------------------------------------------------------------------------------------------

  const FRESH := Relay([], [], None, false, false, None, None)

  /** A run from an empty table; the only hypothesis is that no two log entries share a key. */
  ghost predicate Run(events: seq<Event>, startBlock: nat, r: Relay)
    decreases |events|
  {
    if events == [] then r == FRESH
    else
      var n := |events| - 1;
      exists before: Relay ::
        Run(events[..n], startBlock, before) && Next(before, events[n], startBlock) == Some(r) && DistinctEvents(r.chain)
  }

  lemma {:induction false} EveryRunKeepsInv(events: seq<Event>, startBlock: nat, r: Relay)
    requires Run(events, startBlock, r)
    ensures Inv(r, startBlock)
    decreases |events|
  {
    if events != [] {
      hide Inv, Next, DistinctEvents;
      var n := |events| - 1;
      var before: Relay :|
        Run(events[..n], startBlock, before) && Next(before, events[n], startBlock) == Some(r) && DistinctEvents(r.chain);
      EveryRunKeepsInv(events[..n], startBlock, before);
      EventKeeps(before, events[n], startBlock);
    }
  }

  /** After every run, each event below the cursor has exactly one job, made from that event, and no key ever has two. */
  lemma EveryEventBelowTheCursorHasExactlyOneJob(events: seq<Event>, startBlock: nat, r: Relay, b: nat, i: nat, e: ChainEvent)
    requires Run(events, startBlock, r)
    requires r.cursor.Some? && startBlock <= b < r.cursor.value && Occurs(r.chain, b, i, e)
    ensures exists k: nat :: IsJobOf(r.jobs, k, e) && (forall j: nat :: HasKey(r.jobs, j, e.key) ==> j == k)
  {
    hide Run, DrainSound, FromChain;
    EveryRunKeepsInv(events, startBlock, r);
    assert HasJob(r.jobs, e);
    var k: nat :| IsJobOf(r.jobs, k, e);
  }

  /** After every run, even above the cursor, no event has two jobs and no job has a key without its event. */
  lemma NoEventHasTwoJobs(events: seq<Event>, startBlock: nat, r: Relay, j: nat, k: nat, key: Key)
    requires Run(events, startBlock, r) && HasKey(r.jobs, j, key) && HasKey(r.jobs, k, key)
    ensures j == k
    ensures exists b: nat, i: nat, e :: Occurs(r.chain, b, i, e) && e.key == key && IsJobOf(r.jobs, j, e)
  {
    hide Run, DrainSound, ScanSound;
    EveryRunKeepsInv(events, startBlock, r);
  }

  /** Whenever the drain is not running, every job is confirmed or failed and no wake-up is left unheard. */
  lemma NoRunnableJobIsStranded(events: seq<Event>, startBlock: nat, r: Relay)
    requires Run(events, startBlock, r)
    ensures !r.running ==> !r.wakeRequested && forall i :: 0 <= i < |r.jobs| ==> r.jobs[i].status in {Confirmed, Failed}
    ensures r.running ==> r.inFlight.Some? && r.inFlight.value < |r.jobs| && r.jobs[r.inFlight.value].Runnable()
  {
    hide Run, ScanSound, FromChain;
    EveryRunKeepsInv(events, startBlock, r);
  }

  // ---- The indexer as an object -----------------------------------------------------------------------------------------

  class Indexer {
    const store: Store
    const orchestrator: Orchestrator
    const startBlock: nat
    var polling: bool

    constructor (store: Store, orchestrator: Orchestrator, startBlock: nat)
      requires orchestrator.store == store
      ensures this.store == store && this.orchestrator == orchestrator && this.startBlock == startBlock && !polling
    {
      this.store, this.orchestrator, this.startBlock := store, orchestrator, startBlock;
      polling := false;
    }

    ghost predicate Valid(chain: Blocks)
      reads this, store
    {
      && orchestrator.store == store
      && DistinctEvents(chain) && UniqueKeys(store.jobs) && FromChain(chain, store.jobs)
      && CursorNow() <= |chain|
      && Covered(chain, store.jobs, startBlock, CursorNow(), [])
    }

    function CursorNow(): nat
      reads this, store
    {
      if store.cursor.Some? then store.cursor.value else startBlock
    }

    /** One poll over `height` known blocks, of which `fetches` windows can be read before the endpoint fails. */
    method Poll(chain: Blocks, height: nat, fetches: nat)
      requires Valid(chain) && height <= |chain|
      modifies this, store, orchestrator
      ensures Valid(chain) && polling == old(polling)
      ensures Extends(old(store.jobs), store.jobs) && CursorNow() >= old(CursorNow())
      ensures old(polling) ==> store.jobs == old(store.jobs) && store.cursor == old(store.cursor)
      ensures !old(polling) && fetches * 30 >= height ==> CursorNow() >= height
    {
      if polling {
        return;
      }
      polling := true;
      var cursor := CursorNow();
      var fetched := 0;
      while cursor < height && fetched < fetches
        invariant Valid(chain) && polling && cursor == CursorNow() >= old(CursorNow())
        invariant Extends(old(store.jobs), store.jobs)
        invariant cursor >= height || cursor >= fetched * MAX_BLOCK_RANGE
      {
        var end := if cursor + MAX_BLOCK_RANGE < height then cursor + MAX_BLOCK_RANGE else height;
        var events := EventsIn(chain, cursor, end);
        EnqueueAll(chain, events, cursor, end);
        cursor := end;
        store.cursor := Some(cursor);
        fetched := fetched + 1;
      }
      polling := false;
    }

    method EnqueueAll(chain: Blocks, events: seq<ChainEvent>, lo: nat, hi: nat)
      requires Valid(chain) && lo == CursorNow() <= hi <= |chain| && events == EventsIn(chain, lo, hi)
      modifies store`jobs, orchestrator
      ensures Valid(chain) && store.cursor == old(store.cursor)
      ensures Extends(old(store.jobs), store.jobs)
      ensures Covered(chain, store.jobs, startBlock, hi, [])
    {
      EventsInOccur(chain, lo, hi);
      var n := 0;
      while n < |events|
        invariant 0 <= n <= |events|
        invariant Valid(chain) && store.cursor == old(store.cursor) && Extends(old(store.jobs), store.jobs)
        invariant forall k :: 0 <= k < n ==> HasJob(store.jobs, events[k])
      {
        var e := events[n];
        assert e in events;
        var b: nat, i: nat :| Occurs(chain, b, i, e);
        CreateForEvent(chain, store.jobs, b, i, e);
        ghost var before := store.jobs;
        var _ := store.CreateJob(e.account, PayloadOf(e), Some(e.key));
        orchestrator.Wake([]);
        n := n + 1;
      }
    }
  }
}
