/**
  The relayer's durable job table and the processing of one job.
 */
module Jobs {
  import opened Outcomes

  type Key = string
  type Address = string

  datatype JobStatus = Queued | Submitted | Processing | Settling | Confirming | Confirmed | Failed

  datatype Payload =
    | Direct(command: string, ciphertext: string)
    | Chain(command: string, requestId: Key, blockNumber: nat)

  /** A row; rows are numbered in the order in which they were created. */
  datatype Job = Job(
    externalKey: Option<Key>, account: Address, payload: Payload, status: JobStatus,
    actionId: Option<Key>, txHash: Option<Key>, attempts: nat)
  {
    predicate Runnable() {
      status != Confirmed && status != Failed
    }

    /** What no update changes. */
    predicate SameOrigin(other: Job) {
      externalKey == other.externalKey && account == other.account && payload == other.payload
    }
  }

  predicate HasKey(jobs: seq<Job>, i: nat, key: Key) {
    i < |jobs| && jobs[i].externalKey == Some(key)
  }

  predicate Known(jobs: seq<Job>, key: Key) {
    exists i: nat :: i < |jobs| && HasKey(jobs, i, key)
  }

  /** The unique index on external keys. */
  ghost predicate UniqueKeys(jobs: seq<Job>) {
    forall i: nat, j: nat, key :: HasKey(jobs, i, key) && HasKey(jobs, j, key) ==> i == j
  }

  function NewJob(account: Address, payload: Payload, key: Option<Key>): Job {
    Job(key, account, payload, Queued, None, None, 0)
  }

  /** createJob: an external key that is already known adds nothing. */
  function Created(jobs: seq<Job>, account: Address, payload: Payload, key: Option<Key>): seq<Job> {
    if key.Some? && Known(jobs, key.value) then jobs else jobs + [NewJob(account, payload, key)]
  }

  /** nextRunnableJob: the oldest job that is not finished. */
  function NextRunnable(jobs: seq<Job>): (r: Option<nat>)
    ensures r.Some? ==> r.value < |jobs| && jobs[r.value].Runnable()
    ensures r.Some? ==> forall i :: 0 <= i < r.value ==> !jobs[i].Runnable()
    ensures r.None? ==> forall i :: 0 <= i < |jobs| ==> !jobs[i].Runnable()
  {
    if jobs == [] then None
    else
      var n := |jobs| - 1;
      var earlier := NextRunnable(jobs[..n]);
      if earlier.Some? then earlier else if jobs[n].Runnable() then Some(n) else None
  }

  function ResetForRetry(j: Job): Result<Job> {
    if j.status != Failed then Err(InvalidRequest)
    else Ok(j.(status := if j.actionId.Some? then Submitted else Queued))
  }

  lemma CreatedKeepsUniqueKeys(jobs: seq<Job>, account: Address, payload: Payload, key: Option<Key>)
    requires UniqueKeys(jobs)
    ensures UniqueKeys(Created(jobs, account, payload, key))
    ensures key.Some? ==> Known(Created(jobs, account, payload, key), key.value)
  {
    var next := Created(jobs, account, payload, key);
    forall i: nat, j: nat, k | HasKey(next, i, k) && HasKey(next, j, k) ensures i == j {
      assert i < |jobs| ==> HasKey(jobs, i, k);
      assert j < |jobs| ==> HasKey(jobs, j, k);
    }
    if key.Some? && !Known(jobs, key.value) {
      assert HasKey(next, |jobs|, key.value);
    }
  }

  lemma UpdatedKeepsUniqueKeys(jobs: seq<Job>, id: nat, job: Job)
    requires UniqueKeys(jobs) && id < |jobs| && job.SameOrigin(jobs[id])
    ensures UniqueKeys(jobs[id := job])
  {
    var next := jobs[id := job];
    forall i: nat, j: nat, k | HasKey(next, i, k) && HasKey(next, j, k) ensures i == j {
      assert HasKey(jobs, i, k) && HasKey(jobs, j, k);
    }
  }

  // ---- One job ---------------------------------------------------------------------------------------

  /** An anchor to settle, as far as the relayer looks at it: two positions of the vault. */
  datatype AnchorReply = AnchorReply(previous: Key, next: Key)

  /** A failure, told apart only by whether the ledger said that an anchor is pending, or that none is. */
  datatype Failure = PriorPending | NothingPending | Other

  datatype Reply<T> = Got(value: T) | Fails(failure: Failure)

  /** What the enclave and the chain answer while one job is processed. */
  datatype Answers = Answers(
    submit: Reply<Key>, poll: Reply<Option<AnchorReply>>, execute: Reply<Key>, confirm: Reply<bool>,
    recovery: Reply<AnchorReply>, vaultAt: Reply<Key>, recoveryExecute: Reply<Key>, recoveryConfirm: Reply<bool>,
    deposit: Reply<bool>, depositPoll: Reply<Option<AnchorReply>>, depositExecute: Reply<Key>, depositConfirm: Reply<bool>)

  /** recoverPendingAnchor: execute only if the vault is still at the anchor's previous state, then confirm. */
  function RecoverAnchor(a: Answers): Reply<bool> {
    match a.recovery
    case Fails(f) => Fails(f)
    case Got(anchor) =>
      match a.vaultAt
      case Fails(f) => Fails(f)
      case Got(position) =>
        if position != anchor.previous && position != anchor.next then Fails(Other)
        else if position == anchor.previous && a.recoveryExecute.Fails? then Fails(a.recoveryExecute.failure)
        else a.recoveryConfirm
  }

  function RecoverDeposit(a: Answers): Reply<Option<Key>> {
    match a.deposit
    case Fails(f) => Fails(f)
    case Got(_) =>
      match a.depositPoll
      case Fails(f) => Fails(f)
      case Got(None) => Got(None)
      case Got(Some(_)) =>
        if a.depositExecute.Fails? then Fails(a.depositExecute.failure)
        else if a.depositConfirm.Fails? then Fails(a.depositConfirm.failure)
        else Got(Some(a.depositExecute.value))
  }

  /** The failure branch of `process`. */
  function Handle(j: Job, failure: Failure, a: Answers): Job {
    if failure != PriorPending then j.(status := Failed)
    else
      var recovered := RecoverAnchor(a);
      if recovered.Fails? && recovered.failure != NothingPending then j.(status := Failed)
      else if !j.payload.Chain? || j.payload.command != "DEPOSIT" then j.(status := Failed)
      else
        match RecoverDeposit(a)
        case Fails(_) => j.(status := Failed)
        case Got(txHash) => j.(status := Confirmed, txHash := if txHash.Some? then txHash else j.txHash)
  }

  /** `process`, from the row it was given to the row it leaves. */
  function Processed(initial: Job, a: Answers): Job {
    var j := initial.(attempts := initial.attempts + 1);
    if j.actionId.None? && j.payload.Direct? && a.submit.Fails? then Handle(j, a.submit.failure, a)
    else
      var submitted :=
        if j.actionId.Some? then j
        else if j.payload.Chain? then j.(actionId := Some(j.payload.requestId), status := Submitted)
        else j.(actionId := Some(a.submit.value), status := Submitted);
      var processing := submitted.(status := Processing);
      match a.poll
      case Fails(f) => Handle(processing, f, a)
      case Got(None) => processing.(status := Confirmed)
      case Got(Some(anchor)) =>
        var settling := processing.(status := Settling);
        if j.txHash.None? && a.execute.Fails? then Handle(settling, a.execute.failure, a)
        else
          var txHash := if j.txHash.Some? then j.txHash.value else a.execute.value;
          if a.confirm.Fails? then Handle(settling, a.confirm.failure, a)
          else settling.(txHash := Some(txHash), status := Confirmed)
  }

  /** Did the normal path go through: submitted if need be, polled, and settled if there is an anchor. */
  predicate WentThrough(j: Job, a: Answers) {
    && (j.actionId.Some? || j.payload.Chain? || a.submit.Got?)
    && a.poll.Got?
    && (a.poll.value.Some? ==> (j.txHash.Some? || a.execute.Got?) && a.confirm.Got?)
  }

  /** The failure that ended the normal path. */
  function FirstFailure(j: Job, a: Answers): Failure
    requires !WentThrough(j, a)
  {
    if j.actionId.None? && j.payload.Direct? && a.submit.Fails? then a.submit.failure
    else if a.poll.Fails? then a.poll.failure
    else if j.txHash.None? && a.execute.Fails? then a.execute.failure
    else a.confirm.failure
  }

  /**
    Whatever the enclave and the chain answer, processing ends the job, confirmed or failed. It is
    confirmed exactly when the normal path goes through, or when a pending anchor stood in the way of an
    on-chain deposit and both the anchor and the deposit could be recovered.
   */
  lemma ProcessingEndsTheJob(j: Job, a: Answers)
    ensures !Processed(j, a).Runnable()
    ensures Processed(j, a).SameOrigin(j) && Processed(j, a).attempts == j.attempts + 1
    ensures Processed(j, a).status == Confirmed <==>
            || WentThrough(j, a)
            || (&& FirstFailure(j, a) == PriorPending
                && j.payload.Chain? && j.payload.command == "DEPOSIT"
                && (RecoverAnchor(a).Got? || RecoverAnchor(a).failure == NothingPending)
                && RecoverDeposit(a).Got?)
  {
  }

  /** A job whose transaction is already known never sends it again. */
  lemma KnownTransactionIsKept(j: Job, a: Answers, again: Reply<Key>)
    requires j.txHash.Some?
    ensures Processed(j, a) == Processed(j, a.(execute := again))
    ensures WentThrough(j, a) ==> Processed(j, a).txHash == j.txHash
  {
    hide Handle;
    forall row, failure ensures Handle(row, failure, a) == Handle(row, failure, a.(execute := again)) {
      HandlingIgnoresExecute(row, failure, a, again);
    }
  }

  /** The action's id survives every failure: it is kept, or the request's, or what submitting returned. */
  lemma ActionIsRemembered(j: Job, a: Answers)
    ensures Processed(j, a).actionId ==
            if j.actionId.Some? then j.actionId
            else match j.payload
                 case Chain(_, requestId, _) => Some(requestId)
                 case Direct(_, _) => if a.submit.Got? then Some(a.submit.value) else None
  {
    hide RecoverAnchor, RecoverDeposit;
  }

  /** So a retry polls the action again, and a command that was once submitted is never submitted again. */
  lemma RetryNeverSubmitsAgain(j: Job, a: Answers)
    requires Processed(j, a).status == Failed
    ensures
      var retried := ResetForRetry(Processed(j, a));
      && retried == Ok(Processed(j, a).(status := if Processed(j, a).actionId.Some? then Submitted else Queued))
      && (Processed(j, a).actionId.Some? ==>
            forall again, submit :: Processed(retried.value, again) == Processed(retried.value, again.(submit := submit)))
  {
    hide Processed, Handle;
    if Processed(j, a).actionId.Some? {
      var retried := ResetForRetry(Processed(j, a)).value;
      forall again: Answers, submit ensures Processed(retried, again) == Processed(retried, again.(submit := submit)) {
        KnownActionIsPolled(retried, again, submit);
      }
    }
  }

  lemma KnownActionIsPolled(j: Job, a: Answers, submit: Reply<Key>)
    requires j.actionId.Some?
    ensures Processed(j, a) == Processed(j, a.(submit := submit))
  {
    hide Handle;
    forall row, failure ensures Handle(row, failure, a) == Handle(row, failure, a.(submit := submit)) {
      HandlingIgnoresSubmit(row, failure, a, submit);
    }
  }

  lemma HandlingIgnoresSubmit(j: Job, failure: Failure, a: Answers, submit: Reply<Key>)
    ensures Handle(j, failure, a) == Handle(j, failure, a.(submit := submit))
  {
  }

  /** A transaction is recorded with a job only when its confirmation went through as well, on either path. */
  lemma RecordedExactly(j: Job, a: Answers)
    ensures
      Processed(j, a).txHash ==
      if j.txHash.Some? && WentThrough(j, a) then j.txHash
      else if WentThrough(j, a) && a.poll.value.Some? then Some(a.execute.value)
      else if Processed(j, a).status == Confirmed && !WentThrough(j, a) && a.depositPoll.value.Some? then
        Some(a.depositExecute.value)
      else j.txHash
  {
    hide RecoverAnchor;
  }

  /** A pending anchor is recovered exactly if it is signed again, the vault is at one of its ends, and it confirms. */
  lemma AnchorRecoveredExactly(a: Answers)
    ensures RecoverAnchor(a).Got? <==>
            && a.recovery.Got? && a.vaultAt.Got?
            && (a.vaultAt.value == a.recovery.value.previous || a.vaultAt.value == a.recovery.value.next)
            && (a.vaultAt.value == a.recovery.value.previous ==> a.recoveryExecute.Got?)
            && a.recoveryConfirm.Got?
  {
  }

  /** A deposit is recovered exactly if the enclave books it or has booked it, and a new booking settles and confirms. */
  lemma DepositRecoveredExactly(a: Answers)
    ensures RecoverDeposit(a).Got? <==>
            && a.deposit.Got? && a.depositPoll.Got?
            && (a.depositPoll.value.Some? ==> a.depositExecute.Got? && a.depositConfirm.Got?)
    ensures RecoverDeposit(a).Got? ==>
            RecoverDeposit(a).value == (if a.depositPoll.value.Some? then Some(a.depositExecute.value) else None)
  {
  }

  lemma HandlingIgnoresExecute(j: Job, failure: Failure, a: Answers, again: Reply<Key>)
    ensures Handle(j, failure, a) == Handle(j, failure, a.(execute := again))
  {
  }

  // ---- The table and the orchestrator as objects -------------------------------------------------------

  class Store {
    var jobs: seq<Job>
    var cursor: Option<nat>

    constructor ()
      ensures jobs == [] && cursor == None
    {
      jobs, cursor := [], None;
    }

    method CreateJob(account: Address, payload: Payload, key: Option<Key>) returns (id: nat)
      requires UniqueKeys(jobs)
      modifies `jobs
      ensures UniqueKeys(jobs) && jobs == Created(old(jobs), account, payload, key)
      ensures id < |jobs| && (key.Some? ==> HasKey(jobs, id, key.value))
    {
      CreatedKeepsUniqueKeys(jobs, account, payload, key);
      if key.Some? && Known(jobs, key.value) {
        var existing: nat :| existing < |jobs| && HasKey(jobs, existing, key.value);
        return existing;
      }
      jobs := jobs + [NewJob(account, payload, key)];
      return |jobs| - 1;
    }

    /** An update may change anything but the job's origin. */
    method UpdateJob(id: nat, job: Job)
      requires UniqueKeys(jobs) && id < |jobs| && job.SameOrigin(jobs[id])
      modifies `jobs
      ensures UniqueKeys(jobs) && jobs == old(jobs)[id := job]
    {
      UpdatedKeepsUniqueKeys(jobs, id, job);
      jobs := jobs[id := job];
    }

    method Retry(id: nat) returns (err: Option<Error>)
      requires UniqueKeys(jobs)
      modifies `jobs
      ensures UniqueKeys(jobs)
      ensures err == None <==> id < |old(jobs)| && old(jobs)[id].status == Failed
      ensures err == None ==> jobs == old(jobs)[id := ResetForRetry(old(jobs)[id]).value]
      ensures err != None ==> jobs == old(jobs)
    {
      if id >= |jobs| {
        return Some(InvalidRequest);
      }
      var job := ResetForRetry(jobs[id]);
      if job.Err? {
        return Some(job.error);
      }
      UpdateJob(id, job.value);
      return None;
    }
  }

  /** What other tasks may do to the table while a job waits for an answer. */
  datatype Arrival = NewArrival(account: Address, payload: Payload, key: Option<Key>) | RetryArrival(id: nat)

  /** What arrives during each of the waits of one job's processing. */
  datatype Meanwhile = Meanwhile(submit: seq<Arrival>, poll: seq<Arrival>, settle: seq<Arrival>, recover: seq<Arrival>)

  /** The answers for one job and the arrivals that come in meanwhile. */
  datatype Turn = Turn(answers: Answers, meanwhile: Meanwhile)

  /** Rows keep their place and origin, and an unfinished row is not touched at all. */
  ghost predicate Grown(jobs: seq<Job>, next: seq<Job>) {
    && |jobs| <= |next|
    && forall i :: 0 <= i < |jobs| ==> next[i].SameOrigin(jobs[i]) && (jobs[i].Runnable() ==> next[i] == jobs[i])
  }

  /** The same for every row but `id`, the one that is being processed. */
  ghost predicate OthersGrown(jobs: seq<Job>, next: seq<Job>, id: nat) {
    && |jobs| <= |next|
    && forall i :: 0 <= i < |jobs| && i != id ==>
         next[i].SameOrigin(jobs[i]) && (jobs[i].Runnable() ==> next[i] == jobs[i])
  }

  class Orchestrator {
    const store: Store
    var running: bool
    var wakeRequested: bool

    constructor (store: Store)
      ensures this.store == store && !running && !wakeRequested
    {
      this.store := store;
      running, wakeRequested := false, false;
    }

    /** Arrivals while the drain is running: each changes the table and asks for a wake-up. */
    method Arrive(arrivals: seq<Arrival>)
      requires UniqueKeys(store.jobs) && running
      modifies this`wakeRequested, store`jobs
      ensures UniqueKeys(store.jobs) && Grown(old(store.jobs), store.jobs)
      ensures arrivals == [] ==> wakeRequested == old(wakeRequested) && store.jobs == old(store.jobs)
    {
      var k := 0;
      while k < |arrivals|
        invariant 0 <= k <= |arrivals|
        invariant UniqueKeys(store.jobs) && Grown(old(store.jobs), store.jobs)
        invariant k == 0 ==> wakeRequested == old(wakeRequested) && store.jobs == old(store.jobs)
      {
        match arrivals[k] {
          case NewArrival(account, payload, key) =>
            var _ := store.CreateJob(account, payload, key);
          case RetryArrival(id) =>
            var _ := store.Retry(id);
        }
        wakeRequested := true;
        k := k + 1;
      }
    }

    /** One update of the row that is being processed. */
    method Update(id: nat, job: Job, ghost before: seq<Job>)
      requires UniqueKeys(store.jobs) && id < |before| <= |store.jobs|
      requires job.SameOrigin(before[id]) && store.jobs[id].SameOrigin(before[id])
      requires OthersGrown(before, store.jobs, id)
      modifies store`jobs
      ensures UniqueKeys(store.jobs) && OthersGrown(before, store.jobs, id) && store.jobs[id] == job
    {
      store.UpdateJob(id, job);
    }

    /** A wait: the row that is being processed stays as it is, whatever arrives. */
    method Await(id: nat, arrivals: seq<Arrival>, ghost before: seq<Job>)
      requires UniqueKeys(store.jobs) && running && id < |before| <= |store.jobs|
      requires OthersGrown(before, store.jobs, id) && store.jobs[id].Runnable()
      modifies this`wakeRequested, store`jobs
      ensures UniqueKeys(store.jobs) && OthersGrown(before, store.jobs, id)
      ensures store.jobs[id] == old(store.jobs)[id]
      ensures arrivals == [] ==> wakeRequested == old(wakeRequested) && store.jobs == old(store.jobs)
    {
      Arrive(arrivals);
    }

    /** The failure branch: the recovery's waits, then the row that it leaves. */
    method Recover(id: nat, j: Job, failure: Failure, a: Answers, arrivals: seq<Arrival>, ghost before: seq<Job>)
      requires UniqueKeys(store.jobs) && running && id < |before| <= |store.jobs|
      requires OthersGrown(before, store.jobs, id) && store.jobs[id] == j && j.Runnable() && j.SameOrigin(before[id])
      modifies this`wakeRequested, store`jobs
      ensures UniqueKeys(store.jobs) && OthersGrown(before, store.jobs, id) && store.jobs[id] == Handle(j, failure, a)
    {
      hide RecoverAnchor, RecoverDeposit;
      if failure == PriorPending {
        Await(id, arrivals, before);
      }
      Update(id, Handle(j, failure, a), before);
    }

    /** `process`, with whatever arrives while it waits; it leaves the specified row and keeps every other job. */
    method Process(id: nat, a: Answers, m: Meanwhile)
      requires UniqueKeys(store.jobs) && running && id < |store.jobs| && store.jobs[id].Runnable()
      modifies this`wakeRequested, store`jobs
      ensures UniqueKeys(store.jobs) && OthersGrown(old(store.jobs), store.jobs, id)
      ensures store.jobs[id] == Processed(old(store.jobs)[id], a)
    {
      hide Handle, UniqueKeys;
      ghost var before := store.jobs;
      var j := store.jobs[id];
      j := j.(attempts := j.attempts + 1);
      Update(id, j, before);
      if j.actionId.None? {
        if j.payload.Chain? {
          j := j.(actionId := Some(j.payload.requestId), status := Submitted);
        } else {
          Await(id, m.submit, before);
          if a.submit.Fails? {
            Recover(id, j, a.submit.failure, a, m.recover, before);
            return;
          }
          j := j.(actionId := Some(a.submit.value), status := Submitted);
        }
        Update(id, j, before);
      }
      j := j.(status := Processing);
      Update(id, j, before);
      Await(id, m.poll, before);
      if a.poll.Fails? {
        Recover(id, j, a.poll.failure, a, m.recover, before);
        return;
      }
      if a.poll.value.None? {
        Update(id, j.(status := Confirmed), before);
        return;
      }
      j := j.(status := Settling);
      Update(id, j, before);
      Await(id, m.settle, before);
      var txHash := j.txHash;
      if txHash.None? {
        if a.execute.Fails? {
          Recover(id, j, a.execute.failure, a, m.recover, before);
          return;
        }
        txHash := Some(a.execute.value);
      }
      if a.confirm.Fails? {
        Recover(id, j, a.confirm.failure, a, m.recover, before);
        return;
      }
      j := j.(txHash := txHash, status := Confirming);
      Update(id, j, before);
      Update(id, j.(status := Confirmed), before);
    }

    /**
      The drain loop. `turns` says how each job in turn is answered and what arrives meanwhile; if the turns
      run out first, the drain is still waiting for an answer.
     */
    method Drain(turns: seq<Turn>) returns (stopped: bool)
      requires UniqueKeys(store.jobs) && !running
      modifies this, store`jobs
      ensures UniqueKeys(store.jobs) && |store.jobs| >= |old(store.jobs)|
      ensures forall i :: 0 <= i < |old(store.jobs)| ==> store.jobs[i].SameOrigin(old(store.jobs)[i])
      ensures turns == [] ==> store.jobs == old(store.jobs)
      ensures stopped == !running
      ensures stopped ==> !wakeRequested && NextRunnable(store.jobs) == None
    {
      running := true;
      var next := 0;
      var again := true;
      while again
        invariant running && 0 <= next <= |turns|
        invariant UniqueKeys(store.jobs) && |store.jobs| >= |old(store.jobs)|
        invariant forall i :: 0 <= i < |old(store.jobs)| ==> store.jobs[i].SameOrigin(old(store.jobs)[i])
        invariant next == 0 ==> store.jobs == old(store.jobs)
        invariant !again ==> !wakeRequested && NextRunnable(store.jobs) == None
        decreases |turns| - next, again
      {
        wakeRequested := false;
        var job := NextRunnable(store.jobs);
        ghost var first := next;
        while job.Some?
          invariant running && first <= next <= |turns|
          invariant UniqueKeys(store.jobs) && |store.jobs| >= |old(store.jobs)|
          invariant forall i :: 0 <= i < |old(store.jobs)| ==> store.jobs[i].SameOrigin(old(store.jobs)[i])
          invariant next == 0 ==> store.jobs == old(store.jobs)
          invariant job == NextRunnable(store.jobs)
          invariant next == first ==> !wakeRequested
          decreases |turns| - next
        {
          if next == |turns| {
            return false;
          }
          ProcessingEndsTheJob(store.jobs[job.value], turns[next].answers);
          Process(job.value, turns[next].answers, turns[next].meanwhile);
          next := next + 1;
          job := NextRunnable(store.jobs);
        }
        again := wakeRequested;
      }
      running := false;
      return true;
    }

    method Wake(turns: seq<Turn>)
      requires UniqueKeys(store.jobs)
      modifies this, store`jobs
      ensures UniqueKeys(store.jobs)
      ensures turns == [] ==> store.jobs == old(store.jobs)
      ensures old(running) ==> running && wakeRequested && store.jobs == old(store.jobs)
      ensures !running ==> !wakeRequested && NextRunnable(store.jobs) == None
    {
      wakeRequested := true;
      if !running {
        var _ := Drain(turns);
      }
    }
  }
}
