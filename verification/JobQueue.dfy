/**
 * The durable lease queue: one row for each (upload, preset), claimed, renewed, completed and failed
 * by guarded single-row updates. Instants are nanoseconds; rows hold whole seconds, rounded down.
 */
module JobQueue {
  import opened Basics

  const NANOS: nat := 1_000_000_000

  function Stamp(instant: nat): nat { instant / NANOS }

  datatype JobId = JobId(upload: string, preset: string)

  datatype JobState = Queued | Leased(owner: string, until: nat) | Completed | DeadLetter {
    predicate Finished() { Completed? || DeadLetter? }
  }

  datatype Job = Job(revision: Option<nat>, state: JobState, attempts: nat, availableAt: nat)

  type Jobs = map<JobId, Job>

  datatype Disposition = RetryScheduled | DeadLettered

  predicate Claimable(job: Job, now: nat) {
    match job.state
    case Queued => job.availableAt <= Stamp(now)
    case Leased(_, until) => until <= Stamp(now)
    case _ => false
  }

  predicate OwnedBy(jobs: Jobs, id: JobId, worker: string) {
    id in jobs && jobs[id].state.Leased? && jobs[id].state.owner == worker
  }

  function Enqueued(jobs: Jobs, id: JobId, revision: Option<nat>, now: nat): Jobs {
    if id in jobs then jobs else jobs[id := Job(revision, Queued, 0, Stamp(now))]
  }

  function Claimed(jobs: Jobs, id: JobId, worker: string, now: nat, leaseSecs: nat): Jobs
    requires id in jobs
  {
    jobs[id := jobs[id].(state := Leased(worker, Stamp(now) + leaseSecs), attempts := jobs[id].attempts + 1)]
  }

  predicate Renewable(jobs: Jobs, id: JobId, worker: string, now: nat) {
    OwnedBy(jobs, id, worker) && jobs[id].state.until > Stamp(now)
  }

  function Renewed(jobs: Jobs, id: JobId, worker: string, now: nat, leaseSecs: nat): Jobs
    requires id in jobs
  {
    jobs[id := jobs[id].(state := Leased(worker, Stamp(now) + leaseSecs))]
  }

  function Finish(jobs: Jobs, id: JobId): Jobs
    requires id in jobs
  {
    jobs[id := jobs[id].(state := Completed)]
  }

  function FailedJobs(jobs: Jobs, id: JobId, retryAt: nat, maxAttempts: nat): Jobs
    requires id in jobs
  {
    jobs[id := jobs[id].(state := if jobs[id].attempts >= maxAttempts then DeadLetter else Queued,
                         availableAt := Stamp(retryAt))]
  }

  datatype LeasedJob = LeasedJob(id: JobId, revision: Option<nat>, attempts: nat)

  datatype QueueError = NotOwner | InvalidRequest

  // ----- Turns of the tenants -----

  /** The claim sequence: the number of the next claim and of each tenant's last one. */
  datatype Turns = Turns(last: map<string, nat>, next: nat) {
    /** A tenant that was never served comes first. */
    function Of(tenant: string): nat { if tenant in last then last[tenant] else 0 }

    function After(tenant: string): Turns { Turns(last[tenant := next], next + 1) }
  }

  const FIRST_TURN := Turns(map[], 1)

  /** `a` is claimed before `b`: its tenant was served longer ago, or it has been available longer. */
  predicate Precedes(jobs: Jobs, turns: Turns, tenantOf: string -> string, a: JobId, b: JobId)
    requires a in jobs && b in jobs
  {
    || turns.Of(tenantOf(a.upload)) < turns.Of(tenantOf(b.upload))
    || (turns.Of(tenantOf(a.upload)) == turns.Of(tenantOf(b.upload)) && jobs[a].availableAt < jobs[b].availableAt)
  }

  /** A claimable job that no other claimable job precedes. */
  predicate Chosen(jobs: Jobs, turns: Turns, tenantOf: string -> string, id: JobId, now: nat) {
    && id in jobs && Claimable(jobs[id], now)
    && forall other :: other in jobs && Claimable(jobs[other], now) ==> !Precedes(jobs, turns, tenantOf, other, id)
  }

  // ----- Any interleaving of queue calls, by any callers with any clocks -----

  datatype Call =
    | CallEnqueue(id: JobId, revision: Option<nat>, now: nat)
    | CallClaim(id: JobId, worker: string, now: nat, leaseSecs: nat)
    | CallRenew(id: JobId, worker: string, now: nat, leaseSecs: nat)
    | CallComplete(id: JobId, worker: string)
    | CallFail(id: JobId, worker: string, retryAt: nat, maxAttempts: nat)

  /** A call whose guard does not hold changes nothing; the methods below make just these changes. */
  function Apply(jobs: Jobs, call: Call): Jobs {
    match call
    case CallEnqueue(id, revision, now) => Enqueued(jobs, id, revision, now)
    case CallClaim(id, worker, now, leaseSecs) =>
      if id in jobs && Claimable(jobs[id], now) then Claimed(jobs, id, worker, now, leaseSecs) else jobs
    case CallRenew(id, worker, now, leaseSecs) =>
      if Renewable(jobs, id, worker, now) then Renewed(jobs, id, worker, now, leaseSecs) else jobs
    case CallComplete(id, worker) => if OwnedBy(jobs, id, worker) then Finish(jobs, id) else jobs
    case CallFail(id, worker, retryAt, maxAttempts) =>
      if OwnedBy(jobs, id, worker) then FailedJobs(jobs, id, retryAt, maxAttempts) else jobs
  }

  // ----- The queue object -----

  class Queue {
    const tenantOf: string -> string
    var jobs: Jobs
    var turns: Turns

    constructor (tenantOf: string -> string)
      ensures this.tenantOf == tenantOf && jobs == map[] && turns == FIRST_TURN
    {
      this.tenantOf := tenantOf;
      jobs, turns := map[], FIRST_TURN;
    }

    /** The row the claim query returns first; ties by creation time and row id are left open. */
    method First(now: nat) returns (best: Option<JobId>)
      ensures best.None? ==> forall id :: id in jobs ==> !Claimable(jobs[id], now)
      ensures best.Some? ==> Chosen(jobs, turns, tenantOf, best.value, now)
    {
      var eligible := set id | id in jobs && Claimable(jobs[id], now);
      assert forall id :: id in jobs && Claimable(jobs[id], now) <==> id in eligible;
      if eligible == {} {
        return None;
      }
      var id :| id in eligible;
      var rest := eligible - {id};
      while rest != {}
        invariant id in eligible && rest <= eligible
        invariant forall other :: other in eligible - rest ==> !Precedes(jobs, turns, tenantOf, other, id)
        decreases rest
      {
        var other :| other in rest;
        rest := rest - {other};
        if Precedes(jobs, turns, tenantOf, other, id) {
          forall third | third in eligible - rest
            ensures !Precedes(jobs, turns, tenantOf, third, other)
          {
            assert third == other || !Precedes(jobs, turns, tenantOf, third, id);
          }
          id := other;
        }
      }
      best := Some(id);
    }

    method Enqueue(id: JobId, revision: Option<nat>, now: nat) returns (r: Result<(), QueueError>)
      modifies this`jobs
      ensures r.Ok? <==> 0 < |id.preset| <= 128 && (revision.Some? ==> revision.value <= U64_MAX / 2)
      ensures jobs == if r.Ok? then Apply(old(jobs), CallEnqueue(id, revision, now)) else old(jobs)
      ensures r.Ok? && id in old(jobs) ==> jobs == old(jobs)
      ensures r.Ok? && id !in old(jobs) ==>
                && id in jobs && jobs - {id} == old(jobs) && jobs[id].revision == revision && jobs[id].attempts == 0
                && forall t: nat :: Claimable(jobs[id], t) <==> Stamp(now) <= Stamp(t)
    {
      if id.preset == "" || |id.preset| > 128 {
        return Err(InvalidRequest);
      }
      if revision.Some? && revision.value > U64_MAX / 2 {
        return Err(InvalidRequest);
      }
      if id !in jobs {
        jobs := jobs[id := Job(revision, Queued, 0, Stamp(now))];
      }
      return Ok(());
    }

    /** Serves the tenant whose last turn is oldest; None means nothing is eligible. */
    method ClaimNext(worker: string, now: nat, leaseSecs: nat)
      returns (r: Result<Option<LeasedJob>, QueueError>)
      modifies this
      ensures r.Ok? <==> Token(worker, 128) && leaseSecs > 0
      ensures r.Err? || r.value.None? ==> jobs == old(jobs) && turns == old(turns)
      ensures r.Ok? && r.value.None? ==> forall id :: id in jobs ==> !Claimable(jobs[id], now)
      ensures r.Ok? && r.value.Some? ==>
                var l := r.value.value;
                && Chosen(old(jobs), old(turns), tenantOf, l.id, now)
                && jobs == Apply(old(jobs), CallClaim(l.id, worker, now, leaseSecs))
                && (forall other :: OwnedBy(jobs, l.id, other) <==> other == worker)
                && jobs - {l.id} == old(jobs) - {l.id}
                && l.revision == old(jobs)[l.id].revision == jobs[l.id].revision
                && l.attempts == old(jobs)[l.id].attempts + 1 == jobs[l.id].attempts
                && forall t: nat :: Claimable(jobs[l.id], t) <==> Stamp(now) + leaseSecs <= Stamp(t)
      ensures r.Ok? && r.value.Some? ==>
                var id, tenant := r.value.value.id, tenantOf(r.value.value.id.upload);
                && turns == old(turns).After(tenant) && turns.Of(tenant) == old(turns).next
                && turns.next == old(turns).next + 1
                && (forall other :: other != tenant ==> turns.Of(other) == old(turns).Of(other))
                && forall other :: other in old(jobs) && Claimable(old(jobs)[other], now) ==>
                     || old(turns).Of(tenant) < old(turns).Of(tenantOf(other.upload))
                     || (&& old(turns).Of(tenant) == old(turns).Of(tenantOf(other.upload))
                         && old(jobs)[id].availableAt <= old(jobs)[other].availableAt)
    {
      if !Token(worker, 128) || leaseSecs == 0 {
        return Err(InvalidRequest);
      }
      var first := First(now);
      if first.None? {
        return Ok(None);
      }
      var id := first.value;
      var job := jobs[id];
      jobs := jobs[id := job.(state := Leased(worker, Stamp(now) + leaseSecs), attempts := job.attempts + 1)];
      turns := turns.After(tenantOf(id.upload));
      return Ok(Some(LeasedJob(id, job.revision, job.attempts + 1)));
    }

    method Renew(id: JobId, worker: string, now: nat, leaseSecs: nat) returns (r: Result<nat, QueueError>)
      modifies this`jobs
      ensures r.Ok? <==> Token(worker, 128) && leaseSecs > 0 && Renewable(old(jobs), id, worker, now)
      ensures jobs == if r.Ok? then Apply(old(jobs), CallRenew(id, worker, now, leaseSecs)) else old(jobs)
      ensures r.Ok? ==>
                && OwnedBy(old(jobs), id, worker) && !Claimable(old(jobs)[id], now)
                && OwnedBy(jobs, id, worker) && jobs - {id} == old(jobs) - {id} && r.value == Stamp(now) + leaseSecs
                && jobs[id].attempts == old(jobs)[id].attempts && jobs[id].revision == old(jobs)[id].revision
                && forall t: nat :: Claimable(jobs[id], t) <==> r.value <= Stamp(t)
    {
      if !Token(worker, 128) || leaseSecs == 0 { return Err(InvalidRequest); }
      if id !in jobs || !jobs[id].state.Leased? || jobs[id].state.owner != worker
         || jobs[id].state.until <= Stamp(now) {
        return Err(NotOwner);
      }
      jobs := jobs[id := jobs[id].(state := Leased(worker, Stamp(now) + leaseSecs))];
      return Ok(Stamp(now) + leaseSecs);
    }

    method Complete(id: JobId, worker: string) returns (r: Result<(), QueueError>)
      modifies this`jobs
      ensures r.Ok? <==> Token(worker, 128) && OwnedBy(old(jobs), id, worker)
      ensures jobs == if r.Ok? then Apply(old(jobs), CallComplete(id, worker)) else old(jobs)
      ensures r.Ok? ==> jobs - {id} == old(jobs) - {id} && jobs[id] == old(jobs)[id].(state := Completed)
    {
      if !Token(worker, 128) { return Err(InvalidRequest); }
      if id !in jobs || !jobs[id].state.Leased? || jobs[id].state.owner != worker {
        return Err(NotOwner);
      }
      jobs := jobs[id := jobs[id].(state := Completed)];
      return Ok(());
    }

    /**
     * Unless the attempt was the last, the job waits for `retryAt`: it can be claimed from that second
     * on and not before.
     */
    method Fail(id: JobId, worker: string, retryAt: nat, maxAttempts: nat, code: string)
      returns (r: Result<Disposition, QueueError>)
      modifies this`jobs
      ensures r.Ok? <==> Token(worker, 128) && maxAttempts > 0 && 0 < |code| <= 64 && OwnedBy(old(jobs), id, worker)
      ensures jobs == if r.Ok? then Apply(old(jobs), CallFail(id, worker, retryAt, maxAttempts)) else old(jobs)
      ensures r.Ok? ==>
                && jobs - {id} == old(jobs) - {id} && id in jobs
                && jobs[id].attempts == old(jobs)[id].attempts && jobs[id].revision == old(jobs)[id].revision
                && (r.value == DeadLettered <==> old(jobs)[id].attempts >= maxAttempts)
                && (r.value == DeadLettered <==> jobs[id].state == DeadLetter)
                && (r.value == RetryScheduled ==>
                      forall t: nat :: Claimable(jobs[id], t) <==> Stamp(retryAt) <= Stamp(t))
    {
      if !Token(worker, 128) || maxAttempts == 0 || code == "" || |code| > 64 { return Err(InvalidRequest); }
      if id !in jobs || !jobs[id].state.Leased? || jobs[id].state.owner != worker {
        return Err(NotOwner);
      }
      var dead := jobs[id].attempts >= maxAttempts;
      jobs := jobs[id := jobs[id].(state := if dead then DeadLetter else Queued, availableAt := Stamp(retryAt))];
      return Ok(if dead then DeadLettered else RetryScheduled);
    }
  }

  // ----- Runs -----

  function Run(jobs: Jobs, calls: seq<Call>): Jobs
    decreases calls
  {
    if calls == [] then jobs else Run(Apply(jobs, calls[0]), calls[1..])
  }

  predicate HasFinished(jobs: Jobs, id: JobId) { id in jobs && jobs[id].state.Finished() }

  /** How many calls of a run moved the job into a finished state. */
  function Finishings(jobs: Jobs, calls: seq<Call>, id: JobId): nat
    decreases calls
  {
    if calls == [] then 0
    else
      var next := Apply(jobs, calls[0]);
      (if !HasFinished(jobs, id) && HasFinished(next, id) then 1 else 0) + Finishings(next, calls[1..], id)
  }

  lemma {:induction false} FinishedIsFinal(jobs: Jobs, calls: seq<Call>, id: JobId)
    requires HasFinished(jobs, id)
    ensures id in Run(jobs, calls) && Run(jobs, calls)[id] == jobs[id]
    ensures Finishings(jobs, calls, id) == 0
    decreases calls
  {
    if calls != [] {
      FinishedIsFinal(Apply(jobs, calls[0]), calls[1..], id);
    }
  }

  /** In any run each job reaches completed or dead-letter at most once, and then never changes. */
  lemma {:induction false} FinishesAtMostOnce(jobs: Jobs, calls: seq<Call>, id: JobId)
    ensures Finishings(jobs, calls, id) <= 1
    ensures Finishings(jobs, calls, id) == 1 <==> !HasFinished(jobs, id) && HasFinished(Run(jobs, calls), id)
    decreases calls
  {
    if HasFinished(jobs, id) {
      FinishedIsFinal(jobs, calls, id);
    } else if calls != [] {
      var next := Apply(jobs, calls[0]);
      if HasFinished(next, id) {
        FinishedIsFinal(next, calls[1..], id);
      } else {
        FinishesAtMostOnce(next, calls[1..], id);
      }
    }
  }

  /** Calls made in the name of `worker` about job `id`. */
  predicate ByWorker(call: Call, id: JobId, worker: string) {
    (call.CallRenew? || call.CallComplete? || call.CallFail?) && call.id == id && call.worker == worker
  }

  /** The run with every such call left out. */
  function Without(calls: seq<Call>, id: JobId, worker: string): seq<Call>
    decreases calls
  {
    if calls == [] then []
    else (if ByWorker(calls[0], id, worker) then [] else [calls[0]]) + Without(calls[1..], id, worker)
  }

  predicate Claims(call: Call, id: JobId, worker: string) {
    call.CallClaim? && call.id == id && call.worker == worker
  }

  /**
   * A worker without the lease cannot move the job: however its late calls are interleaved with
   * anybody else's, until it claims the job again the run is the same without them.
   */
  lemma {:induction false} StaleOwnerIsPowerless(jobs: Jobs, calls: seq<Call>, id: JobId, worker: string)
    requires !OwnedBy(jobs, id, worker)
    requires forall i :: 0 <= i < |calls| ==> !Claims(calls[i], id, worker)
    ensures Run(jobs, calls) == Run(jobs, Without(calls, id, worker))
    ensures !OwnedBy(Run(jobs, calls), id, worker)
    decreases calls
  {
    if calls != [] {
      var next := Apply(jobs, calls[0]);
      assert !Claims(calls[0], id, worker);
      assert !OwnedBy(next, id, worker);
      StaleOwnerIsPowerless(next, calls[1..], id, worker);
      if ByWorker(calls[0], id, worker) {
        assert next == jobs;
        assert Without(calls, id, worker) == Without(calls[1..], id, worker);
      } else {
        assert Without(calls, id, worker)[1..] == Without(calls[1..], id, worker);
      }
    }
  }

  /**
   * Only an explicit failure report can dead-letter a job. An attempt that ends operationally makes
   * no report, so such a job is claimed again forever and its attempt count is never compared.
   */
  lemma {:induction false} WithoutReportsNeverFinishes(jobs: Jobs, calls: seq<Call>, id: JobId)
    requires id in jobs && !jobs[id].state.Finished()
    requires forall i :: 0 <= i < |calls| ==> !calls[i].CallFail? && !calls[i].CallComplete?
    ensures id in Run(jobs, calls) && !Run(jobs, calls)[id].state.Finished()
    ensures Run(jobs, calls)[id].attempts >= jobs[id].attempts
    decreases calls
  {
    if calls != [] {
      assert !calls[0].CallFail? && !calls[0].CallComplete?;
      WithoutReportsNeverFinishes(Apply(jobs, calls[0]), calls[1..], id);
    }
  }

  /**
   * The backoff holds: after a failure report that leaves attempts over, no call by anybody moves the
   * job until a claim at a time not before the retry time; then it can be claimed.
   */
  lemma {:induction false} RetryWaits(jobs: Jobs, id: JobId, worker: string, retryAt: nat, maxAttempts: nat,
                                      calls: seq<Call>)
    requires OwnedBy(jobs, id, worker) && jobs[id].attempts < maxAttempts
    requires forall i :: 0 <= i < |calls| && calls[i].CallClaim? && calls[i].id == id ==>
               Stamp(calls[i].now) < Stamp(retryAt)
    ensures var jobs' := Run(jobs, [CallFail(id, worker, retryAt, maxAttempts)] + calls);
            && id in jobs' && jobs'[id].attempts == jobs[id].attempts && jobs'[id].revision == jobs[id].revision
            && forall t: nat :: Claimable(jobs'[id], t) <==> Stamp(retryAt) <= Stamp(t)
  {
    var report := CallFail(id, worker, retryAt, maxAttempts);
    assert ([report] + calls)[1..] == calls;
    QueuedWaits(Apply(jobs, report), id, calls);
  }

  lemma {:induction false} QueuedWaits(jobs: Jobs, id: JobId, calls: seq<Call>)
    requires id in jobs && jobs[id].state.Queued?
    requires forall i :: 0 <= i < |calls| && calls[i].CallClaim? && calls[i].id == id ==>
               !Claimable(jobs[id], calls[i].now)
    ensures id in Run(jobs, calls) && Run(jobs, calls)[id] == jobs[id]
    decreases calls
  {
    if calls != [] {
      assert calls[0].CallClaim? && calls[0].id == id ==> !Claimable(jobs[id], calls[0].now);
      QueuedWaits(Apply(jobs, calls[0]), id, calls[1..]);
    }
  }
}
