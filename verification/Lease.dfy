/**
 * Worker leases in real time: claiming, the renewal heartbeat, losing a lease, crashing.
 * Every call reads the clock before it commits and answers after it commits.
 */
module Lease {
  import opened Basics
  import opened JobQueue

  /** All durations in nanoseconds except the lease, which the queue rounds down to seconds. */
  datatype Timing = Timing(heartbeat: nat, leaseSecs: nat, claimLatency: nat, renewLatency: nat)

  datatype Slot =
    | Idle
    | Claiming(start: nat)
    | Holding(job: JobId, start: nat)
    | Working(job: JobId, last: nat, nextTick: nat)
    | Renewing(job: JobId, last: nat, start: nat)
    | Extended(job: JobId, start: nat)
    | Reporting(job: JobId)
  {
    /** The validation future of this job exists in this slot. */
    predicate Processes(id: JobId) {
      (Holding? || Working? || Renewing? || Extended?) && job == id
    }
  }

  datatype State = State(now: nat, jobs: Jobs, slots: map<string, Slot>)

  datatype Step =
    | Tick(duration: nat)
    | Submit(id: JobId, revision: Option<nat>)
    | BeginClaim(w: string)
    | CommitClaim(w: string, id: JobId)
    | FindNothing(w: string)
    | ReturnClaim(w: string)
    | BeginRenew(w: string)
    | CommitRenew(w: string)
    | ReturnRenew(w: string)
    | EndWork(w: string)
    | ReportSuccess(w: string)
    | ReportFailure(w: string, retryAt: nat, maxAttempts: nat)
    | Crash(w: string)

  /** The instant past which the latency bounds do not let time run while the slot stays as it is. */
  function Deadline(t: Timing, slot: Slot): Option<nat> {
    match slot
    case Claiming(start) => Some(start + t.claimLatency)
    case Holding(_, start) => Some(start + t.claimLatency)
    case Working(_, _, nextTick) => Some(nextTick)
    case Renewing(_, _, start) => Some(start + t.renewLatency)
    case Extended(_, start) => Some(start + t.renewLatency)
    case _ => None
  }

  predicate MayPass(t: Timing, s: State, duration: nat) {
    forall w :: w in s.slots ==>
      var d := Deadline(t, s.slots[w]); d.Some? ==> s.now + duration <= d.value
  }

  function Put(s: State, w: string, slot: Slot): State { s.(slots := s.slots[w := slot]) }

  /** One atomic step; a step that is not enabled leaves the state unchanged. */
  function Apply(t: Timing, s: State, step: Step): State {
    match step
    case Tick(duration) => if MayPass(t, s, duration) then s.(now := s.now + duration) else s
    case Submit(id, revision) => s.(jobs := Enqueued(s.jobs, id, revision, s.now))
    case BeginClaim(w) => if w in s.slots && s.slots[w].Idle? then Put(s, w, Claiming(s.now)) else s
    case CommitClaim(w, id) =>
      if w in s.slots && s.slots[w].Claiming? && id in s.jobs && Claimable(s.jobs[id], s.slots[w].start) then
        Put(s, w, Holding(id, s.slots[w].start)).(jobs := Claimed(s.jobs, id, w, s.slots[w].start, t.leaseSecs))
      else s
    case FindNothing(w) => if w in s.slots && s.slots[w].Claiming? then Put(s, w, Idle) else s
    case ReturnClaim(w) =>
      if w in s.slots && s.slots[w].Holding? then
        Put(s, w, Working(s.slots[w].job, s.slots[w].start, s.now + t.heartbeat))
      else s
    case BeginRenew(w) =>
      if w in s.slots && s.slots[w].Working? && s.slots[w].nextTick <= s.now then
        Put(s, w, Renewing(s.slots[w].job, s.slots[w].last, s.now))
      else s
    case CommitRenew(w) =>
      if w in s.slots && s.slots[w].Renewing? then
        var slot := s.slots[w];
        if Renewable(s.jobs, slot.job, w, slot.start) then
          Put(s, w, Extended(slot.job, slot.start)).(jobs := Renewed(s.jobs, slot.job, w, slot.start, t.leaseSecs))
        else Put(s, w, Idle)
      else s
    case ReturnRenew(w) =>
      if w in s.slots && s.slots[w].Extended? then
        Put(s, w, Working(s.slots[w].job, s.slots[w].start, Max(s.slots[w].start + t.heartbeat, s.now)))
      else s
    case EndWork(w) =>
      if w in s.slots && s.slots[w].Working? then Put(s, w, Reporting(s.slots[w].job)) else s
    case ReportSuccess(w) =>
      if w in s.slots && s.slots[w].Reporting? then
        Put(s, w, Idle).(jobs := JobQueue.Apply(s.jobs, CallComplete(s.slots[w].job, w)))
      else s
    case ReportFailure(w, retryAt, maxAttempts) =>
      if w in s.slots && s.slots[w].Reporting? then
        Put(s, w, Idle).(jobs := JobQueue.Apply(s.jobs, CallFail(s.slots[w].job, w, retryAt, maxAttempts)))
      else s
    case Crash(w) => if w in s.slots then Put(s, w, Idle) else s
  }

  function Run(t: Timing, s: State, steps: seq<Step>): State
    decreases steps
  {
    if steps == [] then s else Run(t, Apply(t, s, steps[0]), steps[1..])
  }

  ghost predicate Initial(s: State) {
    s.jobs == map[] && forall w :: w in s.slots ==> s.slots[w].Idle?
  }

  /** No job is processed in two slots at once. */
  ghost predicate Exclusive(s: State) {
    forall v, w, id :: v in s.slots && w in s.slots && s.slots[v].Processes(id) && s.slots[w].Processes(id) ==> v == w
  }

  /** Every processing slot still owns an unexpired lease. */
  ghost predicate LeasesLive(s: State) {
    forall w, id :: w in s.slots && s.slots[w].Processes(id) ==>
      OwnedBy(s.jobs, id, w) && Stamp(s.now) < s.jobs[id].state.until
  }

  // ----- What `WorkerPolicy::validate` demands, and what exclusion needs -----

  /** Claim and renew latency together stay within one heartbeat. */
  predicate Prompt(t: Timing) { t.claimLatency + t.renewLatency <= t.heartbeat }

  /** Two heartbeats after the clock was read, the stored expiry has not been reached. */
  predicate SafeLease(heartbeat: nat, leaseSecs: nat) { 2 * heartbeat <= (leaseSecs - 1) * NANOS }

  predicate ValidatedLease(heartbeat: nat, leaseNanos: nat) { leaseNanos > 2 * heartbeat && heartbeat > 0 }

  /** Policies given in whole seconds, as every configuration is, pass from validation to safety. */
  lemma WholeSecondsAreSafe(heartbeatSecs: nat, leaseSecs: nat)
    requires ValidatedLease(heartbeatSecs * NANOS, leaseSecs * NANOS)
    ensures SafeLease(heartbeatSecs * NANOS, leaseSecs)
  {
    assert leaseSecs >= 2 * heartbeatSecs + 1;
  }

  /** Validation alone is not enough for a policy with fractional seconds. */
  lemma FractionalPolicyCanBeUnsafe()
    ensures exists heartbeat: nat, lease: nat ::
              ValidatedLease(heartbeat, lease) && !SafeLease(heartbeat, lease / NANOS)
  {
    assert ValidatedLease(1_400_000_000, 2_900_000_000) && !SafeLease(1_400_000_000, 2_900_000_000 / NANOS);
  }

  // ----- The inductive invariant -----

  predicate LeasedUntil(s: State, id: JobId, w: string, until: nat) {
    OwnedBy(s.jobs, id, w) && s.jobs[id].state.until == until
  }

  predicate SlotOk(t: Timing, s: State, w: string)
    requires w in s.slots
  {
    match s.slots[w]
    case Idle => true
    case Reporting(_) => true
    case Claiming(start) => start <= s.now <= start + t.claimLatency
    case Holding(id, start) =>
      start <= s.now <= start + t.claimLatency && LeasedUntil(s, id, w, Stamp(start) + t.leaseSecs)
    case Working(id, last, nextTick) =>
      last <= s.now <= nextTick && last + t.heartbeat <= nextTick <= last + t.claimLatency + t.heartbeat
      && LeasedUntil(s, id, w, Stamp(last) + t.leaseSecs)
    case Renewing(id, last, start) =>
      last + t.heartbeat <= start <= last + t.claimLatency + t.heartbeat && start <= s.now <= start + t.renewLatency
      && LeasedUntil(s, id, w, Stamp(last) + t.leaseSecs)
    case Extended(id, start) =>
      start <= s.now <= start + t.renewLatency && LeasedUntil(s, id, w, Stamp(start) + t.leaseSecs)
  }

  ghost predicate Inv(t: Timing, s: State) {
    forall w :: w in s.slots ==> SlotOk(t, s, w)
  }

  lemma StampWithinTwoHeartbeats(t: Timing, from: nat, now: nat)
    requires SafeLease(t.heartbeat, t.leaseSecs) && now <= from + 2 * t.heartbeat
    ensures Stamp(now) < Stamp(from) + t.leaseSecs
  {
    assert now <= from + (t.leaseSecs - 1) * NANOS;
    assert from < (Stamp(from) + 1) * NANOS;
    assert now < (Stamp(from) + t.leaseSecs) * NANOS;
  }

  lemma ProcessingMeansUnexpired(t: Timing, s: State, w: string, id: JobId)
    requires Prompt(t) && SafeLease(t.heartbeat, t.leaseSecs)
    requires w in s.slots && SlotOk(t, s, w) && s.slots[w].Processes(id)
    ensures OwnedBy(s.jobs, id, w) && Stamp(s.now) < s.jobs[id].state.until
  {
    match s.slots[w]
    case Holding(_, start) => StampWithinTwoHeartbeats(t, start, s.now);
    case Working(_, last, _) => StampWithinTwoHeartbeats(t, last, s.now);
    case Renewing(_, last, _) => StampWithinTwoHeartbeats(t, last, s.now);
    case Extended(_, start) => StampWithinTwoHeartbeats(t, start, s.now);
  }

  lemma StampMonotone(a: nat, b: nat)
    requires a <= b
    ensures Stamp(a) <= Stamp(b)
  {
  }

  /** A claim can only take a job that no other slot is processing. */
  lemma ClaimTakesFreeJob(t: Timing, s: State, v: string, id: JobId, start: nat)
    requires Prompt(t) && SafeLease(t.heartbeat, t.leaseSecs) && Inv(t, s)
    requires v in s.slots && id in s.jobs && Claimable(s.jobs[id], start) && start <= s.now
    ensures !s.slots[v].Processes(id)
  {
    if s.slots[v].Processes(id) {
      ProcessingMeansUnexpired(t, s, v, id);
      StampMonotone(start, s.now);
    }
  }

  /** Slot facts depend on the clock, the slot and the lease of its own job only. */
  lemma SlotFrame(t: Timing, s: State, s': State, w: string)
    requires w in s.slots && w in s'.slots && s.slots[w] == s'.slots[w] && SlotOk(t, s, w) && s'.now == s.now
    requires forall id :: s.slots[w].Processes(id) && id in s.jobs ==>
               id in s'.jobs && s'.jobs[id].state == s.jobs[id].state
    ensures SlotOk(t, s', w)
  {
    match s.slots[w]
    case Holding(id, _) => assert s.slots[w].Processes(id);
    case Working(id, _, _) => assert s.slots[w].Processes(id);
    case Renewing(id, _, _) => assert s.slots[w].Processes(id);
    case Extended(id, _) => assert s.slots[w].Processes(id);
    case _ =>
  }

  lemma InvExclusive(t: Timing, s: State)
    requires Prompt(t) && SafeLease(t.heartbeat, t.leaseSecs) && Inv(t, s)
    ensures Exclusive(s) && LeasesLive(s)
  {
    forall w, id | w in s.slots && s.slots[w].Processes(id)
      ensures OwnedBy(s.jobs, id, w) && Stamp(s.now) < s.jobs[id].state.until
    {
      ProcessingMeansUnexpired(t, s, w, id);
    }
  }

  lemma OtherSlotsKeep(t: Timing, s: State, step: Step, v: string)
    requires Prompt(t) && SafeLease(t.heartbeat, t.leaseSecs) && Inv(t, s)
    requires v in s.slots && !step.Tick? && (step.Submit? || v != step.w)
    ensures SlotOk(t, Apply(t, s, step), v)
  {
    assert SlotOk(t, s, v);
    var s' := Apply(t, s, step);
    forall id | s.slots[v].Processes(id) && id in s.jobs
      ensures id in s'.jobs && s'.jobs[id].state == s.jobs[id].state
    {
      ProcessingMeansUnexpired(t, s, v, id);
      if step.CommitClaim? && step.w in s.slots && s.slots[step.w].Claiming? {
        assert SlotOk(t, s, step.w);
        if step.id in s.jobs && Claimable(s.jobs[step.id], s.slots[step.w].start) {
          ClaimTakesFreeJob(t, s, v, step.id, s.slots[step.w].start);
        }
      }
    }
    SlotFrame(t, s, s', v);
  }

  lemma OwnSlotKeeps(t: Timing, s: State, step: Step)
    requires Prompt(t) && SafeLease(t.heartbeat, t.leaseSecs)
    requires !step.Tick? && !step.Submit? && step.w in s.slots && SlotOk(t, s, step.w)
    ensures SlotOk(t, Apply(t, s, step), step.w)
  {
    if step.CommitRenew? && s.slots[step.w].Renewing? {
      ProcessingMeansUnexpired(t, s, step.w, s.slots[step.w].job);
      StampMonotone(s.slots[step.w].start, s.now);
    }
  }

  lemma StepKeepsInv(t: Timing, s: State, step: Step)
    requires Prompt(t) && SafeLease(t.heartbeat, t.leaseSecs) && Inv(t, s)
    ensures Inv(t, Apply(t, s, step))
  {
    var s' := Apply(t, s, step);
    forall v | v in s'.slots
      ensures SlotOk(t, s', v)
    {
      assert v in s.slots && SlotOk(t, s, v);
      if step.Tick? {
        TickKeepsSlot(t, s, step.duration, v);
      } else if step.Submit? || v != step.w {
        OtherSlotsKeep(t, s, step, v);
      } else {
        OwnSlotKeeps(t, s, step);
      }
    }
  }

  lemma TickKeepsSlot(t: Timing, s: State, duration: nat, v: string)
    requires v in s.slots && SlotOk(t, s, v)
    ensures SlotOk(t, Apply(t, s, Tick(duration)), v)
  {
    if MayPass(t, s, duration) {
      var d := Deadline(t, s.slots[v]);
      assert d.Some? ==> s.now + duration <= d.value;
    }
  }

  lemma {:induction false} RunKeepsInv(t: Timing, s: State, steps: seq<Step>)
    requires Prompt(t) && SafeLease(t.heartbeat, t.leaseSecs) && Inv(t, s)
    ensures Inv(t, Run(t, s, steps))
    decreases steps
  {
    if steps != [] {
      StepKeepsInv(t, s, steps[0]);
      RunKeepsInv(t, Apply(t, s, steps[0]), steps[1..]);
    }
  }

  /** With a safe lease no run lets two slots process one job or lets a live worker's lease expire. */
  lemma {:induction false} LeaseExclusion(t: Timing, s: State, steps: seq<Step>)
    requires Prompt(t) && SafeLease(t.heartbeat, t.leaseSecs) && Initial(s)
    ensures Exclusive(Run(t, s, steps)) && LeasesLive(Run(t, s, steps))
  {
    RunKeepsInv(t, s, steps);
    InvExclusive(t, Run(t, s, steps));
  }

  /**
   * Renewals are paced: a slot's lease was last extended from a clock reading at least one heartbeat,
   * and at most a heartbeat and a claim latency, before the one its next renewal uses.
   */
  lemma {:induction false} RenewalsArePaced(t: Timing, s: State, steps: seq<Step>, w: string)
    requires Prompt(t) && SafeLease(t.heartbeat, t.leaseSecs) && Initial(s)
    requires w in Run(t, s, steps).slots && Run(t, s, steps).slots[w].Renewing?
    ensures var s', slot := Run(t, s, steps), Run(t, s, steps).slots[w];
            && t.heartbeat <= slot.start - slot.last <= t.heartbeat + t.claimLatency
            && slot.job in s'.jobs && s'.jobs[slot.job].state == Leased(w, Stamp(slot.last) + t.leaseSecs)
  {
    RunKeepsInv(t, s, steps);
    assert SlotOk(t, Run(t, s, steps), w);
  }

  // ----- The bound is exact -----

  lemma {:induction false} RunCons(t: Timing, s: State, step: Step, steps: seq<Step>)
    ensures Run(t, s, [step] + steps) == Run(t, Apply(t, s, step), steps)
  {
    assert ([step] + steps)[1..] == steps;
  }

  /** Submit, then let the clock reach the last nanosecond of a second. */
  lemma SubmitAndWait(t: Timing, s: State, id: JobId, rest: seq<Step>) returns (s2: State)
    requires s == State(0, map[], map["a" := Idle, "b" := Idle])
    ensures s2 == State(NANOS - 1, map[id := Job(None, Queued, 0, 0)], s.slots)
    ensures Run(t, s, [Submit(id, None), Tick(NANOS - 1)] + rest) == Run(t, s2, rest)
  {
    var s1 := Apply(t, s, Submit(id, None));
    assert Stamp(0) == 0;
    assert s1 == State(0, map[id := Job(None, Queued, 0, 0)], s.slots);
    s2 := Apply(t, s1, Tick(NANOS - 1));
    RunCons(t, s, Submit(id, None), [Tick(NANOS - 1)] + rest);
    RunCons(t, s1, Tick(NANOS - 1), rest);
    assert [Submit(id, None), Tick(NANOS - 1)] + rest == [Submit(id, None)] + ([Tick(NANOS - 1)] + rest);
  }

  /** A claim answered at once leaves slot "a" working on a lease that began late in its second. */
  lemma ClaimLateInTheSecond(t: Timing, s: State, id: JobId, rest: seq<Step>) returns (s5: State)
    requires t.claimLatency == 0 && s == State(0, map[], map["a" := Idle, "b" := Idle])
    ensures s5.now == NANOS - 1
    ensures s5.slots == map["a" := Working(id, NANOS - 1, NANOS - 1 + t.heartbeat), "b" := Idle]
    ensures s5.jobs == map[id := Job(None, Leased("a", t.leaseSecs), 1, 0)]
    ensures Run(t, s, ClaimSteps(id) + rest) == Run(t, s5, rest)
  {
    hide Run;
    var r5 := [ReturnClaim("a")] + rest;
    var r4 := [CommitClaim("a", id)] + r5;
    var r3 := [BeginClaim("a")] + r4;
    var s2 := SubmitAndWait(t, s, id, r3);
    assert Stamp(NANOS - 1) == 0;
    var s3 := Apply(t, s2, BeginClaim("a"));
    assert s3.slots == map["a" := Claiming(NANOS - 1), "b" := Idle];
    var s4 := Apply(t, s3, CommitClaim("a", id));
    assert s4.slots == map["a" := Holding(id, NANOS - 1), "b" := Idle];
    s5 := Apply(t, s4, ReturnClaim("a"));
    RunCons(t, s2, BeginClaim("a"), r4);
    RunCons(t, s3, CommitClaim("a", id), r5);
    RunCons(t, s4, ReturnClaim("a"), rest);
    assert ClaimSteps(id) + rest == [Submit(id, None), Tick(NANOS - 1)] + r3;
  }

  function ClaimSteps(id: JobId): seq<Step> {
    [Submit(id, None), Tick(NANOS - 1), BeginClaim("a"), CommitClaim("a", id), ReturnClaim("a")]
  }

  function StealSteps(t: Timing, id: JobId): seq<Step> {
    [Tick(t.heartbeat), BeginRenew("a"), Tick(t.heartbeat), BeginClaim("b"), CommitClaim("b", id)]
  }

  lemma RunNothing(t: Timing, s: State)
    ensures Run(t, s, []) == s
  {
  }

  /** The first renewal is still in flight when slot "b" finds the lease expired. */
  lemma StealDuringRenewal(t: Timing, s5: State, id: JobId) returns (end: State)
    requires t.claimLatency == 0 && t.renewLatency == t.heartbeat && !SafeLease(t.heartbeat, t.leaseSecs)
    requires t.leaseSecs > 0 && s5.now == NANOS - 1
    requires s5.slots == map["a" := Working(id, NANOS - 1, NANOS - 1 + t.heartbeat), "b" := Idle]
    requires s5.jobs == map[id := Job(None, Leased("a", t.leaseSecs), 1, 0)]
    ensures end == Run(t, s5, StealSteps(t, id))
    ensures "a" in end.slots && "b" in end.slots && end.slots["a"].Processes(id) && end.slots["b"].Processes(id)
  {
    hide Run;
    var h := t.heartbeat;
    var s6 := Apply(t, s5, Tick(h));
    var s7 := Apply(t, s6, BeginRenew("a"));
    assert s7.slots == map["a" := Renewing(id, NANOS - 1, NANOS - 1 + h), "b" := Idle];
    var s8 := Apply(t, s7, Tick(h));
    assert s8 == s7.(now := NANOS - 1 + 2 * h);
    assert Stamp(s8.now) >= t.leaseSecs;
    var s9 := Apply(t, s8, BeginClaim("b"));
    end := Apply(t, s9, CommitClaim("b", id));
    var r9 := [CommitClaim("b", id)];
    var r8 := [BeginClaim("b")] + r9;
    var r7 := [Tick(h)] + r8;
    var r6 := [BeginRenew("a")] + r7;
    RunCons(t, s5, Tick(h), r6);
    RunCons(t, s6, BeginRenew("a"), r7);
    RunCons(t, s7, Tick(h), r8);
    RunCons(t, s8, BeginClaim("b"), r9);
    RunCons(t, s9, CommitClaim("b", id), []);
    assert r9 == [CommitClaim("b", id)] + [];
    RunNothing(t, end);
    assert StealSteps(t, id) == [Tick(h)] + r6;
  }

  /** Whenever the lease is not safe, a run with prompt calls hands one job to two slots. */
  lemma UnsafeLeaseLosesExclusion(heartbeat: nat, leaseSecs: nat)
    returns (t: Timing, s: State, steps: seq<Step>)
    requires heartbeat > 0 && leaseSecs > 0 && !SafeLease(heartbeat, leaseSecs)
    ensures t.heartbeat == heartbeat && t.leaseSecs == leaseSecs && Prompt(t) && Initial(s)
    ensures !Exclusive(Run(t, s, steps))
  {
    t := Timing(heartbeat, leaseSecs, 0, heartbeat);
    var id := JobId("upload", "source-validation-v1");
    s := State(0, map[], map["a" := Idle, "b" := Idle]);
    steps := ClaimSteps(id) + StealSteps(t, id);
    var s5 := ClaimLateInTheSecond(t, s, id, StealSteps(t, id));
    var end := StealDuringRenewal(t, s5, id);
  }

  /**
   * Exclusion over every run with prompt calls holds for a heartbeat and stored lease exactly when
   * two heartbeats fit in the lease less one second.
   */
  lemma ExclusionExactly(heartbeat: nat, leaseSecs: nat)
    requires heartbeat > 0 && leaseSecs > 0
    ensures SafeLease(heartbeat, leaseSecs) <==>
            forall t: Timing, s: State, steps: seq<Step> ::
              t.heartbeat == heartbeat && t.leaseSecs == leaseSecs && Prompt(t) && Initial(s)
              ==> Exclusive(Run(t, s, steps))
  {
    if SafeLease(heartbeat, leaseSecs) {
      forall t: Timing, s: State, steps: seq<Step> |
        t.heartbeat == heartbeat && t.leaseSecs == leaseSecs && Prompt(t) && Initial(s)
        ensures Exclusive(Run(t, s, steps))
      {
        LeaseExclusion(t, s, steps);
      }
    } else {
      var t, s, steps := UnsafeLeaseLosesExclusion(heartbeat, leaseSecs);
    }
  }
}
