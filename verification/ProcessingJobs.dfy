/** Which queue reports an attempt still makes, and exactly which jobs are left without any. */
module ProcessingJobs {
  import opened Domain
  import JobQueue
  import opened Processing
  import opened ProcessingSafety
  import opened ProcessingTheorems

  /** A step taken by slot `w`. */
  predicate StepOf(step: Step, w: string) { !Outer(step) && step.w == w }

  predicate WithoutSlot(steps: seq<Step>, w: string) {
    forall i :: 0 <= i < |steps| ==> !StepOf(steps[i], w)
  }

  // ----- Only a slot's own steps move it -----

  predicate Local(step: Step) {
    step.Load? || step.Inspect? || step.Abandon? || step.Crash? || step.Claim? || step.Renew? || step.Conclude?
  }

  lemma LocalOwnPhase(c: Config, s: State, step: Step, w: string)
    requires Local(step) && step.w != w
    ensures PhaseOf(Apply(c, s, step), w) == PhaseOf(s, w)
  {
  }

  lemma WritingOwnPhase(c: Config, s: State, step: Step, w: string)
    requires step.Pin? || step.Prepare? || step.StoreMaster? || step.StoreThumbnail? || step.Publish?
    requires step.w != w
    ensures PhaseOf(Apply(c, s, step), w) == PhaseOf(s, w)
  {
  }

  lemma WorkersOwnPhase(c: Config, s: State, step: Step, w: string)
    requires !Outer(step) && step.w != w
    ensures PhaseOf(Apply(c, s, step), w) == PhaseOf(s, w)
  {
    if step.Reject? {
      RejectOwnPhase(c, s, step.w, w);
    } else if Local(step) {
      LocalOwnPhase(c, s, step, w);
    } else {
      WritingOwnPhase(c, s, step, w);
    }
  }

  lemma RejectOwnPhase(c: Config, s: State, v: string, w: string)
    requires v != w
    ensures PhaseOf(ApplyReject(c, s, v), w) == PhaseOf(s, w)
  {
  }

  lemma OwnPhase(c: Config, s: State, step: Step, w: string)
    requires !StepOf(step, w)
    ensures PhaseOf(Apply(c, s, step), w) == PhaseOf(s, w)
  {
    hide Apply;
    if Outer(step) { OuterPhaseEffect(c, s, step, w); } else { WorkersOwnPhase(c, s, step, w); }
  }

  lemma {:induction false} RunOwnPhase(c: Config, s: State, steps: seq<Step>, w: string)
    requires WithoutSlot(steps, w)
    ensures PhaseOf(Run(c, s, steps), w) == PhaseOf(s, w)
    decreases steps
  {
    hide Apply;
    if steps != [] {
      OwnPhase(c, s, steps[0], w);
      RunOwnPhase(c, Apply(c, s, steps[0]), steps[1..], w);
    }
  }

  // ----- A job reclaimed after the decision -----

  lemma LoadDecided(c: Config, s: State, w: string, u: string)
    requires PhaseOf(s, w).Claimed? && PhaseOf(s, w).u == u && u in s.rows
    requires s.rows[u].state == Ready || s.rows[u].state == UploadState.Rejected
    ensures var p := PhaseOf(Apply(c, s, Load(w)), w); p.Ended? && p.u == u && p.outcome.Succeeded?
  {
  }

  lemma RejectSuccess(c: Config, s: State, w: string)
    requires PhaseOf(s, w).Ended? && PhaseOf(s, w).outcome.Succeeded?
    ensures PhaseOf(Apply(c, s, Reject(w)), w) == Closing(PhaseOf(s, w).u, ReportComplete)
  {
  }

  lemma ConcludeSuccess(c: Config, s: State, w: string, u: string, retryAt: nat)
    requires PhaseOf(s, w) == Closing(u, ReportComplete)
    ensures var s' := Apply(c, s, Conclude(w, retryAt));
            && s' == s.(phases := s.phases[w := Idle], jobs := s'.jobs)
            && s'.jobs == (if JobQueue.OwnedBy(s.jobs, JobOf(u), w) then JobQueue.Finish(s.jobs, JobOf(u)) else s.jobs)
  {
  }

  /**
   * A slot that loads a decided row only reports, whatever the other slots do between its steps:
   * it completes the job exactly if it still holds the lease, and stores nothing.
   */
  lemma ReclaimedJobCompletes(c: Config, s: State, w: string, u: string, between: seq<Step>, after: seq<Step>,
                              retryAt: nat)
    requires Inv(c, s) && PhaseOf(s, w).Claimed? && PhaseOf(s, w).u == u && u in s.rows
    requires s.rows[u].state == Ready || s.rows[u].state == UploadState.Rejected
    requires WithoutSlot(between, w) && WithoutSlot(after, w)
    ensures var last := Run(c, s, [Load(w)] + between + [Reject(w)] + after);
            var s' := Apply(c, last, Conclude(w, retryAt));
            && s' == last.(phases := last.phases[w := Idle], jobs := s'.jobs)
            && s'.jobs == (if JobQueue.OwnedBy(last.jobs, JobOf(u), w) then JobQueue.Finish(last.jobs, JobOf(u))
                           else last.jobs)
            && PutsBy(s', w, u) == PutsBy(s, w, u)
  {
    hide Apply, Inv;
    var head := [Load(w)] + between;
    var s1 := Apply(c, s, Load(w));
    RunOne(c, s, Load(w));
    LoadDecided(c, s, w, u);
    var s2 := Run(c, s1, between);
    RunOwnPhase(c, s1, between, w);
    RunAppend(c, s, [Load(w)], between);
    var s3 := Apply(c, s2, Reject(w));
    RunOne(c, s2, Reject(w));
    RejectSuccess(c, s2, w);
    RunAppend(c, s, head, [Reject(w)]);
    RunOwnPhase(c, s3, after, w);
    RunAppend(c, s, head + [Reject(w)], after);
    ConcludeSuccess(c, Run(c, s3, after), w, u, retryAt);
    DecidedIsNotReprocessed(c, s, w, u, head + [Reject(w)] + after);
  }

  // ----- The lease owner's attempt number -----

  /** An attempt between its claim and its report. */
  predicate Counting(p: Phase) { !p.Idle? && !p.Closing? }

  /** The slot that owns a job's lease, while it works on that upload, carries the job's attempt count. */
  ghost predicate AttemptOk(s: State, w: string) {
    var p := PhaseOf(s, w);
    Counting(p) && JobQueue.OwnedBy(s.jobs, JobOf(p.u), w) ==> p.attempts == s.jobs[JobOf(p.u)].attempts
  }

  /** From `p` to `p'` an attempt goes on, ends or is given up; it never becomes another. */
  ghost predicate SameAttempt(p: Phase, p': Phase) {
    Counting(p') ==> Counting(p) && p'.u == p.u && p'.attempts == p.attempts
  }

  lemma LocalAttempt(c: Config, s: State, step: Step, w: string)
    requires step.Load? || step.Inspect? || step.Abandon? || step.Crash?
    ensures SameAttempt(PhaseOf(s, w), PhaseOf(Apply(c, s, step), w)) && Apply(c, s, step).jobs == s.jobs
  {
  }

  lemma PinAttempt(c: Config, s: State, step: Step, w: string)
    requires step.Pin? || step.Prepare?
    ensures SameAttempt(PhaseOf(s, w), PhaseOf(Apply(c, s, step), w)) && Apply(c, s, step).jobs == s.jobs
  {
  }

  lemma StoringAttempt(c: Config, s: State, step: Step, w: string)
    requires step.StoreMaster? || step.StoreThumbnail? || step.Publish?
    ensures SameAttempt(PhaseOf(s, w), PhaseOf(Apply(c, s, step), w)) && Apply(c, s, step).jobs == s.jobs
  {
  }

  lemma RejectAttempt(c: Config, s: State, v: string, w: string)
    ensures SameAttempt(PhaseOf(s, w), PhaseOf(ApplyReject(c, s, v), w)) && ApplyReject(c, s, v).jobs == s.jobs
  {
  }

  /** Outside the queue's own steps, jobs change only by being created. */
  lemma WorkKeepsAttempt(c: Config, s: State, step: Step, w: string)
    requires !Outer(step) && !step.Claim? && !step.Renew? && !step.Conclude?
    ensures SameAttempt(PhaseOf(s, w), PhaseOf(Apply(c, s, step), w)) && Apply(c, s, step).jobs == s.jobs
  {
    if step.Load? || step.Inspect? || step.Abandon? || step.Crash? {
      LocalAttempt(c, s, step, w);
    } else if step.Pin? || step.Prepare? {
      PinAttempt(c, s, step, w);
    } else if step.Reject? {
      RejectAttempt(c, s, step.w, w);
    } else {
      StoringAttempt(c, s, step, w);
    }
  }

  /** Reservation, confirmation, deletion, cleanup and inventory never change an existing job. */
  lemma OuterKeepsJobs(c: Config, s: State, step: Step)
    requires Outer(step)
    ensures forall id :: id in s.jobs ==> id in Apply(c, s, step).jobs && Apply(c, s, step).jobs[id] == s.jobs[id]
    ensures forall id :: id in Apply(c, s, step).jobs && id !in s.jobs ==> Apply(c, s, step).jobs[id].state.Queued?
  {
  }

  lemma QueueKeepsAttempt(c: Config, s: State, step: Step, w: string)
    requires AttemptOk(s, w) && (step.Claim? || step.Renew? || step.Conclude?)
    ensures AttemptOk(Apply(c, s, step), w)
  {
  }

  lemma StepKeepsAttempt(c: Config, s: State, step: Step, w: string)
    requires AttemptOk(s, w)
    ensures AttemptOk(Apply(c, s, step), w)
  {
    hide Apply;
    if Outer(step) {
      OuterKeepsJobs(c, s, step);
      OuterPhaseEffect(c, s, step, w);
    } else if step.Claim? || step.Renew? || step.Conclude? {
      QueueKeepsAttempt(c, s, step, w);
    } else {
      WorkKeepsAttempt(c, s, step, w);
    }
  }

  lemma {:induction false} RunKeepsAttempt(c: Config, s: State, steps: seq<Step>, w: string)
    requires AttemptOk(s, w)
    ensures AttemptOk(Run(c, s, steps), w)
    decreases steps
  {
    hide Apply, AttemptOk;
    if steps != [] {
      StepKeepsAttempt(c, s, steps[0], w);
      RunKeepsAttempt(c, Apply(c, s, steps[0]), steps[1..], w);
    }
  }

  // ----- Jobs of tombstoned uploads -----

  predicate Unfinished(s: State, u: string) { JobOf(u) in s.jobs && !s.jobs[JobOf(u)].state.Finished() }

  predicate Gone(s: State, u: string) { u in s.rows && s.rows[u].state == Deleted }

  /** The lease owner has an outcome that ends the job and only has to report it. */
  predicate ReportPending(c: Config, s: State, u: string)
    requires JobOf(u) in s.jobs
  {
    s.jobs[JobOf(u)].state.Leased? &&
    match PhaseOf(s, s.jobs[JobOf(u)].state.owner)
    case Ended(v, _, outcome) => v == u && outcome.Succeeded?
    case Closing(v, report) => v == u && (report.ReportComplete? || s.jobs[JobOf(u)].attempts >= c.maxAttempts)
    case _ => false
  }

  ghost predicate Stranded(c: Config, s: State, u: string) {
    Gone(s, u) && Unfinished(s, u) && !ReportPending(c, s, u)
  }

  lemma StrandedOuter(c: Config, s: State, step: Step, u: string)
    requires Stranded(c, s, u) && Gone(Apply(c, s, step), u) && Outer(step)
    ensures Stranded(c, Apply(c, s, step), u)
  {
    hide Apply;
    OuterKeepsJobs(c, s, step);
    if s.jobs[JobOf(u)].state.Leased? { OuterPhaseEffect(c, s, step, s.jobs[JobOf(u)].state.owner); }
  }

  lemma StrandedQueue(c: Config, s: State, step: Step, u: string)
    requires Stranded(c, s, u) && (step.Claim? || step.Renew? || step.Conclude?)
    ensures Stranded(c, Apply(c, s, step), u)
  {
  }

  /** On a deleted row no attempt reaches a successful outcome. */
  lemma NoSuccess(c: Config, s: State, step: Step, u: string, w: string)
    requires Gone(s, u) && !Outer(step) && !step.Claim? && !step.Renew? && !step.Conclude? && !step.Reject?
    ensures var p, p' := PhaseOf(s, w), PhaseOf(Apply(c, s, step), w);
            && (p'.Ended? && p'.u == u && p'.outcome.Succeeded? ==> p' == p)
            && (p'.Closing? ==> p' == p)
  {
    if step.Publish? {
      PublishFails(c, s, step.w, step.answered, u, w);
    } else if step.StoreMaster? || step.StoreThumbnail? {
      StoringNoSuccess(c, s, step, u, w);
    }
  }

  lemma StoringNoSuccess(c: Config, s: State, step: Step, u: string, w: string)
    requires step.StoreMaster? || step.StoreThumbnail?
    ensures var p, p' := PhaseOf(s, w), PhaseOf(Apply(c, s, step), w);
            && (p'.Ended? && p'.u == u && p'.outcome.Succeeded? ==> p' == p)
            && (p'.Closing? ==> p' == p)
  {
  }

  lemma PublishFails(c: Config, s: State, v: string, answered: bool, u: string, w: string)
    requires Gone(s, u)
    ensures var p, p' := PhaseOf(s, w), PhaseOf(ApplyPublish(s, v, answered), w);
            && (p'.Ended? && p'.u == u && p'.outcome.Succeeded? ==> p' == p)
            && (p'.Closing? ==> p' == p)
  {
  }

  lemma StrandedWork(c: Config, s: State, step: Step, u: string)
    requires Stranded(c, s, u) && Gone(Apply(c, s, step), u)
    requires !Outer(step) && !step.Claim? && !step.Renew? && !step.Conclude? && !step.Reject?
    ensures Stranded(c, Apply(c, s, step), u)
  {
    hide Apply;
    WorkKeepsAttempt(c, s, step, "");
    if s.jobs[JobOf(u)].state.Leased? { NoSuccess(c, s, step, u, s.jobs[JobOf(u)].state.owner); }
  }

  /** A deleted row cannot be marked rejected. */
  lemma MarkOnGone(s: State, w: string, target: string, u: string, code: string, report: Report)
    requires Gone(s, u)
    ensures var s' := MarkRejected(s, w, target, code, report);
            && Gone(s', u) && s'.jobs == s.jobs && w in s'.phases && s'.phases == s.phases[w := s'.phases[w]]
            && (s'.phases[w] == Idle || (target != u && s'.phases[w] == Closing(target, report)))
  {
  }

  /** So on a deleted row attempts at the limit end without a report. */
  lemma RejectOnGone(c: Config, s: State, w: string, u: string)
    requires Gone(s, u)
    ensures var s', p, p' := Apply(c, s, Reject(w)), PhaseOf(s, w), PhaseOf(Apply(c, s, Reject(w)), w);
            && Gone(s', u) && s'.jobs == s.jobs && (s'.phases == s.phases[w := p'] || s' == s)
            && (|| p' == p || p'.Idle?
                || (&& p.Ended? && p'.Closing? && p'.u == p.u
                    && (p.u == u && !p.outcome.Succeeded? ==> p'.report.ReportFail? && p.attempts < c.maxAttempts)))
  {
    hide MarkRejected;
    var p := PhaseOf(s, w);
    if p.Ended? && p.outcome.Permanent? {
      MarkOnGone(s, w, p.u, u, p.outcome.code, ReportComplete);
    } else if p.Ended? && p.outcome.Transient? {
      MarkOnGone(s, w, p.u, u, p.outcome.code, ReportFail);
    }
  }

  lemma StrandedReject(c: Config, s: State, w: string, u: string)
    requires Stranded(c, s, u) && AttemptOk(s, w)
    ensures Stranded(c, Apply(c, s, Reject(w)), u)
  {
    hide Apply;
    RejectOnGone(c, s, w, u);
  }

  lemma StrandedStep(c: Config, s: State, step: Step, u: string)
    requires Inv(c, s) && Stranded(c, s, u) && (!Outer(step) ==> AttemptOk(s, step.w))
    ensures Stranded(c, Apply(c, s, step), u)
  {
    hide Apply, Inv, AttemptOk, ReportPending;
    StepKeeps(c, s, step);
    if Outer(step) {
      StrandedOuter(c, s, step, u);
    } else if step.Claim? || step.Renew? || step.Conclude? {
      StrandedQueue(c, s, step, u);
    } else if step.Reject? {
      StrandedReject(c, s, step.w, u);
    } else {
      StrandedWork(c, s, step, u);
    }
  }

  lemma {:induction false} StrandedForever(c: Config, s: State, steps: seq<Step>, u: string)
    requires Inv(c, s) && Stranded(c, s, u) && forall w :: AttemptOk(s, w)
    ensures Stranded(c, Run(c, s, steps), u)
    decreases steps
  {
    hide Apply, Inv, Stranded, AttemptOk;
    if steps != [] {
      var step := steps[0];
      StepKeeps(c, s, step);
      forall w
        ensures AttemptOk(Apply(c, s, step), w)
      {
        StepKeepsAttempt(c, s, step, w);
      }
      StrandedStep(c, s, step, u);
      StrandedForever(c, Apply(c, s, step), steps[1..], u);
    }
  }

  lemma PendingReportFinishes(c: Config, s: State, u: string) returns (steps: seq<Step>)
    requires Unfinished(s, u) && ReportPending(c, s, u)
    ensures JobQueue.HasFinished(Run(c, s, steps).jobs, JobOf(u))
  {
    var w := s.jobs[JobOf(u)].state.owner;
    if PhaseOf(s, w).Ended? {
      steps := [Reject(w)] + [Conclude(w, 0)];
      RunCons(c, s, Reject(w), [Conclude(w, 0)]);
      RunOne(c, Apply(c, s, Reject(w)), Conclude(w, 0));
    } else {
      steps := [Conclude(w, 0)];
      RunOne(c, s, Conclude(w, 0));
    }
  }

  ghost predicate CanFinish(c: Config, s: State, u: string) {
    exists steps :: JobQueue.HasFinished(Run(c, s, steps).jobs, JobOf(u))
  }

  /**
   * The job of a tombstoned upload can still be completed or dead-lettered exactly when its lease
   * owner has reached a final outcome and only the report is missing. Any other such job is
   * reclaimed for ever: at the attempt limit the row cannot be rejected, and no report is made.
   */
  lemma {:induction false} TombstonedJobFinishesExactly(c: Config, steps: seq<Step>, u: string)
    requires Gone(Run(c, INITIAL, steps), u) && Unfinished(Run(c, INITIAL, steps), u)
    ensures var s := Run(c, INITIAL, steps); CanFinish(c, s, u) <==> ReportPending(c, s, u)
  {
    hide Apply;
    var s := Run(c, INITIAL, steps);
    InitialInv(c);
    RunKeeps(c, INITIAL, steps);
    forall w
      ensures AttemptOk(s, w)
    {
      RunKeepsAttempt(c, INITIAL, steps, w);
    }
    if ReportPending(c, s, u) {
      var later := PendingReportFinishes(c, s, u);
    } else {
      forall later
        ensures !JobQueue.HasFinished(Run(c, s, later).jobs, JobOf(u))
      {
        StrandedForever(c, s, later, u);
      }
    }
  }
}
