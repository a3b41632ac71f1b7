/** How attempts that do not publish end, and the size and kind limits on everything that is stored. */
module ProcessingAttempts {
  import opened Basics
  import opened Domain
  import opened ObjectKeys
  import JobQueue
  import opened Processing
  import opened ProcessingSafety
  import opened ProcessingTheorems

  // ----- Limits -----

  /** The reservation's size against the limit of its kind. */
  predicate Within(c: Config, r: Row) {
    match r.kind
    case Image => r.size <= c.maxImageBytes
    case Video => r.size <= c.maxVideoBytes
  }

  /** Video uploads hold a video container and image uploads do not. */
  predicate Fits(content: Content, r: Row) {
    r.kind == Video <==> content.format in {Mp4, QuickTime, Webm}
  }

  ghost predicate PutWithin(c: Config, s: State, p: PutRecord) {
    && p.key.upload in s.rows && Within(c, s.rows[p.key.upload])
    && (if s.rows[p.key.upload].kind == Video && p.key.file != ThumbnailJpg then p.len == s.rows[p.key.upload].size
        else 0 < p.len <= c.maxImageBytes)
  }

  ghost predicate PhaseWithin(c: Config, s: State, p: Phase) {
    p.Validating() ==>
      && p.u in s.rows && Within(c, s.rows[p.u])
      && (!p.Loaded? ==> Fits(p.content, s.rows[p.u]))
  }

  ghost predicate LimitInv(c: Config, s: State) {
    && (forall p :: p in s.puts ==> PutWithin(c, s, p))
    && (forall w :: w in s.phases ==> PhaseWithin(c, s, s.phases[w]))
    && (forall u :: u in s.rows && s.rows[u].pinned.Some? ==> Fits(s.rows[u].pinned.value, s.rows[u]))
  }

  /** The step touched at most slot `w` and the record of the digest. */
  lemma LimitFrame(c: Config, s: State, s': State, w: string)
    requires LimitInv(c, s) && Grown(s, s')
    requires forall v :: v in s'.phases && v != w ==> v in s.phases && s'.phases[v] == s.phases[v]
    requires w in s'.phases ==> PhaseWithin(c, s', s'.phases[w])
    requires forall p :: p in s'.puts - s.puts ==> PutWithin(c, s', p)
    requires forall u :: u in s'.rows && s'.rows[u].pinned.Some? ==>
               (u in s.rows && s.rows[u].pinned == s'.rows[u].pinned) || Fits(s'.rows[u].pinned.value, s'.rows[u])
    ensures LimitInv(c, s')
  {
    forall p | p in s'.puts
      ensures PutWithin(c, s', p)
    {
      if p in s.puts { assert PutWithin(c, s, p) && Evolves(s.rows[p.key.upload], s'.rows[p.key.upload]); }
    }
    forall v | v in s'.phases
      ensures PhaseWithin(c, s', s'.phases[v])
    {
      if v != w {
        assert PhaseWithin(c, s, s.phases[v]);
        if s.phases[v].Validating() { assert Evolves(s.rows[s.phases[v].u], s'.rows[s.phases[v].u]); }
      }
    }
    forall u | u in s'.rows && s'.rows[u].pinned.Some?
      ensures Fits(s'.rows[u].pinned.value, s'.rows[u])
    {
      if u in s.rows { assert Evolves(s.rows[u], s'.rows[u]); }
    }
  }

  lemma PhaseFacts(c: Config, s: State, w: string)
    requires Inv(c, s) && LimitInv(c, s)
    ensures PhaseWithin(c, s, PhaseOf(s, w))
    ensures var p := PhaseOf(s, w);
            p.Loaded? || p.Inspected? ==>
              p.u in s.rows && p.source.kind == s.rows[p.u].kind && p.source.pinned in {None, s.rows[p.u].pinned}
  {
    if w in s.phases { assert PhaseOk(c, s, s.phases[w]); }
  }

  lemma OuterLimits(c: Config, s: State, step: Step)
    requires Inv(c, s) && LimitInv(c, s) && Outer(step)
    ensures LimitInv(c, Apply(c, s, step))
  {
    StepKeeps(c, s, step);
    OuterRows(c, s, step);
    LimitFrame(c, s, Apply(c, s, step), "");
  }

  lemma OuterRows(c: Config, s: State, step: Step)
    requires Outer(step)
    ensures var s' := Apply(c, s, step);
            && s'.phases == s.phases && s'.puts == s.puts
            && forall u :: u in s'.rows && s'.rows[u].pinned.Some? ==>
                 u in s.rows && s.rows[u].pinned == s'.rows[u].pinned
  {
  }

  lemma PinEffect(s: State, w: string, answered: bool)
    ensures var s', p := ApplyPin(s, w, answered), PhaseOf(s, w);
            || s' == s
            || (&& p.Inspected? && p.u in s.rows && s'.puts == s.puts
                && w in s'.phases && s'.phases == s.phases[w := s'.phases[w]]
                && (!s'.phases[w].Validating() || s'.phases[w] == Pinned(p.u, p.attempts, p.content))
                && (|| s'.rows == s.rows
                    || s'.rows == s.rows[p.u := s.rows[p.u].(state := UploadState.Processing, errorCode := None,
                                                             pinned := Some(p.content))]))
  {
  }

  lemma PinLimits(c: Config, s: State, w: string, answered: bool)
    requires Inv(c, s) && LimitInv(c, s)
    ensures LimitInv(c, ApplyPin(s, w, answered))
  {
    hide Inv, LimitInv, Grown, PhaseOk, ApplyPin;
    StepKeeps(c, s, Pin(w, answered));
    PinEffect(s, w, answered);
    PhaseFacts(c, s, w);
    LimitFrame(c, s, ApplyPin(s, w, answered), w);
  }

  lemma LoadLimits(c: Config, s: State, step: Step)
    requires Inv(c, s) && LimitInv(c, s) && (step.Load? || step.Inspect? || step.Prepare?)
    ensures LimitInv(c, Apply(c, s, step))
  {
    hide Inv, LimitInv, Grown, PhaseOk;
    StepKeeps(c, s, step);
    PhaseFacts(c, s, step.w);
    LimitFrame(c, s, Apply(c, s, step), step.w);
  }

  lemma MasterFiles(format: Format)
    ensures format.MasterFile() != ThumbnailJpg && (format.IsVideo() <==> format in {Mp4, QuickTime, Webm})
  {
  }

  lemma StoreMasterLimits(c: Config, s: State, w: string, len: nat, sha: string, answered: bool)
    requires Inv(c, s) && LimitInv(c, s)
    ensures LimitInv(c, ApplyStoreMaster(c, s, w, len, sha, answered))
  {
    hide Inv, LimitInv, Grown, PhaseOk;
    StepKeeps(c, s, StoreMaster(w, len, sha, answered));
    PhaseFacts(c, s, w);
    var p := PhaseOf(s, w);
    if p.Prepared? { MasterFiles(p.content.format); }
    LimitFrame(c, s, ApplyStoreMaster(c, s, w, len, sha, answered), w);
  }

  lemma StoreThumbnailLimits(c: Config, s: State, w: string, len: nat, sha: string, answered: bool)
    requires Inv(c, s) && LimitInv(c, s)
    ensures LimitInv(c, ApplyStoreThumbnail(c, s, w, len, sha, answered))
  {
    hide Inv, LimitInv, Grown, PhaseOk;
    StepKeeps(c, s, StoreThumbnail(w, len, sha, answered));
    PhaseFacts(c, s, w);
    LimitFrame(c, s, ApplyStoreThumbnail(c, s, w, len, sha, answered), w);
  }

  /** Slot `w` stops validating, nothing is stored and no digest recorded. */
  ghost predicate Stopped(s: State, s': State, w: string) {
    && w in s'.phases && s'.phases == s.phases[w := s'.phases[w]] && s'.puts == s.puts
    && !s'.phases[w].Validating()
    && forall u :: u in s'.rows ==> u in s.rows && s'.rows[u].pinned == s.rows[u].pinned
  }

  lemma MarkRejectedEffect(s: State, w: string, u: string, code: string, report: Report)
    ensures Stopped(s, MarkRejected(s, w, u, code, report), w)
  {
  }

  lemma PublishEffect(s: State, w: string, answered: bool)
    ensures ApplyPublish(s, w, answered) == s || Stopped(s, ApplyPublish(s, w, answered), w)
  {
    hide Merge;
  }

  lemma AbandonEffect(s: State, w: string, outcome: Outcome)
    ensures ApplyAbandon(s, w, outcome) == s || Stopped(s, ApplyAbandon(s, w, outcome), w)
  {
  }

  lemma ClosingLimits(c: Config, s: State, step: Step)
    requires Inv(c, s) && LimitInv(c, s) && (step.Publish? || step.Abandon?)
    ensures LimitInv(c, Apply(c, s, step))
  {
    hide Inv, LimitInv, Grown, PhaseOk, ApplyPublish, ApplyAbandon;
    StepKeeps(c, s, step);
    PhaseFacts(c, s, step.w);
    if step.Publish? {
      PublishEffect(s, step.w, step.answered);
    } else {
      AbandonEffect(s, step.w, step.outcome);
    }
    LimitFrame(c, s, Apply(c, s, step), step.w);
  }

  lemma RejectEffect(c: Config, s: State, w: string)
    ensures ApplyReject(c, s, w) == s || Stopped(s, ApplyReject(c, s, w), w)
  {
    hide MarkRejected;
    var p := PhaseOf(s, w);
    if p.Ended? && p.outcome.Permanent? {
      MarkRejectedEffect(s, w, p.u, p.outcome.code, ReportComplete);
    } else if p.Ended? && p.outcome.Transient? {
      MarkRejectedEffect(s, w, p.u, p.outcome.code, ReportFail);
    }
  }

  lemma RejectLimits(c: Config, s: State, w: string)
    requires Inv(c, s) && LimitInv(c, s)
    ensures LimitInv(c, Apply(c, s, Reject(w)))
  {
    hide Inv, LimitInv, Grown, PhaseOk, ApplyReject;
    StepKeeps(c, s, Reject(w));
    RejectEffect(c, s, w);
    PhaseFacts(c, s, w);
    LimitFrame(c, s, Apply(c, s, Reject(w)), w);
  }

  lemma QueueLimits(c: Config, s: State, step: Step)
    requires Inv(c, s) && LimitInv(c, s) && (step.Claim? || step.Renew? || step.Conclude? || step.Crash?)
    ensures LimitInv(c, Apply(c, s, step))
  {
    hide Inv, LimitInv, Grown, PhaseOk;
    StepKeeps(c, s, step);
    PhaseFacts(c, s, step.w);
    LimitFrame(c, s, Apply(c, s, step), step.w);
  }

  lemma StepLimits(c: Config, s: State, step: Step)
    requires Inv(c, s) && LimitInv(c, s)
    ensures LimitInv(c, Apply(c, s, step))
  {
    hide Inv, LimitInv, ApplyStoreMaster, ApplyStoreThumbnail, ApplyPin;
    match step
    case Pin(w, answered) => PinLimits(c, s, w, answered);
    case StoreMaster(w, len, sha, answered) => StoreMasterLimits(c, s, w, len, sha, answered);
    case StoreThumbnail(w, len, sha, answered) => StoreThumbnailLimits(c, s, w, len, sha, answered);
    case Reject(w) => RejectLimits(c, s, w);
    case _ =>
      if Outer(step) {
        OuterLimits(c, s, step);
      } else if step.Load? || step.Inspect? || step.Prepare? {
        LoadLimits(c, s, step);
      } else if step.Publish? || step.Abandon? {
        ClosingLimits(c, s, step);
      } else {
        QueueLimits(c, s, step);
      }
  }

  lemma {:induction false} RunLimits(c: Config, s: State, steps: seq<Step>)
    requires Inv(c, s) && LimitInv(c, s)
    ensures LimitInv(c, Run(c, s, steps))
    decreases steps
  {
    if steps != [] {
      StepKeeps(c, s, steps[0]);
      StepLimits(c, s, steps[0]);
      RunLimits(c, Apply(c, s, steps[0]), steps[1..]);
    }
  }

  /**
   * Nothing is ever stored for an upload over the limit of its kind or whose bytes are of the other
   * kind. Whatever is stored for the others is a generated file of at most the image limit, or a
   * video master at exactly the reserved size.
   */
  lemma {:induction false} StoredWithinLimits(c: Config, steps: seq<Step>, p: PutRecord)
    requires p in Run(c, INITIAL, steps).puts
    ensures var s := Run(c, INITIAL, steps);
            && p.key.upload in s.rows && s.rows[p.key.upload].pinned.Some?
            && var r, format := s.rows[p.key.upload], s.rows[p.key.upload].pinned.value.format;
            && (r.kind == Video <==> format in {Mp4, QuickTime, Webm})
            && (r.kind == Image ==> r.size <= c.maxImageBytes) && (r.kind == Video ==> r.size <= c.maxVideoBytes)
            && (if r.kind == Video && p.key.file != ThumbnailJpg then p.len == r.size else 0 < p.len <= c.maxImageBytes)
  {
    InitialInv(c);
    RunLimits(c, INITIAL, steps);
    DigestPin(c, steps, p);
    assert PutWithin(c, Run(c, INITIAL, steps), p);
  }

  // ----- Attempts that fail -----

  /** Only slot `w`, the row and the job of `u` have changed, and nothing was stored. */
  ghost predicate OnlyReported(s: State, s': State, w: string, u: string) {
    && PhaseOf(s', w).Idle? && s'.phases - {w} == s.phases - {w} && s'.store == s.store && s'.puts == s.puts
    && u in s.rows && u in s'.rows && s'.rows - {u} == s.rows - {u}
    && JobOf(u) in s.jobs && JobOf(u) in s'.jobs && s'.jobs - {JobOf(u)} == s.jobs - {JobOf(u)}
  }

  /** The job waits for `retryAt` with its attempt counted. */
  ghost predicate Retried(s: State, s': State, u: string, retryAt: nat)
    requires JobOf(u) in s.jobs && JobOf(u) in s'.jobs
  {
    && s'.jobs[JobOf(u)].attempts == s.jobs[JobOf(u)].attempts
    && forall t: nat :: JobQueue.Claimable(s'.jobs[JobOf(u)], t) <==> JobQueue.Stamp(retryAt) <= JobQueue.Stamp(t)
  }

  /** The row is rejected for `code`. */
  ghost predicate RejectedFor(s: State, s': State, u: string, code: string)
    requires u in s.rows && u in s'.rows
  {
    s'.rows[u] == s.rows[u].(state := UploadState.Rejected, errorCode := Some(code))
  }

  /** What a failed attempt of the lease owner leaves behind, by the class of its failure. */
  ghost predicate Reported(c: Config, s: State, s': State, u: string, outcome: Outcome, retryAt: nat)
    requires u in s.rows && u in s'.rows && JobOf(u) in s.jobs && JobOf(u) in s'.jobs
  {
    match outcome
    case Permanent(code) => RejectedFor(s, s', u, code) && s'.jobs[JobOf(u)].state == JobQueue.Completed
    case Transient(code) =>
      if s.jobs[JobOf(u)].attempts < c.maxAttempts then s'.rows[u] == s.rows[u] && Retried(s, s', u, retryAt)
      else RejectedFor(s, s', u, code) && s'.jobs[JobOf(u)].state == JobQueue.DeadLetter
    case _ => s'.rows[u] == s.rows[u] && s'.jobs[JobOf(u)] == s.jobs[JobOf(u)]
  }

  predicate Undecided(r: Row) { r.state == Quarantined || r.state == UploadState.Processing }

  /** Slot `w` is at work on `u` under a lease it still owns. */
  ghost predicate Working(s: State, w: string, u: string) {
    && JobQueue.OwnedBy(s.jobs, JobOf(u), w) && u in s.rows
    && !PhaseOf(s, w).Idle? && !PhaseOf(s, w).Closing? && PhaseOf(s, w).u == u
    && PhaseOf(s, w).attempts == s.jobs[JobOf(u)].attempts
  }

  lemma EndedReports(c: Config, s: State, w: string, u: string, retryAt: nat)
    requires Working(s, w, u) && PhaseOf(s, w).Ended? && !PhaseOf(s, w).outcome.Succeeded? && Undecided(s.rows[u])
    ensures var s' := Run(c, s, [Reject(w)] + [Conclude(w, retryAt)]);
            OnlyReported(s, s', w, u) && Reported(c, s, s', u, PhaseOf(s, w).outcome, retryAt)
  {
    var s1 := Apply(c, s, Reject(w));
    RunCons(c, s, Reject(w), [Conclude(w, retryAt)]);
    RunOne(c, s1, Conclude(w, retryAt));
    RejectReports(c, s, w, u);
    ConcludeReports(c, s, s1, w, u, retryAt);
  }

  lemma RejectReports(c: Config, s: State, w: string, u: string)
    requires Working(s, w, u) && PhaseOf(s, w).Ended? && Undecided(s.rows[u])
    ensures var s1, outcome, last := Apply(c, s, Reject(w)), PhaseOf(s, w).outcome,
                                     s.jobs[JobOf(u)].attempts >= c.maxAttempts;
            && s1.jobs == s.jobs && s1.store == s.store && s1.puts == s.puts && s1.phases - {w} == s.phases - {w}
            && u in s1.rows && s1.rows - {u} == s.rows - {u}
            && (if outcome.Permanent? || (outcome.Transient? && last) then RejectedFor(s, s1, u, outcome.code)
                else s1.rows[u] == s.rows[u])
            && PhaseOf(s1, w) == (match outcome
                                  case Succeeded => Closing(u, ReportComplete)
                                  case Permanent(_) => Closing(u, ReportComplete)
                                  case Transient(_) => Closing(u, ReportFail)
                                  case Operational(_) => Idle)
  {
  }

  lemma ConcludeReports(c: Config, s: State, s1: State, w: string, u: string, retryAt: nat)
    requires JobQueue.OwnedBy(s.jobs, JobOf(u), w) && s1.jobs == s.jobs
    requires PhaseOf(s1, w).Idle? || (PhaseOf(s1, w).Closing? && PhaseOf(s1, w).u == u)
    ensures var s', p, id := Apply(c, s1, Conclude(w, retryAt)), PhaseOf(s1, w), JobOf(u);
            && PhaseOf(s', w).Idle? && s' == s1.(phases := s'.phases, jobs := s'.jobs)
            && s'.phases - {w} == s1.phases - {w} && id in s'.jobs && s'.jobs - {id} == s.jobs - {id}
            && (p.Idle? ==> s'.jobs == s.jobs)
            && (p.Closing? && p.report == ReportComplete ==> s'.jobs[id].state == JobQueue.Completed)
            && (p.Closing? && p.report == ReportFail ==>
                  if s.jobs[id].attempts < c.maxAttempts then Retried(s, s', u, retryAt)
                  else s'.jobs[id].state == JobQueue.DeadLetter)
  {
  }

  /**
   * Whatever fails in an attempt of the lease owner on an undecided upload: a permanent failure
   * rejects the upload and completes the job; a transient one waits for the retry time with its
   * attempt counted, or at the limit rejects the upload and dead-letters the job; an operational one
   * reports nothing and leaves the lease to expire. Nothing else changes.
   */
  lemma FailedAttemptReports(c: Config, s: State, w: string, u: string, outcome: Outcome, retryAt: nat)
    requires Working(s, w, u) && !PhaseOf(s, w).Ended? && Undecided(s.rows[u]) && !outcome.Succeeded?
    ensures var s' := Run(c, s, [Abandon(w, outcome)] + ([Reject(w)] + [Conclude(w, retryAt)]));
            OnlyReported(s, s', w, u) && Reported(c, s, s', u, outcome, retryAt)
  {
    var s1 := Apply(c, s, Abandon(w, outcome));
    RunCons(c, s, Abandon(w, outcome), [Reject(w)] + [Conclude(w, retryAt)]);
    assert s1 == Move(s, w, Ended(u, PhaseOf(s, w).attempts, outcome));
    EndedReports(c, s1, w, u, retryAt);
  }

  lemma ClaimEffect(c: Config, s: State, w: string, u: string, now: nat, leaseSecs: nat)
    requires PhaseOf(s, w).Idle? && JobOf(u) in s.jobs && JobQueue.Claimable(s.jobs[JobOf(u)], now)
    ensures var s1, n := Apply(c, s, Claim(w, u, now, leaseSecs)), s.jobs[JobOf(u)].attempts + 1;
            && s1 == s.(phases := s.phases[w := Claimed(u, n)], jobs := s1.jobs)
            && s1.jobs - {JobOf(u)} == s.jobs - {JobOf(u)}
            && JobQueue.OwnedBy(s1.jobs, JobOf(u), w) && s1.jobs[JobOf(u)].attempts == n
  {
  }

  lemma LoadEffect(c: Config, s: State, w: string)
    requires PhaseOf(s, w).Claimed? && PhaseOf(s, w).u in s.rows
    ensures var u := PhaseOf(s, w).u;
            var s', row := Apply(c, s, Load(w)), s.rows[u];
            && s' == s.(phases := s'.phases) && s'.phases - {w} == s.phases - {w}
            && var p := PhaseOf(s', w);
            && !p.Idle? && !p.Closing? && p.u == u && p.attempts == PhaseOf(s, w).attempts
            && if row.state == Ready || row.state == UploadState.Rejected then p.Ended? && p.outcome == Succeeded
               else if !Undecided(row) then p.Ended? && p.outcome == Transient("SOURCE_STATE_CONFLICT")
               else if !Within(c, row) then p.Ended? && p.outcome == Permanent("MEDIA_SIZE_EXCEEDED")
               else p.Loaded? && p.source == row
  {
  }

  /** A claim of an idle slot, and what its load then finds. */
  lemma ClaimedLoads(c: Config, s: State, w: string, u: string, now: nat, leaseSecs: nat, rest: seq<Step>)
    returns (s2: State)
    requires PhaseOf(s, w).Idle? && JobOf(u) in s.jobs && JobQueue.Claimable(s.jobs[JobOf(u)], now) && u in s.rows
    ensures Run(c, s, [Claim(w, u, now, leaseSecs)] + ([Load(w)] + rest)) == Run(c, s2, rest)
    ensures Working(s2, w, u) && s2 == s.(phases := s2.phases, jobs := s2.jobs) && s2.phases - {w} == s.phases - {w}
    ensures s2.jobs - {JobOf(u)} == s.jobs - {JobOf(u)}
    ensures s2.jobs[JobOf(u)].attempts == s.jobs[JobOf(u)].attempts + 1
    ensures var p, row := PhaseOf(s2, w), s.rows[u];
            if row.state == Ready || row.state == UploadState.Rejected then p.Ended? && p.outcome == Succeeded
            else if !Undecided(row) then p.Ended? && p.outcome == Transient("SOURCE_STATE_CONFLICT")
            else if !Within(c, row) then p.Ended? && p.outcome == Permanent("MEDIA_SIZE_EXCEEDED")
            else p.Loaded? && p.source == row
  {
    hide Run, Apply, Within, Undecided, JobQueue.Claimable;
    var s1 := Apply(c, s, Claim(w, u, now, leaseSecs));
    s2 := Apply(c, s1, Load(w));
    RunCons(c, s, Claim(w, u, now, leaseSecs), [Load(w)] + rest);
    RunCons(c, s1, Load(w), rest);
    ClaimEffect(c, s, w, u, now, leaseSecs);
    LoadEffect(c, s1, w);
  }

  function ReportSteps(w: string, retryAt: nat): seq<Step> { [Reject(w)] + [Conclude(w, retryAt)] }

  lemma ReportStepsAre(w: string, retryAt: nat)
    ensures ReportSteps(w, retryAt) == [Reject(w)] + [Conclude(w, retryAt)]
  {
  }

  /** An upload over the limit of its kind is rejected by the first attempt, which stores nothing. */
  lemma OversizedIsRejected(c: Config, s: State, w: string, u: string, now: nat, leaseSecs: nat, retryAt: nat)
    requires PhaseOf(s, w).Idle? && JobOf(u) in s.jobs && JobQueue.Claimable(s.jobs[JobOf(u)], now)
    requires u in s.rows && Undecided(s.rows[u])
    requires s.rows[u].size > (if s.rows[u].kind == Video then c.maxVideoBytes else c.maxImageBytes)
    ensures var s' := Run(c, s, [Claim(w, u, now, leaseSecs)] + ([Load(w)] + ReportSteps(w, retryAt)));
            OnlyReported(s, s', w, u) && RejectedFor(s, s', u, "MEDIA_SIZE_EXCEEDED")
            && s'.jobs[JobOf(u)].state == JobQueue.Completed
  {
    var s2 := ClaimedLoads(c, s, w, u, now, leaseSecs, ReportSteps(w, retryAt));
    EndedReports(c, s2, w, u, retryAt);
  }

  /** A loaded attempt whose bytes differ from the recorded ones ends with a permanent failure. */
  lemma ChangedBytesEnd(c: Config, s: State, w: string, content: Content, answered: bool, rest: seq<Step>)
    returns (s': State)
    requires PhaseOf(s, w).Loaded? && PhaseOf(s, w).u in s.rows && PhaseOf(s, w).source == s.rows[PhaseOf(s, w).u]
    requires var row := PhaseOf(s, w).source;
             row.state == UploadState.Processing && row.pinned != Some(content) && Fits(content, row)
    requires LowerSha256(content.digest)
    ensures Run(c, s, [Inspect(w, content)] + ([Pin(w, answered)] + rest)) == Run(c, s', rest)
    ensures var p := PhaseOf(s, w);
            && s' == s.(phases := s'.phases) && s'.phases - {w} == s.phases - {w}
            && PhaseOf(s', w) == Ended(p.u, p.attempts, Permanent("SOURCE_DIGEST_CHANGED"))
  {
    var p := PhaseOf(s, w);
    RunCons(c, s, Inspect(w, content), [Pin(w, answered)] + rest);
    var s1 := Apply(c, s, Inspect(w, content));
    assert s1 == Move(s, w, Inspected(p.u, p.attempts, p.source, content));
    RunCons(c, s1, Pin(w, answered), rest);
    s' := Apply(c, s1, Pin(w, answered));
    assert s' == Move(s1, w, Ended(p.u, p.attempts, Permanent("SOURCE_DIGEST_CHANGED")));
  }

  /** Later bytes that differ from the recorded ones are never published: the upload is rejected. */
  lemma ChangedBytesAreRejected(c: Config, s: State, w: string, u: string, content: Content, now: nat, leaseSecs: nat,
                                answered: bool, retryAt: nat)
    requires PhaseOf(s, w).Idle? && JobOf(u) in s.jobs && JobQueue.Claimable(s.jobs[JobOf(u)], now)
    requires u in s.rows && s.rows[u].state == UploadState.Processing && s.rows[u].pinned != Some(content)
    requires Within(c, s.rows[u]) && Fits(content, s.rows[u]) && LowerSha256(content.digest)
    ensures var inspect := [Inspect(w, content)] + ([Pin(w, answered)] + ReportSteps(w, retryAt));
            var s' := Run(c, s, [Claim(w, u, now, leaseSecs)] + ([Load(w)] + inspect));
            OnlyReported(s, s', w, u) && RejectedFor(s, s', u, "SOURCE_DIGEST_CHANGED")
            && s'.jobs[JobOf(u)].state == JobQueue.Completed
  {
    hide Run, Apply, ReportSteps;
    var report := ReportSteps(w, retryAt);
    var s2 := ClaimedLoads(c, s, w, u, now, leaseSecs, [Inspect(w, content)] + ([Pin(w, answered)] + report));
    var s3 := ChangedBytesEnd(c, s2, w, content, answered, report);
    ReportStepsAre(w, retryAt);
    EndedReports(c, s3, w, u, retryAt);
  }

  /** An attempt on an upload that is not to be validated is retried later, without effect on its row. */
  lemma ConflictIsRetried(c: Config, s: State, w: string, u: string, now: nat, leaseSecs: nat, retryAt: nat)
    requires PhaseOf(s, w).Idle? && JobOf(u) in s.jobs && JobQueue.Claimable(s.jobs[JobOf(u)], now)
    requires u in s.rows && s.rows[u].state in {Created, Uploaded, Failed, Deleted}
    requires s.jobs[JobOf(u)].attempts + 1 < c.maxAttempts
    ensures var s' := Run(c, s, [Claim(w, u, now, leaseSecs)] + ([Load(w)] + ReportSteps(w, retryAt)));
            OnlyReported(s, s', w, u) && s'.rows == s.rows
            && s'.jobs[JobOf(u)].attempts == s.jobs[JobOf(u)].attempts + 1
            && forall t: nat ::
                 JobQueue.Claimable(s'.jobs[JobOf(u)], t) <==> JobQueue.Stamp(retryAt) <= JobQueue.Stamp(t)
  {
    var s2 := ClaimedLoads(c, s, w, u, now, leaseSecs, ReportSteps(w, retryAt));
    RunCons(c, s2, Reject(w), [Conclude(w, retryAt)]);
    var s3 := Apply(c, s2, Reject(w));
    assert s3 == Move(s2, w, Closing(u, ReportFail));
    RunOne(c, s3, Conclude(w, retryAt));
    ConcludeReports(c, s2, s3, w, u, retryAt);
  }

  /**
   * The digest step of an attempt that loaded a quarantined row: it records its own bytes first, goes
   * on if another attempt has recorded the same bytes meanwhile, and otherwise fails for a retry.
   */
  lemma FirstDigestWins(s: State, w: string)
    requires PhaseOf(s, w).Inspected? && PhaseOf(s, w).u in s.rows && PhaseOf(s, w).source.state == Quarantined
    ensures var p, row := PhaseOf(s, w), s.rows[PhaseOf(s, w).u];
            var s' := ApplyPin(s, w, true);
            && (row.state == Quarantined ==>
                  && PhaseOf(s', w) == Pinned(p.u, p.attempts, p.content)
                  && s'.rows == s.rows[p.u := row.(state := UploadState.Processing, pinned := Some(p.content),
                                                   errorCode := None)])
            && (row.state == UploadState.Processing && row.pinned == Some(p.content) ==>
                  PhaseOf(s', w) == Pinned(p.u, p.attempts, p.content) && s'.rows == s.rows)
            && (row.state != Quarantined && !(row.state == UploadState.Processing && row.pinned == Some(p.content)) ==>
                  PhaseOf(s', w) == Ended(p.u, p.attempts, Transient("DATABASE_UNAVAILABLE")) && s'.rows == s.rows)
  {
  }

  /** A working slot's renewal extends its unexpired lease; without one the slot gives the attempt up. */
  lemma RenewalDecides(s: State, w: string, now: nat, leaseSecs: nat)
    requires PhaseOf(s, w).Claimed? || PhaseOf(s, w).Validating()
    ensures var id, s' := JobOf(PhaseOf(s, w).u), ApplyRenew(s, w, now, leaseSecs);
            if id in s.jobs && s.jobs[id].state.Leased? && s.jobs[id].state.owner == w
               && !JobQueue.Claimable(s.jobs[id], now) then
              && PhaseOf(s', w) == PhaseOf(s, w) && id in s'.jobs && s'.jobs - {id} == s.jobs - {id}
              && forall t: nat ::
                   JobQueue.Claimable(s'.jobs[id], t) <==> JobQueue.Stamp(now) + leaseSecs <= JobQueue.Stamp(t)
            else PhaseOf(s', w) == Idle && s'.jobs == s.jobs
  {
  }

  /**
   * A permanent failure on an upload that is rejected already is reported again exactly if it has the
   * same cause; on any other settled upload the attempt ends without a report.
   */
  lemma SecondRejection(s: State, w: string, u: string, code: string)
    requires u in s.rows && !Undecided(s.rows[u])
    ensures var row, s' := s.rows[u], MarkRejected(s, w, u, code, ReportComplete);
            && s'.rows == s.rows && s'.jobs == s.jobs
            && PhaseOf(s', w) == (if row.state == UploadState.Rejected && row.errorCode == Some(code)
                                  then Closing(u, ReportComplete) else Idle)
  {
  }
}
