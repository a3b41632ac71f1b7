/**
 * Worker admission: a temporary-disk semaphore counted in 1 MiB permits, then one of two lanes.
 * Each semaphore serves its waiters in arrival order.
 */
module ResourceGates {
  import opened Basics

  const MIB: nat := 1024 * 1024
  const MAX_WATERMARK_BYTES: nat := 16 * MIB
  const MAX_TEMP_DISK_BYTES: nat := MIB * MIB

  datatype Policy = Policy(maxImageBytes: nat, maxVideoBytes: nat, maxTempDiskBytes: nat,
                           heavyLanes: nat, videoLanes: nat)

  function RequiredTempDiskBytes(maxImage: nat, maxVideo: nat): Option<nat> {
    match CheckedMul(maxImage, 2)
    case None => None
    case Some(doubled) =>
      match CheckedAdd(doubled, Max(maxImage, maxVideo))
      case None => None
      case Some(sum) => CheckedAdd(sum, MAX_WATERMARK_BYTES)
  }

  function Permits(bytes: nat): Option<nat> {
    var n := CeilDiv(bytes, MIB);
    if n <= U32_MAX then Some(n) else None
  }

  /** The resource clauses of `WorkerPolicy::validate`. */
  predicate Validated(p: Policy) {
    && 1 <= p.heavyLanes <= 32 && 1 <= p.videoLanes <= 32
    && p.maxImageBytes > 0 && p.maxVideoBytes > 0
    && RequiredTempDiskBytes(p.maxImageBytes, p.maxVideoBytes).Some?
    && p.maxTempDiskBytes >= RequiredTempDiskBytes(p.maxImageBytes, p.maxVideoBytes).value
    && p.maxTempDiskBytes <= MAX_TEMP_DISK_BYTES
    && Permits(p.maxTempDiskBytes).Some?
  }

  /** A job past the size check of its declared kind. */
  predicate Admissible(p: Policy, sourceBytes: nat) {
    sourceBytes <= Max(p.maxImageBytes, p.maxVideoBytes)
  }

  /** `acquire_temp_disk_permit` up to the acquisition. */
  function Reservation(p: Policy, sourceBytes: nat): Option<nat> {
    match CheckedMul(p.maxImageBytes, 2)
    case None => None
    case Some(doubled) =>
      match CheckedAdd(sourceBytes, doubled)
      case None => None
      case Some(sum) => CheckedAdd(sum, MAX_WATERMARK_BYTES)
  }

  function RequestedPermits(p: Policy, sourceBytes: nat): Option<nat> {
    match Reservation(p, sourceBytes)
    case None => None
    case Some(bytes) => Permits(bytes)
  }

  function TotalPermits(p: Policy): nat
    requires Validated(p)
  {
    Permits(p.maxTempDiskBytes).value
  }

  lemma CeilDivMonotone(a: nat, b: nat, m: nat)
    requires a <= b && m > 0
    ensures CeilDiv(a, m) <= CeilDiv(b, m)
  {
    CeilDivBounds(a, m);
    CeilDivBounds(b, m);
    assert (CeilDiv(b, m) + 1) * m == CeilDiv(b, m) * m + m;
    if CeilDiv(a, m) > CeilDiv(b, m) {
      MulMonotone(CeilDiv(b, m) + 1, CeilDiv(a, m), m);
    }
  }

  /**
   * What validation comes to: the checked arithmetic and the permit conversion never reject a policy
   * whose cap covers the worst job and is at most one TiB.
   */
  lemma ValidatedExactly(p: Policy)
    requires p.maxImageBytes <= U64_MAX && p.maxVideoBytes <= U64_MAX
    ensures Validated(p) <==>
      (&& 1 <= p.heavyLanes <= 32 && 1 <= p.videoLanes <= 32 && 0 < p.maxImageBytes && 0 < p.maxVideoBytes
       && 3 * p.maxImageBytes + 16 * 1024 * 1024 <= p.maxTempDiskBytes <= 1024 * 1024 * 1024 * 1024
       && 2 * p.maxImageBytes + p.maxVideoBytes + 16 * 1024 * 1024 <= p.maxTempDiskBytes)
  {
    if p.maxTempDiskBytes <= MAX_TEMP_DISK_BYTES { CeilDivMonotone(p.maxTempDiskBytes, MAX_TEMP_DISK_BYTES, MIB); }
    assert CeilDiv(MAX_TEMP_DISK_BYTES, MIB) <= U32_MAX;
  }

  /**
   * A validated policy never asks for an unrepresentable or unsatisfiable number of permits: a job
   * asks for the least number that covers its source, two images and a watermark.
   */
  lemma AdmissibleJobFits(p: Policy, sourceBytes: nat)
    requires Validated(p) && (sourceBytes <= p.maxImageBytes || sourceBytes <= p.maxVideoBytes)
    ensures RequestedPermits(p, sourceBytes).Some?
    ensures var n, bytes := RequestedPermits(p, sourceBytes).value,
                            sourceBytes + 2 * p.maxImageBytes + 16 * 1024 * 1024;
            1 <= n <= TotalPermits(p) && (n - 1) * 1024 * 1024 < bytes <= n * 1024 * 1024
    ensures (TotalPermits(p) - 1) * 1024 * 1024 < p.maxTempDiskBytes <= TotalPermits(p) * 1024 * 1024
  {
    CeilDivBounds(p.maxTempDiskBytes, MIB);
    var bytes := sourceBytes + 2 * p.maxImageBytes + MAX_WATERMARK_BYTES;
    CeilDivMonotone(bytes, p.maxTempDiskBytes, MIB);
    CeilDivMonotone(MAX_WATERMARK_BYTES, bytes, MIB);
    CeilDivBounds(bytes, MIB);
    assert Reservation(p, sourceBytes) == Some(bytes);
  }

  // ----- The gates as a machine over any number of jobs -----

  datatype Lane = Heavy | Video

  datatype Job =
    | Fresh(bytes: nat)
    | WaitingDisk(bytes: nat)
    | Downloading(bytes: nat)
    | WaitingLane(bytes: nat, lane: Lane)
    | Transforming(bytes: nat, held: Option<Lane>)
    | Finished

  datatype PerLane<T> = PerLane(heavy: T, video: T) {
    function At(l: Lane): T { if l == Heavy then heavy else video }

    function With(l: Lane, x: T): PerLane<T> { if l == Heavy then PerLane(x, video) else PerLane(heavy, x) }
  }

  /** Waiters are job numbers in arrival order. */
  datatype Gates = Gates(jobs: seq<Job>, diskFree: nat, diskQueue: seq<nat>,
                         laneFree: PerLane<nat>, laneQueue: PerLane<seq<nat>>)

  datatype Step =
    | AskDisk(j: nat)
    | GrantDisk
    | Inspect(j: nat, needs: Option<Lane>)
    | GrantLane(lane: Lane)
    | Finish(j: nat)
    | Cancel(j: nat)

  function Capacity(p: Policy, lane: Lane): nat { if lane == Heavy then p.heavyLanes else p.videoLanes }

  function PermitsOf(p: Policy, bytes: nat): nat {
    match RequestedPermits(p, bytes) case Some(n) => n case None => 0
  }

  function DiskHeld(p: Policy, job: Job): nat {
    if job.Downloading? || job.WaitingLane? || job.Transforming? then PermitsOf(p, job.bytes) else 0
  }

  predicate HoldsLane(job: Job, lane: Lane) { job.Transforming? && job.held == Some(lane) }

  function LaneHeld(job: Job, lane: Lane): nat { if HoldsLane(job, lane) then 1 else 0 }

  function DiskHeldAll(p: Policy, jobs: seq<Job>): seq<nat> {
    seq(|jobs|, i requires 0 <= i < |jobs| => DiskHeld(p, jobs[i]))
  }

  function LaneHeldAll(jobs: seq<Job>, lane: Lane): seq<nat> {
    seq(|jobs|, i requires 0 <= i < |jobs| => LaneHeld(jobs[i], lane))
  }

  function Remove(queue: seq<nat>, j: nat): seq<nat> {
    if queue == [] then [] else if queue[0] == j then queue[1..] else [queue[0]] + Remove(queue[1..], j)
  }

  predicate Enabled(p: Policy, g: Gates, step: Step)
  {
    match step
    case AskDisk(j) => j < |g.jobs| && g.jobs[j].Fresh?
    case GrantDisk =>
      g.diskQueue != [] && g.diskQueue[0] < |g.jobs| && g.jobs[g.diskQueue[0]].WaitingDisk?
      && PermitsOf(p, g.jobs[g.diskQueue[0]].bytes) <= g.diskFree
    case Inspect(j, _) => j < |g.jobs| && g.jobs[j].Downloading?
    case GrantLane(lane) =>
      g.laneQueue.At(lane) != [] && g.laneQueue.At(lane)[0] < |g.jobs|
      && g.jobs[g.laneQueue.At(lane)[0]].WaitingLane? && g.laneFree.At(lane) >= 1
    case Finish(j) => j < |g.jobs| && (g.jobs[j].Downloading? || g.jobs[j].Transforming?)
    case Cancel(j) => j < |g.jobs| && !g.jobs[j].Finished?
  }

  /** Finishing and cancelling return exactly what the job holds and leave every queue. */
  function Release(p: Policy, g: Gates, j: nat): Gates
    requires j < |g.jobs|
  {
    var job := g.jobs[j];
    Gates(g.jobs[j := Finished],
          g.diskFree + DiskHeld(p, job),
          if job.WaitingDisk? then Remove(g.diskQueue, j) else g.diskQueue,
          PerLane(g.laneFree.heavy + LaneHeld(job, Heavy), g.laneFree.video + LaneHeld(job, Video)),
          if job.WaitingLane? then g.laneQueue.With(job.lane, Remove(g.laneQueue.At(job.lane), j)) else g.laneQueue)
  }

  function Apply(p: Policy, g: Gates, step: Step): Gates
  {
    if !Enabled(p, g, step) then g
    else
      match step
      case AskDisk(j) => g.(jobs := g.jobs[j := WaitingDisk(g.jobs[j].bytes)], diskQueue := g.diskQueue + [j])
      case GrantDisk =>
        var j := g.diskQueue[0];
        g.(jobs := g.jobs[j := Downloading(g.jobs[j].bytes)], diskQueue := g.diskQueue[1..],
           diskFree := g.diskFree - PermitsOf(p, g.jobs[j].bytes))
      case Inspect(j, lane) =>
        (match lane
         case None => g.(jobs := g.jobs[j := Transforming(g.jobs[j].bytes, None)])
         case Some(l) => g.(jobs := g.jobs[j := WaitingLane(g.jobs[j].bytes, l)],
                            laneQueue := g.laneQueue.With(l, g.laneQueue.At(l) + [j])))
      case GrantLane(l) =>
        var j := g.laneQueue.At(l)[0];
        g.(jobs := g.jobs[j := Transforming(g.jobs[j].bytes, Some(l))],
           laneQueue := g.laneQueue.With(l, g.laneQueue.At(l)[1..]),
           laneFree := g.laneFree.With(l, g.laneFree.At(l) - 1))
      case Finish(j) => Release(p, g, j)
      case Cancel(j) => Release(p, g, j)
  }

  // ----- Invariant -----

  /** A queue holds exactly the jobs waiting for it, each once. */
  ghost predicate QueueOk(queue: seq<nat>, jobs: seq<Job>, waits: Job -> bool) {
    && (forall i :: 0 <= i < |queue| ==> queue[i] < |jobs| && waits(jobs[queue[i]]))
    && (forall i, k :: 0 <= i < k < |queue| ==> queue[i] != queue[k])
    && (forall j :: 0 <= j < |jobs| && waits(jobs[j]) ==> j in queue)
  }

  function WaitsDisk(): Job -> bool { (job: Job) => job.WaitingDisk? }

  function WaitsLane(lane: Lane): Job -> bool { (job: Job) => job.WaitingLane? && job.lane == lane }

  predicate JobFits(p: Policy, job: Job) { job.Finished? || Admissible(p, job.bytes) }

  ghost predicate Inv(p: Policy, g: Gates) {
    && Validated(p)
    && (forall j :: 0 <= j < |g.jobs| ==> JobFits(p, g.jobs[j]))
    && g.diskFree + Sum(DiskHeldAll(p, g.jobs)) == TotalPermits(p)
    && (forall l: Lane :: g.laneFree.At(l) + Sum(LaneHeldAll(g.jobs, l)) == Capacity(p, l))
    && QueueOk(g.diskQueue, g.jobs, WaitsDisk())
    && (forall l: Lane :: QueueOk(g.laneQueue.At(l), g.jobs, WaitsLane(l)))
  }

  lemma DiskSumUpdate(p: Policy, jobs: seq<Job>, j: nat, job: Job)
    requires j < |jobs|
    ensures Sum(DiskHeldAll(p, jobs[j := job])) == Sum(DiskHeldAll(p, jobs)) - DiskHeld(p, jobs[j]) + DiskHeld(p, job)
    ensures Sum(DiskHeldAll(p, jobs)) >= DiskHeld(p, jobs[j])
  {
    SumUpdate(DiskHeldAll(p, jobs), j, DiskHeld(p, job));
    assert DiskHeldAll(p, jobs[j := job]) == DiskHeldAll(p, jobs)[j := DiskHeld(p, job)];
  }

  lemma LaneSumUpdate(jobs: seq<Job>, j: nat, job: Job, lane: Lane)
    requires j < |jobs|
    ensures Sum(LaneHeldAll(jobs[j := job], lane))
              == Sum(LaneHeldAll(jobs, lane)) - LaneHeld(jobs[j], lane) + LaneHeld(job, lane)
    ensures Sum(LaneHeldAll(jobs, lane)) >= LaneHeld(jobs[j], lane)
  {
    SumUpdate(LaneHeldAll(jobs, lane), j, LaneHeld(job, lane));
    assert LaneHeldAll(jobs[j := job], lane) == LaneHeldAll(jobs, lane)[j := LaneHeld(job, lane)];
  }

  lemma {:induction false} RemoveFacts(queue: seq<nat>, j: nat)
    requires forall i, k :: 0 <= i < k < |queue| ==> queue[i] != queue[k]
    ensures forall x :: x in Remove(queue, j) <==> x in queue && x != j
    ensures forall i, k :: 0 <= i < k < |Remove(queue, j)| ==> Remove(queue, j)[i] != Remove(queue, j)[k]
  {
    if queue != [] && queue[0] != j {
      RemoveFacts(queue[1..], j);
      assert queue == [queue[0]] + queue[1..];
      assert queue[0] !in queue[1..];
    } else if queue != [] {
      assert queue == [queue[0]] + queue[1..];
    }
  }

  /** A job leaving the waiting state leaves its queue. */
  lemma QueueAfterRemoval(queue: seq<nat>, jobs: seq<Job>, waits: Job -> bool, j: nat, job: Job)
    requires QueueOk(queue, jobs, waits) && j < |jobs| && !waits(job)
    ensures QueueOk(Remove(queue, j), jobs[j := job], waits)
  {
    RemoveFacts(queue, j);
    var r := Remove(queue, j);
    forall i | 0 <= i < |r|
      ensures r[i] < |jobs| && waits(jobs[j := job][r[i]])
    {
      assert r[i] in r;
    }
  }

  lemma QueueAfterPop(queue: seq<nat>, jobs: seq<Job>, waits: Job -> bool, job: Job)
    requires QueueOk(queue, jobs, waits) && queue != [] && !waits(job)
    ensures QueueOk(queue[1..], jobs[queue[0] := job], waits)
  {
    QueueAfterRemoval(queue, jobs, waits, queue[0], job);
  }

  lemma QueueAfterPush(queue: seq<nat>, jobs: seq<Job>, waits: Job -> bool, j: nat, job: Job)
    requires QueueOk(queue, jobs, waits) && j < |jobs| && !waits(jobs[j]) && waits(job)
    ensures QueueOk(queue + [j], jobs[j := job], waits)
  {
    assert j !in queue;
  }

  lemma QueueUntouched(queue: seq<nat>, jobs: seq<Job>, waits: Job -> bool, j: nat, job: Job)
    requires QueueOk(queue, jobs, waits) && j < |jobs| && !waits(jobs[j]) && !waits(job)
    ensures QueueOk(queue, jobs[j := job], waits)
  {
  }

  /** The job a step moves and the state it moves to. */
  function Moved(g: Gates, step: Step): nat
    requires (step.GrantDisk? ==> g.diskQueue != [])
    requires step.GrantLane? ==> g.laneQueue.At(step.lane) != []
  {
    match step
    case AskDisk(j) => j
    case GrantDisk => g.diskQueue[0]
    case Inspect(j, _) => j
    case GrantLane(l) => g.laneQueue.At(l)[0]
    case Finish(j) => j
    case Cancel(j) => j
  }

  /** A step moves one job, and the free counts change by what that job takes or returns. */
  lemma MovedCounts(p: Policy, g: Gates, step: Step)
    requires Enabled(p, g, step)
    ensures var j, g' := Moved(g, step), Apply(p, g, step);
            && j < |g.jobs| && j < |g'.jobs| && g'.jobs == g.jobs[j := g'.jobs[j]]
            && g'.diskFree + DiskHeld(p, g'.jobs[j]) == g.diskFree + DiskHeld(p, g.jobs[j])
            && g'.laneFree.heavy + LaneHeld(g'.jobs[j], Heavy) == g.laneFree.heavy + LaneHeld(g.jobs[j], Heavy)
            && g'.laneFree.video + LaneHeld(g'.jobs[j], Video) == g.laneFree.video + LaneHeld(g.jobs[j], Video)
  {
    hide Remove, RequestedPermits;
  }

  lemma CountsKept(p: Policy, g: Gates, step: Step)
    requires Inv(p, g) && Enabled(p, g, step)
    ensures var g' := Apply(p, g, step);
            && |g'.jobs| == |g.jobs|
            && g'.diskFree + Sum(DiskHeldAll(p, g'.jobs)) == TotalPermits(p)
            && (forall l: Lane :: g'.laneFree.At(l) + Sum(LaneHeldAll(g'.jobs, l)) == Capacity(p, l))
  {
    hide Apply, Validated, QueueOk, TotalPermits, DiskHeldAll, LaneHeldAll, DiskHeld, LaneHeld;
    var j := Moved(g, step);
    var g' := Apply(p, g, step);
    MovedCounts(p, g, step);
    DiskSumUpdate(p, g.jobs, j, g'.jobs[j]);
    LaneSumUpdate(g.jobs, j, g'.jobs[j], Heavy);
    LaneSumUpdate(g.jobs, j, g'.jobs[j], Video);
    assert g.laneFree.At(Heavy) + Sum(LaneHeldAll(g.jobs, Heavy)) == Capacity(p, Heavy);
    assert g.laneFree.At(Video) + Sum(LaneHeldAll(g.jobs, Video)) == Capacity(p, Video);
  }

  lemma DiskQueueKept(p: Policy, g: Gates, step: Step)
    requires Inv(p, g) && Enabled(p, g, step)
    ensures QueueOk(Apply(p, g, step).diskQueue, Apply(p, g, step).jobs, WaitsDisk())
  {
    var j := Moved(g, step);
    var job := Apply(p, g, step).jobs[j];
    var w := WaitsDisk();
    if step.AskDisk? { QueueAfterPush(g.diskQueue, g.jobs, w, j, job); }
    else if step.GrantDisk? { QueueAfterPop(g.diskQueue, g.jobs, w, job); }
    else if g.jobs[j].WaitingDisk? { QueueAfterRemoval(g.diskQueue, g.jobs, w, j, job); }
    else { QueueUntouched(g.diskQueue, g.jobs, w, j, job); }
  }

  lemma LaneQueueKept(p: Policy, g: Gates, step: Step, l: Lane)
    requires Inv(p, g) && Enabled(p, g, step)
    ensures QueueOk(Apply(p, g, step).laneQueue.At(l), Apply(p, g, step).jobs, WaitsLane(l))
  {
    var j := Moved(g, step);
    var job := Apply(p, g, step).jobs[j];
    var w := WaitsLane(l);
    if step.Inspect? && step.needs == Some(l) { QueueAfterPush(g.laneQueue.At(l), g.jobs, w, j, job); }
    else if step.GrantLane? && step.lane == l { QueueAfterPop(g.laneQueue.At(l), g.jobs, w, job); }
    else if w(g.jobs[j]) { QueueAfterRemoval(g.laneQueue.At(l), g.jobs, w, j, job); }
    else { QueueUntouched(g.laneQueue.At(l), g.jobs, w, j, job); }
  }

  lemma StepKeepsInv(p: Policy, g: Gates, step: Step)
    requires Inv(p, g)
    ensures Inv(p, Apply(p, g, step))
  {
    if Enabled(p, g, step) {
      CountsKept(p, g, step);
      DiskQueueKept(p, g, step);
      forall l: Lane
        ensures QueueOk(Apply(p, g, step).laneQueue.At(l), Apply(p, g, step).jobs, WaitsLane(l))
      {
        LaneQueueKept(p, g, step, l);
      }
    }
  }

  // ----- Reserved bytes -----

  function ReservedBytes(p: Policy, job: Job): nat {
    if job.Downloading? || job.WaitingLane? || job.Transforming? then
      job.bytes + 2 * p.maxImageBytes + MAX_WATERMARK_BYTES
    else 0
  }

  function ReservedAll(p: Policy, jobs: seq<Job>): seq<nat> {
    seq(|jobs|, i requires 0 <= i < |jobs| => ReservedBytes(p, jobs[i]))
  }

  lemma {:induction false} ReservedUnderPermits(p: Policy, jobs: seq<Job>)
    requires Validated(p) && forall j :: 0 <= j < |jobs| ==> JobFits(p, jobs[j])
    ensures Sum(ReservedAll(p, jobs)) <= Sum(DiskHeldAll(p, jobs)) * MIB
  {
    if jobs != [] {
      assert JobFits(p, jobs[0]);
      if !jobs[0].Finished? { AdmissibleJobFits(p, jobs[0].bytes); }
      ReservedUnderPermits(p, jobs[1..]);
      assert ReservedAll(p, jobs)[1..] == ReservedAll(p, jobs[1..]);
      assert DiskHeldAll(p, jobs)[1..] == DiskHeldAll(p, jobs[1..]);
      assert ReservedBytes(p, jobs[0]) <= DiskHeld(p, jobs[0]) * MIB;
    }
  }

  /** Concurrently reserved bytes stay below the cap plus one permit, and within a whole-MiB cap. */
  lemma ReservedBytesBounded(p: Policy, g: Gates)
    requires Inv(p, g)
    ensures Sum(ReservedAll(p, g.jobs)) < p.maxTempDiskBytes + MIB
    ensures p.maxTempDiskBytes % MIB == 0 ==> Sum(ReservedAll(p, g.jobs)) <= p.maxTempDiskBytes
  {
    ReservedUnderPermits(p, g.jobs);
    MulMonotone(Sum(DiskHeldAll(p, g.jobs)), TotalPermits(p), MIB);
    CeilDivBounds(p.maxTempDiskBytes, MIB);
    if p.maxTempDiskBytes % MIB == 0 {
      CeilDivUnique(p.maxTempDiskBytes, MIB, p.maxTempDiskBytes / MIB);
    }
  }

  function Indicators(holds: seq<bool>): seq<nat> {
    seq(|holds|, i requires 0 <= i < |holds| => if holds[i] then 1 else 0)
  }

  lemma {:induction false} SumCounts(holds: seq<bool>)
    ensures Sum(Indicators(holds)) == |set i: nat | i < |holds| && holds[i]|
    decreases |holds|
  {
    if holds != [] {
      var n := |holds| - 1;
      SumCounts(holds[..n]);
      assert Indicators(holds) == Indicators(holds[..n]) + [if holds[n] then 1 else 0];
      SumAppend(Indicators(holds[..n]), [if holds[n] then 1 else 0]);
      var before := set i: nat | i < n && holds[..n][i];
      assert (set i: nat | i < |holds| && holds[i]) == before + (if holds[n] then {n} else {});
    }
  }

  ghost function InLane(jobs: seq<Job>, lane: Lane): set<nat> {
    set j: nat | j < |jobs| && jobs[j].Transforming? && jobs[j].held == Some(lane)
  }

  /** No more jobs transform in a lane at once than it has places. */
  lemma LanesBounded(p: Policy, g: Gates)
    requires Inv(p, g)
    ensures |InLane(g.jobs, Heavy)| <= p.heavyLanes && |InLane(g.jobs, Video)| <= p.videoLanes
  {
    forall lane: Lane
      ensures |InLane(g.jobs, lane)| == Sum(LaneHeldAll(g.jobs, lane))
    {
      var holds := seq(|g.jobs|,
                       j requires 0 <= j < |g.jobs| => g.jobs[j].Transforming? && g.jobs[j].held == Some(lane));
      SumCounts(holds);
      assert Indicators(holds) == LaneHeldAll(g.jobs, lane);
      assert InLane(g.jobs, lane) == set i: nat | i < |holds| && holds[i];
    }
    assert g.laneFree.At(Heavy) + Sum(LaneHeldAll(g.jobs, Heavy)) == Capacity(p, Heavy);
    assert g.laneFree.At(Video) + Sum(LaneHeldAll(g.jobs, Video)) == Capacity(p, Video);
  }

  // ----- Deadlock freedom and termination -----

  lemma {:induction false} SumZero(s: seq<nat>)
    requires forall i :: 0 <= i < |s| ==> s[i] == 0
    ensures Sum(s) == 0
  {
    if s != [] { SumZero(s[1..]); }
  }

  /** A progress step: anything but an outside cancellation. */
  predicate Progress(step: Step) { !step.Cancel? }

  /** Every state with an unfinished job has an enabled progress step. */
  lemma NoDeadlock(p: Policy, g: Gates, j: nat) returns (step: Step)
    requires Inv(p, g) && j < |g.jobs| && !g.jobs[j].Finished?
    ensures Progress(step) && Enabled(p, g, step)
  {
    if k :| 0 <= k < |g.jobs| && g.jobs[k].Fresh? {
      return AskDisk(k);
    }
    if k :| 0 <= k < |g.jobs| && (g.jobs[k].Downloading? || g.jobs[k].Transforming?) {
      return Finish(k);
    }
    if k :| 0 <= k < |g.jobs| && g.jobs[k].WaitingLane? {
      var l := g.jobs[k].lane;
      assert k in g.laneQueue.At(l);
      SumZero(LaneHeldAll(g.jobs, l));
      assert QueueOk(g.laneQueue.At(l), g.jobs, WaitsLane(l));
      return GrantLane(l);
    }
    assert g.jobs[j].WaitingDisk? && j in g.diskQueue;
    SumZero(DiskHeldAll(p, g.jobs));
    var head := g.diskQueue[0];
    assert JobFits(p, g.jobs[head]);
    AdmissibleJobFits(p, g.jobs[head].bytes);
    return GrantDisk;
  }

  /** All permits free, nothing queued, and jobs of the given source sizes still to be started. */
  function Start(p: Policy, sizes: seq<nat>): Gates
    requires Validated(p)
  {
    Gates(seq(|sizes|, i requires 0 <= i < |sizes| => Fresh(sizes[i])), TotalPermits(p), [],
          PerLane(p.heavyLanes, p.videoLanes), PerLane([], []))
  }

  lemma StartInv(p: Policy, sizes: seq<nat>)
    requires Validated(p) && forall i :: 0 <= i < |sizes| ==> Admissible(p, sizes[i])
    ensures Inv(p, Start(p, sizes))
  {
    var g := Start(p, sizes);
    SumZero(DiskHeldAll(p, g.jobs));
    SumZero(LaneHeldAll(g.jobs, Heavy));
    SumZero(LaneHeldAll(g.jobs, Video));
    forall l: Lane
      ensures g.laneFree.At(l) + Sum(LaneHeldAll(g.jobs, l)) == Capacity(p, l)
    {
      assert l == Heavy || l == Video;
    }
  }

  function Left(job: Job): nat {
    match job
    case Fresh(_) => 5
    case WaitingDisk(_) => 4
    case Downloading(_) => 3
    case WaitingLane(_, _) => 2
    case Transforming(_, _) => 1
    case Finished => 0
  }

  function LeftAll(jobs: seq<Job>): seq<nat> { seq(|jobs|, i requires 0 <= i < |jobs| => Left(jobs[i])) }

  function Work(jobs: seq<Job>): nat { Sum(LeftAll(jobs)) }

  /** Every enabled step consumes work, so no schedule can go on for more than five steps a job. */
  lemma StepConsumesWork(p: Policy, g: Gates, step: Step)
    requires Inv(p, g) && Enabled(p, g, step)
    ensures Work(Apply(p, g, step).jobs) < Work(g.jobs)
  {
    var j := Moved(g, step);
    var g' := Apply(p, g, step);
    SumUpdate(LeftAll(g.jobs), j, Left(g'.jobs[j]));
    assert g'.jobs == g.jobs[j := g'.jobs[j]];
    assert LeftAll(g'.jobs) == LeftAll(g.jobs)[j := Left(g'.jobs[j])];
  }

  /** A schedule of enabled steps from `g` to `end`. */
  ghost predicate Schedule(p: Policy, g: Gates, steps: seq<Step>, end: Gates)
    decreases steps
  {
    if steps == [] then end == g
    else
      && Enabled(p, g, steps[0])
      && var next := Apply(p, g, steps[0]);
      && Schedule(p, next, steps[1..], end)
  }

  /** Every schedule keeps both bounds and cannot outlast the work; if it cannot go on, all jobs finished. */
  lemma {:induction false} SchedulesFinish(p: Policy, g: Gates, steps: seq<Step>, end: Gates)
    requires Inv(p, g) && Schedule(p, g, steps, end)
    ensures Inv(p, end) && |steps| + Work(end.jobs) <= Work(g.jobs)
    ensures Sum(ReservedAll(p, end.jobs)) < p.maxTempDiskBytes + MIB
    ensures (forall step :: Progress(step) ==> !Enabled(p, end, step)) ==>
              forall j :: 0 <= j < |end.jobs| ==> end.jobs[j].Finished?
    decreases steps
  {
    if steps != [] {
      StepKeepsInv(p, g, steps[0]);
      StepConsumesWork(p, g, steps[0]);
      SchedulesFinish(p, Apply(p, g, steps[0]), steps[1..], end);
    } else {
      ReservedBytesBounded(p, g);
      if j :| 0 <= j < |g.jobs| && !g.jobs[j].Finished? {
        var step := NoDeadlock(p, g, j);
      }
    }
  }

  /**
   * Any admissible jobs, however they interleave with cancellations: reserved bytes and the jobs in
   * each lane stay bounded, a schedule has at most five steps a job, and it can only stop when every
   * job has finished.
   */
  lemma {:induction false} AdmissibleJobsFinish(p: Policy, sizes: seq<nat>, steps: seq<Step>, end: Gates)
    requires Validated(p)
    requires forall i :: 0 <= i < |sizes| ==> sizes[i] <= p.maxImageBytes || sizes[i] <= p.maxVideoBytes
    requires Schedule(p, Start(p, sizes), steps, end)
    ensures Sum(ReservedAll(p, end.jobs)) < p.maxTempDiskBytes + MIB
    ensures p.maxTempDiskBytes % MIB == 0 ==> Sum(ReservedAll(p, end.jobs)) <= p.maxTempDiskBytes
    ensures |InLane(end.jobs, Heavy)| <= p.heavyLanes && |InLane(end.jobs, Video)| <= p.videoLanes
    ensures |steps| <= 5 * |sizes|
    ensures (forall step :: Progress(step) ==> !Enabled(p, end, step)) ==>
              forall j :: 0 <= j < |end.jobs| ==> end.jobs[j].Finished?
  {
    StartInv(p, sizes);
    SchedulesFinish(p, Start(p, sizes), steps, end);
    ReservedBytesBounded(p, end);
    LanesBounded(p, end);
    WorkAtStart(Start(p, sizes).jobs);
  }

  lemma {:induction false} WorkAtStart(jobs: seq<Job>)
    requires forall j :: 0 <= j < |jobs| ==> jobs[j].Fresh?
    ensures Work(jobs) == 5 * |jobs|
  {
    if jobs != [] {
      WorkAtStart(jobs[1..]);
      assert LeftAll(jobs)[1..] == LeftAll(jobs[1..]);
    }
  }
}
