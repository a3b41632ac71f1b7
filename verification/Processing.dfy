/**
 * The source-validation worker protocol: any number of slots claim, validate, publish and report,
 * may crash between any two calls, may lose a lease and keep going, and share the queue, the upload
 * rows and the derivative store with confirmation, deletion, cleanup and inventory.
 */
module Processing {
  import opened Basics
  import opened Domain
  import opened ObjectKeys
  import opened JobQueue

  const SOURCE_VALIDATION := "source-validation-v1"

  datatype Format = Jpeg | Png | Gif | Webp | Avif | Heif | Mp4 | QuickTime | Webm {
    predicate IsVideo() { Mp4? || QuickTime? || Webm? }

    /** A video keeps the content type of its container. */
    function ContainerType(): string
      requires IsVideo()
    {
      if Mp4? then "video/mp4" else if QuickTime? then "video/quicktime" else "video/webm"
    }

    function MasterFile(): File {
      match this
      case Mp4 => MasterMp4
      case QuickTime => MasterMov
      case Webm => MasterWebm
      case _ => MasterJpg
    }
  }

  /** What one download of the source contained; its format and its content type determine each other. */
  datatype Content = Content(digest: string, format: Format)

  datatype Variant = Master | Thumbnail

  datatype Identity = Identity(preset: string, variant: Variant)

  datatype Derivative = Derivative(key: DerivativeKey, variant: Variant, contentType: string, len: nat, sha: string) {
    function Id(): Identity { Identity(key.preset, variant) }
  }

  datatype Row = Row(tenant: string, kind: MediaKind, size: nat, state: UploadState, pinned: Option<Content>,
                     errorCode: Option<string>, deleteRequested: bool, derivatives: map<Identity, Derivative>)

  datatype Outcome = Succeeded | Permanent(code: string) | Transient(code: string) | Operational(code: string)

  datatype Report = ReportComplete | ReportFail

  datatype Phase =
    | Idle
    | Claimed(u: string, attempts: nat)
    | Loaded(u: string, attempts: nat, source: Row)
    | Inspected(u: string, attempts: nat, source: Row, content: Content)
    | Pinned(u: string, attempts: nat, content: Content)
    | Prepared(u: string, attempts: nat, content: Content, preset: string)
    | MasterStored(u: string, attempts: nat, content: Content, preset: string, master: Derivative)
    | BothStored(u: string, attempts: nat, content: Content, preset: string, master: Derivative, thumbnail: Derivative)
    | Ended(u: string, attempts: nat, outcome: Outcome)
    | Closing(u: string, report: Report)
  {
    /** The attempt is past the state check and can still reach the derivative store. */
    predicate Validating() {
      Loaded? || Inspected? || Pinned? || Prepared? || MasterStored? || BothStored?
    }
  }

  /**
   * `preset` is the preset a tenant's pinned policy revision (or the fixed worker configuration)
   * selects. `rendered`, when given, is a renderer whose output length depends on the key alone.
   * `grace` is how long inventory must have suspected a key before it may delete the object.
   */
  datatype Config = Config(maxAttempts: nat, maxImageBytes: nat, maxVideoBytes: nat,
                           preset: (string, Option<nat>) -> string,
                           rendered: Option<DerivativeKey -> nat>, grace: nat)

  datatype PutRecord = PutRecord(worker: string, key: DerivativeKey, len: nat)

  datatype Version = Version(key: DerivativeKey, len: nat)

  /**
   * Inventory's clock, the keys it suspects with their first sightings, the keys whose final
   * ownership check has passed and whose deletion is under way, and the keys deleted at the provider
   * whose deletion is still to be recorded. `putAt` and `prunedAt` are history:
   * the moment each version of an object was last put, and each key last deleted by inventory.
   */
  datatype Ledger = Ledger(clock: nat, suspects: map<DerivativeKey, nat>, cleared: set<DerivativeKey>,
                           unrecorded: set<DerivativeKey>, moment: nat, putAt: map<Version, nat>,
                           prunedAt: map<DerivativeKey, nat>)

  /** `puts` is the history of every object ever stored by a worker. */
  datatype State = State(rows: map<string, Row>, jobs: Jobs, phases: map<string, Phase>,
                         store: map<DerivativeKey, nat>, puts: set<PutRecord>, ledger: Ledger)

  datatype Step =
    | Reserve(u: string, tenant: string, kind: MediaKind, size: nat)
    | Confirm(u: string, revision: Option<nat>, now: nat)
    | RequestDeletion(u: string)
    | CleanupObject(u: string, key: DerivativeKey)
    | Tombstone(u: string)
    | Wait(duration: nat)
    | Observe(key: DerivativeKey)
    | Recheck(key: DerivativeKey)
    | Prune(key: DerivativeKey)
    | RecordPrune(key: DerivativeKey)
    | LosePrune(key: DerivativeKey)
    | Claim(w: string, u: string, now: nat, leaseSecs: nat)
    | Renew(w: string, now: nat, leaseSecs: nat)
    | Load(w: string)
    | Inspect(w: string, content: Content)
    | Pin(w: string, answered: bool)
    | Prepare(w: string)
    | StoreMaster(w: string, len: nat, sha: string, answered: bool)
    | StoreThumbnail(w: string, len: nat, sha: string, answered: bool)
    | Publish(w: string, answered: bool)
    | Abandon(w: string, outcome: Outcome)
    | Reject(w: string)
    | Conclude(w: string, retryAt: nat)
    | Crash(w: string)

  function JobOf(u: string): JobId { JobId(u, SOURCE_VALIDATION) }

  function PhaseOf(s: State, w: string): Phase {
    if w in s.phases then s.phases[w] else Idle
  }

  function Move(s: State, w: string, phase: Phase): State { s.(phases := s.phases[w := phase]) }

  function SetRow(s: State, u: string, row: Row): State { s.(rows := s.rows[u := row]) }

  /** The checks `validate_source` and `validate_downloaded_source` make before any byte moves. */
  function AfterLoad(c: Config, row: Row): Option<Outcome> {
    if row.state == UploadState.Rejected || row.state == Ready then Some(Succeeded)
    else if row.state != Quarantined && row.state != UploadState.Processing then
      Some(Transient("SOURCE_STATE_CONFLICT"))
    else if row.size > (if row.kind == Image then c.maxImageBytes else c.maxVideoBytes) then
      Some(Permanent("MEDIA_SIZE_EXCEEDED"))
    else None
  }

  function PresetFor(c: Config, s: State, u: string): string
    requires u in s.rows && JobOf(u) in s.jobs
  {
    c.preset(s.rows[u].tenant, s.jobs[JobOf(u)].revision)
  }

  function KeyFor(c: Config, s: State, u: string, content: Content, file: File): DerivativeKey
    requires u in s.rows && JobOf(u) in s.jobs
  {
    DerivativeKey(s.rows[u].tenant, u, content.digest, PresetFor(c, s, u), file)
  }

  /** `publish_derivatives`: insert each row, or accept an identical one; anything else rolls back. */
  function Merge(rows: map<Identity, Derivative>, ds: seq<Derivative>): Option<map<Identity, Derivative>>
    decreases |ds|
  {
    if ds == [] then Some(rows)
    else if ds[0].Id() in rows && rows[ds[0].Id()] != ds[0] then None
    else Merge(rows[ds[0].Id() := ds[0]], ds[1..])
  }

  function ApplyReserve(s: State, u: string, tenant: string, kind: MediaKind, size: nat): State {
    if u in s.rows || !TenantValid(tenant) || !UploadIdText(u) || size == 0 then s
    else SetRow(s, u, Row(tenant, kind, size, Created, None, None, false, map[]))
  }

  function ApplyConfirm(s: State, u: string, revision: Option<nat>, now: nat): State {
    if u in s.rows && s.rows[u].state == Created && JobOf(u) !in s.jobs then
      SetRow(s, u, s.rows[u].(state := Quarantined)).(jobs := Enqueued(s.jobs, JobOf(u), revision, now))
    else s
  }

  function ApplyDeletionRequest(s: State, u: string): State {
    if u in s.rows && (s.rows[u].state == Created || s.rows[u].state == Ready
                       || s.rows[u].state == UploadState.Rejected || s.rows[u].state == Failed) then
      SetRow(s, u, s.rows[u].(deleteRequested := true))
    else s
  }

  /** Cleanup deletes only recorded derivative keys, and rows hold some only once Ready. */
  function ApplyCleanupObject(s: State, u: string, key: DerivativeKey): State {
    if u in s.rows && s.rows[u].deleteRequested
       && (exists id :: id in s.rows[u].derivatives && s.rows[u].derivatives[id].key == key)
    then s.(store := s.store - {key})
    else s
  }

  /** The report of a finished cleanup: whatever happened under its lease, it only asks for a row not deleted. */
  function ApplyTombstone(s: State, u: string): State {
    if u in s.rows && s.rows[u].state != Deleted then SetRow(s, u, s.rows[u].(state := Deleted)) else s
  }

  predicate Recorded(s: State, key: DerivativeKey) {
    exists u, id :: u in s.rows && s.rows[u].state != Deleted && id in s.rows[u].derivatives
      && s.rows[u].derivatives[id].key == key
  }

  /** A listed key loses its suspicion if a row owns it, and otherwise keeps its first sighting. */
  function ApplyObserve(s: State, key: DerivativeKey): State {
    if key !in s.store then s
    else if Recorded(s, key) then s.(ledger := s.ledger.(suspects := s.ledger.suspects - {key}))
    else if key in s.ledger.suspects then s
    else s.(ledger := s.ledger.(suspects := s.ledger.suspects[key := s.ledger.clock]))
  }

  /** The last ownership check of a key suspected for at least the grace period. */
  function ApplyRecheck(c: Config, s: State, key: DerivativeKey): State {
    if key !in s.ledger.suspects || s.ledger.suspects[key] + c.grace > s.ledger.clock then s
    else if Recorded(s, key) then s.(ledger := s.ledger.(suspects := s.ledger.suspects - {key}))
    else s.(ledger := s.ledger.(cleared := s.ledger.cleared + {key}))
  }

  /** The provider call that follows the check, however much later. */
  function ApplyPrune(s: State, key: DerivativeKey): State {
    if key !in s.ledger.cleared then s
    else
      var l := s.ledger;
      s.(store := s.store - {key},
         ledger := l.(cleared := l.cleared - {key}, unrecorded := l.unrecorded + {key},
                      moment := l.moment + 1, prunedAt := l.prunedAt[key := l.moment]))
  }

  /** A recorded deletion ends the suspicion; one that a crash left unrecorded keeps its first sighting. */
  function ApplyRecordPrune(s: State, key: DerivativeKey): State {
    if key !in s.ledger.unrecorded then s
    else s.(ledger := s.ledger.(suspects := s.ledger.suspects - {key}, unrecorded := s.ledger.unrecorded - {key}))
  }

  function ApplyClaim(s: State, w: string, u: string, now: nat, leaseSecs: nat): State {
    if PhaseOf(s, w).Idle? && JobOf(u) in s.jobs && Claimable(s.jobs[JobOf(u)], now) then
      Move(s, w, Claimed(u, s.jobs[JobOf(u)].attempts + 1))
        .(jobs := JobQueue.Claimed(s.jobs, JobOf(u), w, now, leaseSecs))
    else s
  }

  /** A refused renewal drops the validation future. */
  function ApplyRenew(s: State, w: string, now: nat, leaseSecs: nat): State {
    var p := PhaseOf(s, w);
    if !p.Validating() && !p.Claimed? then s
    else if Renewable(s.jobs, JobOf(p.u), w, now) then
      s.(jobs := Renewed(s.jobs, JobOf(p.u), w, now, leaseSecs))
    else Move(s, w, Idle)
  }

  function ApplyLoad(c: Config, s: State, w: string): State {
    var p := PhaseOf(s, w);
    if !p.Claimed? then s
    else if p.u !in s.rows then Move(s, w, Ended(p.u, p.attempts, Transient("SOURCE_NOT_FOUND")))
    else
      var row := s.rows[p.u];
      match AfterLoad(c, row)
      case Some(outcome) => Move(s, w, Ended(p.u, p.attempts, outcome))
      case None => Move(s, w, Loaded(p.u, p.attempts, row))
  }

  /** Download, digest and inspection; the bytes found are arbitrary. */
  function ApplyInspect(s: State, w: string, content: Content): State {
    var p := PhaseOf(s, w);
    if p.Loaded? && LowerSha256(content.digest) && content.format.IsVideo() == p.source.kind.Video? then
      Move(s, w, Inspected(p.u, p.attempts, p.source, content))
    else s
  }

  /** Records the digest on the first attempt, compares it on every later one. */
  function ApplyPin(s: State, w: string, answered: bool): State {
    var p := PhaseOf(s, w);
    if !p.Inspected? || p.u !in s.rows then s
    else
      var row := s.rows[p.u];
      var failed := Ended(p.u, p.attempts, Transient("DATABASE_UNAVAILABLE"));
      var next := if answered then Pinned(p.u, p.attempts, p.content) else failed;
      if p.source.state == Quarantined then
        if row.state == Quarantined then
          Move(SetRow(s, p.u, row.(state := UploadState.Processing, pinned := Some(p.content), errorCode := None)), w,
               next)
        else if row.state == UploadState.Processing && row.pinned == Some(p.content) then Move(s, w, next)
        else Move(s, w, failed)
      else if p.source.pinned == Some(p.content) then Move(s, w, Pinned(p.u, p.attempts, p.content))
      else Move(s, w, Ended(p.u, p.attempts, Permanent("SOURCE_DIGEST_CHANGED")))
  }

  function ApplyPrepare(c: Config, s: State, w: string): State {
    var p := PhaseOf(s, w);
    if p.Pinned? && p.u in s.rows && JobOf(p.u) in s.jobs then
      Move(s, w, Prepared(p.u, p.attempts, p.content, PresetFor(c, s, p.u)))
    else s
  }

  function MasterOf(s: State, p: Phase, len: nat, sha: string): Derivative
    requires p.Prepared? && p.u in s.rows
  {
    var key := DerivativeKey(s.rows[p.u].tenant, p.u, p.content.digest, p.preset, p.content.format.MasterFile());
    if p.content.format.IsVideo() then
      Derivative(key, Master, p.content.format.ContainerType(), s.rows[p.u].size, p.content.digest)
    else Derivative(key, Master, "image/jpeg", len, sha)
  }

  function ThumbnailOf(s: State, p: Phase, len: nat, sha: string): Derivative
    requires p.MasterStored? && p.u in s.rows
  {
    Derivative(DerivativeKey(s.rows[p.u].tenant, p.u, p.content.digest, p.preset, ThumbnailJpg),
               Thumbnail, "image/jpeg", len, sha)
  }

  /** A generated file passes the size gate, and a deterministic renderer its own length. */
  predicate Producible(c: Config, key: DerivativeKey, len: nat) {
    0 < len <= c.maxImageBytes && (c.rendered.Some? ==> len == c.rendered.value(key))
  }

  function Stored(s: State, w: string, d: Derivative): State {
    s.(store := s.store[d.key := d.len], puts := s.puts + {PutRecord(w, d.key, d.len)},
       ledger := s.ledger.(moment := s.ledger.moment + 1,
                           putAt := s.ledger.putAt[Version(d.key, d.len) := s.ledger.moment]))
  }

  function ApplyStoreMaster(c: Config, s: State, w: string, len: nat, sha: string, answered: bool): State {
    var p := PhaseOf(s, w);
    if !p.Prepared? || p.u !in s.rows then s
    else
      var d := MasterOf(s, p, len, sha);
      if !p.content.format.IsVideo() && !Producible(c, d.key, len) then s
      else
        Move(Stored(s, w, d), w,
             if answered then MasterStored(p.u, p.attempts, p.content, p.preset, d)
             else Ended(p.u, p.attempts, Transient("STORAGE_UNAVAILABLE")))
  }

  function ApplyStoreThumbnail(c: Config, s: State, w: string, len: nat, sha: string, answered: bool): State {
    var p := PhaseOf(s, w);
    if !p.MasterStored? || p.u !in s.rows then s
    else
      var d := ThumbnailOf(s, p, len, sha);
      if !Producible(c, d.key, len) then s
      else
        Move(Stored(s, w, d), w,
             if answered then BothStored(p.u, p.attempts, p.content, p.preset, p.master, d)
             else Ended(p.u, p.attempts, Transient("STORAGE_UNAVAILABLE")))
  }

  /** The derivative rows and the Ready state commit together or not at all. */
  function ApplyPublish(s: State, w: string, answered: bool): State {
    var p := PhaseOf(s, w);
    if !p.BothStored? || p.u !in s.rows then s
    else
      var row := s.rows[p.u];
      var failed := Ended(p.u, p.attempts, Transient("DATABASE_UNAVAILABLE"));
      if row.state != UploadState.Processing && row.state != Ready then Move(s, w, failed)
      else
        match Merge(row.derivatives, [p.master, p.thumbnail])
        case None => Move(s, w, failed)
        case Some(merged) =>
          Move(SetRow(s, p.u, row.(derivatives := merged, state := Ready)), w,
               if answered then Ended(p.u, p.attempts, Succeeded) else failed)
  }

  /** Any fallible call may end the attempt with a failure of any class. */
  function ApplyAbandon(s: State, w: string, outcome: Outcome): State {
    var p := PhaseOf(s, w);
    if (p.Claimed? || p.Validating()) && !outcome.Succeeded? then Move(s, w, Ended(p.u, p.attempts, outcome)) else s
  }

  /** The tail of `run_one` up to the queue report. */
  function ApplyReject(c: Config, s: State, w: string): State {
    var p := PhaseOf(s, w);
    if !p.Ended? then s
    else match p.outcome
      case Succeeded => Move(s, w, Closing(p.u, ReportComplete))
      case Permanent(code) => MarkRejected(s, w, p.u, code, ReportComplete)
      case Transient(code) =>
        if p.attempts >= c.maxAttempts then MarkRejected(s, w, p.u, code, ReportFail)
        else Move(s, w, Closing(p.u, ReportFail))
      case Operational(_) => Move(s, w, Idle)
  }

  /** A row that can no longer be rejected ends the run with an error and no queue report. */
  function MarkRejected(s: State, w: string, u: string, code: string, report: Report): State {
    if u !in s.rows then Move(s, w, Idle)
    else
      var row := s.rows[u];
      if row.state == Quarantined || row.state == UploadState.Processing then
        Move(SetRow(s, u, row.(state := UploadState.Rejected, errorCode := Some(code))), w, Closing(u, report))
      else if row.state == UploadState.Rejected && row.errorCode == Some(code) then Move(s, w, Closing(u, report))
      else Move(s, w, Idle)
  }

  function ApplyConclude(c: Config, s: State, w: string, retryAt: nat): State {
    var p := PhaseOf(s, w);
    if !p.Closing? then s
    else
      var call := if p.report.ReportComplete? then CallComplete(JobOf(p.u), w)
                  else CallFail(JobOf(p.u), w, retryAt, c.maxAttempts);
      Move(s, w, Idle).(jobs := JobQueue.Apply(s.jobs, call))
  }

  function Apply(c: Config, s: State, step: Step): State {
    match step
    case Reserve(u, tenant, kind, size) => ApplyReserve(s, u, tenant, kind, size)
    case Confirm(u, revision, now) => ApplyConfirm(s, u, revision, now)
    case RequestDeletion(u) => ApplyDeletionRequest(s, u)
    case CleanupObject(u, key) => ApplyCleanupObject(s, u, key)
    case Tombstone(u) => ApplyTombstone(s, u)
    case Wait(duration) => s.(ledger := s.ledger.(clock := s.ledger.clock + duration))
    case Observe(key) => ApplyObserve(s, key)
    case Recheck(key) => ApplyRecheck(c, s, key)
    case Prune(key) => ApplyPrune(s, key)
    case RecordPrune(key) => ApplyRecordPrune(s, key)
    case LosePrune(key) => s.(ledger := s.ledger.(unrecorded := s.ledger.unrecorded - {key}))
    case Claim(w, u, now, leaseSecs) => ApplyClaim(s, w, u, now, leaseSecs)
    case Renew(w, now, leaseSecs) => ApplyRenew(s, w, now, leaseSecs)
    case Load(w) => ApplyLoad(c, s, w)
    case Inspect(w, content) => ApplyInspect(s, w, content)
    case Pin(w, answered) => ApplyPin(s, w, answered)
    case Prepare(w) => ApplyPrepare(c, s, w)
    case StoreMaster(w, len, sha, answered) => ApplyStoreMaster(c, s, w, len, sha, answered)
    case StoreThumbnail(w, len, sha, answered) => ApplyStoreThumbnail(c, s, w, len, sha, answered)
    case Publish(w, answered) => ApplyPublish(s, w, answered)
    case Abandon(w, outcome) => ApplyAbandon(s, w, outcome)
    case Reject(w) => ApplyReject(c, s, w)
    case Conclude(w, retryAt) => ApplyConclude(c, s, w, retryAt)
    case Crash(w) => Move(s, w, Idle)
  }

  /** Every sequence of steps is a run; a step that is not enabled changes nothing. */
  function Run(c: Config, s: State, steps: seq<Step>): State
    decreases steps
  {
    if steps == [] then s else Run(c, Apply(c, s, steps[0]), steps[1..])
  }

  const INITIAL := State(map[], map[], map[], map[], {}, Ledger(0, map[], {}, {}, 0, map[], map[]))

  ghost predicate ConfigOk(c: Config) {
    forall t, r :: Token(c.preset(t, r), 117)
  }
}
