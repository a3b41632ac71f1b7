/** Concrete runs: healthy attempts publish, published objects get lost, and a job is left for ever. */
module ProcessingRuns {
  import opened Basics
  import opened Domain
  import opened ObjectKeys
  import JobQueue
  import opened Processing
  import opened ProcessingSafety
  import opened ProcessingTheorems
  import opened ProcessingStorage
  import opened ProcessingJobs

  /** The row accepts `content`: nothing recorded yet, or the same bytes. */
  ghost predicate Pinnable(s: State, u: string, content: Content) {
    && u in s.rows && JobOf(u) in s.jobs && s.rows[u].errorCode == None
    && (|| s.rows[u].state == Quarantined
        || (s.rows[u].state == UploadState.Processing && s.rows[u].pinned == Some(content)))
  }

  /** Slot `w` can take the upload, and its bytes agree with its kind and with any digest already recorded. */
  ghost predicate Attemptable(c: Config, s: State, w: string, u: string, content: Content, now: nat, len: nat) {
    && PhaseOf(s, w).Idle? && Pinnable(s, u, content) && JobQueue.Claimable(s.jobs[JobOf(u)], now)
    && (content.format.IsVideo() <==> s.rows[u].kind == Video) && LowerSha256(content.digest)
    && s.rows[u].size <= (if s.rows[u].kind == Image then c.maxImageBytes else c.maxVideoBytes)
    && (content.format.IsVideo() || Producible(c, KeyFor(c, s, u, content, MasterJpg), len))
  }

  function PrepareSteps(w: string, u: string, content: Content, now: nat, leaseSecs: nat): seq<Step> {
    [Claim(w, u, now, leaseSecs), Load(w), Inspect(w, content), Pin(w, true), Prepare(w)]
  }

  ghost function AfterPrepare(c: Config, s: State, w: string, u: string, content: Content, now: nat,
                              leaseSecs: nat): State
    requires u in s.rows && JobOf(u) in s.jobs
  {
    s.(rows := s.rows[u := s.rows[u].(state := UploadState.Processing, pinned := Some(content))],
       jobs := JobQueue.Claimed(s.jobs, JobOf(u), w, now, leaseSecs),
       phases := s.phases[w := Prepared(u, s.jobs[JobOf(u)].attempts + 1, content, PresetFor(c, s, u))])
  }

  /** An image master is a new JPEG; a video master is the uploaded file under its own container. */
  ghost function MasterRecord(c: Config, s: State, u: string, content: Content, len: nat, sha: string): Derivative
    requires u in s.rows && JobOf(u) in s.jobs
  {
    var key := KeyFor(c, s, u, content, content.format.MasterFile());
    if content.format.IsVideo() then
      Derivative(key, Master, content.format.ContainerType(), s.rows[u].size, content.digest)
    else Derivative(key, Master, "image/jpeg", len, sha)
  }

  ghost function AfterMaster(c: Config, s: State, w: string, u: string, content: Content, now: nat, leaseSecs: nat,
                             len: nat, sha: string): State
    requires u in s.rows && JobOf(u) in s.jobs
  {
    var d := MasterRecord(c, s, u, content, len, sha);
    var s' := Stored(AfterPrepare(c, s, w, u, content, now, leaseSecs), w, d);
    s'.(phases := s.phases[w := MasterStored(u, s.jobs[JobOf(u)].attempts + 1, content, PresetFor(c, s, u), d)])
  }

  ghost function AfterLoading(s: State, w: string, u: string, now: nat, leaseSecs: nat): State
    requires u in s.rows && JobOf(u) in s.jobs
  {
    s.(jobs := JobQueue.Claimed(s.jobs, JobOf(u), w, now, leaseSecs),
       phases := s.phases[w := Loaded(u, s.jobs[JobOf(u)].attempts + 1, s.rows[u])])
  }

  /** The slot's state after each of the first three steps. */
  lemma LoadState(c: Config, s: State, w: string, u: string, content: Content, now: nat, leaseSecs: nat, len: nat)
    requires Attemptable(c, s, w, u, content, now, len)
    ensures ApplyLoad(c, ApplyClaim(s, w, u, now, leaseSecs), w) == AfterLoading(s, w, u, now, leaseSecs)
  {
    hide Producible;
    var p := Loaded(u, s.jobs[JobOf(u)].attempts + 1, s.rows[u]);
    assert ApplyClaim(s, w, u, now, leaseSecs).phases[w := p] == s.phases[w := p];
  }

  lemma InspectState(c: Config, s: State, w: string, u: string, content: Content, now: nat, leaseSecs: nat, len: nat)
    requires Attemptable(c, s, w, u, content, now, len)
    ensures ApplyInspect(AfterLoading(s, w, u, now, leaseSecs), w, content)
              == AfterInspect(s, w, u, content, now, leaseSecs)
  {
    hide Producible;
    var p := Inspected(u, s.jobs[JobOf(u)].attempts + 1, s.rows[u], content);
    assert AfterLoading(s, w, u, now, leaseSecs).phases[w := p] == s.phases[w := p];
  }

  lemma AttemptLoads(c: Config, s: State, w: string, u: string, content: Content, now: nat, leaseSecs: nat, len: nat,
                     rest: seq<Step>)
    returns (s3: State)
    requires Attemptable(c, s, w, u, content, now, len)
    ensures s3 == AfterInspect(s, w, u, content, now, leaseSecs)
    ensures Run(c, s, [Claim(w, u, now, leaseSecs), Load(w), Inspect(w, content)] + rest) == Run(c, s3, rest)
  {
    LoadState(c, s, w, u, content, now, leaseSecs, len);
    InspectState(c, s, w, u, content, now, leaseSecs, len);
    hide Run, ApplyClaim, ApplyLoad, ApplyInspect, AfterInspect, AfterLoading, Producible;
    var s1 := Apply(c, s, Claim(w, u, now, leaseSecs));
    var s2 := Apply(c, s1, Load(w));
    s3 := Apply(c, s2, Inspect(w, content));
    var r2 := [Inspect(w, content)] + rest;
    RunCons(c, s, Claim(w, u, now, leaseSecs), [Load(w)] + r2);
    RunCons(c, s1, Load(w), r2);
    RunCons(c, s2, Inspect(w, content), rest);
    assert [Claim(w, u, now, leaseSecs), Load(w), Inspect(w, content)] + rest
        == [Claim(w, u, now, leaseSecs)] + ([Load(w)] + r2);
  }

  /** Pinning succeeds on a quarantined row and on a row already pinned to the same bytes. */
  lemma PinAccepts(c: Config, s3: State, w: string)
    requires PhaseOf(s3, w).Inspected? && PhaseOf(s3, w).u in s3.rows
    requires var p := PhaseOf(s3, w); var row := s3.rows[p.u];
             row == p.source && row.errorCode == None
             && (row.state == Quarantined || (row.state == UploadState.Processing && row.pinned == Some(p.content)))
    ensures var p := PhaseOf(s3, w);
            var row' := s3.rows[p.u].(state := UploadState.Processing, pinned := Some(p.content));
            Apply(c, s3, Pin(w, true)) == Move(SetRow(s3, p.u, row'), w, Pinned(p.u, p.attempts, p.content))
  {
    var p := PhaseOf(s3, w);
    if s3.rows[p.u].state != Quarantined {
      assert SetRow(s3, p.u, s3.rows[p.u]) == s3;
    }
  }

  lemma AttemptPins(c: Config, s3: State, w: string, rest: seq<Step>) returns (s5: State)
    requires PhaseOf(s3, w).Inspected? && PhaseOf(s3, w).u in s3.rows && JobOf(PhaseOf(s3, w).u) in s3.jobs
    requires var p := PhaseOf(s3, w); var row := s3.rows[p.u];
             row == p.source && row.errorCode == None
             && (row.state == Quarantined || (row.state == UploadState.Processing && row.pinned == Some(p.content)))
    ensures var p := PhaseOf(s3, w);
            s5 == s3.(rows := s3.rows[p.u := s3.rows[p.u].(state := UploadState.Processing, pinned := Some(p.content))],
                      phases := s3.phases[w := Prepared(p.u, p.attempts, p.content, PresetFor(c, s3, p.u))])
    ensures Run(c, s3, [Pin(w, true), Prepare(w)] + rest) == Run(c, s5, rest)
  {
    hide Run;
    PinAccepts(c, s3, w);
    var s4 := Apply(c, s3, Pin(w, true));
    s5 := Apply(c, s4, Prepare(w));
    RunCons(c, s3, Pin(w, true), [Prepare(w)] + rest);
    RunCons(c, s4, Prepare(w), rest);
    assert [Pin(w, true), Prepare(w)] + rest == [Pin(w, true)] + ([Prepare(w)] + rest);
  }

  ghost function AfterInspect(s: State, w: string, u: string, content: Content, now: nat, leaseSecs: nat): State
    requires u in s.rows && JobOf(u) in s.jobs
  {
    s.(jobs := JobQueue.Claimed(s.jobs, JobOf(u), w, now, leaseSecs),
       phases := s.phases[w := Inspected(u, s.jobs[JobOf(u)].attempts + 1, s.rows[u], content)])
  }

  /** Claiming keeps the pinned policy revision, so the preset is the one selected at confirmation. */
  lemma PreparedState(c: Config, s: State, w: string, u: string, content: Content, now: nat, leaseSecs: nat)
    requires u in s.rows && JobOf(u) in s.jobs
    ensures var s3 := AfterInspect(s, w, u, content, now, leaseSecs);
            s3.(rows := s3.rows[u := s3.rows[u].(state := UploadState.Processing, pinned := Some(content))],
                phases := s3.phases[w := Prepared(u, s.jobs[JobOf(u)].attempts + 1, content, PresetFor(c, s3, u))])
            == AfterPrepare(c, s, w, u, content, now, leaseSecs)
  {
    var s3 := AfterInspect(s, w, u, content, now, leaseSecs);
    assert PresetFor(c, s3, u) == PresetFor(c, s, u);
    var p := Prepared(u, s.jobs[JobOf(u)].attempts + 1, content, PresetFor(c, s, u));
    assert s3.phases[w := p] == s.phases[w := p];
  }

  lemma InspectedThenPrepared(c: Config, s: State, w: string, u: string, content: Content, now: nat, leaseSecs: nat,
                              rest: seq<Step>)
    requires Pinnable(s, u, content)
    ensures Run(c, AfterInspect(s, w, u, content, now, leaseSecs), [Pin(w, true), Prepare(w)] + rest)
         == Run(c, AfterPrepare(c, s, w, u, content, now, leaseSecs), rest)
  {
    hide Run, Apply, AfterPrepare;
    var s5 := AttemptPins(c, AfterInspect(s, w, u, content, now, leaseSecs), w, rest);
    PreparedState(c, s, w, u, content, now, leaseSecs);
  }

  lemma AttemptPrepares(c: Config, s: State, w: string, u: string, content: Content, now: nat, leaseSecs: nat,
                        len: nat, rest: seq<Step>)
    requires Attemptable(c, s, w, u, content, now, len)
    ensures Run(c, s, PrepareSteps(w, u, content, now, leaseSecs) + rest)
         == Run(c, AfterPrepare(c, s, w, u, content, now, leaseSecs), rest)
  {
    hide Run, Apply, AfterPrepare, AfterInspect;
    var r3 := [Pin(w, true), Prepare(w)] + rest;
    var s3 := AttemptLoads(c, s, w, u, content, now, leaseSecs, len, r3);
    InspectedThenPrepared(c, s, w, u, content, now, leaseSecs, rest);
    assert PrepareSteps(w, u, content, now, leaseSecs) + rest
        == [Claim(w, u, now, leaseSecs), Load(w), Inspect(w, content)] + r3;
  }

  lemma MasterStep(c: Config, s: State, w: string, u: string, content: Content, now: nat, leaseSecs: nat, len: nat,
                   sha: string)
    requires Attemptable(c, s, w, u, content, now, len)
    ensures ApplyStoreMaster(c, AfterPrepare(c, s, w, u, content, now, leaseSecs), w, len, sha, true)
         == AfterMaster(c, s, w, u, content, now, leaseSecs, len, sha)
  {
  }

  lemma AttemptStoresMaster(c: Config, s: State, w: string, u: string, content: Content, now: nat, leaseSecs: nat,
                            len: nat, sha: string, rest: seq<Step>)
    requires Attemptable(c, s, w, u, content, now, len)
    ensures Run(c, s, PrepareSteps(w, u, content, now, leaseSecs) + [StoreMaster(w, len, sha, true)] + rest)
         == Run(c, AfterMaster(c, s, w, u, content, now, leaseSecs, len, sha), rest)
  {
    hide Run, ApplyStoreMaster, AfterPrepare, AfterMaster, Producible;
    MasterStep(c, s, w, u, content, now, leaseSecs, len, sha);
    AttemptPrepares(c, s, w, u, content, now, leaseSecs, len, [StoreMaster(w, len, sha, true)] + rest);
    var s5 := AfterPrepare(c, s, w, u, content, now, leaseSecs);
    RunCons(c, s5, StoreMaster(w, len, sha, true), rest);
    assert PrepareSteps(w, u, content, now, leaseSecs) + [StoreMaster(w, len, sha, true)] + rest
        == PrepareSteps(w, u, content, now, leaseSecs) + ([StoreMaster(w, len, sha, true)] + rest);
  }

  lemma ThumbnailStored(c: Config, s: State, w: string, len: nat, sha: string)
    requires PhaseOf(s, w).MasterStored? && PhaseOf(s, w).u in s.rows
    requires Producible(c, ThumbnailOf(s, PhaseOf(s, w), len, sha).key, len)
    ensures var p := PhaseOf(s, w);
            var d := ThumbnailOf(s, p, len, sha);
            Apply(c, s, StoreThumbnail(w, len, sha, true))
            == Move(Stored(s, w, d), w, BothStored(p.u, p.attempts, p.content, p.preset, p.master, d))
  {
  }

  lemma FirstPublication(s: State, w: string)
    requires PhaseOf(s, w).BothStored? && PhaseOf(s, w).u in s.rows
             && PhaseOf(s, w).master.Id() != PhaseOf(s, w).thumbnail.Id()
    requires s.rows[PhaseOf(s, w).u].state == UploadState.Processing && s.rows[PhaseOf(s, w).u].derivatives == map[]
    ensures var p := PhaseOf(s, w);
            var row := s.rows[p.u].(state := Ready,
                                    derivatives := map[p.master.Id() := p.master, p.thumbnail.Id() := p.thumbnail]);
            ApplyPublish(s, w, true) == Move(SetRow(s, p.u, row), w, Ended(p.u, p.attempts, Succeeded))
  {
    MergeTwo(s.rows[PhaseOf(s, w).u].derivatives, PhaseOf(s, w).master, PhaseOf(s, w).thumbnail);
  }

  /** After the thumbnail is stored, publishing makes the row Ready with exactly the two held records. */
  lemma StoreAndPublish(c: Config, s: State, w: string, len: nat, sha: string, rest: seq<Step>)
    returns (s': State, d: Derivative)
    requires PhaseOf(s, w).MasterStored? && PhaseOf(s, w).u in s.rows && PhaseOf(s, w).master.variant == Master
    requires s.rows[PhaseOf(s, w).u].state == UploadState.Processing && s.rows[PhaseOf(s, w).u].derivatives == map[]
    requires Producible(c, ThumbnailOf(s, PhaseOf(s, w), len, sha).key, len)
    ensures d == ThumbnailOf(s, PhaseOf(s, w), len, sha)
    ensures var p := PhaseOf(s, w);
            s' == Stored(s, w, d).(phases := s.phases[w := Ended(p.u, p.attempts, Succeeded)],
                                   rows := s.rows[p.u := s.rows[p.u].(state := Ready,
                                     derivatives := map[p.master.Id() := p.master, d.Id() := d])])
    ensures Run(c, s, [StoreThumbnail(w, len, sha, true), Publish(w, true)] + rest) == Run(c, s', rest)
  {
    hide Run;
    var p := PhaseOf(s, w);
    d := ThumbnailOf(s, p, len, sha);
    var s1 := Move(Stored(s, w, d), w, BothStored(p.u, p.attempts, p.content, p.preset, p.master, d));
    ThumbnailStored(c, s, w, len, sha);
    FirstPublication(s1, w);
    s' := Apply(c, s1, Publish(w, true));
    assert s1.phases[w := Ended(p.u, p.attempts, Succeeded)] == s.phases[w := Ended(p.u, p.attempts, Succeeded)];
    RunCons(c, s, StoreThumbnail(w, len, sha, true), [Publish(w, true)] + rest);
    RunCons(c, s1, Publish(w, true), rest);
    assert [StoreThumbnail(w, len, sha, true), Publish(w, true)] + rest
        == [StoreThumbnail(w, len, sha, true)] + ([Publish(w, true)] + rest);
  }

  // ----- One image upload -----

  function Upload(): string { seq(36, i => '0') }

  function Photo(): Content { Content(seq(64, i => 'a'), Png) }

  function PresetName(): string { "board-default-v1" }

  /** An hour of grace, the least a policy allows. */
  const HOUR: nat := 3600

  function ConfigWith(rendered: Option<DerivativeKey -> nat>): Config {
    Config(3, 100, 100, (t, r) => PresetName(), rendered, HOUR)
  }

  function SubmitSteps(): seq<Step> { [Reserve(Upload(), "site-a", Image, 10), Confirm(Upload(), None, 0)] }

  ghost function Submitted(): State {
    State(map[Upload() := Row("site-a", Image, 10, Quarantined, None, None, false, map[])],
          map[JobOf(Upload()) := JobQueue.Job(None, JobQueue.Queued, 0, 0)], map[], map[], {}, INITIAL.ledger)
  }

  lemma SubmitRun(c: Config, rest: seq<Step>)
    ensures Run(c, INITIAL, SubmitSteps() + rest) == Run(c, Submitted(), rest)
  {
    var u := Upload();
    assert TenantValid("site-a");
    assert UploadIdText(u);
    var s1 := Apply(c, INITIAL, Reserve(u, "site-a", Image, 10));
    assert s1.rows == map[u := Row("site-a", Image, 10, Created, None, None, false, map[])];
    assert JobQueue.Stamp(0) == 0;
    var s2 := Apply(c, s1, Confirm(u, None, 0));
    assert s2 == Submitted();
    RunCons(c, INITIAL, Reserve(u, "site-a", Image, 10), [Confirm(u, None, 0)] + rest);
    RunCons(c, s1, Confirm(u, None, 0), rest);
    assert SubmitSteps() + rest == [Reserve(u, "site-a", Image, 10)] + ([Confirm(u, None, 0)] + rest);
  }

  lemma PhotoAttemptable(c: Config)
    requires c.maxImageBytes == 100 && (c.rendered.None? || forall k :: c.rendered.value(k) == 1)
    ensures Attemptable(c, Submitted(), "a", Upload(), Photo(), 0, 1)
  {
    assert JobQueue.Stamp(0) == 0;
  }

  predicate HoldsMaster(p: Phase) {
    p.MasterStored? && p.u == Upload() && p.content == Photo() && p.preset == PresetName() && p.master.variant == Master
  }

  /** Slot "a" stored its master and crashed; inventory sees the key at once and again an hour later. */
  lemma OrphanAges(c: Config, s1: State, key: DerivativeKey, rest: seq<Step>) returns (s: State)
    requires c.grace == HOUR && s1.ledger.suspects == map[] && s1.ledger.cleared == {} && s1.ledger.clock == 0
    requires key in s1.store && !Recorded(s1, key)
    ensures Run(c, s1, [Crash("a"), Observe(key), Wait(HOUR), Observe(key)] + rest) == Run(c, s, rest)
    ensures s == s1.(phases := s1.phases["a" := Idle],
                     ledger := s1.ledger.(clock := HOUR, suspects := map[key := 0]))
  {
    hide Run;
    var a1 := Apply(c, s1, Crash("a"));
    assert !Recorded(a1, key);
    var a2 := Apply(c, a1, Observe(key));
    var a3 := Apply(c, a2, Wait(HOUR));
    assert !Recorded(a3, key);
    s := Apply(c, a3, Observe(key));
    RunCons(c, s1, Crash("a"), [Observe(key), Wait(HOUR), Observe(key)] + rest);
    RunCons(c, a1, Observe(key), [Wait(HOUR), Observe(key)] + rest);
    RunCons(c, a2, Wait(HOUR), [Observe(key)] + rest);
    RunCons(c, a3, Observe(key), rest);
    assert [Crash("a"), Observe(key), Wait(HOUR), Observe(key)] + rest
        == [Crash("a")] + ([Observe(key), Wait(HOUR), Observe(key)] + rest);
    assert [Observe(key), Wait(HOUR), Observe(key)] + rest == [Observe(key)] + ([Wait(HOUR), Observe(key)] + rest);
    assert [Wait(HOUR), Observe(key)] + rest == [Wait(HOUR)] + ([Observe(key)] + rest);
  }

  lemma OrphanDeleted(c: Config, s: State, key: DerivativeKey, rest: seq<Step>) returns (s': State)
    requires c.grace == HOUR && s.ledger.clock == HOUR && s.ledger.suspects == map[key := 0]
    requires s.ledger.cleared == {} && !Recorded(s, key)
    ensures Run(c, s, [Recheck(key), Prune(key)] + rest) == Run(c, s', rest)
    ensures s' == s.(store := s.store - {key}, ledger := s'.ledger)
  {
    hide Run;
    var a1 := Apply(c, s, Recheck(key));
    s' := Apply(c, a1, Prune(key));
    RunCons(c, s, Recheck(key), [Prune(key)] + rest);
    RunCons(c, a1, Prune(key), rest);
    assert [Recheck(key), Prune(key)] + rest == [Recheck(key)] + ([Prune(key)] + rest);
  }

  function FirstAttempt(): seq<Step> {
    PrepareSteps("a", Upload(), Photo(), 0, 60) + [StoreMaster("a", 1, "m", true)]
  }

  function SecondAttempt(now: nat): seq<Step> {
    PrepareSteps("b", Upload(), Photo(), now, 60) + [StoreMaster("b", 1, "m", true)]
  }

  ghost function FirstKey(c: Config): DerivativeKey { KeyFor(c, Submitted(), Upload(), Photo(), MasterJpg) }

  /** The second attempt puts the aged orphan's key again, and only then is the orphan deleted. */
  lemma OrphanReclaimed(c: Config, rest: seq<Step>) returns (s: State, steps: seq<Step>)
    requires c == ConfigWith(Some((k: DerivativeKey) => 1))
    ensures Run(c, INITIAL, steps + rest) == Run(c, s, rest)
    ensures Upload() in s.rows && s.rows[Upload()].state == UploadState.Processing
    ensures s.rows[Upload()].derivatives == map[] && !s.rows[Upload()].deleteRequested
    ensures HoldsMaster(PhaseOf(s, "b")) && PhaseOf(s, "b").master.key == FirstKey(c) && FirstKey(c) !in s.store
    ensures s.rows[Upload()].tenant == "site-a"
  {
    hide Run;
    var u, photo, key := Upload(), Photo(), FirstKey(c);
    var late := HOUR * JobQueue.NANOS;
    var orphan := [Crash("a"), Observe(key), Wait(HOUR), Observe(key)];
    var prune := [Recheck(key), Prune(key)];
    var second := SecondAttempt(late);
    steps := SubmitSteps() + (FirstAttempt() + (orphan + (second + prune)));
    SubmitRun(c, FirstAttempt() + (orphan + (second + (prune + rest))));
    PhotoAttemptable(c);
    AttemptStoresMaster(c, Submitted(), "a", u, photo, 0, 60, 1, "m", orphan + (second + (prune + rest)));
    var s1 := AfterMaster(c, Submitted(), "a", u, photo, 0, 60, 1, "m");
    var s2 := OrphanAges(c, s1, key, second + (prune + rest));
    assert JobQueue.Stamp(0) == 0 && JobQueue.Stamp(late) == HOUR;
    assert Attemptable(c, s2, "b", u, photo, late, 1);
    AttemptStoresMaster(c, s2, "b", u, photo, late, 60, 1, "m", prune + rest);
    var s3 := AfterMaster(c, s2, "b", u, photo, late, 60, 1, "m");
    s := OrphanDeleted(c, s3, key, rest);
    assert steps + rest == SubmitSteps() + (FirstAttempt() + (orphan + (second + (prune + rest))));
  }

  /**
   * An orphan left by a crashed attempt outlives the grace period, the next attempt puts the same
   * key, and inventory's last check comes before that attempt publishes: the upload is Ready, its
   * master is gone, and the key was deleted after its last put.
   */
  lemma AgedOrphanLosesReadyObject() returns (c: Config, steps: seq<Step>, id: Identity)
    ensures c.rendered.Some? && c.grace >= HOUR
    ensures var s := Run(c, INITIAL, steps);
            Published(s, Upload(), id) && s.rows[Upload()].derivatives[id].key !in s.store
            && PrunedLast(s.ledger, s.rows[Upload()].derivatives[id].key)
  {
    c := ConfigWith(Some((k: DerivativeKey) => 1));
    var publish := [StoreThumbnail("b", 1, "t", true), Publish("b", true)];
    var s, prefix := OrphanReclaimed(c, publish);
    id := PhaseOf(s, "b").master.Id();
    steps := prefix + publish;
    var s', d := StoreAndPublish(c, s, "b", 1, "t", []);
    assert publish + [] == publish;
    assert d.key != FirstKey(c);
    ObjectLostExactly(c, steps, Upload(), id);
  }

  /** Slot "a" has stored its master; its lease runs out and slot "b" does the same. */
  lemma TwoAttempts(c: Config, rest: seq<Step>) returns (s2: State, steps: seq<Step>)
    requires c == ConfigWith(None)
    ensures Run(c, INITIAL, steps + rest) == Run(c, s2, rest)
    ensures Upload() in s2.rows && s2.rows[Upload()].state == UploadState.Processing
    ensures s2.rows[Upload()].derivatives == map[] && !s2.rows[Upload()].deleteRequested
    ensures HoldsMaster(PhaseOf(s2, "a")) && HoldsMaster(PhaseOf(s2, "b"))
  {
    hide Run, Apply;
    var u, photo := Upload(), Photo();
    var s0 := Submitted();
    PhotoAttemptable(c);
    var late := 60 * JobQueue.NANOS;
    assert JobQueue.Stamp(0) == 0 && JobQueue.Stamp(late) == 60;
    var s1 := AfterMaster(c, s0, "a", u, photo, 0, 60, 1, "m");
    assert Attemptable(c, s1, "b", u, photo, late, 1);
    s2 := AfterMaster(c, s1, "b", u, photo, late, 60, 1, "m");
    var first, second := FirstAttempt(), SecondAttempt(late);
    steps := SubmitSteps() + (first + second);
    SubmitRun(c, first + (second + rest));
    AttemptStoresMaster(c, s0, "a", u, photo, 0, 60, 1, "m", second + rest);
    AttemptStoresMaster(c, s1, "b", u, photo, late, 60, 1, "m", rest);
    assert steps + rest == SubmitSteps() + (first + (second + rest));
  }

  /** With a renderer that may vary, an attempt that lost its lease overwrites a Ready object. */
  lemma VaryingRendererOverwritesReadyObject() returns (c: Config, steps: seq<Step>, id: Identity)
    ensures c.rendered.None?
    ensures var s := Run(c, INITIAL, steps);
            Published(s, Upload(), id)
            && var d := s.rows[Upload()].derivatives[id];
            d.key in s.store && s.store[d.key] != d.len
  {
    c := ConfigWith(None);
    var overwrite := StoreThumbnail("b", 2, "x", true);
    var publish := [StoreThumbnail("a", 1, "t", true), Publish("a", true)] + [overwrite];
    var s2, attempts := TwoAttempts(c, publish);
    steps := attempts + publish;
    var s3, d := StoreAndPublish(c, s2, "a", 1, "t", [overwrite]);
    id := d.Id();
    assert ThumbnailOf(s3, PhaseOf(s3, "b"), 2, "x").key == d.key;
    RunOne(c, s3, overwrite);
  }

  lemma ReportRun(c: Config, s: State, w: string, retryAt: nat)
    requires PhaseOf(s, w).Ended? && PhaseOf(s, w).outcome == Succeeded
    requires JobQueue.OwnedBy(s.jobs, JobOf(PhaseOf(s, w).u), w)
    ensures var s' := Run(c, s, [Reject(w)] + [Conclude(w, retryAt)]);
            s'.rows == s.rows && s'.store == s.store && s'.jobs == JobQueue.Finish(s.jobs, JobOf(PhaseOf(s, w).u))
  {
    var s1 := Apply(c, s, Reject(w));
    assert s1 == Move(s, w, Closing(PhaseOf(s, w).u, ReportComplete));
    RunCons(c, s, Reject(w), [Conclude(w, retryAt)]);
    RunOne(c, s1, Conclude(w, retryAt));
  }

  ghost function ThumbnailRecord(c: Config, s: State, u: string, content: Content, len: nat): Derivative
    requires u in s.rows && JobOf(u) in s.jobs
  {
    Derivative(KeyFor(c, s, u, content, ThumbnailJpg), Thumbnail, "image/jpeg", len, "t")
  }

  /**
   * A healthy attempt on any upload, image or video, first or repeated, ends Ready with its job
   * completed, and its two derivatives are recorded and stored under the preset of the job's policy
   * revision: a rendered image master, or the uploaded file itself under its own container.
   */
  lemma HealthyAttemptPublishes(c: Config, s: State, w: string, u: string, content: Content, now: nat, leaseSecs: nat,
                                len: nat, thumbLen: nat, retryAt: nat)
    requires Attemptable(c, s, w, u, content, now, len) && s.rows[u].derivatives == map[]
    requires Producible(c, KeyFor(c, s, u, content, ThumbnailJpg), thumbLen)
    ensures var steps := PrepareSteps(w, u, content, now, leaseSecs) + [StoreMaster(w, len, "m", true)]
              + ([StoreThumbnail(w, thumbLen, "t", true), Publish(w, true)] + ([Reject(w)] + [Conclude(w, retryAt)]));
            var s' := Run(c, s, steps);
            && u in s'.rows && s'.rows[u].state == Ready && JobOf(u) in s'.jobs
            && s'.jobs[JobOf(u)].state == JobQueue.Completed
            && var row, video := s.rows[u], s.rows[u].kind == Video;
               var preset := c.preset(row.tenant, s.jobs[JobOf(u)].revision);
            && s'.rows[u].derivatives.Keys == {Identity(preset, Master), Identity(preset, Thumbnail)}
            && var m, t := s'.rows[u].derivatives[Identity(preset, Master)],
                           s'.rows[u].derivatives[Identity(preset, Thumbnail)];
            && m == Derivative(DerivativeKey(row.tenant, u, content.digest, preset, m.key.file), Master, m.contentType,
                               if video then row.size else len, if video then content.digest else "m")
            && MasterForm(content.format, m.key.file, m.contentType)
            && t == Derivative(DerivativeKey(row.tenant, u, content.digest, preset, ThumbnailJpg), Thumbnail,
                               "image/jpeg", thumbLen, "t")
            && s'.store == s.store[m.key := m.len][t.key := t.len]
  {
    hide Run;
    var finish := [Reject(w)] + [Conclude(w, retryAt)];
    var publish := [StoreThumbnail(w, thumbLen, "t", true), Publish(w, true)] + finish;
    AttemptStoresMaster(c, s, w, u, content, now, leaseSecs, len, "m", publish);
    var s1 := AfterMaster(c, s, w, u, content, now, leaseSecs, len, "m");
    var s2, d := StoreAndPublish(c, s1, w, thumbLen, "t", finish);
    assert d == ThumbnailRecord(c, s, u, content, thumbLen);
    ReportRun(c, s2, w, retryAt);
  }

  // ----- A job left for ever -----

  function LapseSteps(u: string): seq<Step> { [Crash("a")] + ([RequestDeletion(u)] + [Tombstone(u)]) }

  lemma CrashThenDelete(c: Config, s: State, u: string)
    requires u in s.rows && s.rows[u].state == Ready
    ensures var s' := Run(c, s, LapseSteps(u));
            Gone(s', u) && s'.jobs == s.jobs && PhaseOf(s', "a").Idle?
  {
    hide Run;
    var s1 := Move(s, "a", Idle);
    assert Apply(c, s, Crash("a")) == s1;
    var s2 := Apply(c, s1, RequestDeletion(u));
    RunCons(c, s, Crash("a"), [RequestDeletion(u)] + [Tombstone(u)]);
    RunCons(c, s1, RequestDeletion(u), [Tombstone(u)]);
    RunOne(c, s2, Tombstone(u));
  }

  /**
   * The worker crashes between publication and its report, the upload is then deleted and
   * tombstoned: its job is leased again and again, and never completed or dead-lettered.
   */
  lemma DeletedUploadStrandsItsJob() returns (c: Config, steps: seq<Step>)
    ensures var s := Run(c, INITIAL, steps);
            Gone(s, Upload()) && Unfinished(s, Upload()) && !CanFinish(c, s, Upload())
  {
    hide Run, Apply, CanFinish, LapseSteps;
    c := ConfigWith(None);
    var u := Upload();
    var publish := [StoreThumbnail("a", 1, "t", true), Publish("a", true)] + LapseSteps(u);
    steps := SubmitSteps() + (FirstAttempt() + publish);
    SubmitRun(c, FirstAttempt() + publish);
    PhotoAttemptable(c);
    AttemptStoresMaster(c, Submitted(), "a", u, Photo(), 0, 60, 1, "m", publish);
    var s1 := AfterMaster(c, Submitted(), "a", u, Photo(), 0, 60, 1, "m");
    var s2, d := StoreAndPublish(c, s1, "a", 1, "t", LapseSteps(u));
    CrashThenDelete(c, s2, u);
    TombstonedJobFinishesExactly(c, steps, u);
  }

  // ----- Inventory and deletion, undisturbed -----

  /** The first sighting of an object no row records, the grace period, and the recheck. */
  lemma OrphanIsCleared(c: Config, s: State, key: DerivativeKey, rest: seq<Step>) returns (s3: State)
    requires key in s.store && !Recorded(s, key)
    requires key !in s.ledger.suspects && key !in s.ledger.cleared && key !in s.ledger.unrecorded
    ensures Run(c, s, [Observe(key)] + ([Wait(c.grace)] + ([Recheck(key)] + rest))) == Run(c, s3, rest)
    ensures var l := s.ledger;
            s3 == s.(ledger := l.(clock := l.clock + c.grace, suspects := l.suspects[key := l.clock],
                                  cleared := l.cleared + {key}))
  {
    hide Run, Recorded;
    var s1 := Apply(c, s, Observe(key));
    RunCons(c, s, Observe(key), [Wait(c.grace)] + ([Recheck(key)] + rest));
    var s2 := Apply(c, s1, Wait(c.grace));
    RunCons(c, s1, Wait(c.grace), [Recheck(key)] + rest);
    SameRows(s, s2, key);
    s3 := Apply(c, s2, Recheck(key));
    RunCons(c, s2, Recheck(key), rest);
  }

  /** An object no row records is deleted once it was suspected for the grace period, and its suspicion ends. */
  lemma OrphanIsPruned(c: Config, s: State, key: DerivativeKey)
    requires key in s.store && !Recorded(s, key)
    requires key !in s.ledger.suspects && key !in s.ledger.cleared && key !in s.ledger.unrecorded
    ensures var last := [Prune(key)] + [RecordPrune(key)];
            var t := Run(c, s, [Observe(key)] + ([Wait(c.grace)] + ([Recheck(key)] + last)));
            && t == s.(store := s.store - {key}, ledger := t.ledger)
            && t.ledger.suspects == s.ledger.suspects && t.ledger.cleared == s.ledger.cleared
            && t.ledger.unrecorded == s.ledger.unrecorded && t.ledger.clock == s.ledger.clock + c.grace
            && key in t.ledger.prunedAt && t.ledger.prunedAt[key] == s.ledger.moment
  {
    hide Run, Recorded;
    var l := s.ledger;
    var s3 := OrphanIsCleared(c, s, key, [Prune(key)] + [RecordPrune(key)]);
    var s4 := Apply(c, s3, Prune(key));
    RunCons(c, s3, Prune(key), [RecordPrune(key)]);
    RunOne(c, s4, RecordPrune(key));
    assert l.cleared + {key} - {key} == l.cleared && l.unrecorded + {key} - {key} == l.unrecorded;
    assert l.suspects[key := l.clock] - {key} == l.suspects;
  }

  lemma SameRows(s: State, s': State, key: DerivativeKey)
    requires s'.rows == s.rows
    ensures Recorded(s', key) <==> Recorded(s, key)
  {
  }

  /** An object a row records loses its suspicion, and inventory does not delete it. */
  lemma RecordedIsSpared(c: Config, s: State, key: DerivativeKey)
    requires key in s.store && Recorded(s, key) && key !in s.ledger.cleared
    ensures var t := Run(c, s, [Recheck(key)] + ([Observe(key)] + [Prune(key)]));
            t == s.(ledger := s.ledger.(suspects := s.ledger.suspects - {key}))
  {
    hide Run, Recorded;
    var s1 := Apply(c, s, Recheck(key));
    RunCons(c, s, Recheck(key), [Observe(key)] + [Prune(key)]);
    SameRows(s, s1, key);
    var s2 := Apply(c, s1, Observe(key));
    RunCons(c, s1, Observe(key), [Prune(key)]);
    RunOne(c, s2, Prune(key));
  }

  /** Cleanup deletes a recorded object once its upload's deletion was requested and not before. */
  lemma DeletionRemovesObject(c: Config, s: State, u: string, id: Identity)
    requires u in s.rows && s.rows[u].state == Ready && !s.rows[u].deleteRequested && id in s.rows[u].derivatives
    ensures var key := s.rows[u].derivatives[id].key;
            && Apply(c, s, CleanupObject(u, key)) == s
            && Run(c, s, [RequestDeletion(u)] + ([CleanupObject(u, key)] + [Tombstone(u)]))
               == SetRow(s, u, s.rows[u].(state := Deleted, deleteRequested := true)).(store := s.store - {key})
  {
    hide Run;
    var key := s.rows[u].derivatives[id].key;
    var s1 := Apply(c, s, RequestDeletion(u));
    RunCons(c, s, RequestDeletion(u), [CleanupObject(u, key)] + [Tombstone(u)]);
    assert s1 == SetRow(s, u, s.rows[u].(deleteRequested := true));
    var s2 := Apply(c, s1, CleanupObject(u, key));
    RunCons(c, s1, CleanupObject(u, key), [Tombstone(u)]);
    assert s2 == s1.(store := s.store - {key});
    RunOne(c, s2, Tombstone(u));
    assert s1.rows[u := s1.rows[u].(state := Deleted)] == s.rows[u := s1.rows[u].(state := Deleted)];
  }

  /** A deletion request is recorded exactly in the four states that take one, and changes nothing else. */
  lemma DeletionRequestExactly(c: Config, s: State, u: string)
    requires u in s.rows
    ensures Apply(c, s, RequestDeletion(u))
         == if s.rows[u].state in {Created, Ready, UploadState.Rejected, Failed}
            then SetRow(s, u, s.rows[u].(deleteRequested := true)) else s
  {
  }
}
