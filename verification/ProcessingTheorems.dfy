/** What every run of the worker protocol guarantees. */
module ProcessingTheorems {
  import opened Basics
  import opened Domain
  import opened ObjectKeys
  import opened Processing
  import opened ProcessingSafety

  lemma InitialInv(c: Config)
    ensures Inv(c, INITIAL)
  {
  }

  lemma {:induction false} RunAppend(c: Config, s: State, a: seq<Step>, b: seq<Step>)
    ensures Run(c, s, a + b) == Run(c, Run(c, s, a), b)
    decreases a
  {
    if a == [] {
      assert a + b == b;
    } else {
      assert (a + b)[1..] == a[1..] + b;
      RunAppend(c, Apply(c, s, a[0]), a[1..], b);
    }
  }

  lemma RunOne(c: Config, s: State, step: Step)
    ensures Run(c, s, [step]) == Apply(c, s, step)
  {
    assert [step][1..] == [];
    assert Run(c, s, [step]) == Run(c, Apply(c, s, step), []);
  }

  lemma RunCons(c: Config, s: State, step: Step, rest: seq<Step>)
    ensures Run(c, s, [step] + rest) == Run(c, Apply(c, s, step), rest)
  {
    assert ([step] + rest)[1..] == rest;
  }

  /** However workers, crashes, retries, deletion and inventory interleave, an outcome is decided once. */
  lemma OutcomeDecidedOnce(c: Config, before: seq<Step>, after: seq<Step>, u: string)
    requires u in Run(c, INITIAL, before).rows && Run(c, INITIAL, before).rows[u].state.Decided()
    ensures u in Run(c, INITIAL, before + after).rows
    ensures var r, r' := Run(c, INITIAL, before).rows[u], Run(c, INITIAL, before + after).rows[u];
            && (r'.state == r.state || r'.state == Deleted)
            && r'.pinned == r.pinned && r'.derivatives == r.derivatives
  {
    InitialInv(c);
    RunKeeps(c, INITIAL, before);
    RunAppend(c, INITIAL, before, after);
    RunKeeps(c, Run(c, INITIAL, before), after);
  }

  /** The master's file and content type for each source format: a new JPEG, or the video's own container. */
  predicate MasterForm(format: Format, file: File, contentType: string) {
    match format
    case Mp4 => file == MasterMp4 && contentType == "video/mp4"
    case QuickTime => file == MasterMov && contentType == "video/quicktime"
    case Webm => file == MasterWebm && contentType == "video/webm"
    case _ => file == MasterJpg && contentType == "image/jpeg"
  }

  /**
   * Ready means exactly one master and one thumbnail of one preset under the recorded digest, each
   * stored by a worker at the recorded length before the row became Ready.
   */
  lemma {:induction false} ReadyIsComplete(c: Config, steps: seq<Step>, u: string)
    requires u in Run(c, INITIAL, steps).rows && Run(c, INITIAL, steps).rows[u].state == Ready
    ensures var s := Run(c, INITIAL, steps);
            && JobOf(u) in s.jobs && s.rows[u].pinned.Some?
            && var row, content := s.rows[u], s.rows[u].pinned.value;
            && var p := c.preset(row.tenant, s.jobs[JobOf(u)].revision);
            && row.derivatives.Keys == {Identity(p, Master), Identity(p, Thumbnail)}
            && (forall v: Variant :: v == Master || v == Thumbnail ==>
                 var d := row.derivatives[Identity(p, v)];
                 && d.key == DerivativeKey(row.tenant, u, content.digest, p, d.key.file) && d.len > 0
                 && (if v == Master then MasterForm(content.format, d.key.file, d.contentType)
                     else d.key.file == ThumbnailJpg && d.contentType == "image/jpeg")
                 && exists w :: PutRecord(w, d.key, d.len) in s.puts)
  {
    InitialInv(c);
    RunKeeps(c, INITIAL, steps);
    var s := Run(c, INITIAL, steps);
    assert RowOk(c, s, u);
    var p := PresetFor(c, s, u);
    forall v: Variant | v == Master || v == Thumbnail
      ensures Identity(p, v) in s.rows[u].derivatives
      ensures var d := s.rows[u].derivatives[Identity(p, v)];
              Genuine(c, s, u, s.rows[u].pinned.value, d) && d.Id() == Identity(p, v)
    {
      assert Identity(p, v) in s.rows[u].derivatives.Keys;
    }
  }

  /**
   * Digest pin: whatever bytes each attempt happens to download, every object ever stored for an
   * upload sits under the one recorded digest, at one of the same two keys.
   */
  lemma {:induction false} DigestPin(c: Config, steps: seq<Step>, p: PutRecord)
    requires p in Run(c, INITIAL, steps).puts
    ensures var s, u := Run(c, INITIAL, steps), p.key.upload;
            && u in s.rows && JobOf(u) in s.jobs && s.rows[u].pinned.Some?
            && var content := s.rows[u].pinned.value;
            && var preset := c.preset(s.rows[u].tenant, s.jobs[JobOf(u)].revision);
            && p.key == DerivativeKey(s.rows[u].tenant, u, content.digest, preset, p.key.file)
            && (p.key.file == ThumbnailJpg || exists contentType :: MasterForm(content.format, p.key.file, contentType))
  {
    InitialInv(c);
    RunKeeps(c, INITIAL, steps);
    var content := Run(c, INITIAL, steps).rows[p.key.upload].pinned.value;
    if p.key.file != ThumbnailJpg {
      assert MasterForm(content.format, p.key.file, TypeOf(Master, content));
    }
  }

  /** Whatever is stored or published for an upload carries the preset of its job's revision. */
  ghost predicate Presets(c: Config, s: State, u: string) {
    JobOf(u) in s.jobs && u in s.rows &&
    var tenant, revision := s.rows[u].tenant, s.jobs[JobOf(u)].revision;
    && (forall p :: p in s.puts && p.key.upload == u ==>
          p.key.tenant == tenant && p.key.preset == c.preset(tenant, revision))
    && (forall id :: id in s.rows[u].derivatives ==>
          var d := s.rows[u].derivatives[id];
          && id == Identity(d.key.preset, d.variant) && d.key.upload == u && d.key.tenant == tenant
          && d.key.preset == c.preset(tenant, revision))
  }

  lemma PresetsHold(c: Config, s: State, u: string)
    requires Inv(c, s) && JobOf(u) in s.jobs && u in s.rows
    ensures Presets(c, s, u)
  {
    assert RowOk(c, s, u);
    forall p | p in s.puts && p.key.upload == u
      ensures p.key.tenant == s.rows[u].tenant
      ensures p.key.preset == c.preset(s.rows[u].tenant, s.jobs[JobOf(u)].revision)
    {
      assert PutOk(c, s, p);
    }
  }

  lemma ConfirmCreates(s: State, u: string, revision: Option<nat>, now: nat)
    requires JobOf(u) !in s.jobs && JobOf(u) in ApplyConfirm(s, u, revision, now).jobs
    ensures var s' := ApplyConfirm(s, u, revision, now); u in s'.rows && s'.jobs[JobOf(u)].revision == revision
  {
  }

  lemma GrownKeeps(s: State, s': State, u: string)
    requires Grown(s, s') && JobOf(u) in s.jobs && u in s.rows
    ensures JobOf(u) in s'.jobs && s'.jobs[JobOf(u)].revision == s.jobs[JobOf(u)].revision && u in s'.rows
  {
  }

  /**
   * The policy revision given at confirmation is pinned: whoever retries or publishes, and whatever
   * is published for the tenant meanwhile, the job keeps the revision, and every object ever stored
   * and every row ever published for the upload carries the preset of that revision and tenant.
   */
  lemma {:induction false} PolicyPinned(c: Config, before: seq<Step>, u: string, revision: Option<nat>, now: nat,
                                        after: seq<Step>)
    requires JobOf(u) !in Run(c, INITIAL, before).jobs
    requires JobOf(u) in Run(c, INITIAL, before + [Confirm(u, revision, now)]).jobs
    ensures var s := Run(c, INITIAL, before + [Confirm(u, revision, now)] + after);
            && u in s.rows && JobOf(u) in s.jobs && s.jobs[JobOf(u)].revision == revision
            && var tenant := s.rows[u].tenant;
            && (forall p :: p in s.puts && p.key.upload == u ==>
                  p.key.tenant == tenant && p.key.preset == c.preset(tenant, revision))
            && (forall id :: id in s.rows[u].derivatives ==>
                  var d := s.rows[u].derivatives[id];
                  && id == Identity(d.key.preset, d.variant) && d.key.upload == u && d.key.tenant == tenant
                  && d.key.preset == c.preset(tenant, revision))
  {
    hide Run, Inv, Grown, ApplyConfirm;
    InitialInv(c);
    RunKeeps(c, INITIAL, before);
    var s0 := Run(c, INITIAL, before);
    RunAppend(c, INITIAL, before, [Confirm(u, revision, now)]);
    RunOne(c, s0, Confirm(u, revision, now));
    var s1 := Apply(c, s0, Confirm(u, revision, now));
    StepKeeps(c, s0, Confirm(u, revision, now));
    ConfirmCreates(s0, u, revision, now);
    RunAppend(c, INITIAL, before + [Confirm(u, revision, now)], after);
    RunKeeps(c, s1, after);
    GrownKeeps(s1, Run(c, s1, after), u);
    PresetsHold(c, Run(c, s1, after), u);
  }

  /** What a reservation fixed stays: tenant, kind and size. */
  lemma {:induction false} ReservationStays(c: Config, before: seq<Step>, u: string, tenant: string, kind: MediaKind,
                                            size: nat, after: seq<Step>)
    requires u !in Run(c, INITIAL, before).rows
    requires u in Run(c, INITIAL, before + [Reserve(u, tenant, kind, size)]).rows
    ensures var s := Run(c, INITIAL, before + [Reserve(u, tenant, kind, size)] + after);
            u in s.rows && s.rows[u].tenant == tenant && s.rows[u].kind == kind && s.rows[u].size == size
  {
    InitialInv(c);
    RunKeeps(c, INITIAL, before);
    var s0 := Run(c, INITIAL, before);
    RunAppend(c, INITIAL, before, [Reserve(u, tenant, kind, size)]);
    RunOne(c, s0, Reserve(u, tenant, kind, size));
    StepKeeps(c, s0, Reserve(u, tenant, kind, size));
    RunAppend(c, INITIAL, before + [Reserve(u, tenant, kind, size)], after);
    RunKeeps(c, Apply(c, s0, Reserve(u, tenant, kind, size)), after);
  }

  /** No object of an upload exists before its digest is recorded. */
  lemma {:induction false} NothingStoredBeforeDigest(c: Config, steps: seq<Step>, u: string)
    requires u in Run(c, INITIAL, steps).rows && Run(c, INITIAL, steps).rows[u].pinned.None?
    ensures forall p :: p in Run(c, INITIAL, steps).puts ==> p.key.upload != u
  {
    InitialInv(c);
    RunKeeps(c, INITIAL, steps);
  }

  lemma PutKeyWellFormed(c: Config, s: State, p: PutRecord)
    requires Inv(c, s) && ConfigOk(c) && p in s.puts
    ensures p.key.WellFormed()
  {
    assert PutOk(c, s, p) && RowOk(c, s, p.key.upload);
  }

  /** Every key ever written passes validation, and different uploads never write the same object. */
  lemma {:induction false} StoredKeysValidAndDisjoint(c: Config, steps: seq<Step>, p: PutRecord, q: PutRecord)
    requires ConfigOk(c) && p in Run(c, INITIAL, steps).puts && q in Run(c, INITIAL, steps).puts
    ensures Valid(p.key.Text())
    ensures p.key.upload != q.key.upload ==> p.key.Text() != q.key.Text()
  {
    InitialInv(c);
    RunKeeps(c, INITIAL, steps);
    PutKeyWellFormed(c, Run(c, INITIAL, steps), p);
    PutKeyWellFormed(c, Run(c, INITIAL, steps), q);
    DerivativeKeyAlwaysValid(p.key);
    if p.key.Text() == q.key.Text() { DerivativeKeyInjective(p.key, q.key); }
  }

  // ----- A job reclaimed after the decision is completed without reprocessing -----

  function PutsBy(s: State, w: string, u: string): set<PutRecord> {
    set p | p in s.puts && p.worker == w && p.key.upload == u
  }

  /** The upload is decided and slot `w` is not in the middle of validating it. */
  ghost predicate Settled(s: State, w: string, u: string) {
    u in s.rows && s.rows[u].state.Decided() && (PhaseOf(s, w).Validating() ==> PhaseOf(s, w).u != u)
  }

  ghost predicate ValidationStarts(s: State, p: Phase, p': Phase) {
    p'.Validating() ==>
      || (p.Validating() && p'.u == p.u)
      || (p.Claimed? && p'.u == p.u && p.u in s.rows && !s.rows[p.u].state.Decided())
  }

  lemma OuterPhaseEffect(c: Config, s: State, step: Step, w: string)
    requires Outer(step)
    ensures PhaseOf(Apply(c, s, step), w) == PhaseOf(s, w) && Apply(c, s, step).puts == s.puts
  {
  }

  lemma WorkPhaseEffect(c: Config, s: State, step: Step, w: string)
    requires step.Load? || step.Inspect? || step.Pin? || step.Prepare?
    ensures ValidationStarts(s, PhaseOf(s, w), PhaseOf(Apply(c, s, step), w))
  {
  }

  lemma StorePhaseEffect(c: Config, s: State, step: Step, w: string)
    requires step.StoreMaster? || step.StoreThumbnail?
    ensures ValidationStarts(s, PhaseOf(s, w), PhaseOf(Apply(c, s, step), w))
  {
  }

  lemma QueuePhaseEffect(c: Config, s: State, step: Step, w: string)
    requires step.Claim? || step.Renew? || step.Conclude?
    ensures ValidationStarts(s, PhaseOf(s, w), PhaseOf(Apply(c, s, step), w)) && Apply(c, s, step).puts == s.puts
  {
  }

  lemma RejectPhaseEffect(c: Config, s: State, v: string, w: string)
    ensures ValidationStarts(s, PhaseOf(s, w), PhaseOf(ApplyReject(c, s, v), w)) && ApplyReject(c, s, v).puts == s.puts
  {
  }

  lemma EndPhaseEffect(c: Config, s: State, step: Step, w: string)
    requires step.Publish? || step.Abandon? || step.Reject? || step.Conclude? || step.Crash? || step.Claim?
             || step.Renew?
    ensures ValidationStarts(s, PhaseOf(s, w), PhaseOf(Apply(c, s, step), w)) && Apply(c, s, step).puts == s.puts
  {
    if step.Claim? || step.Renew? || step.Conclude? {
      QueuePhaseEffect(c, s, step, w);
    } else if step.Reject? {
      RejectPhaseEffect(c, s, step.w, w);
    }
  }

  /** A slot starts validating only by loading an undecided row, and only its own steps move it. */
  lemma PhaseEffect(c: Config, s: State, step: Step, w: string)
    ensures ValidationStarts(s, PhaseOf(s, w), PhaseOf(Apply(c, s, step), w))
  {
    if Outer(step) {
      OuterPhaseEffect(c, s, step, w);
    } else if step.Load? || step.Inspect? || step.Pin? || step.Prepare? {
      WorkPhaseEffect(c, s, step, w);
    } else if step.StoreMaster? || step.StoreThumbnail? {
      StorePhaseEffect(c, s, step, w);
    } else {
      EndPhaseEffect(c, s, step, w);
    }
  }

  /** Only a validating slot stores objects, and only for its own upload. */
  lemma PutsEffect(c: Config, s: State, step: Step, r: PutRecord)
    requires r in Apply(c, s, step).puts && r !in s.puts
    ensures PhaseOf(s, r.worker).Validating() && PhaseOf(s, r.worker).u == r.key.upload
  {
    if Outer(step) {
      OuterPhaseEffect(c, s, step, "");
    } else if !step.StoreMaster? && !step.StoreThumbnail? {
      OtherPutsEffect(c, s, step);
    }
  }

  lemma OtherPutsEffect(c: Config, s: State, step: Step)
    requires !Outer(step) && !step.StoreMaster? && !step.StoreThumbnail?
    ensures Apply(c, s, step).puts == s.puts
  {
    if !(step.Load? || step.Inspect? || step.Pin? || step.Prepare?) { EndPhaseEffect(c, s, step, ""); }
  }

  lemma SettledStep(c: Config, s: State, w: string, u: string, step: Step)
    requires Inv(c, s) && Settled(s, w, u)
    ensures Settled(Apply(c, s, step), w, u) && PutsBy(Apply(c, s, step), w, u) == PutsBy(s, w, u)
  {
    StepKeeps(c, s, step);
    PhaseEffect(c, s, step, w);
    forall r | r in Apply(c, s, step).puts && r !in s.puts
      ensures !(r.worker == w && r.key.upload == u)
    {
      PutsEffect(c, s, step, r);
    }
  }

  lemma {:induction false} DecidedIsNotReprocessed(c: Config, s: State, w: string, u: string, steps: seq<Step>)
    requires Inv(c, s) && Settled(s, w, u)
    ensures Settled(Run(c, s, steps), w, u)
    ensures PutsBy(Run(c, s, steps), w, u) == PutsBy(s, w, u)
    decreases steps
  {
    if steps != [] {
      SettledStep(c, s, w, u, steps[0]);
      StepKeeps(c, s, steps[0]);
      DecidedIsNotReprocessed(c, Apply(c, s, steps[0]), w, u, steps[1..]);
    }
  }
}
