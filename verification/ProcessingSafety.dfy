/** Invariants of the worker protocol and what they say about whole runs. */
module ProcessingSafety {
  import opened Basics
  import opened Domain
  import opened ObjectKeys
  import opened Processing

  // ----- How one upload row may change -----

  /** From `r` to `r'` nothing decided is undone: digest, outcome and published rows only ever appear. */
  ghost predicate Evolves(r: Row, r': Row) {
    && r'.tenant == r.tenant && r'.kind == r.kind && r'.size == r.size
    && (r.pinned.Some? ==> r'.pinned == r.pinned)
    && (r.derivatives != map[] ==> r'.derivatives == r.derivatives)
    && (r.deleteRequested ==> r'.deleteRequested)
    && (r'.state == r.state || Rank(r.state) < Rank(r'.state))
    && (r.state.Decided() ==> r'.state == r.state || r'.state == Deleted)
    && (r.state.Decided() && r.pinned.None? ==> r'.pinned.None?)
    && (r.state.Decided() ==> r'.derivatives == r.derivatives)
  }

  ghost predicate Grown(s: State, s': State) {
    && (forall u :: u in s.rows ==> u in s'.rows && Evolves(s.rows[u], s'.rows[u]))
    && (forall id :: id in s.jobs ==> id in s'.jobs && s'.jobs[id].revision == s.jobs[id].revision)
    && s.puts <= s'.puts
  }

  // ----- The invariant -----

  /** The upload's digest is recorded as `content`, so its derivative keys are fixed. */
  ghost predicate PinnedTo(s: State, u: string, content: Content) {
    u in s.rows && JobOf(u) in s.jobs && s.rows[u].pinned == Some(content)
  }

  ghost predicate WasPut(s: State, d: Derivative) {
    exists w :: PutRecord(w, d.key, d.len) in s.puts
  }

  function FileOf(variant: Variant, content: Content): File {
    if variant == Master then content.format.MasterFile() else ThumbnailJpg
  }

  /** Images are encoded as JPEG; a video master keeps its container. */
  function TypeOf(variant: Variant, content: Content): string {
    if variant == Master && content.format.IsVideo() then content.format.ContainerType() else "image/jpeg"
  }

  /** A derivative record that names its upload's fixed key and was really stored at its length. */
  ghost predicate Genuine(c: Config, s: State, u: string, content: Content, d: Derivative) {
    PinnedTo(s, u, content) && d.key == KeyFor(c, s, u, content, FileOf(d.variant, content))
    && d.contentType == TypeOf(d.variant, content) && d.len > 0 && WasPut(s, d)
  }

  /** Exactly one master and one thumbnail, of one preset, both genuine. */
  ghost predicate Complete(c: Config, s: State, u: string) {
    && u in s.rows && s.rows[u].pinned.Some? && PinnedTo(s, u, s.rows[u].pinned.value)
    && var p := PresetFor(c, s, u);
      && s.rows[u].derivatives.Keys == {Identity(p, Master), Identity(p, Thumbnail)}
      && (forall id :: id in s.rows[u].derivatives ==>
            s.rows[u].derivatives[id].Id() == id
            && Genuine(c, s, u, s.rows[u].pinned.value, s.rows[u].derivatives[id]))
  }

  ghost predicate RowOk(c: Config, s: State, u: string)
    requires u in s.rows
  {
    var r := s.rows[u];
    TenantValid(r.tenant) && UploadIdText(u) && r.size > 0 &&
    match r.state
    case Ready => Complete(c, s, u)
    case Deleted => r.derivatives == map[] || Complete(c, s, u)
    case Processing => r.pinned.Some? && PinnedTo(s, u, r.pinned.value) && r.derivatives == map[]
    case Rejected => r.derivatives == map[]
    case Failed => r.derivatives == map[]
    case _ => r.pinned.None? && r.derivatives == map[]
  }

  /** Every object ever stored lies under the upload's recorded digest, at one of its two keys. */
  ghost predicate PutOk(c: Config, s: State, p: PutRecord) {
    && p.key.upload in s.rows && s.rows[p.key.upload].pinned.Some?
    && var content := s.rows[p.key.upload].pinned.value;
      && PinnedTo(s, p.key.upload, content) && LowerSha256(content.digest)
      && (p.key == KeyFor(c, s, p.key.upload, content, content.format.MasterFile())
          || p.key == KeyFor(c, s, p.key.upload, content, ThumbnailJpg))
  }

  ghost predicate SourceOk(s: State, u: string, source: Row) {
    && u in s.rows && JobOf(u) in s.jobs && Evolves(source, s.rows[u])
    && (source.state == Quarantined || (source.state == UploadState.Processing && source.pinned.Some?))
  }

  ghost predicate PhaseOk(c: Config, s: State, phase: Phase) {
    match phase
    case Idle => true
    case Claimed(u, _) => JobOf(u) in s.jobs
    case Loaded(u, _, source) => SourceOk(s, u, source)
    case Inspected(u, _, source, content) => SourceOk(s, u, source) && LowerSha256(content.digest)
    case Pinned(u, _, content) => PinnedTo(s, u, content) && LowerSha256(content.digest)
    case Prepared(u, _, content, preset) =>
      PinnedTo(s, u, content) && LowerSha256(content.digest) && preset == PresetFor(c, s, u)
    case MasterStored(u, _, content, preset, master) =>
      PinnedTo(s, u, content) && LowerSha256(content.digest) && preset == PresetFor(c, s, u)
      && Genuine(c, s, u, content, master) && master.variant == Master
    case BothStored(u, _, content, preset, master, thumbnail) =>
      PinnedTo(s, u, content) && LowerSha256(content.digest) && preset == PresetFor(c, s, u)
      && Genuine(c, s, u, content, master) && master.variant == Master
      && Genuine(c, s, u, content, thumbnail) && thumbnail.variant == Thumbnail
    case Ended(_, _, _) => true
    case Closing(_, _) => true
  }

  ghost predicate Inv(c: Config, s: State) {
    && (forall u :: u in s.rows ==> RowOk(c, s, u))
    && (forall p :: p in s.puts ==> PutOk(c, s, p))
    && (forall w :: w in s.phases ==> PhaseOk(c, s, s.phases[w]))
  }

  // ----- Facts survive growth -----

  lemma GenuineSurvives(c: Config, s: State, s': State, u: string, content: Content, d: Derivative)
    requires Grown(s, s') && Genuine(c, s, u, content, d)
    ensures Genuine(c, s', u, content, d)
  {
    var w :| PutRecord(w, d.key, d.len) in s.puts;
    assert PutRecord(w, d.key, d.len) in s'.puts;
  }

  lemma CompleteSurvives(c: Config, s: State, s': State, u: string)
    requires Grown(s, s') && Complete(c, s, u)
    ensures Complete(c, s', u)
  {
    forall id | id in s'.rows[u].derivatives
      ensures Genuine(c, s', u, s'.rows[u].pinned.value, s'.rows[u].derivatives[id])
    {
      GenuineSurvives(c, s, s', u, s.rows[u].pinned.value, s.rows[u].derivatives[id]);
    }
  }

  lemma PutSurvives(c: Config, s: State, s': State, p: PutRecord)
    requires Grown(s, s') && PutOk(c, s, p)
    ensures PutOk(c, s', p)
  {
  }

  lemma EvolvesTransitive(r: Row, r': Row, r'': Row)
    requires Evolves(r, r') && Evolves(r', r'')
    ensures Evolves(r, r'')
  {
  }

  lemma GrownTransitive(s: State, s': State, s'': State)
    requires Grown(s, s') && Grown(s', s'')
    ensures Grown(s, s'')
  {
    forall u | u in s.rows
      ensures u in s''.rows && Evolves(s.rows[u], s''.rows[u])
    {
      EvolvesTransitive(s.rows[u], s'.rows[u], s''.rows[u]);
    }
  }

  lemma PhaseSurvives(c: Config, s: State, s': State, phase: Phase)
    requires Grown(s, s') && PhaseOk(c, s, phase)
    ensures PhaseOk(c, s', phase)
  {
    match phase
    case Loaded(u, _, source) => EvolvesTransitive(source, s.rows[u], s'.rows[u]);
    case Inspected(u, _, source, _) => EvolvesTransitive(source, s.rows[u], s'.rows[u]);
    case MasterStored(u, _, content, _, master) => GenuineSurvives(c, s, s', u, content, master);
    case BothStored(u, _, content, _, master, thumbnail) =>
      GenuineSurvives(c, s, s', u, content, master);
      GenuineSurvives(c, s, s', u, content, thumbnail);
    case _ =>
  }

  /** An unchanged row stays in order while everything else grows. */
  lemma RowSurvives(c: Config, s: State, s': State, u: string)
    requires Grown(s, s') && u in s.rows && RowOk(c, s, u) && s'.rows[u] == s.rows[u]
    ensures RowOk(c, s', u)
  {
    if Complete(c, s, u) {
      CompleteSurvives(c, s, s', u);
    }
  }

  /** The invariant after a step needs only what the step itself touched. */
  lemma InvFrame(c: Config, s: State, s': State, u: string, w: string)
    requires Inv(c, s) && Grown(s, s')
    requires forall v :: v in s'.rows && v != u ==> v in s.rows && s'.rows[v] == s.rows[v]
    requires forall v :: v in s'.phases && v != w ==> v in s.phases && s'.phases[v] == s.phases[v]
    requires u in s'.rows ==> RowOk(c, s', u)
    requires w in s'.phases ==> PhaseOk(c, s', s'.phases[w])
    requires forall p :: p in s'.puts - s.puts ==> PutOk(c, s', p)
    ensures Inv(c, s')
  {
    forall v | v in s'.rows
      ensures RowOk(c, s', v)
    {
      if v != u { RowSurvives(c, s, s', v); }
    }
    forall p | p in s'.puts
      ensures PutOk(c, s', p)
    {
      if p in s.puts { PutSurvives(c, s, s', p); }
    }
    forall v | v in s'.phases
      ensures PhaseOk(c, s', s'.phases[v])
    {
      if v != w { PhaseSurvives(c, s, s', s.phases[v]); }
    }
  }

  // ----- Each step keeps the invariant and only grows the state -----

  lemma GrownReflexive(s: State)
    ensures Grown(s, s)
  {
  }

  /** One row evolves, at most one slot moves. */
  lemma RowChangeKeeps(c: Config, s: State, s': State, u: string, w: string)
    requires Inv(c, s) && u in s'.rows && (u in s.rows ==> Evolves(s.rows[u], s'.rows[u]))
    requires s'.rows == s.rows[u := s'.rows[u]] && s'.puts == s.puts
    requires forall id :: id in s.jobs ==> id in s'.jobs && s'.jobs[id].revision == s.jobs[id].revision
    requires forall v :: v in s'.phases && v != w ==> v in s.phases && s'.phases[v] == s.phases[v]
    requires RowOk(c, s', u)
    requires w in s'.phases ==> PhaseOk(c, s', s'.phases[w])
    ensures Grown(s, s') && Inv(c, s')
  {
    InvFrame(c, s, s', u, w);
  }

  /** Nothing but slot `w`, the queue or the store changes. */
  lemma SlotChangeKeeps(c: Config, s: State, s': State, w: string)
    requires Inv(c, s) && s'.rows == s.rows && s'.puts == s.puts
    requires forall id :: id in s.jobs ==> id in s'.jobs && s'.jobs[id].revision == s.jobs[id].revision
    requires forall v :: v in s'.phases && v != w ==> v in s.phases && s'.phases[v] == s.phases[v]
    requires w in s'.phases ==> PhaseOk(c, s', s'.phases[w])
    ensures Grown(s, s') && Inv(c, s')
  {
    InvFrame(c, s, s', "", w);
  }

  /** Flags and tombstones leave the published rows of an upload as they are. */
  lemma FlagKeepsRow(c: Config, s: State, u: string, r': Row)
    requires u in s.rows && RowOk(c, s, u) && Evolves(s.rows[u], r') && r'.derivatives == s.rows[u].derivatives
    requires r'.state == s.rows[u].state || r'.state == Deleted
    requires s.rows[u].pinned == r'.pinned
    ensures RowOk(c, SetRow(s, u, r'), u)
  {
    if Complete(c, s, u) {
      CompleteSurvives(c, s, SetRow(s, u, r'), u);
    }
  }

  lemma ReserveAndConfirmKeep(c: Config, s: State, step: Step)
    requires Inv(c, s) && (step.Reserve? || step.Confirm?)
    ensures Grown(s, Apply(c, s, step)) && Inv(c, Apply(c, s, step))
  {
    var s' := Apply(c, s, step);
    if s' == s {
      GrownReflexive(s);
    } else {
      assert step.u in s.rows ==> RowOk(c, s, step.u);
      RowChangeKeeps(c, s, s', step.u, "");
    }
  }

  /** A deletion request or a tombstone changes one row's flag or state, or nothing. */
  lemma DeletionEffect(c: Config, s: State, step: Step)
    requires step.RequestDeletion? || step.Tombstone?
    ensures var s' := Apply(c, s, step);
            s' == s || (step.u in s.rows && step.u in s'.rows && s' == SetRow(s, step.u, s'.rows[step.u])
                        && var r, r' := s.rows[step.u], s'.rows[step.u];
                           Evolves(r, r') && r'.derivatives == r.derivatives && r'.pinned == r.pinned
                           && (r'.state == r.state || r'.state == Deleted))
  {
  }

  lemma DeletionKeeps(c: Config, s: State, step: Step)
    requires Inv(c, s) && (step.RequestDeletion? || step.Tombstone?)
    ensures Grown(s, Apply(c, s, step)) && Inv(c, Apply(c, s, step))
  {
    var s' := Apply(c, s, step);
    DeletionEffect(c, s, step);
    if s' == s {
      GrownReflexive(s);
    } else {
      assert RowOk(c, s, step.u);
      FlagKeepsRow(c, s, step.u, s'.rows[step.u]);
      RowChangeKeeps(c, s, s', step.u, "");
    }
  }

  predicate InventoryStep(step: Step) {
    step.Wait? || step.Observe? || step.Recheck? || step.Prune? || step.RecordPrune? || step.LosePrune?
  }

  lemma StoreLossEffect(c: Config, s: State, step: Step)
    requires step.CleanupObject? || InventoryStep(step)
    ensures var s' := Apply(c, s, step); s' == s.(store := s'.store, ledger := s'.ledger)
  {
  }

  lemma StoreLossKeeps(c: Config, s: State, step: Step)
    requires Inv(c, s) && (step.CleanupObject? || InventoryStep(step))
    ensures Grown(s, Apply(c, s, step)) && Inv(c, Apply(c, s, step))
  {
    hide Apply;
    StoreLossEffect(c, s, step);
    var s' := Apply(c, s, step);
    forall w | w in s'.phases
      ensures PhaseOk(c, s', s'.phases[w])
    {
      assert PhaseOk(c, s, s.phases[w]);
    }
    SlotChangeKeeps(c, s, s', "");
  }

  lemma PhaseMoveKeeps(c: Config, s: State, w: string, phase: Phase)
    requires Inv(c, s) && PhaseOk(c, s, phase)
    ensures Grown(s, Move(s, w, phase)) && Inv(c, Move(s, w, phase))
  {
    PhaseSurvives(c, s, Move(s, w, phase), phase);
    SlotChangeKeeps(c, s, Move(s, w, phase), w);
  }

  lemma ClaimKeeps(c: Config, s: State, w: string, u: string, now: nat, leaseSecs: nat)
    requires Inv(c, s)
    ensures Grown(s, ApplyClaim(s, w, u, now, leaseSecs)) && Inv(c, ApplyClaim(s, w, u, now, leaseSecs))
  {
    var s' := ApplyClaim(s, w, u, now, leaseSecs);
    if s' == s { GrownReflexive(s); } else { SlotChangeKeeps(c, s, s', w); }
  }

  lemma RenewKeeps(c: Config, s: State, w: string, now: nat, leaseSecs: nat)
    requires Inv(c, s)
    ensures Grown(s, ApplyRenew(s, w, now, leaseSecs)) && Inv(c, ApplyRenew(s, w, now, leaseSecs))
  {
    var s' := ApplyRenew(s, w, now, leaseSecs);
    var p := PhaseOf(s, w);
    if s' == s {
      GrownReflexive(s);
    } else if s'.phases == s.phases {
      assert PhaseOk(c, s, p);
      PhaseSurvives(c, s, s', p);
      SlotChangeKeeps(c, s, s', w);
    } else {
      PhaseMoveKeeps(c, s, w, Idle);
    }
  }

  lemma ConcludeKeeps(c: Config, s: State, w: string, retryAt: nat)
    requires Inv(c, s)
    ensures Grown(s, ApplyConclude(c, s, w, retryAt)) && Inv(c, ApplyConclude(c, s, w, retryAt))
  {
    var s' := ApplyConclude(c, s, w, retryAt);
    if s' == s { GrownReflexive(s); } else { SlotChangeKeeps(c, s, s', w); }
  }

  /** The first digest step moves a quarantined row into processing. */
  lemma PinFirst(c: Config, s: State, w: string, next: Phase, u: string, content: Content)
    requires Inv(c, s) && u in s.rows && s.rows[u].state == Quarantined && JobOf(u) in s.jobs
    requires LowerSha256(content.digest) && (next.Ended? || (next.Pinned? && next.u == u && next.content == content))
    ensures var row' := s.rows[u].(state := UploadState.Processing, pinned := Some(content), errorCode := None);
            Grown(s, Move(SetRow(s, u, row'), w, next)) && Inv(c, Move(SetRow(s, u, row'), w, next))
  {
    assert RowOk(c, s, u);
    var row' := s.rows[u].(state := UploadState.Processing, pinned := Some(content), errorCode := None);
    var s' := Move(SetRow(s, u, row'), w, next);
    assert RowOk(c, s', u);
    RowChangeKeeps(c, s, s', u, w);
  }

  lemma PinKeeps(c: Config, s: State, w: string, answered: bool)
    requires Inv(c, s)
    ensures Grown(s, ApplyPin(s, w, answered)) && Inv(c, ApplyPin(s, w, answered))
  {
    var p := PhaseOf(s, w);
    var s' := ApplyPin(s, w, answered);
    if p.Inspected? {
      assert PhaseOk(c, s, p);
      if p.source.state == Quarantined && s.rows[p.u].state == Quarantined {
        PinFirst(c, s, w, s'.phases[w], p.u, p.content);
      } else {
        assert s' == Move(s, w, s'.phases[w]);
        PhaseMoveKeeps(c, s, w, s'.phases[w]);
      }
    } else {
      GrownReflexive(s);
    }
  }

  lemma StoreKeeps(c: Config, s: State, w: string, d: Derivative, next: Phase, u: string, content: Content)
    requires Inv(c, s) && PinnedTo(s, u, content) && LowerSha256(content.digest) && d.len > 0
    requires d.key == KeyFor(c, s, u, content, FileOf(d.variant, content))
    requires next.Ended? || PhaseOk(c, Stored(s, w, d), next)
    ensures Grown(s, Move(Stored(s, w, d), w, next)) && Inv(c, Move(Stored(s, w, d), w, next))
  {
    var s' := Move(Stored(s, w, d), w, next);
    if !next.Ended? {
      PhaseSurvives(c, Stored(s, w, d), s', next);
    }
    assert PutOk(c, s', PutRecord(w, d.key, d.len));
    InvFrame(c, s, s', "", w);
  }

  lemma StoreMasterKeeps(c: Config, s: State, w: string, len: nat, sha: string, answered: bool)
    requires Inv(c, s)
    ensures var s' := ApplyStoreMaster(c, s, w, len, sha, answered); Grown(s, s') && Inv(c, s')
  {
    var p := PhaseOf(s, w);
    var s' := ApplyStoreMaster(c, s, w, len, sha, answered);
    if p.Prepared? && p.u in s.rows && s' != s {
      assert PhaseOk(c, s, p) && RowOk(c, s, p.u);
      var d := MasterOf(s, p, len, sha);
      var next := if answered then MasterStored(p.u, p.attempts, p.content, p.preset, d)
                  else Ended(p.u, p.attempts, Transient("STORAGE_UNAVAILABLE"));
      assert PutRecord(w, d.key, d.len) in Stored(s, w, d).puts;
      StoreKeeps(c, s, w, d, next, p.u, p.content);
    } else {
      GrownReflexive(s);
    }
  }

  lemma StoreThumbnailKeeps(c: Config, s: State, w: string, len: nat, sha: string, answered: bool)
    requires Inv(c, s)
    ensures var s' := ApplyStoreThumbnail(c, s, w, len, sha, answered); Grown(s, s') && Inv(c, s')
  {
    var p := PhaseOf(s, w);
    var s' := ApplyStoreThumbnail(c, s, w, len, sha, answered);
    if p.MasterStored? && p.u in s.rows && s' != s {
      assert PhaseOk(c, s, p) && RowOk(c, s, p.u);
      var d := ThumbnailOf(s, p, len, sha);
      var next := if answered then BothStored(p.u, p.attempts, p.content, p.preset, p.master, d)
                  else Ended(p.u, p.attempts, Transient("STORAGE_UNAVAILABLE"));
      assert PutRecord(w, d.key, d.len) in Stored(s, w, d).puts;
      GenuineSurvives(c, s, Stored(s, w, d), p.u, p.content, p.master);
      StoreKeeps(c, s, w, d, next, p.u, p.content);
    } else {
      GrownReflexive(s);
    }
  }

  lemma MergeTwo(rows: map<Identity, Derivative>, m: Derivative, t: Derivative)
    requires m.Id() != t.Id()
    ensures Merge(rows, [m, t]).Some? <==>
            (m.Id() in rows ==> rows[m.Id()] == m) && (t.Id() in rows ==> rows[t.Id()] == t)
    ensures Merge(rows, [m, t]).Some? ==> Merge(rows, [m, t]).value == rows[m.Id() := m][t.Id() := t]
  {
    assert [m, t][1..] == [t] && [t][1..] == [];
    assert Merge(rows[m.Id() := m][t.Id() := t], []) == Some(rows[m.Id() := m][t.Id() := t]);
  }

  /** Publishing over a Ready upload can only confirm the rows it already has. */
  lemma RepublishingChangesNothing(c: Config, s: State, u: string, m: Derivative, t: Derivative, content: Content)
    requires Complete(c, s, u) && Genuine(c, s, u, content, m) && Genuine(c, s, u, content, t)
    requires m.variant == Master && t.variant == Thumbnail
    requires Merge(s.rows[u].derivatives, [m, t]).Some?
    ensures Merge(s.rows[u].derivatives, [m, t]).value == s.rows[u].derivatives
  {
    MergeTwo(s.rows[u].derivatives, m, t);
    var p := PresetFor(c, s, u);
    assert m.Id() == Identity(p, Master) && t.Id() == Identity(p, Thumbnail);
    assert m.Id() in s.rows[u].derivatives.Keys && t.Id() in s.rows[u].derivatives.Keys;
  }

  /** The first successful publication completes the row. */
  lemma PublishCompletes(c: Config, s: State, w: string, answered: bool)
    requires PhaseOf(s, w).BothStored? && PhaseOk(c, s, PhaseOf(s, w)) && RowOk(c, s, PhaseOf(s, w).u)
    requires s.rows[PhaseOf(s, w).u].state == UploadState.Processing
    ensures var s' := ApplyPublish(s, w, answered); var u := PhaseOf(s, w).u;
            && w in s'.phases && s' == s.(rows := s.rows[u := s'.rows[u]], phases := s.phases[w := s'.phases[w]])
            && Evolves(s.rows[u], s'.rows[u]) && RowOk(c, s', u) && s'.phases[w].Ended?
            && s'.rows[u].state == Ready
  {
    var p := PhaseOf(s, w);
    var s' := ApplyPublish(s, w, answered);
    MergeTwo(s.rows[p.u].derivatives, p.master, p.thumbnail);
    assert Grown(s, s');
    GenuineSurvives(c, s, s', p.u, p.content, p.master);
    GenuineSurvives(c, s, s', p.u, p.content, p.thumbnail);
    assert s'.rows[p.u].derivatives == map[p.master.Id() := p.master, p.thumbnail.Id() := p.thumbnail];
    assert Complete(c, s', p.u);
  }

  lemma PublishElsewhere(c: Config, s: State, w: string, answered: bool)
    requires PhaseOf(s, w).BothStored? && PhaseOk(c, s, PhaseOf(s, w)) && RowOk(c, s, PhaseOf(s, w).u)
    requires s.rows[PhaseOf(s, w).u].state != UploadState.Processing
    ensures var s' := ApplyPublish(s, w, answered);
            w in s'.phases && s'.phases[w].Ended? && s' == Move(s, w, s'.phases[w])
  {
    var p := PhaseOf(s, w);
    if s.rows[p.u].state == Ready && Merge(s.rows[p.u].derivatives, [p.master, p.thumbnail]).Some? {
      RepublishingChangesNothing(c, s, p.u, p.master, p.thumbnail, p.content);
    }
    assert ApplyPublish(s, w, answered).rows == s.rows;
  }

  lemma PublishKeeps(c: Config, s: State, w: string, answered: bool)
    requires Inv(c, s)
    ensures Grown(s, ApplyPublish(s, w, answered)) && Inv(c, ApplyPublish(s, w, answered))
  {
    var p := PhaseOf(s, w);
    if p.BothStored? {
      assert PhaseOk(c, s, p) && RowOk(c, s, p.u);
      if s.rows[p.u].state == UploadState.Processing {
        PublishCompletes(c, s, w, answered);
        RowChangeKeeps(c, s, ApplyPublish(s, w, answered), p.u, w);
      } else {
        PublishElsewhere(c, s, w, answered);
        PhaseMoveKeeps(c, s, w, ApplyPublish(s, w, answered).phases[w]);
      }
    } else {
      GrownReflexive(s);
    }
  }

  lemma RejectRowKeeps(c: Config, s: State, w: string, u: string, row': Row, next: Phase)
    requires Inv(c, s) && u in s.rows && (s.rows[u].state == Quarantined || s.rows[u].state == UploadState.Processing)
    requires row'.state == UploadState.Rejected && row' == s.rows[u].(state := row'.state, errorCode := row'.errorCode)
    requires next.Closing?
    ensures Grown(s, Move(SetRow(s, u, row'), w, next)) && Inv(c, Move(SetRow(s, u, row'), w, next))
  {
    assert RowOk(c, s, u);
    RowChangeKeeps(c, s, Move(SetRow(s, u, row'), w, next), u, w);
  }

  lemma MarkRejectedKeeps(c: Config, s: State, w: string, u: string, code: string, report: Report)
    requires Inv(c, s)
    ensures Grown(s, MarkRejected(s, w, u, code, report)) && Inv(c, MarkRejected(s, w, u, code, report))
  {
    if u in s.rows && (s.rows[u].state == Quarantined || s.rows[u].state == UploadState.Processing) {
      var row' := s.rows[u].(state := UploadState.Rejected, errorCode := Some(code));
      RejectRowKeeps(c, s, w, u, row', Closing(u, report));
    } else {
      PhaseMoveKeeps(c, s, w, MarkRejected(s, w, u, code, report).phases[w]);
    }
  }

  lemma RejectKeeps(c: Config, s: State, w: string)
    requires Inv(c, s)
    ensures Grown(s, ApplyReject(c, s, w)) && Inv(c, ApplyReject(c, s, w))
  {
    var p := PhaseOf(s, w);
    if !p.Ended? {
      GrownReflexive(s);
    } else if p.outcome.Permanent? {
      MarkRejectedKeeps(c, s, w, p.u, p.outcome.code, ReportComplete);
    } else if p.outcome.Transient? && p.attempts >= c.maxAttempts {
      MarkRejectedKeeps(c, s, w, p.u, p.outcome.code, ReportFail);
    } else {
      PhaseMoveKeeps(c, s, w, ApplyReject(c, s, w).phases[w]);
    }
  }

  lemma LocalMoveKeeps(c: Config, s: State, step: Step)
    requires Inv(c, s)
    requires step.Load? || step.Inspect? || step.Prepare? || step.Abandon? || step.Crash?
    ensures Grown(s, Apply(c, s, step)) && Inv(c, Apply(c, s, step))
  {
    var p := PhaseOf(s, step.w);
    var s' := Apply(c, s, step);
    assert PhaseOk(c, s, p);
    if s' != s {
      if step.Load? && p.u in s.rows { assert RowOk(c, s, p.u); }
      PhaseMoveKeeps(c, s, step.w, s'.phases[step.w]);
    } else {
      GrownReflexive(s);
    }
  }

  /** Steps of reservation, confirmation, deletion, cleanup and inventory. */
  predicate Outer(step: Step) {
    step.Reserve? || step.Confirm? || step.RequestDeletion? || step.Tombstone? || step.CleanupObject?
      || InventoryStep(step)
  }

  lemma StepKeeps(c: Config, s: State, step: Step)
    requires Inv(c, s)
    ensures Grown(s, Apply(c, s, step)) && Inv(c, Apply(c, s, step))
  {
    hide Inv, Grown, ApplyClaim, ApplyRenew, ApplyConclude, ApplyPin, ApplyStoreMaster, ApplyStoreThumbnail,
        ApplyPublish, ApplyReject;
    match step
    case Claim(w, u, now, leaseSecs) => ClaimKeeps(c, s, w, u, now, leaseSecs);
    case Renew(w, now, leaseSecs) => RenewKeeps(c, s, w, now, leaseSecs);
    case Conclude(w, retryAt) => ConcludeKeeps(c, s, w, retryAt);
    case Pin(w, answered) => PinKeeps(c, s, w, answered);
    case StoreMaster(w, len, sha, answered) => StoreMasterKeeps(c, s, w, len, sha, answered);
    case StoreThumbnail(w, len, sha, answered) => StoreThumbnailKeeps(c, s, w, len, sha, answered);
    case Publish(w, answered) => PublishKeeps(c, s, w, answered);
    case Reject(w) => RejectKeeps(c, s, w);
    case Reserve(_, _, _, _) => ReserveAndConfirmKeep(c, s, step);
    case Confirm(_, _, _) => ReserveAndConfirmKeep(c, s, step);
    case RequestDeletion(_) => DeletionKeeps(c, s, step);
    case Tombstone(_) => DeletionKeeps(c, s, step);
    case _ => if Outer(step) { StoreLossKeeps(c, s, step); } else { LocalMoveKeeps(c, s, step); }
  }

  lemma {:induction false} RunKeeps(c: Config, s: State, steps: seq<Step>)
    requires Inv(c, s)
    ensures Grown(s, Run(c, s, steps)) && Inv(c, Run(c, s, steps))
    decreases steps
  {
    if steps == [] {
      GrownReflexive(s);
    } else {
      var next := Apply(c, s, steps[0]);
      StepKeeps(c, s, steps[0]);
      RunKeeps(c, next, steps[1..]);
      GrownTransitive(s, next, Run(c, next, steps[1..]));
    }
  }
}
