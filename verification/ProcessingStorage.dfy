/** Which published objects are in the store at their recorded lengths, and exactly when one is lost. */
module ProcessingStorage {
  import opened Basics
  import opened Domain
  import opened ObjectKeys
  import opened Processing
  import opened ProcessingSafety
  import opened ProcessingTheorems

  /** Uploads whose objects cleanup leaves alone. */
  predicate Live(s: State, k: DerivativeKey) {
    k.upload in s.rows && !s.rows[k.upload].deleteRequested
  }

  /** Inventory deleted the key after every put of it. */
  ghost predicate PrunedLast(l: Ledger, k: DerivativeKey) {
    k in l.prunedAt && forall v :: v in l.putAt && v.key == k ==> l.putAt[v] < l.prunedAt[k]
  }

  /** This version was put after every other version of its key and after any deletion by inventory. */
  ghost predicate PutLast(l: Ledger, v: Version) {
    && v in l.putAt && (v.key in l.prunedAt ==> l.prunedAt[v.key] < l.putAt[v])
    && forall o :: o in l.putAt && o.key == v.key && o != v ==> l.putAt[o] < l.putAt[v]
  }

  /** Another version of the key was put later than this one. */
  ghost predicate Overwritten(l: Ledger, v: Version)
    requires v in l.putAt
  {
    exists o :: o in l.putAt && o.key == v.key && o != v && l.putAt[v] < l.putAt[o]
  }

  ghost predicate LedgerInv(s: State) {
    var l := s.ledger;
    && (forall v :: v in l.putAt ==> l.putAt[v] < l.moment && v.key.upload in s.rows)
    && (forall k :: k in l.prunedAt ==> l.prunedAt[k] < l.moment)
    && (forall p :: p in s.puts ==> Version(p.key, p.len) in l.putAt)
    && (forall k :: k in s.store ==> PutLast(l, Version(k, s.store[k])))
    && (forall v :: v in l.putAt && Live(s, v.key) && v.key !in s.store ==> PrunedLast(l, v.key))
  }

  // ----- Every step keeps the ledger in order -----

  lemma PutKeepsLedger(s: State, w: string, d: Derivative)
    requires LedgerInv(s) && d.key.upload in s.rows
    ensures LedgerInv(Stored(s, w, d))
  {
    var s' := Stored(s, w, d);
    forall k | k in s'.store
      ensures PutLast(s'.ledger, Version(k, s'.store[k]))
    {
      if k != d.key { assert PutLast(s.ledger, Version(k, s.store[k])); }
    }
    forall v | v in s'.ledger.putAt && Live(s', v.key) && v.key !in s'.store
      ensures PrunedLast(s'.ledger, v.key)
    {
      assert PrunedLast(s.ledger, v.key);
    }
  }

  lemma PruneKeepsLedger(s: State, key: DerivativeKey)
    requires LedgerInv(s)
    ensures LedgerInv(ApplyPrune(s, key))
  {
    var s' := ApplyPrune(s, key);
    if s' != s {
      forall k | k in s'.store
        ensures PutLast(s'.ledger, Version(k, s'.store[k]))
      {
        assert PutLast(s.ledger, Version(k, s.store[k]));
      }
      forall v | v in s'.ledger.putAt && Live(s', v.key) && v.key !in s'.store
        ensures PrunedLast(s'.ledger, v.key)
      {
        if v.key != key { assert PrunedLast(s.ledger, v.key); }
      }
    }
  }

  /** Steps that leave the store and its history alone, and only add rows or deletion requests. */
  ghost predicate StoreUntouched(s: State, s': State) {
    && s'.store == s.store && s'.puts == s.puts
    && s'.ledger.putAt == s.ledger.putAt && s'.ledger.prunedAt == s.ledger.prunedAt
    && s'.ledger.moment == s.ledger.moment
  }

  lemma UntouchedKeepsLedger(s: State, s': State)
    requires LedgerInv(s) && Grown(s, s') && StoreUntouched(s, s')
    ensures LedgerInv(s')
  {
    forall k | k in s'.store
      ensures PutLast(s'.ledger, Version(k, s'.store[k]))
    {
      assert PutLast(s.ledger, Version(k, s.store[k]));
    }
    forall v | v in s'.ledger.putAt && Live(s', v.key) && v.key !in s'.store
      ensures PrunedLast(s'.ledger, v.key)
    {
      assert PrunedLast(s.ledger, v.key);
    }
  }

  predicate Touching(step: Step) {
    step.StoreMaster? || step.StoreThumbnail? || step.CleanupObject? || step.Prune?
  }

  /** Nothing about stored objects, their history or inventory's bookkeeping changes. */
  ghost predicate SameStorage(s: State, s': State) {
    s'.store == s.store && s'.puts == s.puts && s'.ledger == s.ledger
  }

  lemma RowStepUntouched(c: Config, s: State, step: Step)
    requires step.Reserve? || step.Confirm? || step.RequestDeletion? || step.Tombstone?
    ensures SameStorage(s, Apply(c, s, step))
  {
  }

  lemma QueueUntouched(c: Config, s: State, step: Step)
    requires step.Claim? || step.Renew? || step.Conclude? || step.Crash? || step.Abandon? || step.Load? || step.Inspect?
    ensures SameStorage(s, Apply(c, s, step))
  {
  }

  lemma WritingUntouched(c: Config, s: State, step: Step)
    requires step.Pin? || step.Prepare? || step.Publish?
    ensures SameStorage(s, Apply(c, s, step))
  {
  }

  lemma RejectUntouched(c: Config, s: State, w: string)
    ensures SameStorage(s, ApplyReject(c, s, w))
  {
  }

  predicate Bookkeeping(step: Step) {
    step.Wait? || step.Observe? || step.Recheck? || step.RecordPrune? || step.LosePrune?
  }

  lemma ObserveUntouched(s: State, key: DerivativeKey)
    ensures StoreUntouched(s, ApplyObserve(s, key)) && ApplyObserve(s, key).ledger.cleared == s.ledger.cleared
  {
  }

  lemma RecheckUntouched(c: Config, s: State, key: DerivativeKey)
    ensures StoreUntouched(s, ApplyRecheck(c, s, key))
    ensures forall k :: k in ApplyRecheck(c, s, key).ledger.cleared && k !in s.ledger.cleared ==> !Recorded(s, k)
  {
  }

  /** Only a key no row records is cleared for deletion. */
  lemma InventoryUntouched(c: Config, s: State, step: Step)
    requires Bookkeeping(step)
    ensures StoreUntouched(s, Apply(c, s, step))
    ensures forall k :: k in Apply(c, s, step).ledger.cleared && k !in s.ledger.cleared ==> !Recorded(s, k)
  {
    hide Recorded, ApplyObserve, ApplyRecheck;
    match step
    case Observe(key) => ObserveUntouched(s, key);
    case Recheck(key) => RecheckUntouched(c, s, key);
    case _ =>
  }

  lemma OthersUntouched(c: Config, s: State, step: Step)
    requires !Touching(step)
    ensures StoreUntouched(s, Apply(c, s, step))
    ensures forall k :: k in Apply(c, s, step).ledger.cleared && k !in s.ledger.cleared ==> !Recorded(s, k)
  {
    if Bookkeeping(step) {
      InventoryUntouched(c, s, step);
    } else {
      hide Apply;
      UntouchedCompletely(c, s, step);
    }
  }

  lemma UntouchedCompletely(c: Config, s: State, step: Step)
    requires !Touching(step) && !InventoryStep(step)
    ensures SameStorage(s, Apply(c, s, step))
  {
    if step.Reserve? || step.Confirm? || step.RequestDeletion? || step.Tombstone? {
      RowStepUntouched(c, s, step);
    } else if step.Reject? {
      RejectUntouched(c, s, step.w);
    } else if step.Pin? || step.Prepare? || step.Publish? {
      WritingUntouched(c, s, step);
    } else {
      QueueUntouched(c, s, step);
    }
  }

  /** Recorded keys belong to their own upload. */
  lemma RecordedKeyBelongs(c: Config, s: State, u: string, id: Identity)
    requires Inv(c, s) && u in s.rows && id in s.rows[u].derivatives
    ensures s.rows[u].derivatives[id].key.upload == u
  {
    assert RowOk(c, s, u);
    assert Complete(c, s, u);
    assert Genuine(c, s, u, s.rows[u].pinned.value, s.rows[u].derivatives[id]);
  }

  lemma RemovalKeepsLedger(s: State, key: DerivativeKey)
    requires LedgerInv(s) && !Live(s, key)
    ensures LedgerInv(s.(store := s.store - {key}))
  {
    var s' := s.(store := s.store - {key});
    forall k | k in s'.store
      ensures PutLast(s'.ledger, Version(k, s'.store[k]))
    {
      assert PutLast(s.ledger, Version(k, s.store[k]));
    }
    forall v | v in s'.ledger.putAt && Live(s', v.key) && v.key !in s'.store
      ensures PrunedLast(s'.ledger, v.key)
    {
      assert PrunedLast(s.ledger, v.key);
    }
  }

  lemma CleanupKeepsLedger(c: Config, s: State, u: string, key: DerivativeKey)
    requires Inv(c, s) && LedgerInv(s)
    ensures LedgerInv(ApplyCleanupObject(s, u, key))
  {
    hide LedgerInv, Inv;
    if ApplyCleanupObject(s, u, key) != s {
      var id :| id in s.rows[u].derivatives && s.rows[u].derivatives[id].key == key;
      RecordedKeyBelongs(c, s, u, id);
      RemovalKeepsLedger(s, key);
    }
  }

  /** What a storing step does to the state apart from its slot's phase. */
  lemma StoringEffect(c: Config, s: State, step: Step)
    returns (d: Derivative)
    requires step.StoreMaster? || step.StoreThumbnail?
    ensures var s' := Apply(c, s, step);
            || s' == s
            || (&& PhaseOf(s, step.w).Validating() && PhaseOf(s, step.w).u == d.key.upload && d.key.upload in s.rows
                && s' == Stored(s, step.w, d).(phases := s'.phases))
  {
    var p := PhaseOf(s, step.w);
    if step.StoreMaster? && p.Prepared? && p.u in s.rows {
      d := MasterOf(s, p, step.len, step.sha);
    } else if step.StoreThumbnail? && p.MasterStored? && p.u in s.rows {
      d := ThumbnailOf(s, p, step.len, step.sha);
    } else {
      d := Derivative(DerivativeKey("", "", "", "", ThumbnailJpg), Master, "", 0, "");
    }
  }

  lemma PhasesKeepLedger(s: State, s': State)
    requires LedgerInv(s) && s' == s.(phases := s'.phases)
    ensures LedgerInv(s')
  {
    UntouchedKeepsLedger(s, s');
  }

  lemma StepKeepsLedger(c: Config, s: State, step: Step)
    requires Inv(c, s) && LedgerInv(s)
    ensures LedgerInv(Apply(c, s, step))
  {
    hide LedgerInv, Inv;
    if step.StoreMaster? || step.StoreThumbnail? {
      StoringKeepsLedger(c, s, step);
    } else if step.CleanupObject? {
      CleanupKeepsLedger(c, s, step.u, step.key);
    } else if step.Prune? {
      PruneKeepsLedger(s, step.key);
    } else {
      OtherStepKeepsLedger(c, s, step);
    }
  }

  lemma StoringKeepsLedger(c: Config, s: State, step: Step)
    requires LedgerInv(s) && (step.StoreMaster? || step.StoreThumbnail?)
    ensures LedgerInv(Apply(c, s, step))
  {
    hide Apply, LedgerInv;
    var d := StoringEffect(c, s, step);
    if Apply(c, s, step) != s {
      PutKeepsLedger(s, step.w, d);
      PhasesKeepLedger(Stored(s, step.w, d), Apply(c, s, step));
    }
  }

  lemma OtherStepKeepsLedger(c: Config, s: State, step: Step)
    requires Inv(c, s) && LedgerInv(s) && !Touching(step)
    ensures LedgerInv(Apply(c, s, step))
  {
    hide Apply, LedgerInv, Inv;
    StepKeeps(c, s, step);
    OthersUntouched(c, s, step);
    UntouchedKeepsLedger(s, Apply(c, s, step));
  }

  lemma {:induction false} RunKeepsLedger(c: Config, s: State, steps: seq<Step>)
    requires Inv(c, s) && LedgerInv(s)
    ensures LedgerInv(Run(c, s, steps))
    decreases steps
  {
    hide Apply, LedgerInv, Inv;
    if steps != [] {
      StepKeepsLedger(c, s, steps[0]);
      StepKeeps(c, s, steps[0]);
      RunKeepsLedger(c, Apply(c, s, steps[0]), steps[1..]);
    }
  }

  // ----- When a published object is lost -----

  /** An upload that is Ready and not being deleted lists this derivative. */
  ghost predicate Published(s: State, u: string, id: Identity) {
    u in s.rows && s.rows[u].state == Ready && !s.rows[u].deleteRequested && id in s.rows[u].derivatives
  }

  predicate Intact(s: State, d: Derivative) {
    d.key in s.store && s.store[d.key] == d.len
  }

  /**
   * In every run, an object of a published upload is missing exactly when inventory deleted its key
   * after the last put, and has another length exactly when it was not, and another version was put
   * after the one recorded. Nothing else loses or changes it.
   */
  lemma {:induction false} ObjectLostExactly(c: Config, steps: seq<Step>, u: string, id: Identity)
    requires Published(Run(c, INITIAL, steps), u, id)
    ensures var s := Run(c, INITIAL, steps);
            var d := s.rows[u].derivatives[id];
            var v := Version(d.key, d.len);
            && v in s.ledger.putAt
            && (d.key !in s.store <==> PrunedLast(s.ledger, d.key))
            && (d.key in s.store && s.store[d.key] != d.len
                <==> !PrunedLast(s.ledger, d.key) && Overwritten(s.ledger, v))
            && (Intact(s, d) <==> !PrunedLast(s.ledger, d.key) && !Overwritten(s.ledger, v))
  {
    InitialInv(c);
    RunKeeps(c, INITIAL, steps);
    RunKeepsLedger(c, INITIAL, steps);
    var s := Run(c, INITIAL, steps);
    assert RowOk(c, s, u);
    var d := s.rows[u].derivatives[id];
    RecordedKeyBelongs(c, s, u, id);
    assert Genuine(c, s, u, s.rows[u].pinned.value, d);
    var w :| PutRecord(w, d.key, d.len) in s.puts;
    LostExactly(s, d);
  }

  lemma LostExactly(s: State, d: Derivative)
    requires LedgerInv(s) && Live(s, d.key) && Version(d.key, d.len) in s.ledger.putAt
    ensures var v := Version(d.key, d.len);
            && (d.key !in s.store <==> PrunedLast(s.ledger, d.key))
            && (d.key in s.store && s.store[d.key] != d.len
                <==> !PrunedLast(s.ledger, d.key) && Overwritten(s.ledger, v))
  {
    var v := Version(d.key, d.len);
    if d.key in s.store {
      var o := Version(d.key, s.store[d.key]);
      assert PutLast(s.ledger, o);
      assert o in s.ledger.putAt;
    }
  }

  // ----- A renderer whose length depends on the key never overwrites with another length -----

  predicate IsVideoMaster(f: File) { f.MasterMp4? || f.MasterMov? || f.MasterWebm? }

  function Expected(c: Config, s: State, key: DerivativeKey): nat
    requires key.upload in s.rows && c.rendered.Some?
  {
    if IsVideoMaster(key.file) then s.rows[key.upload].size else c.rendered.value(key)
  }

  /** Every version ever put has the one length its key allows. */
  ghost predicate LengthsOk(c: Config, s: State) {
    c.rendered.Some? && forall v :: v in s.ledger.putAt ==> v.key.upload in s.rows && v.len == Expected(c, s, v.key)
  }

  lemma StoringKeepsLengths(c: Config, s: State, step: Step)
    requires LengthsOk(c, s) && (step.StoreMaster? || step.StoreThumbnail?)
    ensures LengthsOk(c, Apply(c, s, step))
  {
    var p := PhaseOf(s, step.w);
    var s' := Apply(c, s, step);
    if s'.ledger != s.ledger {
      forall v | v in s'.ledger.putAt
        ensures v.key.upload in s'.rows && v.len == Expected(c, s', v.key)
      {
        assert v in s.ledger.putAt ==> v.len == Expected(c, s, v.key);
      }
    }
  }

  lemma PutAtEffect(c: Config, s: State, step: Step)
    requires !step.StoreMaster? && !step.StoreThumbnail?
    ensures Apply(c, s, step).ledger.putAt == s.ledger.putAt
  {
    hide Apply;
    if !Touching(step) {
      OthersUntouched(c, s, step);
    } else {
      StoreLossPutAt(c, s, step);
    }
  }

  lemma StoreLossPutAt(c: Config, s: State, step: Step)
    requires step.CleanupObject? || step.Prune?
    ensures Apply(c, s, step).ledger.putAt == s.ledger.putAt
  {
  }

  lemma {:induction false} RunKeepsLengths(c: Config, s: State, steps: seq<Step>)
    requires Inv(c, s) && LengthsOk(c, s)
    ensures LengthsOk(c, Run(c, s, steps))
    decreases steps
  {
    hide Apply, Inv;
    if steps != [] {
      var step := steps[0];
      StepKeeps(c, s, step);
      if step.StoreMaster? || step.StoreThumbnail? {
        StoringKeepsLengths(c, s, step);
      } else {
        PutAtEffect(c, s, step);
      }
      RunKeepsLengths(c, Apply(c, s, step), steps[1..]);
    }
  }

  /** With such a renderer a published object can only be missing, and only by a prune after its last put. */
  lemma {:induction false} StableRendererLosesOnlyByPrune(c: Config, steps: seq<Step>, u: string, id: Identity)
    requires c.rendered.Some? && Published(Run(c, INITIAL, steps), u, id)
    ensures var s := Run(c, INITIAL, steps);
            var d := s.rows[u].derivatives[id];
            Intact(s, d) <==> !PrunedLast(s.ledger, d.key)
  {
    InitialInv(c);
    RunKeepsLengths(c, INITIAL, steps);
    ObjectLostExactly(c, steps, u, id);
  }

  // ----- Once nobody is left who could touch it, a published object stays -----

  /** No slot is validating the upload. */
  ghost predicate Unattended(s: State, u: string) {
    forall w :: PhaseOf(s, w).Validating() ==> PhaseOf(s, w).u != u
  }

  /** The only steps that change what the store holds under a key. */
  lemma StoreEffect(c: Config, s: State, step: Step, k: DerivativeKey)
    requires k in s.store && (k in Apply(c, s, step).store ==> Apply(c, s, step).store[k] != s.store[k])
    ensures || ((step.StoreMaster? || step.StoreThumbnail?) && PhaseOf(s, step.w).Validating()
                && PhaseOf(s, step.w).u == k.upload)
            || (step == Prune(k) && k in s.ledger.cleared)
            || (step.CleanupObject? && step.key == k && step.u in s.rows && s.rows[step.u].deleteRequested
                && exists id :: id in s.rows[step.u].derivatives && s.rows[step.u].derivatives[id].key == k)
  {
    if step.StoreMaster? || step.StoreThumbnail? {
      var d := StoringEffect(c, s, step);
    } else if !Touching(step) {
      OthersUntouched(c, s, step);
    }
  }

  lemma ClearedEffect(c: Config, s: State, step: Step, k: DerivativeKey)
    requires k in Apply(c, s, step).ledger.cleared && k !in s.ledger.cleared
    ensures !Recorded(s, k)
  {
    hide Apply;
    if step.StoreMaster? || step.StoreThumbnail? {
      var d := StoringEffect(c, s, step);
    } else if Touching(step) {
      RemovalClearsNothing(c, s, step);
    } else {
      OthersUntouched(c, s, step);
    }
  }

  lemma RemovalClearsNothing(c: Config, s: State, step: Step)
    requires step.CleanupObject? || step.Prune?
    ensures Apply(c, s, step).ledger.cleared <= s.ledger.cleared
  {
  }

  /** Intact, with no deletion under way and no attempt left that could put its keys again. */
  ghost predicate Secure(s: State, u: string, id: Identity) {
    && Published(s, u, id) && Unattended(s, u)
    && Intact(s, s.rows[u].derivatives[id]) && s.rows[u].derivatives[id].key !in s.ledger.cleared
  }

  lemma SecureStep(c: Config, s: State, step: Step, u: string, id: Identity)
    requires Inv(c, s) && Secure(s, u, id) && Published(Apply(c, s, step), u, id)
    ensures Secure(Apply(c, s, step), u, id)
  {
    hide Apply, Inv;
    var s' := Apply(c, s, step);
    var d := s.rows[u].derivatives[id];
    StepKeeps(c, s, step);
    assert s'.rows[u].derivatives == s.rows[u].derivatives;
    RecordedKeyBelongs(c, s, u, id);
    if !Intact(s', d) {
      StoreEffect(c, s, step, d.key);
      if step.CleanupObject? {
        var other :| other in s.rows[step.u].derivatives && s.rows[step.u].derivatives[other].key == d.key;
        RecordedKeyBelongs(c, s, step.u, other);
      }
      assert false;
    }
    assert Recorded(s, d.key);
    if d.key in s'.ledger.cleared { ClearedEffect(c, s, step, d.key); }
    forall w
      ensures PhaseOf(s', w).Validating() ==> PhaseOf(s', w).u != u
    {
      PhaseEffect(c, s, step, w);
    }
  }

  /** A published object that is secure stays intact for as long as its upload stays published. */
  lemma {:induction false} SecureObjectStays(c: Config, s: State, steps: seq<Step>, u: string, id: Identity)
    requires Inv(c, s) && Secure(s, u, id) && Published(Run(c, s, steps), u, id)
    ensures Secure(Run(c, s, steps), u, id)
    decreases steps
  {
    hide Apply, Inv;
    if steps != [] {
      var s' := Apply(c, s, steps[0]);
      StepKeeps(c, s, steps[0]);
      RunKeeps(c, s', steps[1..]);
      assert Published(s', u, id);
      SecureStep(c, s, steps[0], u, id);
      SecureObjectStays(c, s', steps[1..], u, id);
    }
  }
}
