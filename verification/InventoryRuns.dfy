/**
 * Whole inventory cycles of one namespace: runs that crash and resume from the durable cursor while
 * objects and owners come and go, with the history that coverage and the grace period speak about.
 */
module InventoryRuns {
  import opened Basics
  import opened Inventory

  /** How far the next eligible key has come: a passed recheck, the provider's answer, its record. */
  datatype Stage = Listed | Cleared | Removed | Unremoved

  datatype Phase =
    | Idle
    | Scanning(now: int, at: Option<string>)
    | Holding(now: int, at: Option<string>, page: Page, eligible: seq<string>, next: nat, stage: Stage)

  /**
   * History: `start` is what the store held when the cycle began, `gone` what was deleted since,
   * `visited` the keys of the pages saved in this cycle, `streak` the sightings of each key without
   * an owner since it was last seen with one or recorded as deleted, `aged` those since inventory last
   * deleted its object, `unrecorded` the suspects whose last deletion was not recorded, and `arrived`
   * the keys that have gained an owner, and not lost it again, since the last recheck that cleared a key.
   */
  datatype State = State(store: set<string>, owned: set<string>, orphans: Orphans, cursor: Option<string>, phase: Phase,
                         start: set<string>, gone: set<string>, visited: seq<string>, streak: set<(string, int)>,
                         aged: set<(string, int)>, unrecorded: set<string>, arrived: set<string>)

  datatype Config = Config(ns: Namespace, grace: nat)

  datatype Step =
    | Put(key: string)
    | Remove(key: string)
    | Own(key: string)
    | Disown(key: string)
    | StartRun(now: int)
    | Scan(page: Page)
    | Recheck
    | DeleteNext(answer: Answer)
    | Record
    | Save(more: bool)
    | Crash

  function InNamespace(c: Config, store: set<string>): set<string> {
    set k | k in store && StartsWith(k, c.ns.Prefix())
  }

  function Sighted(streak: set<(string, int)>, owned: set<string>, keys: seq<string>, now: int): set<(string, int)> {
    (set x | x in streak && !(x.0 in keys && x.0 in owned)) + (set k | k in keys && k !in owned :: (k, now))
  }

  function StillUnrecorded(unrecorded: set<string>, owned: set<string>, keys: seq<string>): set<string> {
    set k | k in unrecorded && !(k in keys && k in owned)
  }

  predicate Pending(s: State) { s.phase.Holding? && s.phase.next < |s.phase.eligible| }

  function Without(sightings: set<(string, int)>, key: string): set<(string, int)> {
    set x | x in sightings && x.0 != key
  }

  /** The final ownership check of the next eligible key. */
  function ApplyRecheck(s: State): State {
    if !Pending(s) || !s.phase.stage.Listed? then s
    else
      var key := s.phase.eligible[s.phase.next];
      if key !in s.owned then s.(phase := s.phase.(stage := Cleared), arrived := {})
      else
        s.(phase := s.phase.(next := s.phase.next + 1), orphans := s.orphans - {key},
           streak := Without(s.streak, key), aged := Without(s.aged, key), unrecorded := s.unrecorded - {key})
  }

  /** The provider call after the check; a lost answer counts as a failure. */
  function ApplyDelete(s: State, answer: Answer): State {
    if !Pending(s) || !s.phase.stage.Cleared? then s
    else
      var key := s.phase.eligible[s.phase.next];
      var moved := s.(phase := s.phase.(stage := if answer.Done? then Removed else Unremoved));
      if answer.Refused? then moved
      else
        moved.(store := s.store - {key}, gone := s.gone + {key},
               aged := Without(s.aged, key), unrecorded := s.unrecorded + {key})
  }

  /** The record of the provider's answer. */
  function ApplyRecord(s: State): State {
    if !Pending(s) || s.phase.stage.Listed? || s.phase.stage.Cleared? then s
    else
      var key := s.phase.eligible[s.phase.next];
      var moved := s.(phase := s.phase.(next := s.phase.next + 1, stage := Listed));
      if key !in s.orphans then moved
      else if s.phase.stage.Removed? then
        moved.(orphans := s.orphans[key := s.orphans[key].(deleted := true, error := None)],
               streak := Without(s.streak, key), unrecorded := s.unrecorded - {key})
      else moved.(orphans := s.orphans[key := s.orphans[key].(attempts := s.orphans[key].attempts + 1)])
  }

  function ApplySave(c: Config, s: State, more: bool): State {
    if !s.phase.Holding? then s
    else
      var page := s.phase.page;
      if page.next.None? then
        s.(cursor := None, phase := Idle, start := InNamespace(c, s.store), gone := {}, visited := [])
      else
        s.(cursor := page.next, visited := s.visited + page.keys,
           phase := if more then Scanning(s.phase.now, page.next) else Idle)
  }

  ghost function Apply(c: Config, s: State, step: Step): State {
    match step
    case Put(key) => if |key| <= 1024 then s.(store := s.store + {key}) else s
    case Remove(key) => s.(store := s.store - {key}, gone := s.gone + {key})
    case Own(key) => s.(owned := s.owned + {key}, arrived := s.arrived + {key})
    case Disown(key) => s.(owned := s.owned - {key}, arrived := s.arrived - {key})
    case StartRun(now) =>
      if s.phase.Idle? && ValidCursor(c.ns, s.cursor) then s.(phase := Scanning(now, s.cursor)) else s
    case Scan(page) =>
      if s.phase.Scanning? && Covers(s.store, c.ns.Prefix(), s.phase.at, page) && ValidPage(c.ns, s.phase.at, page) then
        var keys := Kept(c.ns, page.keys);
        var (orphans, r) := Reconcile(s.owned, s.orphans, keys, s.phase.now, s.phase.now - c.grace);
        s.(orphans := orphans, streak := Sighted(s.streak, s.owned, keys, s.phase.now),
           aged := Sighted(s.aged, s.owned, keys, s.phase.now),
           unrecorded := StillUnrecorded(s.unrecorded, s.owned, keys),
           phase := Holding(s.phase.now, s.phase.at, page, r.eligible, 0, Listed))
      else s
    case Recheck => ApplyRecheck(s)
    case DeleteNext(answer) => ApplyDelete(s, answer)
    case Record => ApplyRecord(s)
    case Save(more) => ApplySave(c, s, more)
    case Crash => s.(phase := Idle)
  }

  ghost function Run(c: Config, s: State, steps: seq<Step>): State
    decreases steps
  {
    if steps == [] then s else Run(c, Apply(c, s, steps[0]), steps[1..])
  }

  /** A namespace never scanned before. */
  ghost predicate Initial(c: Config, s: State) {
    && c.grace > 0 && (forall k :: k in s.store ==> |k| <= 1024)
    && s.orphans == map[] && s.cursor.None? && s.phase.Idle?
    && s.start == InNamespace(c, s.store) && s.gone == {} && s.visited == []
    && s.streak == {} && s.aged == {} && s.unrecorded == {}
  }

  // ----- Coverage -----

  /** Keys of this cycle that still have to be visited. */
  ghost predicate Owed(s: State, k: string) {
    k in s.start && k !in s.gone && k !in s.visited
  }

  ghost predicate PageInv(c: Config, s: State) {
    s.phase.Holding? ==>
      var page := s.phase.page;
      && ValidPage(c.ns, s.cursor, page)
      && forall k :: Owed(s, k) ==> k in page.keys || (page.next.Some? && Less(page.next.value, k))
  }

  ghost predicate CoverInv(c: Config, s: State) {
    && (forall k :: k in s.store ==> |k| <= 1024)
    && ValidCursor(c.ns, s.cursor)
    && Increasing(s.visited)
    && (if s.cursor.None? then s.visited == [] else s.visited != [] && s.visited[|s.visited| - 1] == s.cursor.value)
    && (forall k :: k in s.start ==> StartsWith(k, c.ns.Prefix()))
    && (forall k :: Owed(s, k) ==> k in s.store && (s.cursor.Some? ==> Less(s.cursor.value, k)))
    && (!s.phase.Idle? ==> s.phase.at == s.cursor)
    && PageInv(c, s)
  }

  lemma ScanKeepsCover(c: Config, s: State, page: Page)
    requires CoverInv(c, s)
    ensures CoverInv(c, Apply(c, s, Scan(page)))
  {
    var s' := Apply(c, s, Scan(page));
    if s' != s {
      forall k | Owed(s', k)
        ensures k in page.keys || (page.next.Some? && Less(page.next.value, k))
      {
        assert Owed(s, k);
        assert Matches(c.ns.Prefix(), s.cursor, k);
      }
    }
  }

  /** A page's keys all come after those already visited. */
  lemma PageFollowsVisited(c: Config, s: State, i: nat)
    requires CoverInv(c, s) && s.phase.Holding? && i < |s.phase.page.keys|
    ensures s.phase.page.keys[i] !in s.visited
  {
    var key := s.phase.page.keys[i];
    if key in s.visited {
      var j :| 0 <= j < |s.visited| && s.visited[j] == key;
      assert Less(s.cursor.value, key);
      if j < |s.visited| - 1 {
        IncreasingOrders(s.visited, j, |s.visited| - 1);
        LessTransitive(key, s.cursor.value, key);
      }
      LessIrreflexive(key);
      assert false;
    }
  }

  lemma VisitedExtends(c: Config, s: State)
    requires CoverInv(c, s) && s.phase.Holding?
    ensures Increasing(s.visited + s.phase.page.keys)
  {
    var v, p := s.visited, s.phase.page.keys;
    forall i | 0 <= i < |v + p| - 1
      ensures Less((v + p)[i], (v + p)[i + 1])
    {
      if i >= |v| {
        assert Less(p[i - |v|], p[i - |v| + 1]);
      }
    }
  }

  lemma SaveKeepsCover(c: Config, s: State, more: bool)
    requires CoverInv(c, s)
    ensures CoverInv(c, Apply(c, s, Save(more)))
  {
    if s.phase.Holding? {
      var s' := Apply(c, s, Save(more));
      var page := s.phase.page;
      NextCursorValid(c.ns, s.cursor, page);
      VisitedExtends(c, s);
      if page.next.Some? {
        assert s'.visited[|s'.visited| - 1] == page.keys[|page.keys| - 1];
        forall k | Owed(s', k)
          ensures k in s'.store && Less(page.next.value, k)
        {
          assert Owed(s, k);
        }
      }
    }
  }

  /** Pruning touches the coverage of a cycle only by deleting an object. */
  lemma PruneEffect(s: State, step: Step)
    requires step.Recheck? || step.DeleteNext? || step.Record?
    ensures var s' := if step.Recheck? then ApplyRecheck(s) else if step.Record? then ApplyRecord(s)
                      else ApplyDelete(s, step.answer);
            && s'.start == s.start && s'.visited == s.visited && s'.cursor == s.cursor && s'.gone >= s.gone
            && s'.store <= s.store <= s'.store + s'.gone && (s'.phase.Holding? <==> s.phase.Holding?)
            && (s.phase.Holding? ==> s'.phase.at == s.phase.at && s'.phase.page == s.phase.page)
            && (!s.phase.Holding? ==> s' == s)
  {
  }

  lemma OtherStepsKeepCover(c: Config, s: State, step: Step)
    requires CoverInv(c, s) && !step.Scan? && !step.Save?
    ensures CoverInv(c, Apply(c, s, step))
  {
    hide ApplyRecheck, ApplyDelete, ApplyRecord;
    if step.Recheck? || step.DeleteNext? || step.Record? { PruneEffect(s, step); }
    var s' := Apply(c, s, step);
    forall k | Owed(s', k)
      ensures Owed(s, k)
    {
    }
    forall k | Owed(s', k)
      ensures k in s'.store && (s'.cursor.Some? ==> Less(s'.cursor.value, k))
    {
      assert Owed(s, k);
    }
  }

  lemma InitialCover(c: Config, s: State)
    requires Initial(c, s)
    ensures CoverInv(c, s)
  {
  }

  lemma {:induction false} RunKeepsCover(c: Config, s: State, steps: seq<Step>)
    requires CoverInv(c, s)
    ensures CoverInv(c, Run(c, s, steps))
    decreases steps
  {
    if steps != [] {
      var step := steps[0];
      if step.Scan? { ScanKeepsCover(c, s, step.page); }
      else if step.Save? { SaveKeepsCover(c, s, step.more); }
      else { OtherStepsKeepCover(c, s, step); }
      RunKeepsCover(c, Apply(c, s, step), steps[1..]);
    }
  }

  /** The durable cursor always passes the next run's own check, so a cycle can always be resumed. */
  lemma {:induction false} SavedCursorValid(c: Config, s0: State, steps: seq<Step>)
    requires Initial(c, s0)
    ensures ValidCursor(c.ns, Run(c, s0, steps).cursor)
  {
    InitialCover(c, s0);
    RunKeepsCover(c, s0, steps);
  }

  /** No key of a saved page is listed again in its cycle: a crash repeats only the unsaved page. */
  lemma {:induction false} OnlyUnsavedPagesRepeat(c: Config, s0: State, steps: seq<Step>, i: nat)
    requires Initial(c, s0)
    requires var s := Run(c, s0, steps); s.phase.Holding? && i < |s.phase.page.keys|
    ensures var s := Run(c, s0, steps); s.phase.page.keys[i] !in s.visited
  {
    InitialCover(c, s0);
    RunKeepsCover(c, s0, steps);
    PageFollowsVisited(c, Run(c, s0, steps), i);
  }

  /**
   * When a cycle ends, its pages visited keys in strictly increasing order, and every key that was
   * there when the cycle began and was not deleted during it was visited exactly once.
   */
  lemma {:induction false} CycleVisitsEachKeyOnce(c: Config, s0: State, steps: seq<Step>)
    requires Initial(c, s0)
    requires var s := Run(c, s0, steps); s.phase.Holding? && s.phase.page.next.None?
    ensures var s := Run(c, s0, steps);
            var v := s.visited + s.phase.page.keys;
            && Increasing(v) && AllDifferent(v)
            && forall k :: k in s.start && k !in s.gone ==> k in v
  {
    InitialCover(c, s0);
    RunKeepsCover(c, s0, steps);
    var s := Run(c, s0, steps);
    VisitedExtends(c, s);
    var v := s.visited + s.phase.page.keys;
    forall i, j | 0 <= i < j < |v|
      ensures v[i] != v[j]
    {
      IncreasingOrders(v, i, j);
    }
    forall k | k in s.start && k !in s.gone
      ensures k in v
    {
      assert Owed(s, k) || k in s.visited;
    }
  }

  // ----- Grace -----

  /** Every live suspicion began with a sighting in an unbroken streak. */
  ghost predicate StreaksOk(orphans: Orphans, streak: set<(string, int)>) {
    forall k :: k in orphans && !orphans[k].deleted ==> (k, orphans[k].firstSeen) in streak
  }

  /** Unless its last deletion went unrecorded, that sighting came after any deletion. */
  ghost predicate AgesOk(orphans: Orphans, aged: set<(string, int)>, unrecorded: set<string>) {
    forall k :: k in orphans && !orphans[k].deleted && k !in unrecorded ==> (k, orphans[k].firstSeen) in aged
  }

  /** Keys still to be pruned are suspected since before the limit. */
  ghost predicate EligibleOk(orphans: Orphans, eligible: seq<string>, next: nat, limit: int) {
    AllDifferent(eligible) && forall j :: next <= j < |eligible| ==> OldSuspect(orphans, eligible[j], limit)
  }

  ghost predicate GraceInv(c: Config, s: State) {
    && StreaksOk(s.orphans, s.streak) && AgesOk(s.orphans, s.aged, s.unrecorded)
    && (s.phase.Holding? ==> EligibleOk(s.orphans, s.phase.eligible, s.phase.next, s.phase.now - c.grace))
  }

  lemma KeptDistinct(ns: Namespace, keys: seq<string>)
    requires Increasing(keys)
    ensures AllDifferent(Kept(ns, keys))
  {
    forall i, j | 0 <= i < j < |keys|
      ensures keys[i] != keys[j]
    {
      IncreasingOrders(keys, i, j);
    }
    KeptFacts(ns, keys);
  }

  /** Reconciling a page moves the recorded first sightings and the unbroken streaks together. */
  lemma StreaksFollow(orphans: Orphans, streak: set<(string, int)>, owned: set<string>, keys: seq<string>, now: int,
                      grace: nat, k: string)
    requires AllDifferent(keys)
    requires k in orphans && !orphans[k].deleted ==> (k, orphans[k].firstSeen) in streak
    ensures var after := Reconcile(owned, orphans, keys, now, now - grace).0;
            k in after && !after[k].deleted ==> (k, after[k].firstSeen) in Sighted(streak, owned, keys, now)
  {
    if k in keys {
      ReconcileObserves(owned, orphans, keys, now, now - grace, k);
    } else {
      ReconcileSpares(owned, orphans, keys, now, now - grace, k);
    }
  }

  lemma ReconciledOk(orphans: Orphans, streak: set<(string, int)>, owned: set<string>, keys: seq<string>, now: int,
                     grace: nat)
    requires AllDifferent(keys) && grace > 0 && StreaksOk(orphans, streak)
    ensures var (after, r) := Reconcile(owned, orphans, keys, now, now - grace);
            StreaksOk(after, Sighted(streak, owned, keys, now)) && EligibleOk(after, r.eligible, 0, now - grace)
  {
    var (after, r) := Reconcile(owned, orphans, keys, now, now - grace);
    ReconcilePartitions(owned, orphans, keys, now, now - grace);
    forall k | k in after && !after[k].deleted
      ensures (k, after[k].firstSeen) in Sighted(streak, owned, keys, now)
    {
      StreaksFollow(orphans, streak, owned, keys, now, grace, k);
    }
    forall j | 0 <= j < |r.eligible|
      ensures OldSuspect(after, r.eligible[j], now - grace)
    {
      assert r.eligible[j] in r.eligible;
    }
  }

  lemma AgesFollow(orphans: Orphans, aged: set<(string, int)>, unrecorded: set<string>, owned: set<string>,
                   keys: seq<string>, now: int, grace: nat)
    requires AllDifferent(keys) && AgesOk(orphans, aged, unrecorded)
    ensures AgesOk(Reconcile(owned, orphans, keys, now, now - grace).0, Sighted(aged, owned, keys, now),
                   StillUnrecorded(unrecorded, owned, keys))
  {
    var after := Reconcile(owned, orphans, keys, now, now - grace).0;
    forall k | k in after && !after[k].deleted && k !in StillUnrecorded(unrecorded, owned, keys)
      ensures (k, after[k].firstSeen) in Sighted(aged, owned, keys, now)
    {
      if k in keys {
        ReconcileObserves(owned, orphans, keys, now, now - grace, k);
      } else {
        ReconcileSpares(owned, orphans, keys, now, now - grace, k);
      }
    }
  }

  lemma ScanKeepsGrace(c: Config, s: State, page: Page)
    requires c.grace > 0 && GraceInv(c, s)
    ensures GraceInv(c, Apply(c, s, Scan(page)))
  {
    if s.phase.Scanning? && ValidPage(c.ns, s.phase.at, page) {
      KeptDistinct(c.ns, page.keys);
      ReconciledOk(s.orphans, s.streak, s.owned, Kept(c.ns, page.keys), s.phase.now, c.grace);
      AgesFollow(s.orphans, s.aged, s.unrecorded, s.owned, Kept(c.ns, page.keys), s.phase.now, c.grace);
    }
  }

  lemma PruneKeepsGrace(c: Config, s: State, step: Step)
    requires GraceInv(c, s) && (step.Recheck? || step.DeleteNext? || step.Record?)
    ensures GraceInv(c, Apply(c, s, step))
  {
  }

  lemma {:induction false} RunKeepsGrace(c: Config, s: State, steps: seq<Step>)
    requires c.grace > 0 && GraceInv(c, s)
    ensures GraceInv(c, Run(c, s, steps))
    decreases steps
  {
    if steps != [] {
      var step := steps[0];
      if step.Scan? { ScanKeepsGrace(c, s, step.page); }
      else if step.Recheck? || step.DeleteNext? || step.Record? { PruneKeepsGrace(c, s, step); }
      RunKeepsGrace(c, Apply(c, s, step), steps[1..]);
    }
  }

  /**
   * Inventory deletes an object only after its final check found no owner, and only if a scan at
   * least the grace period earlier had already seen its key unowned, with no scan since finding an
   * owner. That sighting came after any earlier deletion of the key, unless the last one was never
   * recorded.
   */
  lemma {:induction false} DeletionsWaitOutTheGrace(c: Config, s0: State, steps: seq<Step>, step: Step, key: string)
    requires Initial(c, s0) && !step.Remove?
    requires var s := Run(c, s0, steps); key in s.store && key !in Apply(c, s, step).store
    ensures var s := Run(c, s0, steps);
            && step.DeleteNext? && Pending(s) && s.phase.stage.Cleared? && key == s.phase.eligible[s.phase.next]
            && (exists first :: (key, first) in s.streak && first + c.grace <= s.phase.now)
            && (key !in s.unrecorded ==> exists first :: (key, first) in s.aged && first + c.grace <= s.phase.now)
  {
    RunKeepsGrace(c, s0, steps);
    var s := Run(c, s0, steps);
    assert key == s.phase.eligible[s.phase.next];
    assert OldSuspect(s.orphans, key, s.phase.now - c.grace);
    assert (key, s.orphans[key].firstSeen) in s.streak;
    assert key !in s.unrecorded ==> (key, s.orphans[key].firstSeen) in s.aged;
  }

  // ----- When an owned object is deleted -----

  /** A cleared key had no owner at its recheck, so whoever owns it now arrived since. */
  ghost predicate ClearedInv(s: State) {
    Pending(s) && s.phase.stage.Cleared? ==>
      (s.phase.eligible[s.phase.next] in s.owned <==> s.phase.eligible[s.phase.next] in s.arrived)
  }

  lemma StepKeepsCleared(c: Config, s: State, step: Step)
    requires ClearedInv(s)
    ensures ClearedInv(Apply(c, s, step))
  {
  }

  lemma {:induction false} RunKeepsCleared(c: Config, s: State, steps: seq<Step>)
    requires ClearedInv(s)
    ensures ClearedInv(Run(c, s, steps))
    decreases steps
  {
    if steps != [] {
      StepKeepsCleared(c, s, steps[0]);
      RunKeepsCleared(c, Apply(c, s, steps[0]), steps[1..]);
    }
  }

  /**
   * In every run, inventory deletes an object that has an owner exactly when it deletes the key it
   * has last cleared and that owner arrived after the recheck. The check and the provider call are
   * not one transaction, and nothing else endangers an owned object.
   */
  lemma {:induction false} OwnedObjectDeletedExactly(c: Config, s0: State, steps: seq<Step>, step: Step, key: string)
    requires Initial(c, s0) && !step.Remove?
    requires key in Run(c, s0, steps).store
    ensures var s := Run(c, s0, steps);
            (key !in Apply(c, s, step).store && key in Apply(c, s, step).owned)
            <==> (&& step.DeleteNext? && !step.answer.Refused? && Pending(s) && s.phase.stage.Cleared?
                  && key == s.phase.eligible[s.phase.next] && key in s.arrived)
  {
    RunKeepsCleared(c, s0, steps);
  }

  lemma RunCons(c: Config, s: State, step: Step, rest: seq<Step>)
    ensures Run(c, s, [step] + rest) == Run(c, Apply(c, s, step), rest)
  {
    assert ([step] + rest)[1..] == rest;
  }

  lemma RunOne(c: Config, s: State, step: Step)
    ensures Run(c, s, [step]) == Apply(c, s, step)
  {
    RunCons(c, s, step, []);
    assert [step] + [] == [step];
  }

  lemma {:induction false} RunAppend(c: Config, s: State, a: seq<Step>, b: seq<Step>)
    ensures Run(c, s, a + b) == Run(c, Run(c, s, a), b)
    decreases a
  {
    if a == [] {
      assert a + b == b;
    } else {
      assert (a + b)[1..] == a[1..] + b;
      RunAppend(c, Apply(c, s, a[0]), a[1..], b);
    }
  }

  /** The whole namespace holds one unowned key. */
  ghost predicate Lonely(c: Config, s: State, key: string) {
    && s.store == {key} && key !in s.owned && Keepable(c.ns, key) && |key| <= 1024 && s.cursor.None? && s.phase.Idle?
  }

  /** One run over such a namespace up to its page's reconciliation. */
  lemma ScanLonely(c: Config, s: State, key: string, now: int)
    requires Lonely(c, s, key) && c.grace > 0
    ensures var s' := Run(c, s, [StartRun(now)] + [Scan(Page([key], None))]);
            var (after, r) := Reconcile(s.owned, s.orphans, [key], now, now - c.grace);
            && s'.store == s.store && s'.owned == s.owned && s'.cursor == s.cursor && s'.orphans == after
            && s'.phase == Holding(now, None, Page([key], None), r.eligible, 0, Listed)
            && s'.aged == Sighted(s.aged, s.owned, [key], now)
  {
    var page := Page([key], None);
    RunCons(c, s, StartRun(now), [Scan(page)]);
    var s1 := Apply(c, s, StartRun(now));
    RunOne(c, s1, Scan(page));
    assert Covers(s1.store, c.ns.Prefix(), None, page);
    assert ValidPage(c.ns, None, page);
    KeptOne(c.ns, key);
  }

  lemma KeptOne(ns: Namespace, key: string)
    requires Keepable(ns, key)
    ensures Kept(ns, [key]) == [key]
  {
    assert [key][..0] == [] && Kept(ns, []) == [];
  }

  lemma ReconcileOne(owned: set<string>, orphans: Orphans, key: string, now: int, limit: int)
    requires key !in owned
    ensures var (after, r) := Reconcile(owned, orphans, [key], now, limit);
            && after == Observe(orphans, key, false, now)
            && r.eligible == (if after[key].firstSeen <= limit then [key] else [])
  {
    assert [key][..0] == [] && Reconcile(owned, orphans, [], now, limit) == (orphans, Reconciled(0, 0, []));
  }

  function FirstRun(key: string): seq<Step> { [StartRun(0)] + [Scan(Page([key], None))] + [Save(false)] }

  function SecondRun(c: Config, key: string): seq<Step> { [StartRun(c.grace)] + [Scan(Page([key], None))] }

  /** Two scans a grace period apart make the key eligible. */
  lemma TwoScans(c: Config, s: State, key: string)
    requires Lonely(c, s, key) && c.grace > 0 && s.orphans == map[]
    ensures var s' := Run(c, s, FirstRun(key) + SecondRun(c, key));
            && s'.store == {key} && key !in s'.owned && key in s'.orphans && s'.cursor.None?
            && s'.orphans[key].firstSeen == 0 && !s'.orphans[key].deleted
            && s'.phase == Holding(c.grace, None, Page([key], None), [key], 0, Listed)
  {
    RunAppend(c, s, FirstRun(key), SecondRun(c, key));
    ScanLonely(c, s, key, 0);
    ReconcileOne(s.owned, s.orphans, key, 0, 0 - c.grace);
    RunAppend(c, s, [StartRun(0)] + [Scan(Page([key], None))], [Save(false)]);
    var s1 := Run(c, s, [StartRun(0)] + [Scan(Page([key], None))]);
    RunOne(c, s1, Save(false));
    var s2 := Apply(c, s1, Save(false));
    assert Lonely(c, s2, key) && s2.orphans[key].firstSeen == 0 && !s2.orphans[key].deleted;
    ScanLonely(c, s2, key, c.grace);
    ReconcileOne(s2.owned, s2.orphans, key, c.grace, 0);
  }

  /** An owner that arrives between the recheck and the provider call loses its object. */
  lemma LateOwnerLosesObject(c: Config, s0: State, key: string) returns (steps: seq<Step>)
    requires Initial(c, s0) && s0.store == {} && key !in s0.owned && Keepable(c.ns, key) && |key| <= 1024
    ensures var s := Run(c, s0, steps); key in s.owned && key !in s.store
  {
    hide Reconcile, FirstRun, SecondRun;
    var scans := FirstRun(key) + SecondRun(c, key);
    var prune := [Recheck] + ([Own(key)] + [DeleteNext(Done)]);
    steps := [Put(key)] + (scans + prune);
    RunCons(c, s0, Put(key), scans + prune);
    var s1 := Apply(c, s0, Put(key));
    TwoScans(c, s1, key);
    RunAppend(c, s1, scans, prune);
    var s2 := Run(c, s1, scans);
    RunCons(c, s2, Recheck, [Own(key)] + [DeleteNext(Done)]);
    var s3 := Apply(c, s2, Recheck);
    RunCons(c, s3, Own(key), [DeleteNext(Done)]);
    RunOne(c, Apply(c, s3, Own(key)), DeleteNext(Done));
  }

  /** A deletion whose record never comes leaves the object gone and its suspicion standing. */
  lemma UnrecordedDeletion(c: Config, s: State, key: string)
    requires s.phase == Holding(c.grace, None, Page([key], None), [key], 0, Listed)
    requires s.store == {key} && key !in s.owned && Keepable(c.ns, key) && |key| <= 1024 && s.cursor.None?
    ensures var s' := Run(c, s, [Recheck] + ([DeleteNext(Done)] + ([Crash] + [Put(key)])));
            && Lonely(c, s', key) && s'.orphans == s.orphans && forall first :: (key, first) !in s'.aged
  {
    RunCons(c, s, Recheck, [DeleteNext(Done)] + ([Crash] + [Put(key)]));
    var s1 := Apply(c, s, Recheck);
    RunCons(c, s1, DeleteNext(Done), [Crash] + [Put(key)]);
    var s2 := Apply(c, s1, DeleteNext(Done));
    RunCons(c, s2, Crash, [Put(key)]);
    RunOne(c, Apply(c, s2, Crash), Put(key));
  }

  lemma RecheckThenDelete(c: Config, s: State, key: string)
    requires s.phase.Holding? && s.phase.eligible == [key] && s.phase.next == 0 && s.phase.stage.Listed?
    requires key in s.store && key !in s.owned
    ensures var s' := Run(c, s, [Recheck]);
            && key in s'.store && key !in Apply(c, s', DeleteNext(Done)).store && s'.phase.Holding?
            && s'.aged == s.aged && s'.phase.now == s.phase.now
  {
    RunOne(c, s, Recheck);
  }

  /** The next run then deletes whatever has come under that key, however young. */
  lemma ClearedAgain(c: Config, s: State, key: string)
    requires Lonely(c, s, key) && c.grace > 0 && key in s.orphans
    requires s.orphans[key].firstSeen == 0 && !s.orphans[key].deleted && forall first :: (key, first) !in s.aged
    ensures var s' := Run(c, s, SecondRun(c, key) + [Recheck]);
            && key in s'.store && key !in Apply(c, s', DeleteNext(Done)).store && s'.phase.Holding?
            && forall first :: (key, first) in s'.aged ==> first == s'.phase.now
  {
    ScanLonely(c, s, key, c.grace);
    ReconcileOne(s.owned, s.orphans, key, c.grace, 0);
    RunAppend(c, s, SecondRun(c, key), [Recheck]);
    var s1 := Run(c, s, SecondRun(c, key));
    RecheckThenDelete(c, s1, key);
  }

  /**
   * When the record of a deletion is lost, an object put again under its key is deleted although no
   * scan saw it before the current one: its grace period is not waited for.
   */
  lemma YoungObjectDeleted(c: Config, s0: State, key: string) returns (steps: seq<Step>)
    requires Initial(c, s0) && s0.store == {} && key !in s0.owned && Keepable(c.ns, key) && |key| <= 1024
    ensures var s := Run(c, s0, steps);
            && key in s.store && key !in Apply(c, s, DeleteNext(Done)).store && s.phase.Holding?
            && forall first :: (key, first) in s.aged ==> first == s.phase.now
  {
    hide Reconcile, FirstRun, SecondRun;
    var scans := FirstRun(key) + SecondRun(c, key);
    var lost := [Recheck] + ([DeleteNext(Done)] + ([Crash] + [Put(key)]));
    var again := SecondRun(c, key) + [Recheck];
    steps := [Put(key)] + (scans + (lost + again));
    RunCons(c, s0, Put(key), scans + (lost + again));
    var s1 := Apply(c, s0, Put(key));
    TwoScans(c, s1, key);
    RunAppend(c, s1, scans, lost + again);
    var s2 := Run(c, s1, scans);
    RunAppend(c, s2, lost, again);
    UnrecordedDeletion(c, s2, key);
    ClearedAgain(c, Run(c, s2, lost), key);
  }

  // ----- One round of the prune loop, undisturbed -----

  /** A key owned at its recheck leaves the observations and the loop goes on. */
  lemma ReclaimedRound(c: Config, s: State)
    requires Pending(s) && s.phase.stage.Listed? && s.phase.eligible[s.phase.next] in s.owned
    ensures var key, t := s.phase.eligible[s.phase.next], Apply(c, s, Recheck);
            && t.phase == s.phase.(next := s.phase.next + 1) && t.orphans == s.orphans - {key}
            && t.store == s.store && t.owned == s.owned && t.cursor == s.cursor && key !in t.unrecorded
  {
  }

  /** Any other key is deleted, recorded as the provider answered, and the loop goes on. */
  lemma PrunedRound(c: Config, s: State, answer: Answer)
    requires Pending(s) && s.phase.stage.Listed? && s.phase.eligible[s.phase.next] !in s.owned
    requires s.phase.eligible[s.phase.next] in s.orphans
    ensures var key := s.phase.eligible[s.phase.next];
            var o, t := s.orphans[key], Run(c, s, [Recheck] + ([DeleteNext(answer)] + [Record]));
            && t.phase == s.phase.(next := s.phase.next + 1) && t.owned == s.owned && t.cursor == s.cursor
            && t.store == (if answer.Refused? then s.store else s.store - {key})
            && t.orphans == s.orphans[key := if answer.Done? then o.(deleted := true, error := None)
                                             else o.(attempts := o.attempts + 1)]
            && (key in t.unrecorded <==> answer.AnswerLost? || (answer.Refused? && key in s.unrecorded))
  {
    hide Run;
    RunCons(c, s, Recheck, [DeleteNext(answer)] + [Record]);
    var s1 := Apply(c, s, Recheck);
    RunCons(c, s1, DeleteNext(answer), [Record]);
    RunOne(c, Apply(c, s1, DeleteNext(answer)), Record);
  }

  /** Saving a page moves the cursor behind it, or ends the cycle and the run. */
  lemma SavedPage(c: Config, s: State, more: bool)
    requires s.phase.Holding?
    ensures var t, page := Apply(c, s, Save(more)), s.phase.page;
            && t.cursor == page.next && t.store == s.store && t.owned == s.owned && t.orphans == s.orphans
            && t.phase == (if page.next.Some? && more then Scanning(s.phase.now, page.next) else Idle)
            && (page.next.None? ==> t.start == InNamespace(c, s.store) && t.gone == {} && t.visited == [])
  {
  }
}
