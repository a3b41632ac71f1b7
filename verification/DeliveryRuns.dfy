/**
 * Any number of delivery requests, coalesced loads, cache losses and row changes in any order:
 * every guarded answer is what a service without a cache would say at that instant.
 */
module DeliveryRuns {
  import opened Basics
  import opened Domain
  import opened ObjectKeys
  import opened Delivery
  import Inventory
  import Processing
  import ProcessingSafety
  import ProcessingTheorems

  datatype Ask = Ask(k: ManifestKey, preset: Option<string>, variant: string)

  /** `readAt` is the moment the load read the rows. */
  datatype Load = Reading | Loaded(outcome: Result<Manifest, Error>, readAt: nat)

  /** `since` is the moment the request began, `asOf` the moment of the rows its answer speaks of. */
  datatype Request =
    | Missed(ask: Ask, since: nat)
    | Waiting(ask: Ask, since: nat)
    | Holding(ask: Ask, since: nat, manifest: Manifest)
    | Answered(ask: Ask, since: nat, answer: Result<Stored, Error>, asOf: nat)

  /** `moment` counts the steps taken. */
  datatype State = State(db: Db, cache: Manifests, loads: map<ManifestKey, Load>, requests: map<nat, Request>,
                         moment: nat)

  /**
   * `Forget` covers lifetime, eviction and invalidation. `Restart` is a load whose driving request
   * was dropped and which another waiter begins again.
   */
  datatype Step =
    | Commit(event: Event)
    | Forget(k: ManifestKey)
    | Start(id: nat, ask: Ask)
    | Join(id: nat)
    | ReadRows(k: ManifestKey)
    | FailRead(k: ManifestKey)
    | Restart(k: ManifestKey)
    | FinishLoad(k: ManifestKey)
    | Guard(id: nat)
    | FailGuard(id: nat)
    | Leave(id: nat)

  const INITIAL := State(Db(map[], {}), map[], map[], map[], 0)

  /** What a finished load does to one request. */
  function Resolve(q: Request, k: ManifestKey, load: Load): Request
    requires load.Loaded?
  {
    if q.Waiting? && q.ask.k == k then
      match load.outcome
      case Ok(m) => Holding(q.ask, q.since, m)
      case Err(e) => Answered(q.ask, q.since, Err(e), load.readAt)
    else q
  }

  function Act(steady: bool, s: State, step: Step): State {
    match step
    case Commit(e) => s.(db := Delivery.Commit(steady, s.db, e))
    case Forget(k) => s.(cache := s.cache - {k})
    case Start(id, ask) =>
      if id in s.requests then s
      else s.(requests := s.requests[id := if ask.k in s.cache then Holding(ask, s.moment, s.cache[ask.k])
                                           else Missed(ask, s.moment)])
    case Join(id) =>
      if id !in s.requests || !s.requests[id].Missed? then s
      else
        var q := s.requests[id];
        if q.ask.k in s.cache then s.(requests := s.requests[id := Holding(q.ask, q.since, s.cache[q.ask.k])])
        else s.(requests := s.requests[id := Waiting(q.ask, q.since)],
                loads := if q.ask.k in s.loads then s.loads else s.loads[q.ask.k := Reading])
    case ReadRows(k) =>
      if k in s.loads && s.loads[k].Reading? then
        s.(loads := s.loads[k := Loaded(LoadManifest(s.db, k), s.moment)])
      else s
    case FailRead(k) =>
      if k in s.loads && s.loads[k].Reading? then s.(loads := s.loads[k := Loaded(Err(Repository), s.moment)]) else s
    case Restart(k) =>
      if k in s.loads then s.(loads := s.loads[k := Reading]) else s
    case FinishLoad(k) =>
      if k !in s.loads || !s.loads[k].Loaded? then s
      else
        var load := s.loads[k];
        s.(cache := if load.outcome.Ok? then s.cache[k := load.outcome.value] else s.cache,
           loads := s.loads - {k},
           requests := map id | id in s.requests :: Resolve(s.requests[id], k, load))
    case Guard(id) =>
      if id !in s.requests || !s.requests[id].Holding? then s
      else
        var q := s.requests[id];
        s.(cache := if DeliveryAllowed(s.db, q.ask.k) == Some(true) then s.cache else s.cache - {q.ask.k},
           requests := s.requests[id := Answered(q.ask, q.since,
                                                 GuardAnswer(s.db, q.ask.k, q.manifest, q.ask.preset, q.ask.variant),
                                                 s.moment)])
    case FailGuard(id) =>
      if id !in s.requests || !s.requests[id].Holding? then s
      else s.(requests := s.requests[id := Answered(s.requests[id].ask, s.requests[id].since, Err(Repository),
                                                    s.moment)])
    case Leave(id) => s.(requests := s.requests - {id})
  }

  function Apply(steady: bool, s: State, step: Step): State { Act(steady, s, step).(moment := s.moment + 1) }

  function Run(steady: bool, s: State, steps: seq<Step>): State
    decreases steps
  {
    if steps == [] then s else Run(steady, Apply(steady, s, steps[0]), steps[1..])
  }

  lemma {:induction false} RunAppend(steady: bool, s: State, a: seq<Step>, b: seq<Step>)
    ensures Run(steady, s, a + b) == Run(steady, Run(steady, s, a), b)
    decreases a
  {
    if a == [] {
      assert a + b == b;
    } else {
      assert (a + b)[1..] == a[1..] + b;
      RunAppend(steady, Apply(steady, s, a[0]), a[1..], b);
    }
  }

  lemma RunCons(steady: bool, s: State, step: Step, rest: seq<Step>)
    ensures Run(steady, s, [step] + rest) == Run(steady, Apply(steady, s, step), rest)
  {
    assert ([step] + rest)[1..] == rest;
  }

  lemma RunOne(steady: bool, s: State, step: Step)
    ensures Run(steady, s, [step]) == Apply(steady, s, step)
  {
    RunCons(steady, s, step, []);
    assert [step] + [] == [step];
  }

  lemma {:induction false} MomentCounts(steady: bool, s: State, steps: seq<Step>)
    ensures Run(steady, s, steps).moment == s.moment + |steps|
    decreases steps
  {
    if steps != [] { MomentCounts(steady, Apply(steady, s, steps[0]), steps[1..]); }
  }

  // ----- Invariant -----

  ghost predicate Inv(steady: bool, s: State) {
    && CacheFits(steady, s.cache, s.db)
    && (forall k :: k in s.loads && s.loads[k].Loaded? && s.loads[k].outcome.Ok? ==>
          Fits(steady, s.db, k, s.loads[k].outcome.value))
    && (forall id :: id in s.requests && s.requests[id].Holding? ==>
          Fits(steady, s.db, s.requests[id].ask.k, s.requests[id].manifest))
  }

  lemma InitialInv(steady: bool)
    ensures Inv(steady, INITIAL)
  {
  }

  lemma CommitKeepsInv(steady: bool, s: State, e: Event)
    requires Inv(steady, s)
    ensures Inv(steady, Apply(steady, s, Commit(e)))
  {
    assert DbOk(Delivery.Commit(steady, s.db, e));
    forall k, m | Fits(steady, s.db, k, m)
      ensures Fits(steady, Delivery.Commit(steady, s.db, e), k, m)
    {
      CommitKeepsFit(steady, s.db, e, k, m);
    }
  }

  lemma CacheStepKeepsInv(steady: bool, s: State, step: Step)
    requires Inv(steady, s)
    requires step.Forget? || step.Start? || step.Join? || step.Guard? || step.FailGuard? || step.Leave?
    ensures Inv(steady, Apply(steady, s, step))
  {
    hide Fits, DeliveryAllowed, GuardAnswer;
  }

  lemma LoadStepKeepsInv(steady: bool, s: State, step: Step)
    requires Inv(steady, s) && (step.ReadRows? || step.FailRead? || step.Restart? || step.FinishLoad?)
    ensures Inv(steady, Apply(steady, s, step))
  {
    hide Fits, LoadManifest;
    if step.ReadRows? && LoadManifest(s.db, step.k).Ok? { LoadedFits(steady, s.db, step.k); }
  }

  lemma StepKeepsInv(steady: bool, s: State, step: Step)
    requires Inv(steady, s)
    ensures Inv(steady, Apply(steady, s, step))
  {
    hide Inv, Apply;
    if step.Commit? {
      CommitKeepsInv(steady, s, step.event);
    } else if step.ReadRows? || step.FailRead? || step.Restart? || step.FinishLoad? {
      LoadStepKeepsInv(steady, s, step);
    } else {
      CacheStepKeepsInv(steady, s, step);
    }
  }

  lemma {:induction false} RunKeepsInv(steady: bool, s: State, steps: seq<Step>)
    requires Inv(steady, s)
    ensures Inv(steady, Run(steady, s, steps))
    decreases steps
  {
    hide Inv, Apply;
    if steps != [] {
      StepKeepsInv(steady, s, steps[0]);
      RunKeepsInv(steady, Apply(steady, s, steps[0]), steps[1..]);
    }
  }

  // ----- Which guarded answers are the uncached answer at that instant -----

  function Truth(db: Db, ask: Ask): Result<Stored, Error> { Lookup(db, ask.k, ask.preset, ask.variant) }

  /**
   * In every run whatever, a guarded answer is the uncached answer of that instant exactly while
   * the upload's row lists just two derivatives, or is not deliverable at all.
   */
  lemma {:induction false} GuardedAnswerIsLookup(steady: bool, steps: seq<Step>, id: nat)
    requires var s := Run(steady, INITIAL, steps); id in s.requests && s.requests[id].Holding?
    ensures var s := Run(steady, INITIAL, steps);
            var q := Apply(steady, s, Guard(id)).requests[id];
            && q.Answered? && q.ask == s.requests[id].ask
            && (q.answer == Truth(s.db, q.ask) <==> !Diverged(s.db, q.ask.k))
            && (steady ==> !Diverged(s.db, q.ask.k))
            && (q.ask.k in s.db.rows && Deliverable(s.db.rows[q.ask.k]) ==>
                  forall d :: q.answer == Ok(d) <==> Wanted(s.db.rows[q.ask.k], q.ask.preset, q.ask.variant, d))
  {
    RunKeepsInv(steady, INITIAL, steps);
    var s := Run(steady, INITIAL, steps);
    var q := s.requests[id];
    GuardIsLookupExactly(steady, s.db, q.ask.k, q.manifest, q.ask.preset, q.ask.variant);
    GuardServesWanted(steady, s.db, q.ask.k, q.manifest, q.ask.preset, q.ask.variant);
  }

  // ----- Every answer was true at a known moment -----

  function RowsAt(steady: bool, steps: seq<Step>, n: nat): Db
    requires n <= |steps|
  {
    Run(steady, INITIAL, steps[..n]).db
  }

  /** The row is published and stays, and lists a derivative this request wants. */
  ghost predicate Offers(db: Db, ask: Ask, d: Stored) {
    && ask.k in db.rows && db.rows[ask.k].state == Ready && !db.rows[ask.k].deleteRequested
    && Wanted(db.rows[ask.k], ask.preset, ask.variant, d)
  }

  /** The rows at a moment of the run agree with this answer, or list more than a manifest can. */
  ghost predicate TrueAt(steady: bool, steps: seq<Step>, n: nat, ask: Ask, answer: Result<Stored, Error>) {
    && n <= |steps|
    && (Truth(RowsAt(steady, steps, n), ask) == answer || (!steady && Diverged(RowsAt(steady, steps, n), ask.k)))
    && (answer.Ok? ==> Offers(RowsAt(steady, steps, n), ask, answer.value))
  }

  /** A load error answers every request on its key alike. */
  ghost predicate ErrorAt(steady: bool, steps: seq<Step>, n: nat, k: ManifestKey, e: Error) {
    n <= |steps| && LoadManifest(RowsAt(steady, steps, n), k) == Err(e)
  }

  lemma {:induction false} TrueLater(steady: bool, steps: seq<Step>, step: Step, n: nat, ask: Ask,
                                     answer: Result<Stored, Error>)
    requires TrueAt(steady, steps, n, ask, answer)
    ensures TrueAt(steady, steps + [step], n, ask, answer)
  {
    assert (steps + [step])[..n] == steps[..n];
  }

  lemma {:induction false} ErrorLater(steady: bool, steps: seq<Step>, step: Step, n: nat, k: ManifestKey, e: Error)
    requires ErrorAt(steady, steps, n, k, e)
    ensures ErrorAt(steady, steps + [step], n, k, e)
  {
    assert (steps + [step])[..n] == steps[..n];
  }

  /** How a request's answer, if it has one, is explained by the run. */
  ghost predicate RequestExplained(steady: bool, steps: seq<Step>, q: Request) {
    && q.since <= |steps|
    && (q.Answered? && q.answer != Err(Repository) ==>
          TrueAt(steady, steps, q.asOf, q.ask, q.answer) && (q.answer.Ok? ==> q.since <= q.asOf))
  }

  predicate Refused(load: Load) { load.Loaded? && load.outcome.Err? && load.outcome.error != Repository }

  ghost predicate Explained(steady: bool, steps: seq<Step>, s: State) {
    && (forall k :: k in s.loads && Refused(s.loads[k]) ==>
          ErrorAt(steady, steps, s.loads[k].readAt, k, s.loads[k].outcome.error))
    && (forall id :: id in s.requests ==> RequestExplained(steady, steps, s.requests[id]))
  }

  /** The ways a request can come out of a step. */
  lemma RequestEffect(steady: bool, s: State, step: Step, id: nat)
    requires Inv(steady, s) && id in Apply(steady, s, step).requests
    ensures var q := Apply(steady, s, step).requests[id];
            || (id !in s.requests && !q.Answered? && q.since == s.moment)
            || (&& id in s.requests && q.ask == s.requests[id].ask && q.since == s.requests[id].since
                && (|| q == s.requests[id]
                    || !q.Answered?
                    || q.answer == Err(Repository)
                    || (&& (q.answer == Truth(s.db, q.ask) || (!steady && Diverged(s.db, q.ask.k)))
                        && q.asOf == s.moment && (q.answer.Ok? ==> Offers(s.db, q.ask, q.answer.value)))
                    || (q.ask.k in s.loads && q.answer.Err?
                        && s.loads[q.ask.k] == Loaded(Err(q.answer.error), q.asOf))))
  {
    if step.Guard? && step.id == id && id in s.requests && s.requests[id].Holding? {
      var q := s.requests[id];
      GuardIsLookupExactly(steady, s.db, q.ask.k, q.manifest, q.ask.preset, q.ask.variant);
      GuardServesWanted(steady, s.db, q.ask.k, q.manifest, q.ask.preset, q.ask.variant);
    }
  }

  lemma LoadEffect(steady: bool, s: State, step: Step, k: ManifestKey)
    requires k in Apply(steady, s, step).loads && Apply(steady, s, step).loads[k].Loaded?
    ensures var l := Apply(steady, s, step).loads[k];
            || (k in s.loads && s.loads[k] == l)
            || l.outcome == Err(Repository)
            || l == Loaded(LoadManifest(s.db, k), s.moment)
  {
  }

  lemma {:induction false} RequestStep(steady: bool, steps: seq<Step>, step: Step, id: nat)
    requires var s := Run(steady, INITIAL, steps); Inv(steady, s) && Explained(steady, steps, s) && s.moment == |steps|
    requires id in Apply(steady, Run(steady, INITIAL, steps), step).requests
    ensures RequestExplained(steady, steps + [step], Apply(steady, Run(steady, INITIAL, steps), step).requests[id])
  {
    hide Run, Apply, Inv;
    var s := Run(steady, INITIAL, steps);
    var q := Apply(steady, s, step).requests[id];
    RequestEffect(steady, s, step, id);
    if q.Answered? && q.answer != Err(Repository) {
      assert steps[..|steps|] == steps;
      assert RequestExplained(steady, steps, s.requests[id]);
      if q.ask.k in s.loads && q.answer.Err? && s.loads[q.ask.k] == Loaded(Err(q.answer.error), q.asOf) {
        assert ErrorAt(steady, steps, q.asOf, q.ask.k, q.answer.error);
      }
      assert TrueAt(steady, steps, q.asOf, q.ask, q.answer);
      TrueLater(steady, steps, step, q.asOf, q.ask, q.answer);
    }
  }

  lemma {:induction false} StepExplained(steady: bool, steps: seq<Step>, step: Step)
    requires var s := Run(steady, INITIAL, steps); Inv(steady, s) && Explained(steady, steps, s) && s.moment == |steps|
    ensures Explained(steady, steps + [step], Apply(steady, Run(steady, INITIAL, steps), step))
  {
    hide Run, Apply, Inv;
    var s := Run(steady, INITIAL, steps);
    var s' := Apply(steady, s, step);
    forall k | k in s'.loads && Refused(s'.loads[k])
      ensures ErrorAt(steady, steps + [step], s'.loads[k].readAt, k, s'.loads[k].outcome.error)
    {
      LoadEffect(steady, s, step, k);
      assert steps[..|steps|] == steps;
      ErrorLater(steady, steps, step, s'.loads[k].readAt, k, s'.loads[k].outcome.error);
    }
    forall id | id in s'.requests
      ensures RequestExplained(steady, steps + [step], s'.requests[id])
    {
      RequestStep(steady, steps, step, id);
    }
  }

  lemma {:induction false} RunExplained(steady: bool, steps: seq<Step>)
    ensures Explained(steady, steps, Run(steady, INITIAL, steps))
    decreases |steps|
  {
    if steps != [] {
      hide Explained, Apply, Inv;
      var front, last := steps[..|steps| - 1], steps[|steps| - 1];
      RunExplained(steady, front);
      InitialInv(steady);
      RunKeepsInv(steady, INITIAL, front);
      MomentCounts(steady, INITIAL, front);
      StepExplained(steady, front, last);
      assert steps == front + [last];
      RunAppend(steady, INITIAL, front, [last]);
      RunOne(steady, Run(steady, INITIAL, front), last);
    }
  }

  lemma DivergedIsRefused(db: Db, ask: Ask)
    requires Diverged(db, ask.k)
    ensures Truth(db, ask) == Err(NotReady)
  {
  }

  /**
   * In every run whatever, an answer other than a repository failure is the uncached answer at the
   * recorded moment unless the row had diverged by then, and what was served was read while its
   * request was in progress and is the uncached answer exactly if the row had not diverged. When a
   * second publication repeats its rows, every answer is the uncached one. What was served is a
   * derivative that the row, published and staying, listed at that moment, of the variant asked for
   * and of the preset if one was named; and from a row deliverable at that moment nothing else is
   * answered. An error is as of the moment its load read the rows.
   */
  lemma {:induction false} EveryAnswerWasTrue(steady: bool, steps: seq<Step>, id: nat)
    requires var s := Run(steady, INITIAL, steps); id in s.requests && s.requests[id].Answered?
    requires Run(steady, INITIAL, steps).requests[id].answer != Err(Repository)
    ensures var q := Run(steady, INITIAL, steps).requests[id];
            && q.since <= |steps| && q.asOf <= |steps|
            && var db := RowsAt(steady, steps, q.asOf);
            && (steady || !Diverged(db, q.ask.k) ==> Truth(db, q.ask) == q.answer)
            && (q.answer.Ok? ==> q.since <= q.asOf && (Truth(db, q.ask) == q.answer <==> !Diverged(db, q.ask.k)))
            && (q.answer.Ok? ==> && q.ask.k in db.rows && db.rows[q.ask.k].state == Ready
                                 && !db.rows[q.ask.k].deleteRequested
                                 && Wanted(db.rows[q.ask.k], q.ask.preset, q.ask.variant, q.answer.value))
            && (q.ask.k in db.rows && Deliverable(db.rows[q.ask.k]) ==>
                  forall d :: q.answer == Ok(d) <==> Wanted(db.rows[q.ask.k], q.ask.preset, q.ask.variant, d))
  {
    RunExplained(steady, steps);
    var q := Run(steady, INITIAL, steps).requests[id];
    assert RequestExplained(steady, steps, q);
    LookupExactly(RowsAt(steady, steps, q.asOf), q.ask.k, q.ask.preset, q.ask.variant);
    if Diverged(RowsAt(steady, steps, q.asOf), q.ask.k) {
      DivergedIsRefused(RowsAt(steady, steps, q.asOf), q.ask);
    }
  }

  // ----- Nothing is served after a deletion request commits -----

  predicate Served(q: Request, k: ManifestKey) { q.Answered? && q.answer.Ok? && q.ask.k == k }

  ghost predicate ServedOnlyIn(base: map<nat, Request>, s: State, k: ManifestKey) {
    forall id :: id in s.requests && Served(s.requests[id], k) ==> id in base && base[id] == s.requests[id]
  }

  /** Only the guard serves, and only an upload it finds deliverable. */
  lemma ServedEffect(steady: bool, s: State, step: Step, id: nat)
    requires id in Apply(steady, s, step).requests
    requires var q := Apply(steady, s, step).requests[id]; q.Answered? && q.answer.Ok?
    ensures var q := Apply(steady, s, step).requests[id];
            (id in s.requests && s.requests[id] == q) || DeliveryAllowed(s.db, q.ask.k) == Some(true)
  {
  }

  lemma {:induction false} WithdrawnRun(steady: bool, base: map<nat, Request>, s: State, steps: seq<Step>,
                                        k: ManifestKey)
    requires Withdrawn(s.db, k) && ServedOnlyIn(base, s, k)
    ensures ServedOnlyIn(base, Run(steady, s, steps), k)
    decreases steps
  {
    if steps != [] {
      var s' := Apply(steady, s, steps[0]);
      if steps[0].Commit? { CommitKeepsWithdrawn(steady, s.db, steps[0].event, k); }
      forall id | id in s'.requests && Served(s'.requests[id], k)
        ensures id in base && base[id] == s'.requests[id]
      {
        ServedEffect(steady, s, steps[0], id);
      }
      WithdrawnRun(steady, base, s', steps[1..], k);
    }
  }

  /**
   * Once a deletion request is durable, no request on that upload is ever served again, whether or
   * not an invalidation ran, whatever loads were already in flight and whatever was published.
   */
  lemma NothingServedAfterWithdrawal(steady: bool, before: seq<Step>, after: seq<Step>, id: nat)
    requires var s := Run(steady, INITIAL, before + after);
             id in s.requests && s.requests[id].Answered? && s.requests[id].answer.Ok?
             && Withdrawn(Run(steady, INITIAL, before).db, s.requests[id].ask.k)
    ensures id in Run(steady, INITIAL, before).requests
    ensures Run(steady, INITIAL, before).requests[id] == Run(steady, INITIAL, before + after).requests[id]
  {
    RunAppend(steady, INITIAL, before, after);
    var s := Run(steady, INITIAL, before);
    WithdrawnRun(steady, s.requests, s, after, Run(steady, INITIAL, before + after).requests[id].ask.k);
  }

  /** Forgetting empties an entry; a request that finds one while joining a load holds it and starts none. */
  lemma CacheSteps(steady: bool, s: State, id: nat, k: ManifestKey)
    ensures Apply(steady, s, Forget(k)) == s.(cache := s.cache - {k}, moment := s.moment + 1)
    ensures id in s.requests && s.requests[id].Missed? && s.requests[id].ask.k in s.cache ==>
              var q := s.requests[id];
              Apply(steady, s, Join(id)) == s.(requests := s.requests[id := Holding(q.ask, q.since, s.cache[q.ask.k])],
                                               moment := s.moment + 1)
  {
  }

  // ----- What the cache alone does not promise -----

  function Opening(id: nat, ask: Ask): seq<Step> { [Start(id, ask), Join(id), ReadRows(ask.k)] }

  /** A request that misses and whose load has read the rows but not finished. */
  lemma OpeningEffect(steady: bool, s: State, id: nat, ask: Ask)
    requires ask.k !in s.cache && ask.k !in s.loads && id !in s.requests
    ensures Run(steady, s, Opening(id, ask))
      == s.(requests := s.requests[id := Waiting(ask, s.moment)],
            loads := s.loads[ask.k := Loaded(LoadManifest(s.db, ask.k), s.moment + 2)], moment := s.moment + 3)
  {
    RunCons(steady, s, Start(id, ask), [Join(id), ReadRows(ask.k)]);
    var s1 := Apply(steady, s, Start(id, ask));
    assert s1 == s.(requests := s.requests[id := Missed(ask, s.moment)], moment := s.moment + 1);
    RunCons(steady, s1, Join(id), [ReadRows(ask.k)]);
    var s2 := Apply(steady, s1, Join(id));
    assert s1.requests[id := Waiting(ask, s.moment)] == s.requests[id := Waiting(ask, s.moment)];
    assert s2 == s.(requests := s.requests[id := Waiting(ask, s.moment)], loads := s.loads[ask.k := Reading],
                    moment := s.moment + 2);
    RunOne(steady, s2, ReadRows(ask.k));
    var load := Loaded(LoadManifest(s.db, ask.k), s.moment + 2);
    assert s2.loads[ask.k := load] == s.loads[ask.k := load];
  }

  /** Invalidation can lose its race: the load in flight puts the stale manifest back afterwards. */
  lemma StaleManifestReturns(s: State, id: nat, ask: Ask)
    requires ask.k in s.db.used && ask.k !in s.cache && ask.k !in s.loads && id !in s.requests
    requires LoadManifest(s.db, ask.k).Ok?
    ensures var s' := Run(true, s, Opening(id, ask)
                          + [Commit(RequestDeletion(ask.k)), Forget(ask.k), FinishLoad(ask.k)]);
            && Withdrawn(s'.db, ask.k) && ask.k in s'.cache && id in s'.requests && s'.requests[id].Holding?
            && Apply(true, s', Guard(id)).requests[id] == Answered(ask, s.moment, Err(NotReady), s'.moment)
            && ask.k !in Apply(true, s', Guard(id)).cache
  {
    var k := ask.k;
    OpeningEffect(true, s, id, ask);
    RunAppend(true, s, Opening(id, ask), [Commit(RequestDeletion(k)), Forget(k), FinishLoad(k)]);
    var s3 := Run(true, s, Opening(id, ask));
    DeletionThenFinish(s3, id, ask, LoadManifest(s.db, k).value);
  }

  lemma DeletionThenFinish(s: State, id: nat, ask: Ask, m: Manifest)
    requires ask.k in s.db.used && LoadManifest(s.db, ask.k) == Ok(m)
    requires id in s.requests && s.requests[id].Waiting? && s.requests[id].ask == ask
    requires ask.k in s.loads && s.loads[ask.k].Loaded? && s.loads[ask.k].outcome == Ok(m)
    ensures var s' := Run(true, s, [Commit(RequestDeletion(ask.k)), Forget(ask.k), FinishLoad(ask.k)]);
            && Withdrawn(s'.db, ask.k) && ask.k in s'.cache
            && id in s'.requests && s'.requests[id] == Holding(ask, s.requests[id].since, m)
            && Apply(true, s', Guard(id)).requests[id] == Answered(ask, s.requests[id].since, Err(NotReady), s'.moment)
            && ask.k !in Apply(true, s', Guard(id)).cache
  {
    var k := ask.k;
    RunCons(true, s, Commit(RequestDeletion(k)), [Forget(k), FinishLoad(k)]);
    var s1 := Apply(true, s, Commit(RequestDeletion(k)));
    RunCons(true, s1, Forget(k), [FinishLoad(k)]);
    var s2 := Apply(true, s1, Forget(k));
    RunOne(true, s2, FinishLoad(k));
    assert DeliveryAllowed(s1.db, k) == Some(false);
  }

  // ----- Two concrete runs on one upload -----

  function Asset(): ManifestKey { ManifestKey("site-a", "upload-1") }

  function MasterAsk(): Ask { Ask(Asset(), None, "master") }

  function Pictures(preset: string): seq<Stored> {
    [Stored(preset, "master", "m", "image/jpeg", 1), Stored(preset, "thumbnail", "t", "image/jpeg", 1)]
  }

  lemma NamesOrdered()
    ensures Inventory.Less("master", "thumbnail") && !Inventory.Less("thumbnail", "master") && "master" != "thumbnail"
  {
    assert "master"[0] == 'm' && "thumbnail"[0] == 't';
  }

  /** A derivative of an identity not listed yet is inserted. */
  lemma MergeNew(ds: seq<Stored>, d: Stored, more: seq<Stored>)
    requires forall x :: x in ds ==> !SameIdentity(x, d)
    ensures Merge(ds, [d] + more) == Merge(Insert(ds, d), more)
  {
    assert ([d] + more)[1..] == more;
  }

  /** The master is listed before the thumbnail. */
  lemma PicturesMerge()
    ensures Merge([], Pictures("a")) == Some(Pictures("a"))
  {
    hide Merge, Inventory.Less;
    var m, t := Pictures("a")[0], Pictures("a")[1];
    NamesOrdered();
    assert Pictures("a") == [m] + ([t] + []);
    MergeNew([], m, [t] + []);
    assert Insert([], m) == [m];
    MergeNew([m], t, []);
    assert !ListedBefore(t, m) by { Inventory.LessIrreflexive("a"); }
    assert Insert([m], t) == [m] + Insert([], t) == Pictures("a");
    MergeNothing(Pictures("a"));
  }

  lemma MergeNothing(ds: seq<Stored>)
    ensures Merge(ds, []) == Some(ds)
  {
  }

  /** A second preset is listed besides. */
  lemma PicturesGrow()
    ensures Merge(Pictures("a"), Pictures("b")).Some? && Merge(Pictures("a"), Pictures("b")).value != Pictures("a")
  {
    hide Merge, Inventory.Less;
    var a, m, t := Pictures("a"), Pictures("b")[0], Pictures("b")[1];
    NamesOrdered();
    assert Pictures("b") == [m] + ([t] + []);
    MergeNew(a, m, [t] + []);
    MergeNew(Insert(a, m), t, []);
    MergeNothing(Insert(Insert(a, m), t));
  }

  lemma PicturesDeliverable()
    ensures FromStatus(Snapshot(Ready, false, Pictures("a"))).Ok?
  {
    assert Token("a", 128);
    FromStatusExactly(Snapshot(Ready, false, Pictures("a")));
    assert Pair(Pictures("a")[0], Pictures("a")[1]);
  }

  function Reserved(): seq<Step> {
    [Commit(Reserve(Asset())), Commit(Advance(Asset(), Uploaded)), Commit(Advance(Asset(), Quarantined)),
     Commit(Advance(Asset(), UploadState.Processing))]
  }

  lemma ReservedEffect(steady: bool)
    ensures Run(steady, INITIAL, Reserved())
         == INITIAL.(db := Db(map[Asset() := Row(UploadState.Processing, false, [])], {Asset()}), moment := 4)
  {
    var e0, e1, e2, e3 := Reserved()[0], Reserved()[1], Reserved()[2], Reserved()[3];
    RunCons(steady, INITIAL, e0, [e1, e2, e3]);
    var s1 := Apply(steady, INITIAL, e0);
    assert s1.db == Db(map[Asset() := Row(Created, false, [])], {Asset()});
    RunCons(steady, s1, e1, [e2, e3]);
    var s2 := Apply(steady, s1, e1);
    assert s2.db == Db(map[Asset() := Row(Uploaded, false, [])], {Asset()});
    RunCons(steady, s2, e2, [e3]);
    var s3 := Apply(steady, s2, e2);
    assert s3.db == Db(map[Asset() := Row(Quarantined, false, [])], {Asset()});
    RunOne(steady, s3, e3);
  }

  lemma PublishEffect(steady: bool, s: State, ds: seq<Stored>)
    requires Asset() in s.db.rows && Merge(s.db.rows[Asset()].derivatives, ds).Some?
    requires s.db.rows[Asset()].state == UploadState.Processing || (s.db.rows[Asset()].state == Ready && !steady)
    ensures var row := s.db.rows[Asset()];
            Apply(steady, s, Commit(Publish(Asset(), ds)))
            == s.(db := s.db.(rows := s.db.rows[Asset() := row.(state := Ready,
                                                                derivatives := Merge(row.derivatives, ds).value)]),
                  moment := s.moment + 1)
  {
  }

  lemma JoiningAnOldLoad(s: State, id: nat, ask: Ask)
    requires ask.k !in s.cache && id !in s.requests
    requires ask.k in s.loads && s.loads[ask.k].Loaded? && s.loads[ask.k].outcome == Err(NotReady)
    ensures var s' := Run(true, s, [Start(id, ask), Join(id), FinishLoad(ask.k)]);
            id in s'.requests && s'.requests[id] == Answered(ask, s.moment, Err(NotReady), s.loads[ask.k].readAt)
  {
    RunCons(true, s, Start(id, ask), [Join(id), FinishLoad(ask.k)]);
    var s1 := Apply(true, s, Start(id, ask));
    RunCons(true, s1, Join(id), [FinishLoad(ask.k)]);
    var s2 := Apply(true, s1, Join(id));
    RunOne(true, s2, FinishLoad(ask.k));
  }

  lemma UnpublishedRefused(db: Db)
    requires Asset() in db.rows && db.rows[Asset()] == Row(UploadState.Processing, false, [])
    ensures LoadManifest(db, Asset()) == Err(NotReady)
  {
  }

  lemma PicturesServed(db: Db)
    requires Asset() in db.rows && db.rows[Asset()] == Row(Ready, false, Pictures("a"))
    ensures Truth(db, MasterAsk()).Ok?
  {
    PicturesDeliverable();
  }

  /** A load that read the rows before publication is still unfinished after it. */
  lemma OldLoad(publish: Step) returns (s: State)
    requires publish == Commit(Publish(Asset(), Pictures("a")))
    ensures s == Run(true, INITIAL, Reserved() + Opening(0, MasterAsk()) + [publish]) && s.moment == 8
    ensures s.cache == map[] && s.requests.Keys == {0} && Truth(s.db, MasterAsk()).Ok?
    ensures Asset() in s.loads && s.loads[Asset()] == Loaded(Err(NotReady), 6)
  {
    hide Apply, Truth, FromStatus, LoadManifest, Opening, Reserved;
    var ask := MasterAsk();
    ReservedEffect(true);
    var s0 := Run(true, INITIAL, Reserved());
    UnpublishedRefused(s0.db);
    OpeningEffect(true, s0, 0, ask);
    RunAppend(true, INITIAL, Reserved(), Opening(0, ask));
    var s1 := Run(true, s0, Opening(0, ask));
    PicturesMerge();
    PublishEffect(true, s1, Pictures("a"));
    RunOne(true, s1, publish);
    RunAppend(true, INITIAL, Reserved() + Opening(0, ask), [publish]);
    s := Apply(true, s1, publish);
    PicturesServed(s.db);
  }

  /**
   * A request that begins after publication is still told NotReady, by joining a load that read the
   * rows before: its answer is older than the request.
   */
  lemma CoalescedErrorCanBeOld() returns (steps: seq<Step>)
    ensures var s := Run(true, INITIAL, steps);
            && 1 in s.requests && s.requests[1].Answered? && s.requests[1].answer == Err(NotReady)
            && s.requests[1].asOf < s.requests[1].since <= |steps|
            && Truth(Run(true, INITIAL, steps[..s.requests[1].since]).db, MasterAsk()).Ok?
  {
    hide Apply, Truth, Opening, Reserved;
    var publish := Commit(Publish(Asset(), Pictures("a")));
    var join := [Start(1, MasterAsk()), Join(1), FinishLoad(Asset())];
    var prefix := Reserved() + Opening(0, MasterAsk()) + [publish];
    var s := OldLoad(publish);
    JoiningAnOldLoad(s, 1, MasterAsk());
    RunAppend(true, INITIAL, prefix, join);
    MomentCounts(true, INITIAL, prefix);
    steps := prefix + join;
    assert steps[..8] == prefix;
  }

  lemma PublishedEffect(steady: bool, publish: Step) returns (s: State)
    requires publish == Commit(Publish(Asset(), Pictures("a")))
    ensures s == Run(steady, INITIAL, Reserved() + [publish])
    ensures s == INITIAL.(db := Db(map[Asset() := Row(Ready, false, Pictures("a"))], {Asset()}), moment := 5)
  {
    hide Merge, Insert, Reserved, FromStatus;
    ReservedEffect(steady);
    var s0 := Run(steady, INITIAL, Reserved());
    PicturesMerge();
    PublishEffect(steady, s0, Pictures("a"));
    RunOne(steady, s0, publish);
    RunAppend(steady, INITIAL, Reserved(), [publish]);
    s := Apply(steady, s0, publish);
  }

  lemma FinishThenGrow(s: State, ds: seq<Stored>, second: Step, more: seq<Stored>)
    requires s.db == Db(map[Asset() := Row(Ready, false, ds)], {Asset()})
             && FromStatus(Snapshot(Ready, false, ds)) == Ok(Manifest(ds))
    requires 0 in s.requests && s.requests[0].Waiting? && s.requests[0].ask == MasterAsk()
    requires Asset() in s.loads && s.loads[Asset()].Loaded? && s.loads[Asset()].outcome == Ok(Manifest(ds))
    requires second == Commit(Publish(Asset(), more)) && |ds| == 2 && ds[0].variant == "master"
    requires Merge(ds, more).Some? && Merge(ds, more).value != ds
    ensures var s' := Run(false, s, [FinishLoad(Asset()), second, Guard(0)]);
            && 0 in s'.requests && s'.requests[0].Answered? && s'.requests[0].answer.Ok?
            && s'.requests[0].ask == MasterAsk()
            && Truth(s'.db, MasterAsk()) == Err(NotReady) && DeliveryAllowed(s'.db, Asset()) == Some(true)
  {
    RunCons(false, s, FinishLoad(Asset()), [second, Guard(0)]);
    var s1 := Apply(false, s, FinishLoad(Asset()));
    RunCons(false, s1, second, [Guard(0)]);
    PublishEffect(false, s1, more);
    RunOne(false, Apply(false, s1, second), Guard(0));
  }

  /**
   * If a Ready row could gain derivatives of a second preset, a cached manifest would go on being
   * served where an uncached lookup refuses.
   */
  lemma SecondPresetDiverges() returns (steps: seq<Step>)
    ensures var s := Run(false, INITIAL, steps);
            && 0 in s.requests && s.requests[0].Answered? && s.requests[0].answer.Ok?
            && Truth(s.db, MasterAsk()) == Err(NotReady) && s.requests[0].ask == MasterAsk()
            && DeliveryAllowed(s.db, Asset()) == Some(true)
  {
    var ask, k := MasterAsk(), Asset();
    var first, second := Commit(Publish(k, Pictures("a"))), Commit(Publish(k, Pictures("b")));
    var rest := [FinishLoad(k), second, Guard(0)];
    hide Apply, FromStatus, Opening, Reserved;
    var s1 := PublishedEffect(false, first);
    PicturesDeliverable();
    OpeningEffect(false, s1, 0, ask);
    RunAppend(false, INITIAL, Reserved() + [first], Opening(0, ask));
    var s2 := Run(false, s1, Opening(0, ask));
    PicturesGrow();
    FinishThenGrow(s2, Pictures("a"), second, Pictures("b"));
    RunAppend(false, INITIAL, Reserved() + [first] + Opening(0, ask), rest);
    steps := Reserved() + [first] + Opening(0, ask) + rest;
  }

  // ----- Which published uploads can be delivered at all -----

  function VariantName(v: Processing.Variant): string {
    if v == Processing.Master then "master" else "thumbnail"
  }

  /** A worker's derivative row as delivery reads it back. */
  function AsStored(d: Processing.Derivative): Stored {
    Stored(d.key.preset, VariantName(d.variant), d.key.Text(), d.contentType, d.len)
  }

  /**
   * Of the uploads the workers make Ready, delivery accepts all but WebM: a WebM master is
   * published, recorded and stored, and then never served.
   */
  lemma {:induction false} ReadyIsDeliverableExactly(c: Processing.Config, steps: seq<Processing.Step>, u: string)
    requires Processing.ConfigOk(c)
    requires var s := Processing.Run(c, Processing.INITIAL, steps);
             u in s.rows && s.rows[u].state == Ready && !s.rows[u].deleteRequested
    ensures var s := Processing.Run(c, Processing.INITIAL, steps);
            && Processing.JobOf(u) in s.jobs && s.rows[u].pinned.Some?
            && var p := c.preset(s.rows[u].tenant, s.jobs[Processing.JobOf(u)].revision);
               var m, t := Processing.Identity(p, Processing.Master), Processing.Identity(p, Processing.Thumbnail);
            && s.rows[u].derivatives.Keys == {m, t}
            && var listed := [AsStored(s.rows[u].derivatives[m]), AsStored(s.rows[u].derivatives[t])];
               (FromStatus(Snapshot(Ready, false, listed)).Ok? <==> !s.rows[u].pinned.value.format.Webm?)
  {
    ProcessingTheorems.ReadyIsComplete(c, steps, u);
    ProcessingTheorems.InitialInv(c);
    ProcessingSafety.RunKeeps(c, Processing.INITIAL, steps);
    var s := Processing.Run(c, Processing.INITIAL, steps);
    assert ProcessingSafety.RowOk(c, s, u);
    var p := c.preset(s.rows[u].tenant, s.jobs[Processing.JobOf(u)].revision);
    var content := s.rows[u].pinned.value;
    var dm := s.rows[u].derivatives[Processing.Identity(p, Processing.Master)];
    var dt := s.rows[u].derivatives[Processing.Identity(p, Processing.Thumbnail)];
    assert dm.Id() == Processing.Identity(p, Processing.Master);
    assert dt.Id() == Processing.Identity(p, Processing.Thumbnail);
    var listed := [AsStored(dm), AsStored(dt)];
    assert Token(p, 128);
    TypesDeliverable(content);
    FromStatusExactly(Snapshot(Ready, false, listed));
    if !content.format.Webm? {
      assert Pair(listed[0], listed[1]);
    }
  }

  lemma TypesDeliverable(content: Processing.Content)
    ensures !content.format.Webm? <==>
              ProcessingSafety.TypeOf(Processing.Master, content) in {"image/jpeg", "video/mp4", "video/quicktime"}
    ensures ProcessingSafety.TypeOf(Processing.Thumbnail, content) == "image/jpeg"
  {
    assert "video/webm"[6] == 'w' && "video/mp4"[6] == 'm' && "video/quicktime"[6] == 'q' && "image/jpeg"[0] == 'i';
  }
}
