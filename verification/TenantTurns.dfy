/** Tenants share the workers in turn: nobody is overtaken twice by the same tenant. */
module TenantTurns {
  import opened Basics
  import opened JobQueue

  datatype State = State(jobs: Jobs, turns: Turns)

  /** Claims, and the other queue calls between them, at any times. */
  datatype Step = Claim(id: JobId, worker: string, now: nat, leaseSecs: nat) | Other(call: Call)

  /** The tenant a step serves, if it claims a job; any job the claim query may return is possible. */
  ghost function Serves(tenantOf: string -> string, s: State, step: Step): Option<string> {
    if step.Claim? && Chosen(s.jobs, s.turns, tenantOf, step.id, step.now) then Some(tenantOf(step.id.upload)) else None
  }

  ghost function Apply(tenantOf: string -> string, s: State, step: Step): State {
    match step
    case Claim(id, worker, now, leaseSecs) =>
      var tenant := Serves(tenantOf, s, step);
      if tenant.Some? then State(Claimed(s.jobs, id, worker, now, leaseSecs), s.turns.After(tenant.value)) else s
    case Other(call) => if call.CallClaim? then s else s.(jobs := JobQueue.Apply(s.jobs, call))
  }

  ghost function Run(tenantOf: string -> string, s: State, steps: seq<Step>): State
    decreases steps
  {
    if steps == [] then s else Run(tenantOf, Apply(tenantOf, s, steps[0]), steps[1..])
  }

  /** The tenants served by a run, in order. */
  ghost function Served(tenantOf: string -> string, s: State, steps: seq<Step>): seq<string>
    decreases steps
  {
    if steps == [] then []
    else
      var tenant := Serves(tenantOf, s, steps[0]);
      (if tenant.Some? then [tenant.value] else []) + Served(tenantOf, Apply(tenantOf, s, steps[0]), steps[1..])
  }

  /** The tenant has a job that could be claimed now. */
  ghost predicate HasWork(tenantOf: string -> string, jobs: Jobs, tenant: string, now: nat) {
    exists id :: id in jobs && Claimable(jobs[id], now) && tenantOf(id.upload) == tenant
  }

  /** Whenever anybody is served, the tenant has work too. */
  ghost predicate Waits(tenantOf: string -> string, s: State, steps: seq<Step>, tenant: string)
    decreases steps
  {
    steps == [] ||
    (&& (Serves(tenantOf, s, steps[0]).Some? ==> HasWork(tenantOf, s.jobs, tenant, steps[0].now))
     && Waits(tenantOf, Apply(tenantOf, s, steps[0]), steps[1..], tenant))
  }

  ghost predicate TurnsOk(turns: Turns) {
    forall tenant :: turns.Of(tenant) < turns.next
  }

  lemma AfterKeepsTurns(turns: Turns, tenant: string)
    requires TurnsOk(turns)
    ensures TurnsOk(turns.After(tenant))
  {
    forall other
      ensures turns.After(tenant).Of(other) < turns.After(tenant).next
    {
      assert turns.Of(other) < turns.next;
    }
  }

  lemma StepKeepsTurns(tenantOf: string -> string, s: State, step: Step)
    requires TurnsOk(s.turns)
    ensures TurnsOk(Apply(tenantOf, s, step).turns)
  {
    var tenant := Serves(tenantOf, s, step);
    if tenant.Some? { AfterKeepsTurns(s.turns, tenant.value); }
  }

  lemma {:induction false} RunKeepsTurns(tenantOf: string -> string, s: State, steps: seq<Step>)
    requires TurnsOk(s.turns)
    ensures TurnsOk(Run(tenantOf, s, steps).turns)
    decreases steps
  {
    if steps != [] {
      StepKeepsTurns(tenantOf, s, steps[0]);
      RunKeepsTurns(tenantOf, Apply(tenantOf, s, steps[0]), steps[1..]);
    }
  }

  predicate NoRepeats(tenants: seq<string>) {
    forall i, j :: 0 <= i < j < |tenants| ==> tenants[i] != tenants[j]
  }

  /** A claim never serves a tenant whose last turn is later than that of a tenant with work. */
  lemma ServedIsDue(tenantOf: string -> string, s: State, step: Step, waiting: string)
    requires Serves(tenantOf, s, step).Some? && HasWork(tenantOf, s.jobs, waiting, step.now)
    ensures s.turns.Of(Serves(tenantOf, s, step).value) <= s.turns.Of(waiting)
  {
    var id :| id in s.jobs && Claimable(s.jobs[id], step.now) && tenantOf(id.upload) == waiting;
    assert !Precedes(s.jobs, s.turns, tenantOf, id, step.id);
  }

  /** Tenants served since are behind the waiting one and stay there. */
  lemma {:induction false} OvertakersDiffer(tenantOf: string -> string, s: State, steps: seq<Step>, waiting: string,
                                            passed: set<string>)
    requires TurnsOk(s.turns) && Waits(tenantOf, s, steps, waiting) && waiting !in Served(tenantOf, s, steps)
    requires forall tenant :: tenant in passed ==> s.turns.Of(waiting) < s.turns.Of(tenant)
    ensures NoRepeats(Served(tenantOf, s, steps))
    ensures forall tenant :: tenant in Served(tenantOf, s, steps) ==> tenant !in passed
    decreases steps
  {
    if steps != [] {
      var next := Apply(tenantOf, s, steps[0]);
      var tenant := Serves(tenantOf, s, steps[0]);
      var rest := Served(tenantOf, next, steps[1..]);
      StepKeepsTurns(tenantOf, s, steps[0]);
      if tenant.Some? {
        ServedIsDue(tenantOf, s, steps[0], waiting);
        assert tenant.value == ([tenant.value] + rest)[0];
        OvertakersDiffer(tenantOf, next, steps[1..], waiting, passed + {tenant.value});
      } else {
        OvertakersDiffer(tenantOf, next, steps[1..], waiting, passed);
      }
    }
  }

  lemma {:induction false} DistinctFits(served: seq<string>, tenants: set<string>)
    requires NoRepeats(served) && forall tenant :: tenant in served ==> tenant in tenants
    ensures |served| <= |tenants|
    decreases |served|
  {
    if served != [] {
      assert forall tenant :: tenant in served[1..] ==> tenant in tenants - {served[0]};
      DistinctFits(served[1..], tenants - {served[0]});
    }
  }

  /**
   * Round robin: while a tenant has work and is not served, every other tenant is served at most
   * once, so with `n` tenants it is passed over at most `n - 1` times, whatever happened before and
   * however many jobs the others have.
   */
  lemma RoundRobin(tenantOf: string -> string, jobs: Jobs, before: seq<Step>, during: seq<Step>, waiting: string,
                   tenants: set<string>)
    requires var s := Run(tenantOf, State(jobs, FIRST_TURN), before);
             && Waits(tenantOf, s, during, waiting) && waiting !in Served(tenantOf, s, during) && waiting in tenants
             && forall tenant :: tenant in Served(tenantOf, s, during) ==> tenant in tenants
    ensures var served := Served(tenantOf, Run(tenantOf, State(jobs, FIRST_TURN), before), during);
            NoRepeats(served) && |served| < |tenants|
  {
    RunKeepsTurns(tenantOf, State(jobs, FIRST_TURN), before);
    var s := Run(tenantOf, State(jobs, FIRST_TURN), before);
    OvertakersDiffer(tenantOf, s, during, waiting, {});
    DistinctFits(Served(tenantOf, s, during), tenants - {waiting});
  }
}
