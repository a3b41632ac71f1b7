/**
 * Cleanup of one upload by any number of runs that may crash, lose their lease or lose answers,
 * beside the client and its aborts, the confirmation, the workers and the deletion request.
 */
module CleanupRuns {
  import opened Basics
  import opened Domain
  import opened Cleanup

  /** One run's work on the candidate it leased: calls already answered, and the failure if any. */
  datatype Attempt = Attempt(claim: Candidate, next: nat, failed: Option<string>)

  /**
   * `aborts` are the client's abort requests in progress, true once the provider closed the session.
   * History: `arrived` names the objects ever put by the calls that delete them, `erased` the calls
   * of cleanup that have taken effect, and `returned` those of them whose target was put again since.
   */
  datatype State = State(row: Row, objects: Objects, attempts: map<string, Attempt>, aborts: map<nat, bool>,
                         arrived: set<Call>, erased: set<Call>, returned: set<Call>)

  datatype Step =
    | ClientPut
    | CompleteSession
    | Confirm(now: nat)
    | Advance(target: UploadState, now: nat)
    | WorkerPut(key: string)
    | Publish(keys: seq<string>, now: nat)
    | RequestDeletion(now: nat)
    | Claim(owner: string, now: nat, createdBefore: int, rejectedBefore: int, until: nat)
    | CallStore(owner: string, answer: Answer)
    | Report(owner: string, now: nat, retryAt: nat)
    | Crash(owner: string)
    | BeginAbort(id: nat)
    | CloseSession(id: nat, answer: Answer)
    | MarkDeleted(id: nat, now: nat)
    | DropAbort(id: nat)

  predicate SessionOpen(s: State) {
    s.row.transfer == Multipart && s.row.sessionId.Some? && s.row.sessionId.value in s.objects.sessions
  }

  /** A call that took effect. */
  function Effected(s: State, call: Call): State {
    s.(objects := call.Effect(s.objects), erased := s.erased + {call}, returned := s.returned - {call})
  }

  /** An object is put; `deletion` is the call that would remove it. */
  function Put(s: State, objects: Objects, deletion: Call): State {
    s.(objects := objects, arrived := s.arrived + {deletion},
       returned := if deletion in s.erased then s.returned + {deletion} else s.returned)
  }

  function ApplyCall(s: State, owner: string, answer: Answer): State {
    if owner !in s.attempts || s.attempts[owner].failed.Some? then s
    else
      var a := s.attempts[owner];
      var plan := Plan(a.claim);
      if plan.None? then s.(attempts := s.attempts[owner := a.(failed := Some("CLEANUP_STATE_INVALID"))])
      else if a.next >= |plan.value| then s
      else
        var call := plan.value[a.next];
        match answer
        case Done => Effected(s, call).(attempts := s.attempts[owner := a.(next := a.next + 1)])
        case AnswerLost => Effected(s, call).(attempts := s.attempts[owner := a.(failed := Some(call.ErrorCode()))])
        case Refused => s.(attempts := s.attempts[owner := a.(failed := Some(call.ErrorCode()))])
  }

  /** The attempt has made every call of its plan. */
  predicate Finished(a: Attempt) {
    a.failed.None? && Plan(a.claim).Some? && a.next == |Plan(a.claim).value|
  }

  function ApplyReport(s: State, owner: string, now: nat, retryAt: nat): State {
    if owner !in s.attempts then s
    else
      var a := s.attempts[owner];
      if a.failed.None? && !Finished(a) then s
      else
        var row := if !OwnedBy(s.row, owner) then s.row
                   else if a.failed.Some? then Released(s.row, now, retryAt, a.failed.value)
                   else Tombstoned(s.row, now);
        s.(row := row, attempts := s.attempts - {owner})
  }

  /** `abort_multipart` checks the row, closes the session, and then tombstones a row still created. */
  function ApplyAbort(s: State, step: Step): State
    requires step.BeginAbort? || step.CloseSession? || step.MarkDeleted? || step.DropAbort?
  {
    match step
    case BeginAbort(id) =>
      if id !in s.aborts && s.row.transfer == Multipart && s.row.sessionId.Some? && s.row.state == Created then
        s.(aborts := s.aborts[id := false])
      else s
    case CloseSession(id, answer) =>
      if id !in s.aborts || s.aborts[id] || s.row.sessionId.None? then s
      else
        s.(objects := if answer.Refused? then s.objects
                      else s.objects.(sessions := s.objects.sessions - {s.row.sessionId.value}),
           aborts := if answer.Done? then s.aborts[id := true] else s.aborts - {id})
    case MarkDeleted(id, now) =>
      if id !in s.aborts || !s.aborts[id] then s
      else
        s.(row := if s.row.state == Created then s.row.(state := Deleted, updatedAt := now) else s.row,
           aborts := s.aborts - {id})
    case DropAbort(id) => s.(aborts := s.aborts - {id})
  }

  /**
   * A signed single PUT and a worker's derivative PUT know nothing of the row: either can arrive in
   * any state, however late.
   */
  function Apply(maxAttempts: nat, s: State, step: Step): State {
    match step
    case ClientPut =>
      if s.row.transfer == SinglePut then
        Put(s, s.objects.(raws := s.objects.raws + {s.row.rawKey}), DeleteRaw(s.row.rawKey))
      else s
    case CompleteSession =>
      if SessionOpen(s) then
        Put(s, s.objects.(sessions := s.objects.sessions - {s.row.sessionId.value},
                          raws := s.objects.raws + {s.row.rawKey}),
            DeleteRaw(s.row.rawKey))
      else s
    case Confirm(now) =>
      if s.row.state == Created && !SessionOpen(s) then s.(row := s.row.(state := Quarantined, updatedAt := now)) else s
    case Advance(target, now) =>
      if target in {Processing, Rejected, Failed} && s.row.state.CanTransitionTo(target) then
        s.(row := s.row.(state := target, updatedAt := now))
      else s
    case WorkerPut(key) => Put(s, s.objects.(derivatives := s.objects.derivatives + {key}), DeleteDerivative(key))
    case Publish(keys, now) =>
      if s.row.state == Processing && keys != [] then
        s.(row := s.row.(state := Ready, derivatives := keys, updatedAt := now))
      else s
    case RequestDeletion(now) =>
      if s.row.state in {Created, Ready, Rejected, Failed} && !s.row.deleteRequested then
        s.(row := s.row.(deleteRequested := true, retryAt := Some(now), errorCode := None, updatedAt := now))
      else s
    case Claim(owner, now, createdBefore, rejectedBefore, until) =>
      if owner !in s.attempts && Eligible(s.row, now, createdBefore, rejectedBefore, maxAttempts) then
        s.(row := Leased(s.row, owner, until), attempts := s.attempts[owner := Attempt(CandidateOf(s.row), 0, None)])
      else s
    case CallStore(owner, answer) => ApplyCall(s, owner, answer)
    case Report(owner, now, retryAt) => ApplyReport(s, owner, now, retryAt)
    case Crash(owner) => s.(attempts := s.attempts - {owner})
    case _ => ApplyAbort(s, step)
  }

  function Run(maxAttempts: nat, s: State, steps: seq<Step>): State
    decreases steps
  {
    if steps == [] then s else Run(maxAttempts, Apply(maxAttempts, s, steps[0]), steps[1..])
  }

  /** A fresh reservation: nothing recorded, nothing leased, nothing stored yet. */
  predicate Fresh(s: State) {
    && s.row.state == Created && s.row.derivatives == [] && s.row.attempts == 0
    && s.row.leaseOwner.None? && s.attempts == map[] && s.aborts == map[]
    && s.objects.raws == {} && s.objects.derivatives == {} && s.arrived == {} && s.erased == {} && s.returned == {}
  }

  /** Nothing of the upload is left at the providers, recorded or not. */
  ghost predicate Clean(s: State) {
    !SessionOpen(s) && s.row.rawKey !in s.objects.raws && s.objects.derivatives == {}
  }

  // ----- Invariant -----

  ghost predicate ClaimOk(s: State, c: Candidate) {
    && c.rawKey == s.row.rawKey && c.transfer == s.row.transfer && c.sessionId == s.row.sessionId
    && c.state != Deleted
    && (c.state != Created ==> !SessionOpen(s))
    && (if c.state == Ready then
          c.derivativeKeys == s.row.derivatives && (s.row.state == Ready || s.row.state == Deleted)
        else c.derivativeKeys == [])
  }

  ghost predicate AttemptOk(s: State, a: Attempt) {
    && ClaimOk(s, a.claim)
    && (Plan(a.claim).None? ==> a.next == 0)
    && (Plan(a.claim).Some? ==>
          a.next <= |Plan(a.claim).value| && forall i :: 0 <= i < a.next ==> Plan(a.claim).value[i] in s.erased)
  }

  /** The call removes something of this upload. */
  predicate Concerns(row: Row, call: Call) {
    match call
    case AbortSession(id) => row.sessionId == Some(id)
    case DeleteDerivative(key) => key in row.derivatives
    case DeleteRaw(key) => key == row.rawKey
  }

  /** An object is there exactly if it was put, and put again if cleanup deleted it. */
  ghost predicate Accounted(s: State, call: Call) {
    if call.AbortSession? then call !in s.arrived && (call in s.erased ==> call.Gone(s.objects))
    else !call.Gone(s.objects) <==> call in s.arrived && (call in s.erased ==> call in s.returned)
  }

  ghost predicate HistoryOk(s: State) {
    && s.returned <= s.erased && s.returned <= s.arrived
    && (forall call :: call in s.erased ==> Concerns(s.row, call))
    && (forall r :: DeleteRaw(r) in s.arrived ==> r == s.row.rawKey)
    && (forall call :: Accounted(s, call))
    && (forall id :: id in s.aborts ==> s.row.transfer == Multipart && (s.aborts[id] ==> !SessionOpen(s)))
    && (s.row.state == Deleted ==>
          !SessionOpen(s) && (DeleteRaw(s.row.rawKey) in s.erased || s.row.transfer == Multipart))
  }

  /** While the lease holder's claim predates publication, nobody has touched a recorded derivative. */
  ghost predicate LeaseOk(s: State) {
    s.row.leaseOwner.Some? && s.row.leaseOwner.value in s.attempts
    && s.attempts[s.row.leaseOwner.value].claim.state != Ready ==>
      && (forall o :: o in s.attempts ==> s.attempts[o].claim.state != Ready)
      && (forall k :: DeleteDerivative(k) !in s.erased)
  }

  ghost predicate RowOk(s: State) {
    && (s.row.derivatives != [] ==> s.row.state == Ready || s.row.state == Deleted)
    && (s.row.state == Ready ==> s.row.derivatives != [])
    && (s.row.state != Created && s.row.state != Deleted ==> !SessionOpen(s))
  }

  ghost predicate Inv(s: State) {
    RowOk(s) && HistoryOk(s) && LeaseOk(s) && forall o :: o in s.attempts ==> AttemptOk(s, s.attempts[o])
  }

  lemma FreshInv(s: State)
    requires Fresh(s)
    ensures Inv(s)
  {
  }

  /** Steps of the client, the confirmation, the workers and the deletion request. */
  predicate Outside(step: Step) {
    step.ClientPut? || step.CompleteSession? || step.Confirm? || step.Advance? || step.WorkerPut? || step.Publish?
    || step.RequestDeletion?
  }

  /** Steps of the client's aborts. */
  predicate Aborting(step: Step) {
    step.BeginAbort? || step.CloseSession? || step.MarkDeleted? || step.DropAbort?
  }

  lemma PutKeepsHistory(s: State, objects: Objects, deletion: Call)
    requires HistoryOk(s) && objects.sessions <= s.objects.sessions && !deletion.AbortSession?
    requires deletion.DeleteRaw? ==> deletion.key == s.row.rawKey
    requires forall call: Call :: !call.AbortSession? ==>
               (call.Gone(objects) <==> call.Gone(s.objects) && call != deletion)
    ensures HistoryOk(Put(s, objects, deletion))
  {
    var s' := Put(s, objects, deletion);
    forall call
      ensures Accounted(s', call)
    {
      assert Accounted(s, call);
    }
  }

  /** Nothing stored changes and nothing is recorded beyond what the row already allows. */
  lemma SameObjectsKeepHistory(s: State, s': State)
    requires HistoryOk(s) && s'.objects == s.objects && s'.aborts == s.aborts
    requires s'.arrived == s.arrived && s'.erased == s.erased && s'.returned == s.returned
    requires s'.row.rawKey == s.row.rawKey && s'.row.transfer == s.row.transfer && s'.row.sessionId == s.row.sessionId
    requires forall call :: Concerns(s.row, call) ==> Concerns(s'.row, call)
    requires s'.row.state == Deleted ==>
               !SessionOpen(s) && (DeleteRaw(s.row.rawKey) in s.erased || s.row.transfer == Multipart)
    ensures HistoryOk(s')
  {
    forall call
      ensures Accounted(s', call)
    {
      assert Accounted(s, call);
    }
  }

  lemma OutsideKeepsHistory(n: nat, s: State, step: Step)
    requires Outside(step) && RowOk(s) && HistoryOk(s)
    ensures HistoryOk(Apply(n, s, step))
  {
    hide HistoryOk;
    match step
    case ClientPut =>
      PutKeepsHistory(s, s.objects.(raws := s.objects.raws + {s.row.rawKey}), DeleteRaw(s.row.rawKey));
    case CompleteSession =>
      if SessionOpen(s) {
        PutKeepsHistory(s, s.objects.(sessions := s.objects.sessions - {s.row.sessionId.value},
                                      raws := s.objects.raws + {s.row.rawKey}), DeleteRaw(s.row.rawKey));
      }
    case WorkerPut(key) =>
      PutKeepsHistory(s, s.objects.(derivatives := s.objects.derivatives + {key}), DeleteDerivative(key));
    case _ =>
      var s' := Apply(n, s, step);
      DeletedRowSettled(s);
      SameObjectsKeepHistory(s, s');
  }

  lemma DeletedRowSettled(s: State)
    requires HistoryOk(s)
    ensures s.row.state == Deleted ==>
              !SessionOpen(s) && (DeleteRaw(s.row.rawKey) in s.erased || s.row.transfer == Multipart)
  {
  }

  lemma ErasedIsRecorded(s: State)
    requires HistoryOk(s)
    ensures forall k :: DeleteDerivative(k) in s.erased ==> k in s.row.derivatives
  {
    forall k | DeleteDerivative(k) in s.erased
      ensures k in s.row.derivatives
    {
      assert Concerns(s.row, DeleteDerivative(k));
    }
  }

  lemma OutsideFrame(n: nat, s: State, step: Step)
    requires Outside(step)
    ensures var s' := Apply(n, s, step);
            s'.attempts == s.attempts && s'.row.leaseOwner == s.row.leaseOwner && s'.erased == s.erased
  {
  }

  lemma OutsideKeepsLease(n: nat, s: State, step: Step)
    requires Outside(step) && LeaseOk(s)
    ensures LeaseOk(Apply(n, s, step))
  {
    hide Apply;
    OutsideFrame(n, s, step);
  }

  lemma OutsideKeepsRest(n: nat, s: State, step: Step)
    requires Outside(step) && Inv(s)
    ensures RowOk(Apply(n, s, step)) && LeaseOk(Apply(n, s, step))
  {
    OutsideKeepsLease(n, s, step);
    hide HistoryOk, LeaseOk;
    var s' := Apply(n, s, step);
    if step.Publish? && s'.row.state != s.row.state {
      forall o | o in s.attempts
        ensures s.attempts[o].claim.state != Ready
      {
        assert AttemptOk(s, s.attempts[o]);
      }
    }
  }

  lemma OutsideKeepsInv(n: nat, s: State, step: Step)
    requires Outside(step) && Inv(s)
    ensures Inv(Apply(n, s, step))
  {
    hide HistoryOk;
    OutsideKeepsRest(n, s, step);
    OutsideKeepsHistory(n, s, step);
    forall o | o in s.attempts
      ensures AttemptOk(Apply(n, s, step), s.attempts[o])
    {
      assert AttemptOk(s, s.attempts[o]);
    }
  }

  lemma ClaimKeepsInv(n: nat, s: State, step: Step)
    requires step.Claim? && Inv(s)
    ensures Inv(Apply(n, s, step))
  {
    hide HistoryOk;
    var s' := Apply(n, s, step);
    if s' != s {
      DeletedRowSettled(s);
      ErasedIsRecorded(s);
      SameObjectsKeepHistory(s, s');
      forall o | o in s'.attempts
        ensures AttemptOk(s', s'.attempts[o])
      {
        if o != step.owner { assert AttemptOk(s, s.attempts[o]); }
      }
      if s.row.state != Ready {
        forall o | o in s'.attempts
          ensures s'.attempts[o].claim.state != Ready
        {
          if o != step.owner { assert AttemptOk(s, s.attempts[o]); }
        }
      }
    }
  }

  /** An abort closes the session, and tombstones only rows that record no derivative. */
  lemma AbortEffect(s: State, step: Step)
    requires Aborting(step)
    ensures var s' := ApplyAbort(s, step);
            && s' == s.(row := s'.row, objects := s'.objects, aborts := s'.aborts)
            && s'.objects == s.objects.(sessions := s'.objects.sessions) && s'.objects.sessions <= s.objects.sessions
            && (|| s'.row == s.row
                || (step.MarkDeleted? && step.id in s.aborts && s.aborts[step.id] && s.row.state == Created
                    && s'.row == s.row.(state := Deleted, updatedAt := step.now)))
            && (forall id :: id in s'.aborts ==>
                  && (id in s.aborts || s.row.transfer == Multipart)
                  && (s'.aborts[id] ==> (id in s.aborts && s.aborts[id]) || !SessionOpen(s')))
  {
  }

  lemma AbortKeepsHistory(s: State, step: Step)
    requires Aborting(step) && HistoryOk(s)
    ensures HistoryOk(ApplyAbort(s, step))
  {
    hide ApplyAbort;
    AbortEffect(s, step);
    var s' := ApplyAbort(s, step);
    forall call
      ensures Accounted(s', call)
    {
      assert Accounted(s, call);
    }
    forall call | call in s'.erased
      ensures Concerns(s'.row, call)
    {
      assert Concerns(s.row, call);
    }
  }

  lemma AbortKeepsInv(s: State, step: Step)
    requires Aborting(step) && Inv(s)
    ensures Inv(ApplyAbort(s, step))
  {
    hide ApplyAbort, HistoryOk;
    AbortEffect(s, step);
    AbortKeepsHistory(s, step);
    var s' := ApplyAbort(s, step);
    forall o | o in s'.attempts
      ensures AttemptOk(s', s'.attempts[o])
    {
      assert AttemptOk(s, s.attempts[o]);
    }
  }

  /** A call of a valid attempt concerns the upload, and deletes derivatives only under a Ready claim. */
  lemma PlannedCall(s: State, a: Attempt)
    requires AttemptOk(s, a) && Plan(a.claim).Some? && a.next < |Plan(a.claim).value|
    ensures var call := Plan(a.claim).value[a.next];
            Concerns(s.row, call) && (call.DeleteDerivative? ==> a.claim.state == Ready)
  {
    PlanShape(a.claim);
    var offset := if HasOpenSession(a.claim) then 1 else 0;
    if offset <= a.next < |Plan(a.claim).value| - 1 {
      assert Plan(a.claim).value[offset + (a.next - offset)]
               == DeleteDerivative(a.claim.derivativeKeys[a.next - offset]);
    }
  }

  lemma EffectKeepsHistory(s: State, call: Call)
    requires HistoryOk(s) && Concerns(s.row, call)
    ensures HistoryOk(Effected(s, call))
  {
    var s' := Effected(s, call);
    forall other
      ensures Accounted(s', other)
    {
      assert Accounted(s, other);
    }
  }

  /** What a provider call changes. */
  lemma CallEffect(s: State, owner: string, answer: Answer)
    ensures var s' := ApplyCall(s, owner, answer);
            || s' == s
            || (&& owner in s.attempts && s'.row == s.row && owner in s'.attempts
                && s'.attempts == s.attempts[owner := s'.attempts[owner]]
                && var a, a' := s.attempts[owner], s'.attempts[owner];
                && a'.claim == a.claim
                && (|| (s' == s.(attempts := s'.attempts) && a'.next == a.next)
                    || (&& Plan(a.claim).Some? && a.next < |Plan(a.claim).value|
                        && s' == Effected(s, Plan(a.claim).value[a.next]).(attempts := s'.attempts)
                        && (a'.next == a.next || a'.next == a.next + 1))))
  {
  }

  lemma AttemptSurvivesCall(s: State, s': State, a: Attempt, a': Attempt)
    requires AttemptOk(s, a) && s'.row == s.row && s'.objects.sessions <= s.objects.sessions && s.erased <= s'.erased
    requires a'.claim == a.claim
    requires a'.next == a.next
             || (a'.next == a.next + 1 && Plan(a.claim).Some? && a.next < |Plan(a.claim).value|
                 && Plan(a.claim).value[a.next] in s'.erased)
    ensures AttemptOk(s', a')
  {
  }

  lemma EffectedKeepsInv(s: State, s': State, owner: string)
    requires Inv(s) && owner in s.attempts && owner in s'.attempts
    requires var a := s.attempts[owner];
             && Plan(a.claim).Some? && a.next < |Plan(a.claim).value| && s'.attempts[owner].claim == a.claim
             && s'.attempts[owner].next in {a.next, a.next + 1}
             && s' == Effected(s, Plan(a.claim).value[a.next]).(attempts := s.attempts[owner := s'.attempts[owner]])
    ensures Inv(s')
  {
    hide AttemptOk, HistoryOk, Plan;
    var a := s.attempts[owner];
    PlannedCall(s, a);
    EffectKeepsHistory(s, Plan(a.claim).value[a.next]);
    HistoryFrame(Effected(s, Plan(a.claim).value[a.next]), s');
    forall o | o in s'.attempts
      ensures AttemptOk(s', s'.attempts[o])
    {
      AttemptSurvivesCall(s, s', s.attempts[o], s'.attempts[o]);
    }
  }

  lemma HistoryFrame(s: State, s': State)
    requires HistoryOk(s) && s' == s.(attempts := s'.attempts)
    ensures HistoryOk(s')
  {
    DeletedRowSettled(s);
    SameObjectsKeepHistory(s, s');
  }

  lemma CallKeepsInv(s: State, owner: string, answer: Answer)
    requires Inv(s)
    ensures Inv(ApplyCall(s, owner, answer))
  {
    hide ApplyCall, AttemptOk, HistoryOk, Plan;
    var s' := ApplyCall(s, owner, answer);
    CallEffect(s, owner, answer);
    if s' == s.(attempts := s'.attempts) && s' != s {
      HistoryFrame(s, s');
      forall o | o in s'.attempts
        ensures AttemptOk(s', s'.attempts[o])
      {
        AttemptSurvivesCall(s, s', s.attempts[o], s'.attempts[o]);
      }
    } else if s' != s {
      EffectedKeepsInv(s, s', owner);
    }
  }

  /** A finished attempt has erased the session, its claim's derivatives and the raw object. */
  lemma FinishedErases(s: State, a: Attempt)
    requires AttemptOk(s, a) && HistoryOk(s) && Finished(a)
    ensures !SessionOpen(s) && DeleteRaw(s.row.rawKey) in s.erased
    ensures forall k :: k in a.claim.derivativeKeys ==> DeleteDerivative(k) in s.erased
  {
    PlanShape(a.claim);
    var plan := Plan(a.claim).value;
    var offset := if HasOpenSession(a.claim) then 1 else 0;
    assert plan[|plan| - 1] in s.erased;
    assert offset == 1 ==> plan[0] in s.erased && Accounted(s, plan[0]);
    forall i | 0 <= i < |a.claim.derivativeKeys|
      ensures DeleteDerivative(a.claim.derivativeKeys[i]) in s.erased
    {
      assert plan[offset + i] in s.erased;
    }
  }

  /** A report changes nothing an attempt depends on but the state, and that only to deleted. */
  lemma ReportKeepsAttempt(s: State, s': State, a: Attempt)
    requires AttemptOk(s, a) && s'.objects == s.objects && s'.erased == s.erased
    requires s'.row.rawKey == s.row.rawKey && s'.row.transfer == s.row.transfer && s'.row.sessionId == s.row.sessionId
    requires s'.row.derivatives == s.row.derivatives && (s'.row.state == s.row.state || s'.row.state == Deleted)
    ensures AttemptOk(s', a)
  {
  }

  lemma ReportKeepsInv(s: State, owner: string, now: nat, retryAt: nat)
    requires Inv(s)
    ensures Inv(ApplyReport(s, owner, now, retryAt))
  {
    var s' := ApplyReport(s, owner, now, retryAt);
    hide HistoryOk, Accounted, AttemptOk;
    if s'.row.state != s.row.state { FinishedErases(s, s.attempts[owner]); }
    DeletedRowSettled(s);
    SameObjectsKeepHistory(s, s');
    forall o | o in s'.attempts
      ensures AttemptOk(s', s'.attempts[o])
    {
      ReportKeepsAttempt(s, s', s.attempts[o]);
    }
  }

  lemma CrashKeepsInv(s: State, owner: string)
    requires Inv(s)
    ensures Inv(s.(attempts := s.attempts - {owner}))
  {
    hide HistoryOk;
    HistoryFrame(s, s.(attempts := s.attempts - {owner}));
  }

  lemma StepKeepsInv(n: nat, s: State, step: Step)
    requires Inv(s)
    ensures Inv(Apply(n, s, step))
  {
    hide Inv;
    if Outside(step) {
      OutsideKeepsInv(n, s, step);
    } else if step.Claim? {
      ClaimKeepsInv(n, s, step);
    } else if step.CallStore? {
      CallKeepsInv(s, step.owner, step.answer);
    } else if step.Report? {
      ReportKeepsInv(s, step.owner, step.now, step.retryAt);
    } else if step.Crash? {
      CrashKeepsInv(s, step.owner);
    } else {
      AbortKeepsInv(s, step);
    }
  }

  lemma {:induction false} RunKeepsInv(n: nat, s: State, steps: seq<Step>)
    requires Inv(s)
    ensures Inv(Run(n, s, steps))
    decreases steps
  {
    hide Inv, Apply;
    if steps != [] {
      StepKeepsInv(n, s, steps[0]);
      RunKeepsInv(n, Apply(n, s, steps[0]), steps[1..]);
    }
  }

  lemma {:induction false} RunAppend(n: nat, s: State, a: seq<Step>, b: seq<Step>)
    ensures Run(n, s, a + b) == Run(n, Run(n, s, a), b)
    decreases a
  {
    if a == [] {
      assert a + b == b;
    } else {
      assert (a + b)[1..] == a[1..] + b;
      RunAppend(n, Apply(n, s, a[0]), a[1..], b);
    }
  }

  lemma RunCons(n: nat, s: State, step: Step, rest: seq<Step>)
    ensures Run(n, s, [step] + rest) == Run(n, Apply(n, s, step), rest)
  {
    assert ([step] + rest)[1..] == rest;
  }

  lemma RunOne(n: nat, s: State, step: Step)
    ensures Run(n, s, [step]) == Apply(n, s, step)
  {
    RunCons(n, s, step, []);
    assert [step] + [] == [step];
  }

  // ----- What a tombstone means -----

  /** Everything of the upload that was ever put has been deleted, and not been put again. */
  ghost predicate AllUndone(s: State) {
    forall call :: call in s.arrived ==> call in s.erased && call !in s.returned
  }

  /** With the session closed, what is left is what was never deleted or came back. */
  lemma CleanExactly(s: State)
    requires HistoryOk(s) && !SessionOpen(s)
    ensures Clean(s) <==> AllUndone(s)
  {
    forall call
      ensures Accounted(s, call)
    {
    }
    if Clean(s) {
      forall call | call in s.arrived
        ensures call in s.erased && call !in s.returned
      {
        assert Accounted(s, call);
      }
    }
    if AllUndone(s) {
      assert Accounted(s, DeleteRaw(s.row.rawKey));
      forall k
        ensures k !in s.objects.derivatives
      {
        assert Accounted(s, DeleteDerivative(k));
      }
    }
  }

  /** What cleanup may leave behind when it reports. */
  lemma ReportedClean(s: State, owner: string)
    requires Inv(s) && owner in s.attempts && Finished(s.attempts[owner]) && OwnedBy(s.row, owner)
    ensures !SessionOpen(s)
    ensures AllUndone(s) <==>
              && s.returned == {}
              && forall k :: DeleteDerivative(k) in s.arrived ==> k in s.attempts[owner].claim.derivativeKeys
  {
    var a := s.attempts[owner];
    assert AttemptOk(s, a);
    FinishedErases(s, a);
    ErasedIsRecorded(s);
    forall id
      ensures AbortSession(id) !in s.arrived
    {
      assert Accounted(s, AbortSession(id));
    }
    hide Accounted, Finished, Plan;
    assert forall call :: call in s.returned ==> call in s.arrived;
    if s.returned == {} && forall k :: DeleteDerivative(k) in s.arrived ==> k in a.claim.derivativeKeys {
      forall call | call in s.arrived
        ensures call in s.erased && call !in s.returned
      {
        if call.DeleteDerivative? { assert call.key in a.claim.derivativeKeys; }
      }
    }
  }

  /**
   * Every step that tombstones an upload, and exactly when it leaves nothing behind. Cleanup's
   * report: every derivative ever put is one its claim lists, and nothing cleanup deleted was put
   * again. The client's abort: the parts were not joined, or their object was deleted since and not
   * put again, and no derivative was put.
   */
  lemma {:induction false} TombstoneCleanExactly(n: nat, s0: State, steps: seq<Step>, step: Step)
    requires Fresh(s0)
    requires Run(n, s0, steps).row.state != Deleted && Apply(n, Run(n, s0, steps), step).row.state == Deleted
    ensures var s := Run(n, s0, steps);
            var s' := Apply(n, s, step);
            var raw := DeleteRaw(s.row.rawKey);
            && (step.Report? || step.MarkDeleted?)
            && (step.Report? ==>
                  && step.owner in s.attempts
                  && (Clean(s') <==>
                        && s.returned == {}
                        && forall k :: DeleteDerivative(k) in s.arrived ==>
                             k in s.attempts[step.owner].claim.derivativeKeys))
            && (step.MarkDeleted? ==>
                  (Clean(s') <==>
                     && (raw in s.arrived ==> raw in s.erased && raw !in s.returned)
                     && forall k :: DeleteDerivative(k) !in s.arrived))
  {
    FreshInv(s0);
    RunKeepsInv(n, s0, steps);
    var s := Run(n, s0, steps);
    TombstoningSteps(n, s, step);
    if step.Report? {
      ReportedClean(s, step.owner);
      CleanExactly(s);
    } else {
      AbortedClean(s);
    }
    assert Clean(s) <==> Clean(Apply(n, s, step));
  }

  lemma TombstoningSteps(n: nat, s: State, step: Step)
    requires s.row.state != Deleted && Apply(n, s, step).row.state == Deleted
    ensures step.Report? || (step.MarkDeleted? && step.id in s.aborts && s.aborts[step.id] && s.row.state == Created)
    ensures step.Report? ==> step.owner in s.attempts && Finished(s.attempts[step.owner]) && OwnedBy(s.row, step.owner)
    ensures var s' := Apply(n, s, step);
            s'.objects == s.objects && s'.row.rawKey == s.row.rawKey && s'.row.derivatives == s.row.derivatives
            && s'.row.transfer == s.row.transfer && s'.row.sessionId == s.row.sessionId
  {
    if step.CallStore? { CallEffect(s, step.owner, step.answer); }
  }

  lemma AbortedClean(s: State)
    requires Inv(s) && s.row.state == Created && exists id :: id in s.aborts && s.aborts[id]
    ensures var raw := DeleteRaw(s.row.rawKey);
            Clean(s) <==> && (raw in s.arrived ==> raw in s.erased && raw !in s.returned)
                          && forall k :: DeleteDerivative(k) !in s.arrived
  {
    ErasedIsRecorded(s);
    assert Accounted(s, DeleteRaw(s.row.rawKey));
    forall k
      ensures k in s.objects.derivatives <==> DeleteDerivative(k) in s.arrived
    {
      assert Accounted(s, DeleteDerivative(k));
    }
  }

  lemma RecordedExactly(s: State, k: string)
    requires HistoryOk(s)
    ensures DeleteDerivative(k) in s.erased ==> (k in s.objects.derivatives <==> DeleteDerivative(k) in s.returned)
    ensures DeleteDerivative(k) !in s.erased ==> (k in s.objects.derivatives <==> DeleteDerivative(k) in s.arrived)
  {
    assert Accounted(s, DeleteDerivative(k));
  }

  /**
   * In every interleaving the raw object goes only when the session is closed. Unless the upload was
   * published behind the claim, a recorded derivative is then left exactly if it was put again after
   * its deletion; and if it was, the lease holder leaves every one that was ever put.
   */
  lemma {:induction false} RawDeletedLast(n: nat, s0: State, steps: seq<Step>, step: Step)
    requires Fresh(s0)
    requires var s := Run(n, s0, steps);
             s.row.rawKey in s.objects.raws && s.row.rawKey !in Apply(n, s, step).objects.raws
    ensures var s := Run(n, s0, steps);
            && step.CallStore? && step.owner in s.attempts && !SessionOpen(s)
            && var current := s.row.derivatives != [] ==> s.attempts[step.owner].claim.state == Ready;
            && (current ==> forall k :: k in s.row.derivatives ==>
                              (k in s.objects.derivatives <==> DeleteDerivative(k) in s.returned))
            && (s.row.leaseOwner == Some(step.owner) && !current ==> forall k :: k in s.row.derivatives ==>
                              (k in s.objects.derivatives <==> DeleteDerivative(k) in s.arrived))
  {
    FreshInv(s0);
    RunKeepsInv(n, s0, steps);
    var s := Run(n, s0, steps);
    RawDeletingStep(n, s, step);
    LastPlannedCall(s, s.attempts[step.owner]);
    forall k
      ensures DeleteDerivative(k) in s.erased ==> (k in s.objects.derivatives <==> DeleteDerivative(k) in s.returned)
      ensures DeleteDerivative(k) !in s.erased ==> (k in s.objects.derivatives <==> DeleteDerivative(k) in s.arrived)
    {
      RecordedExactly(s, k);
    }
  }

  lemma RawDeletingStep(n: nat, s: State, step: Step)
    requires Inv(s) && s.row.rawKey in s.objects.raws && s.row.rawKey !in Apply(n, s, step).objects.raws
    ensures step.CallStore? && step.owner in s.attempts && AttemptOk(s, s.attempts[step.owner])
    ensures var a := s.attempts[step.owner];
            Plan(a.claim).Some? && a.next < |Plan(a.claim).value| && Plan(a.claim).value[a.next].DeleteRaw?
  {
    if Aborting(step) { AbortEffect(s, step); }
  }

  /** Before an attempt deletes the raw object it has erased the session and its claim's derivatives. */
  lemma LastPlannedCall(s: State, a: Attempt)
    requires AttemptOk(s, a) && HistoryOk(s) && Plan(a.claim).Some? && a.next < |Plan(a.claim).value|
    requires Plan(a.claim).value[a.next].DeleteRaw?
    ensures !SessionOpen(s) && forall k :: k in a.claim.derivativeKeys ==> DeleteDerivative(k) in s.erased
  {
    PlanShape(a.claim);
    var plan := Plan(a.claim).value;
    var offset := if HasOpenSession(a.claim) then 1 else 0;
    assert a.next == |plan| - 1;
    assert offset == 1 ==> plan[0] in s.erased && Accounted(s, plan[0]);
    forall i | 0 <= i < |a.claim.derivativeKeys|
      ensures DeleteDerivative(a.claim.derivativeKeys[i]) in s.erased
    {
      assert plan[offset + i] in s.erased;
    }
  }

  // ----- Tombstones last -----

  predicate Puts(step: Step) { step.ClientPut? || step.WorkerPut? || step.CompleteSession? }

  lemma TombstoneStep(n: nat, s: State, step: Step)
    requires s.row.state == Deleted
    ensures Apply(n, s, step).row == s.row && (!Puts(step) ==> Shrinks(s.objects, Apply(n, s, step).objects))
  {
    if step.CallStore? { CallEffect(s, step.owner, step.answer); }
    if Aborting(step) { AbortEffect(s, step); }
  }

  /** Once the row is deleted its record stays, and only a put brings anything back. */
  lemma {:induction false} TombstoneLasts(n: nat, s: State, steps: seq<Step>)
    requires s.row.state == Deleted
    ensures Run(n, s, steps).row == s.row
    ensures (forall i :: 0 <= i < |steps| ==> !Puts(steps[i])) ==> Shrinks(s.objects, Run(n, s, steps).objects)
    decreases steps
  {
    hide Apply;
    if steps != [] {
      TombstoneStep(n, s, steps[0]);
      TombstoneLasts(n, Apply(n, s, steps[0]), steps[1..]);
    }
  }

  /** A clean tombstone stays clean exactly as long as nothing of it is put without being deleted again. */
  lemma {:induction false} CleanTombstoneStays(n: nat, s0: State, before: seq<Step>, after: seq<Step>)
    requires Fresh(s0) && Run(n, s0, before).row.state == Deleted && Clean(Run(n, s0, before))
    ensures var t := Run(n, s0, before + after);
            t.row.state == Deleted && (Clean(t) <==> AllUndone(t))
    ensures (forall i :: 0 <= i < |after| ==> !Puts(after[i])) ==> Clean(Run(n, s0, before + after))
  {
    hide Apply, Run;
    FreshInv(s0);
    RunKeepsInv(n, s0, before + after);
    RunAppend(n, s0, before, after);
    TombstoneLasts(n, Run(n, s0, before), after);
    DeletedRowSettled(Run(n, s0, before + after));
    CleanExactly(Run(n, s0, before + after));
  }

  // ----- From any crash point one undisturbed attempt finishes the job -----

  function Calls(owner: string, n: nat): seq<Step> {
    if n == 0 then [] else [CallStore(owner, Done)] + Calls(owner, n - 1)
  }

  /** The attempt is under way, and no call it has made has been undone. */
  ghost predicate Undisturbed(s: State, a: Attempt) {
    && a.failed.None? && Plan(a.claim).Some? && a.next <= |Plan(a.claim).value|
    && forall i :: 0 <= i < a.next ==> Plan(a.claim).value[i] !in s.returned
  }

  lemma CallAdvances(n: nat, s: State, owner: string)
    requires owner in s.attempts && Undisturbed(s, s.attempts[owner])
    requires s.attempts[owner].next < |Plan(s.attempts[owner].claim).value|
    ensures var s' := Apply(n, s, CallStore(owner, Done));
            && s'.row == s.row && owner in s'.attempts
            && s'.attempts[owner] == s.attempts[owner].(next := s.attempts[owner].next + 1)
            && Undisturbed(s', s'.attempts[owner])
  {
  }

  lemma {:induction false} CallsFinish(n: nat, s: State, owner: string, m: nat)
    requires Inv(s) && owner in s.attempts && Undisturbed(s, s.attempts[owner])
    requires s.attempts[owner].next + m == |Plan(s.attempts[owner].claim).value|
    ensures var s' := Run(n, s, Calls(owner, m));
            && Inv(s') && s'.row == s.row && owner in s'.attempts && Finished(s'.attempts[owner])
            && s'.attempts[owner].claim == s.attempts[owner].claim && Undisturbed(s', s'.attempts[owner])
    decreases m
  {
    hide Inv, Apply;
    if m > 0 {
      var steps := Calls(owner, m);
      assert steps[0] == CallStore(owner, Done) && steps[1..] == Calls(owner, m - 1);
      StepKeepsInv(n, s, steps[0]);
      CallAdvances(n, s, owner);
      CallsFinish(n, Apply(n, s, steps[0]), owner, m - 1);
    }
  }

  /** Source and session are gone, and of the derivatives exactly those put but never recorded are left. */
  ghost predicate Recovered(s: State) {
    && !SessionOpen(s) && s.row.rawKey !in s.objects.raws
    && forall k :: k in s.objects.derivatives <==> DeleteDerivative(k) in s.arrived && k !in s.row.derivatives
  }

  /** What a finished, undisturbed attempt leaves if its claim still describes the row. */
  lemma UndisturbedRecovers(s: State, a: Attempt)
    requires HistoryOk(s) && AttemptOk(s, a) && Finished(a) && Undisturbed(s, a)
    requires forall k :: k in s.row.derivatives ==> k in a.claim.derivativeKeys
    ensures Recovered(s)
  {
    FinishedErases(s, a);
    ErasedIsRecorded(s);
    PlanShape(a.claim);
    var plan := Plan(a.claim).value;
    var offset := if HasOpenSession(a.claim) then 1 else 0;
    assert plan[|plan| - 1] !in s.returned && Accounted(s, DeleteRaw(s.row.rawKey));
    forall i | 0 <= i < |a.claim.derivativeKeys|
      ensures DeleteDerivative(a.claim.derivativeKeys[i]) !in s.returned
    {
      assert plan[offset + i] !in s.returned;
    }
    forall k
      ensures k in s.objects.derivatives <==> DeleteDerivative(k) in s.arrived && k !in s.row.derivatives
    {
      assert Accounted(s, DeleteDerivative(k));
    }
  }

  lemma ReportRecovers(s: State, owner: string, now: nat)
    requires Inv(s) && owner in s.attempts && Finished(s.attempts[owner]) && Undisturbed(s, s.attempts[owner])
    requires OwnedBy(s.row, owner) && forall k :: k in s.row.derivatives ==> k in s.attempts[owner].claim.derivativeKeys
    ensures var s' := ApplyReport(s, owner, now, now);
            s'.row.state == Deleted && Recovered(s') && s'.row.derivatives == s.row.derivatives
  {
    assert AttemptOk(s, s.attempts[owner]);
    UndisturbedRecovers(s, s.attempts[owner]);
  }

  /**
   * However earlier runs ended and whatever was put meanwhile, an eligible upload is tombstoned once
   * a single undisturbed lease gets every answer, and then only derivatives that were never recorded
   * are left; only a multipart row without a session id cannot be finished.
   */
  lemma {:induction false} CleanupRecovers(n: nat, s0: State, steps: seq<Step>, claim: Step, now: nat)
    requires Fresh(s0) && claim.Claim?
    requires var s := Run(n, s0, steps);
             && claim.owner !in s.attempts
             && Eligible(s.row, claim.now, claim.createdBefore, claim.rejectedBefore, n)
             && Plan(CandidateOf(s.row)).Some?
    ensures var s := Run(n, s0, steps);
            var calls := Calls(claim.owner, |Plan(CandidateOf(s.row)).value|);
            var s' := Run(n, s, [claim] + calls + [Report(claim.owner, now, now)]);
            s'.row.state == Deleted && Recovered(s') && s'.row.derivatives == s.row.derivatives
  {
    FreshInv(s0);
    RunKeepsInv(n, s0, steps);
    var s := Run(n, s0, steps);
    var m := |Plan(CandidateOf(s.row)).value|;
    var report := Report(claim.owner, now, now);
    RunAppend(n, s, [claim] + Calls(claim.owner, m), [report]);
    RunAppend(n, s, [claim], Calls(claim.owner, m));
    RunOne(n, s, claim);
    var s1 := Apply(n, s, claim);
    ClaimKeepsInv(n, s, claim);
    CallsFinish(n, s1, claim.owner, m);
    var s2 := Run(n, s1, Calls(claim.owner, m));
    RunOne(n, s2, report);
    ReportRecovers(s2, claim.owner, now);
  }

  // ----- Four tombstones that are not clean -----

  function Validation(): seq<Step> { [Confirm(1)] + [Advance(Processing, 1)] }

  lemma ValidationEffect(n: nat, s: State)
    requires s.row.state == Created && s.row.transfer == SinglePut
    ensures Run(n, s, Validation()) == s.(row := s.row.(state := Processing, updatedAt := 1))
  {
    RunCons(n, s, Confirm(1), [Advance(Processing, 1)]);
    RunOne(n, Apply(n, s, Confirm(1)), Advance(Processing, 1));
  }

  /** A processing upload gains one stored derivative. */
  function WithDerivative(s: State, key: string): State {
    s.(objects := s.objects.(derivatives := s.objects.derivatives + {key}),
       arrived := s.arrived + {DeleteDerivative(key)})
  }

  lemma StoreThen(n: nat, s: State, key: string, last: Step)
    requires s.erased == {}
    ensures Run(n, s, [WorkerPut(key)] + [last]) == Apply(n, WithDerivative(s, key), last)
  {
    RunCons(n, s, WorkerPut(key), [last]);
    RunOne(n, Apply(n, s, WorkerPut(key)), last);
  }

  function PublishSteps(key: string): seq<Step> { Validation() + ([WorkerPut(key)] + [Publish([key], 1)]) }

  /** A single-PUT reservation made Ready with one derivative. */
  lemma PublishEffect(n: nat, s: State, key: string)
    requires s.row.state == Created && s.row.transfer == SinglePut && s.erased == {}
    ensures Run(n, s, PublishSteps(key))
         == WithDerivative(s, key).(row := s.row.(state := Ready, derivatives := [key], updatedAt := 1))
  {
    ValidationEffect(n, s);
    RunAppend(n, s, Validation(), [WorkerPut(key)] + [Publish([key], 1)]);
    StoreThen(n, Run(n, s, Validation()), key, Publish([key], 1));
  }

  function RejectSteps(key: string): seq<Step> { Validation() + ([WorkerPut(key)] + [Advance(Rejected, 1)]) }

  lemma RejectEffect(n: nat, s: State, key: string)
    requires s.row.state == Created && s.row.transfer == SinglePut && s.erased == {}
    ensures Run(n, s, RejectSteps(key)) == WithDerivative(s, key).(row := s.row.(state := Rejected, updatedAt := 1))
  {
    ValidationEffect(n, s);
    RunAppend(n, s, Validation(), [WorkerPut(key)] + [Advance(Rejected, 1)]);
    StoreThen(n, Run(n, s, Validation()), key, Advance(Rejected, 1));
  }

  /** The raw deletion and the report that end an attempt. */
  lemma LastCall(n: nat, s: State, owner: string, now: nat)
    requires owner in s.attempts && s.attempts[owner].failed.None? && OwnedBy(s.row, owner)
    requires var a := s.attempts[owner];
             Plan(a.claim).Some? && a.next == |Plan(a.claim).value| - 1
               && Plan(a.claim).value[a.next] == DeleteRaw(a.claim.rawKey)
    ensures var s' := Run(n, s, [CallStore(owner, Done), Report(owner, now, now)]);
            && s'.row == Tombstoned(s.row, now) && s'.objects.derivatives == s.objects.derivatives
            && s'.returned == s.returned - {DeleteRaw(s.attempts[owner].claim.rawKey)}
  {
    RunCons(n, s, CallStore(owner, Done), [Report(owner, now, now)]);
    var s1 := Apply(n, s, CallStore(owner, Done));
    assert Finished(s1.attempts[owner]);
    RunOne(n, s1, Report(owner, now, now));
  }

  /** An expired reservation is leased for cleanup, confirmed, processed and published, then tombstoned. */
  lemma LateConfirmationLeavesDerivatives(n: nat, s: State, claim: Step, key: string, now: nat)
    requires Fresh(s) && s.row.transfer == SinglePut && claim.Claim?
    requires Eligible(s.row, claim.now, claim.createdBefore, claim.rejectedBefore, n)
    ensures var s' := Run(n, s, [claim] + PublishSteps(key)
                          + [CallStore(claim.owner, Done), Report(claim.owner, now, now)]);
            s'.row.state == Deleted && key in s'.row.derivatives && key in s'.objects.derivatives && s'.returned == {}
  {
    hide PublishSteps;
    var publish := PublishSteps(key);
    var finish := [CallStore(claim.owner, Done), Report(claim.owner, now, now)];
    RunAppend(n, s, [claim] + publish, finish);
    RunCons(n, s, claim, publish);
    var s1 := Apply(n, s, claim);
    var candidate := CandidateOf(s.row);
    assert s1 == s.(row := Leased(s.row, claim.owner, claim.until),
                    attempts := map[claim.owner := Attempt(candidate, 0, None)]);
    PublishEffect(n, s1, key);
    var s2 := Run(n, s1, publish);
    PlanShape(candidate);
    assert Plan(candidate).value == [DeleteRaw(candidate.rawKey)];
    LastCall(n, s2, claim.owner, now);
  }

  lemma DeleteThenPut(n: nat, s: State, key: string, owner: string, now: nat)
    requires s.row.state == Ready && s.row.transfer == SinglePut && !s.row.deleteRequested && s.row.derivatives == [key]
    requires s.attempts == map[] && s.erased == {} && s.returned == {} && s.row.attempts < n && s.row.leaseUntil.None?
    ensures var s' := Run(n, s, [RequestDeletion(now)] + [Claim(owner, now, 0, 0, now)]
                          + [CallStore(owner, Done), WorkerPut(key)]);
            && s'.row.state == Ready && s'.row.derivatives == [key] && s'.returned == {DeleteDerivative(key)}
            && key in s'.objects.derivatives && OwnedBy(s'.row, owner)
            && owner in s'.attempts && s'.attempts[owner].failed.None? && s'.attempts[owner].next == 1
            && Plan(s'.attempts[owner].claim)
                 == Some([DeleteDerivative(key), DeleteRaw(s'.attempts[owner].claim.rawKey)])
  {
    var call := [CallStore(owner, Done), WorkerPut(key)];
    RunAppend(n, s, [RequestDeletion(now)] + [Claim(owner, now, 0, 0, now)], call);
    RunCons(n, s, RequestDeletion(now), [Claim(owner, now, 0, 0, now)]);
    var s1 := Apply(n, s, RequestDeletion(now));
    RunOne(n, s1, Claim(owner, now, 0, 0, now));
    var s2 := Apply(n, s1, Claim(owner, now, 0, 0, now));
    var candidate := CandidateOf(s1.row);
    assert s2.attempts == map[owner := Attempt(candidate, 0, None)];
    assert Deletions([key]) == [DeleteDerivative(key)];
    assert Deletions([key]) + [DeleteRaw(candidate.rawKey)] == [DeleteDerivative(key), DeleteRaw(candidate.rawKey)];
    RunCons(n, s2, CallStore(owner, Done), [WorkerPut(key)]);
    var s3 := Apply(n, s2, CallStore(owner, Done));
    RunOne(n, s3, WorkerPut(key));
  }

  /**
   * A worker attempt that lost its lease inside a PUT can still put a derivative after cleanup has
   * deleted it: the claim was taken on the Ready row, and yet the tombstone leaves that key behind.
   */
  lemma StalePutLeavesDerivative(n: nat, s: State, key: string, owner: string, now: nat)
    requires Fresh(s) && s.row.transfer == SinglePut && !s.row.deleteRequested && n > 0 && s.row.leaseUntil.None?
    ensures var s' := Run(n, s, PublishSteps(key)
                                + ([RequestDeletion(now)] + [Claim(owner, now, 0, 0, now)]
                                   + [CallStore(owner, Done), WorkerPut(key)]
                                   + [CallStore(owner, Done), Report(owner, now, now)]));
            s'.row.state == Deleted && key in s'.row.derivatives && key in s'.objects.derivatives
            && s'.returned == {DeleteDerivative(key)}
  {
    hide PublishSteps;
    var publish := PublishSteps(key);
    var middle := [RequestDeletion(now)] + [Claim(owner, now, 0, 0, now)] + [CallStore(owner, Done), WorkerPut(key)];
    var finish := [CallStore(owner, Done), Report(owner, now, now)];
    PublishEffect(n, s, key);
    RunAppend(n, s, publish, middle + finish);
    var s1 := Run(n, s, publish);
    RunAppend(n, s1, middle, finish);
    DeleteThenPut(n, s1, key, owner, now);
    LastCall(n, Run(n, s1, middle), owner, now);
  }

  /**
   * The provider joins the parts, the completion is never confirmed, and the client aborts: the
   * session is already gone, which counts as closed, and the tombstone leaves the raw object.
   */
  lemma AbortAfterJoinLeavesRaw(n: nat, s: State)
    requires Fresh(s) && SessionOpen(s)
    ensures var s' := Run(n, s, [CompleteSession]
                          + ([BeginAbort(0)] + ([CloseSession(0, Done)] + [MarkDeleted(0, 1)])));
            s'.row.state == Deleted && s'.row.rawKey in s'.objects.raws && s'.erased == {} && s'.returned == {}
  {
    var close := [CloseSession(0, Done)] + [MarkDeleted(0, 1)];
    RunCons(n, s, CompleteSession, [BeginAbort(0)] + close);
    var s1 := Apply(n, s, CompleteSession);
    RunCons(n, s1, BeginAbort(0), close);
    var s2 := Apply(n, s1, BeginAbort(0));
    RunCons(n, s2, CloseSession(0, Done), [MarkDeleted(0, 1)]);
    RunOne(n, Apply(n, s2, CloseSession(0, Done)), MarkDeleted(0, 1));
  }

  /** An attempt stores a derivative and ends rejected: no row records the object and cleanup never deletes it. */
  lemma RejectedAttemptLeavesDerivative(n: nat, s: State, key: string, owner: string, now: nat)
    requires Fresh(s) && s.row.transfer == SinglePut && n > 0 && s.row.leaseUntil.None? && s.row.retryAt.None?
    ensures var s' := Run(n, s, RejectSteps(key)
                                + ([Claim(owner, now, 0, 1, now)] + [CallStore(owner, Done), Report(owner, now, now)]));
            s'.row.state == Deleted && s'.row.derivatives == [] && key in s'.objects.derivatives && s'.returned == {}
  {
    hide RejectSteps;
    var attempt := RejectSteps(key);
    var finish := [CallStore(owner, Done), Report(owner, now, now)];
    RejectEffect(n, s, key);
    RunAppend(n, s, attempt, [Claim(owner, now, 0, 1, now)] + finish);
    var s1 := Run(n, s, attempt);
    RunCons(n, s1, Claim(owner, now, 0, 1, now), finish);
    var s2 := Apply(n, s1, Claim(owner, now, 0, 1, now));
    var candidate := CandidateOf(s1.row);
    assert s2.attempts == map[owner := Attempt(candidate, 0, None)];
    assert Plan(candidate).value == [DeleteRaw(candidate.rawKey)] by { PlanShape(candidate); }
    LastCall(n, s2, owner, now);
  }

  // ----- A failing attempt, undisturbed -----

  /**
   * The first call of a leased attempt is refused or its answer is lost: the row waits for the retry
   * time with the code of that call and its attempt counted, and only a lost answer has an effect.
   */
  lemma FailureReleases(n: nat, s: State, claim: Step, answer: Answer, now: nat, retryAt: nat)
    requires claim.Claim? && claim.owner !in s.attempts && !answer.Done?
    requires Eligible(s.row, claim.now, claim.createdBefore, claim.rejectedBefore, n)
    ensures var t := Run(n, s, [claim] + ([CallStore(claim.owner, answer)] + [Report(claim.owner, now, retryAt)]));
            var opens := s.row.state == Created && s.row.transfer == Multipart;
            var code := if opens && s.row.sessionId.None? then "CLEANUP_STATE_INVALID"
                        else if opens then "MULTIPART_ABORT_FAILED"
                        else if s.row.derivatives != [] then "DERIVATIVE_DELETE_FAILED" else "RAW_DELETE_FAILED";
            && t.row == s.row.(leaseOwner := None, leaseUntil := None, attempts := s.row.attempts + 1,
                               retryAt := Some(retryAt), errorCode := Some(code), updatedAt := now)
            && t.attempts == s.attempts && t.arrived == s.arrived
            && t.objects == (if answer.Refused? || (opens && s.row.sessionId.None?) then s.objects
                             else if opens then s.objects.(sessions := s.objects.sessions - {s.row.sessionId.value})
                             else if s.row.derivatives != []
                                  then s.objects.(derivatives := s.objects.derivatives - {s.row.derivatives[0]})
                             else s.objects.(raws := s.objects.raws - {s.row.rawKey}))
  {
    hide Run;
    var owner, candidate := claim.owner, CandidateOf(s.row);
    var s1 := Apply(n, s, claim);
    RunCons(n, s, claim, [CallStore(owner, answer)] + [Report(owner, now, retryAt)]);
    RunCons(n, s1, CallStore(owner, answer), [Report(owner, now, retryAt)]);
    var s2 := Apply(n, s1, CallStore(owner, answer));
    RunOne(n, s2, Report(owner, now, retryAt));
    if Plan(candidate).Some? { PlanShape(candidate); }
    assert s1.attempts == s.attempts[owner := Attempt(candidate, 0, None)];
    assert s2.attempts - {owner} == s.attempts;
  }

  /**
   * A deletion request makes the row due from its own second on whatever the cutoffs say, with the
   * retry delay of an earlier failure dropped; a lease still running and the attempt limit hold.
   */
  lemma RequestIsClaimed(n: nat, s: State, now: nat, claim: Step)
    requires s.row.state in {Created, Ready, Rejected, Failed} && !s.row.deleteRequested
    requires claim.Claim? && claim.owner !in s.attempts
    ensures var r := Run(n, s, [RequestDeletion(now)] + [claim]);
            var requested := s.row.(deleteRequested := true, retryAt := Some(now), errorCode := None, updatedAt := now);
            var due := && now <= claim.now && s.row.attempts < n
                       && (s.row.leaseUntil.None? || s.row.leaseUntil.value <= claim.now);
            && (claim.owner in r.attempts <==> due)
            && r.row == (if !due then requested else
                         requested.(leaseOwner := Some(claim.owner), leaseUntil := Some(claim.until),
                                    attempts := s.row.attempts + 1))
  {
    hide Run;
    RunCons(n, s, RequestDeletion(now), [claim]);
    RunOne(n, Apply(n, s, RequestDeletion(now)), claim);
  }

  /** A crash or a dropped request forgets its own progress only; only a single PUT has a late client write. */
  lemma LocalLosses(n: nat, s: State, owner: string, id: nat)
    ensures Apply(n, s, Crash(owner)) == s.(attempts := s.attempts - {owner})
    ensures Apply(n, s, DropAbort(id)) == s.(aborts := s.aborts - {id})
    ensures s.row.transfer == SinglePut ==> s.row.rawKey in Apply(n, s, ClientPut).objects.raws
    ensures s.row.transfer == Multipart ==> Apply(n, s, ClientPut) == s
  {
  }
}
