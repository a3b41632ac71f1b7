/**
 * Storage cleanup: the ordered provider calls for one leased candidate, and one maintenance run.
 * Every provider call may succeed, be refused, or take effect while its answer is lost.
 */
module Cleanup {
  import opened Basics
  import opened Domain

  datatype Transfer = SinglePut | Multipart

  datatype Row = Row(state: UploadState, createdAt: nat, updatedAt: nat, rawKey: string, transfer: Transfer,
                     sessionId: Option<string>, derivatives: seq<string>, deleteRequested: bool,
                     attempts: nat, retryAt: Option<nat>, leaseUntil: Option<nat>, leaseOwner: Option<string>,
                     errorCode: Option<string>)

  /** What a claim hands to its worker: the row as it was when leased. */
  datatype Candidate = Candidate(rawKey: string, state: UploadState, transfer: Transfer, sessionId: Option<string>,
                                 derivativeKeys: seq<string>, attempts: nat)

  datatype Objects = Objects(sessions: set<string>, raws: set<string>, derivatives: set<string>)

  datatype Call = AbortSession(id: string) | DeleteDerivative(key: string) | DeleteRaw(key: string) {
    function ErrorCode(): string {
      match this
      case AbortSession(_) => "MULTIPART_ABORT_FAILED"
      case DeleteDerivative(_) => "DERIVATIVE_DELETE_FAILED"
      case DeleteRaw(_) => "RAW_DELETE_FAILED"
    }

    /** Deletes and aborts are idempotent: a missing target is a success. */
    function Effect(o: Objects): Objects {
      match this
      case AbortSession(id) => o.(sessions := o.sessions - {id})
      case DeleteDerivative(key) => o.(derivatives := o.derivatives - {key})
      case DeleteRaw(key) => o.(raws := o.raws - {key})
    }

    predicate Gone(o: Objects) {
      match this
      case AbortSession(id) => id !in o.sessions
      case DeleteDerivative(key) => key !in o.derivatives
      case DeleteRaw(key) => key !in o.raws
    }
  }

  // ----- The calls one candidate needs, in order -----

  function Deletions(keys: seq<string>): seq<Call> {
    seq(|keys|, i requires 0 <= i < |keys| => DeleteDerivative(keys[i]))
  }

  predicate HasOpenSession(c: Candidate) { c.state == Created && c.transfer == Multipart }

  /** Session first, recorded derivatives next, the raw object last; `None` when no session id was stored. */
  function Plan(c: Candidate): Option<seq<Call>> {
    var tail := Deletions(c.derivativeKeys) + [DeleteRaw(c.rawKey)];
    if !HasOpenSession(c) then Some(tail)
    else if c.sessionId.None? then None
    else Some([AbortSession(c.sessionId.value)] + tail)
  }

  /** Calls are made in order until one does not answer. */
  function Execute(o: Objects, plan: seq<Call>, answers: seq<Answer>): (r: (Objects, Option<string>))
    requires |answers| >= |plan|
    decreases plan
  {
    if plan == [] then (o, None)
    else match answers[0]
      case Done => Execute(plan[0].Effect(o), plan[1..], answers[1..])
      case AnswerLost => (plan[0].Effect(o), Some(plan[0].ErrorCode()))
      case Refused => (o, Some(plan[0].ErrorCode()))
  }

  ghost predicate Shrinks(o: Objects, o': Objects) {
    o'.sessions <= o.sessions && o'.raws <= o.raws && o'.derivatives <= o.derivatives
  }

  /** An attempt removes a prefix of its plan: nothing later goes before something earlier. */
  lemma {:induction false} ExecuteIsPrefix(o: Objects, plan: seq<Call>, answers: seq<Answer>)
    returns (n: nat)
    requires |answers| >= |plan|
    ensures n <= |plan| && Execute(o, plan, answers).0 == EffectOf(o, plan[..n])
    ensures Execute(o, plan, answers).1.None? ==> n == |plan|
    ensures Execute(o, plan, answers).1.Some? ==>
              exists i :: 0 <= i < |plan| && n <= i + 1 && Execute(o, plan, answers).1 == Some(plan[i].ErrorCode())
    decreases plan
  {
    n := 0;
    if plan != [] {
      if answers[0].Done? {
        var m := ExecuteIsPrefix(plan[0].Effect(o), plan[1..], answers[1..]);
        n := m + 1;
        assert plan[..n][1..] == plan[1..][..m];
        if Execute(o, plan, answers).1.Some? {
          var i :| 0 <= i < |plan[1..]| && m <= i + 1 && Execute(o, plan, answers).1 == Some(plan[1..][i].ErrorCode());
          assert plan[1..][i] == plan[i + 1];
        }
      } else if answers[0].AnswerLost? {
        n := 1;
        assert plan[..1][1..] == [];
      } else {
        assert Execute(o, plan, answers).1 == Some(plan[0].ErrorCode());
      }
    }
  }

  function EffectOf(o: Objects, calls: seq<Call>): Objects
    decreases calls
  {
    if calls == [] then o else EffectOf(calls[0].Effect(o), calls[1..])
  }

  lemma {:induction false} EffectOfRemoves(o: Objects, calls: seq<Call>)
    ensures Shrinks(o, EffectOf(o, calls))
    ensures forall i :: 0 <= i < |calls| ==> calls[i].Gone(EffectOf(o, calls))
    ensures forall c: Call :: c.Gone(EffectOf(o, calls)) ==> c.Gone(o) || c in calls
    decreases calls
  {
    if calls != [] {
      EffectOfRemoves(calls[0].Effect(o), calls[1..]);
      assert calls == [calls[0]] + calls[1..];
      forall c: Call | c.Gone(EffectOf(o, calls))
        ensures c.Gone(o) || c in calls
      {
        assert c.Gone(calls[0].Effect(o)) || c in calls[1..];
      }
    }
  }

  /** Removal depends only on which calls take effect. */
  lemma {:induction false} EffectOfIsDifference(o: Objects, calls: seq<Call>)
    ensures EffectOf(o, calls) == Objects(set id | id in o.sessions && AbortSession(id) !in calls,
                                          set k | k in o.raws && DeleteRaw(k) !in calls,
                                          set k | k in o.derivatives && DeleteDerivative(k) !in calls)
    decreases calls
  {
    if calls != [] {
      EffectOfIsDifference(calls[0].Effect(o), calls[1..]);
      assert calls == [calls[0]] + calls[1..];
    }
  }

  /**
   * Wherever earlier attempts stopped, one answered attempt ends with the objects that a single
   * undisturbed attempt would have left.
   */
  lemma RetryConverges(o: Objects, plan: seq<Call>, answers: seq<Answer>, retry: seq<Answer>)
    requires |answers| >= |plan| && |retry| >= |plan| && Execute(Execute(o, plan, answers).0, plan, retry).1.None?
    ensures Execute(Execute(o, plan, answers).0, plan, retry).0 == EffectOf(o, plan)
  {
    var n := ExecuteIsPrefix(o, plan, answers);
    var o1 := Execute(o, plan, answers).0;
    var m := ExecuteIsPrefix(o1, plan, retry);
    assert plan[..m] == plan;
    EffectOfIsDifference(o, plan[..n]);
    EffectOfIsDifference(o1, plan);
    EffectOfIsDifference(o, plan);
    assert forall c :: c in plan[..n] ==> c in plan;
  }

  /** The raw object goes only once the open session and every recorded derivative are gone. */
  lemma RawGoesLast(o: Objects, c: Candidate, answers: seq<Answer>)
    requires Plan(c).Some? && |answers| >= |Plan(c).value| && c.rawKey in o.raws
    requires c.rawKey !in Execute(o, Plan(c).value, answers).0.raws
    ensures var o' := Execute(o, Plan(c).value, answers).0;
            && (HasOpenSession(c) ==> c.sessionId.value !in o'.sessions)
            && forall i :: 0 <= i < |c.derivativeKeys| ==> c.derivativeKeys[i] !in o'.derivatives
  {
    var plan := Plan(c).value;
    var n := ExecuteIsPrefix(o, plan, answers);
    EffectOfRemoves(o, plan[..n]);
    assert DeleteRaw(c.rawKey).Gone(EffectOf(o, plan[..n]));
    assert DeleteRaw(c.rawKey) in plan[..n];
    PlanShape(c);
    assert n == |plan|;
    assert plan[..n] == plan;
    forall i | 0 <= i < |c.derivativeKeys|
      ensures c.derivativeKeys[i] !in EffectOf(o, plan).derivatives
    {
      assert plan[|plan| - 1 - |c.derivativeKeys| + i].Gone(EffectOf(o, plan));
    }
  }

  /** The only raw deletion in a plan is its last call. */
  lemma PlanShape(c: Candidate)
    requires Plan(c).Some?
    ensures var plan := Plan(c).value; var offset := if HasOpenSession(c) then 1 else 0;
            && |plan| == offset + |c.derivativeKeys| + 1
            && (offset == 1 ==> plan[0] == AbortSession(c.sessionId.value))
            && (forall i :: 0 <= i < |c.derivativeKeys| ==> plan[offset + i] == DeleteDerivative(c.derivativeKeys[i]))
            && plan[|plan| - 1] == DeleteRaw(c.rawKey)
            && forall i :: 0 <= i < |plan| - 1 ==> !plan[i].DeleteRaw?
  {
  }

  // ----- Rows and leases -----

  predicate Eligible(r: Row, now: nat, createdBefore: int, rejectedBefore: int, maxAttempts: nat) {
    && r.state != Deleted && r.attempts < maxAttempts
    && (r.retryAt.Some? ==> r.retryAt.value <= now)
    && (r.leaseUntil.Some? ==> r.leaseUntil.value <= now)
    && (r.deleteRequested || (r.state == Created && r.createdAt <= createdBefore)
        || ((r.state == Rejected || r.state == Failed) && r.updatedAt <= rejectedBefore))
  }

  function Leased(r: Row, owner: string, until: nat): Row {
    r.(leaseOwner := Some(owner), leaseUntil := Some(until), attempts := r.attempts + 1, errorCode := None)
  }

  function CandidateOf(r: Row): Candidate {
    Candidate(r.rawKey, r.state, r.transfer, r.sessionId, r.derivatives, r.attempts + 1)
  }

  predicate OwnedBy(r: Row, owner: string) {
    r.state != Deleted && r.leaseOwner == Some(owner)
  }

  function Tombstoned(r: Row, now: nat): Row {
    r.(state := Deleted, updatedAt := now, leaseOwner := None, leaseUntil := None, retryAt := None, errorCode := None)
  }

  function Released(r: Row, now: nat, retryAt: nat, code: string): Row {
    r.(leaseOwner := None, leaseUntil := None, retryAt := Some(retryAt), errorCode := Some(code), updatedAt := now)
  }

  // ----- One maintenance run -----

  /** Durations in whole seconds. */
  datatype Policy = Policy(createdTtl: nat, rejectedRetention: nat, leaseFor: nat, retryDelay: nat, batchSize: nat,
                           maxAttempts: nat) {
    predicate Valid() {
      && 0 < createdTtl <= 604_800 && 0 < rejectedRetention <= 7_776_000 && 0 < leaseFor <= 3_600
      && 0 < retryDelay <= 86_400 && 1 <= batchSize <= 100 && 1 <= maxAttempts <= 100
    }
  }

  /** A service exists only with a valid policy. */
  type ValidPolicy = p: Policy | p.Valid() witness Policy(86_400, 604_800, 300, 60, 100, 10)

  datatype Summary = Summary(claimed: nat, completed: nat, failed: nat, deadLettered: nat)

  datatype RunError = InvalidOwner | LeaseLost

  predicate CodeChar(c: char) { 'A' <= c <= 'Z' || Digit(c) || c == '_' }

  predicate CodeValid(code: string) {
    0 < |code| <= 64 && forall i :: 0 <= i < |code| ==> CodeChar(code[i])
  }

  lemma CodeChars(code: string)
    ensures CodeValid(code) <==>
              0 < |code| <= 64 && forall c :: c in code ==> 'A' <= c <= 'Z' || '0' <= c <= '9' || c == '_'
  {
    assert forall i :: 0 <= i < |code| ==> code[i] in code;
    if CodeValid(code) {
      forall c | c in code
        ensures CodeChar(c)
      {
        var i :| 0 <= i < |code| && code[i] == c;
      }
    }
  }

  lemma CallCodeValid(call: Call)
    ensures CodeValid(call.ErrorCode())
  {
    match call
    case AbortSession(_) => assert CodeValid("MULTIPART_ABORT_FAILED");
    case DeleteDerivative(_) => assert CodeValid("DERIVATIVE_DELETE_FAILED");
    case DeleteRaw(_) => assert CodeValid("RAW_DELETE_FAILED");
  }

  lemma StateCodeValid()
    ensures CodeValid("CLEANUP_STATE_INVALID")
  {
  }

  function SpecOf(c: Candidate, o: Objects, answers: seq<Answer>): (Objects, Option<string>)
    requires Plan(c).Some? ==> |answers| >= |Plan(c).value|
  {
    if Plan(c).None? then (o, Some("CLEANUP_STATE_INVALID")) else Execute(o, Plan(c).value, answers)
  }

  /** The tail of every plan: recorded derivatives, then the raw object. */
  function PlanTail(c: Candidate): seq<Call> { Deletions(c.derivativeKeys) + [DeleteRaw(c.rawKey)] }

  lemma PlanUnfolds(c: Candidate, o: Objects, answers: seq<Answer>)
    requires Plan(c).Some? && |answers| >= |Plan(c).value|
    ensures HasOpenSession(c) ==>
              var abort := AbortSession(c.sessionId.value);
              && |answers| >= 1 + |PlanTail(c)|
              && SpecOf(c, o, answers) == match answers[0]
                                          case Done => Execute(abort.Effect(o), PlanTail(c), answers[1..])
                                          case AnswerLost => (abort.Effect(o), Some(abort.ErrorCode()))
                                          case Refused => (o, Some(abort.ErrorCode()))
    ensures !HasOpenSession(c) ==>
              |answers| >= |PlanTail(c)| && answers[0..] == answers
                && SpecOf(c, o, answers) == Execute(o, PlanTail(c), answers)
  {
    if HasOpenSession(c) { assert Plan(c).value[1..] == PlanTail(c); }
  }

  lemma {:induction false} ExecuteAppend(o: Objects, a: seq<Call>, b: seq<Call>, answers: seq<Answer>)
    requires |answers| >= |a| + |b|
    ensures Execute(o, a + b, answers) ==
            if Execute(o, a, answers).1.Some? then Execute(o, a, answers)
            else Execute(Execute(o, a, answers).0, b, answers[|a|..])
    decreases a
  {
    if a == [] {
      assert a + b == b && answers[0..] == answers;
    } else {
      assert (a + b)[1..] == a[1..] + b && answers[1..][|a| - 1..] == answers[|a|..];
      if answers[0].Done? { ExecuteAppend(a[0].Effect(o), a[1..], b, answers[1..]); }
    }
  }

  /** The answers the provider will give to one attempt; enough of them for any candidate in hand. */
  type Oracle = (string, nat) -> Answer

  function AnswersFor(oracle: Oracle, id: string, n: nat): (a: seq<Answer>)
    ensures |a| == n
  {
    seq(n, i requires 0 <= i < n => oracle(id, i))
  }

  function PlanLength(c: Candidate): nat { |c.derivativeKeys| + 2 }

  type Batch = seq<(string, Candidate)>

  predicate EligibleNow(p: Policy, r: Row, now: nat) {
    Eligible(r, now, now - p.createdTtl, now - p.rejectedRetention, p.maxAttempts)
  }

  ghost predicate Distinct<T(!new)>(s: seq<T>) {
    forall i, j :: 0 <= i < j < |s| ==> s[i] != s[j]
  }

  ghost predicate DistinctIds(batch: Batch) {
    forall i, j :: 0 <= i < j < |batch| ==> batch[i].0 != batch[j].0
  }

  ghost predicate InBatch(batch: Batch, id: string) {
    exists i :: 0 <= i < |batch| && batch[i].0 == id
  }

  /** An entry is a seen, eligible row, handed out as it was and leased. */
  ghost predicate EntryOk(p: Policy, before: map<string, Row>, after: map<string, Row>, seen: seq<string>,
                          entry: (string, Candidate), owner: string, now: nat)
    requires before.Keys == after.Keys
  {
    && entry.0 in seen && entry.0 in before && EligibleNow(p, before[entry.0], now)
    && entry.1 == CandidateOf(before[entry.0]) && after[entry.0] == Leased(before[entry.0], owner, now + p.leaseFor)
  }

  /** `batch` is exactly the eligible rows among `seen`, each leased; every other row is untouched. */
  ghost predicate Claimed(p: Policy, before: map<string, Row>, after: map<string, Row>, seen: seq<string>,
                          batch: Batch, owner: string, now: nat)
  {
    && before.Keys == after.Keys && DistinctIds(batch)
    && (forall i :: 0 <= i < |batch| ==> EntryOk(p, before, after, seen, batch[i], owner, now))
    && (forall id :: id in before && !InBatch(batch, id) ==> after[id] == before[id])
    && (forall id :: id in seen && id in before && EligibleNow(p, before[id], now) ==> InBatch(batch, id))
  }

  lemma InBatchAppend(batch: Batch, entry: (string, Candidate), id: string)
    ensures InBatch(batch + [entry], id) <==> InBatch(batch, id) || entry.0 == id
  {
    var longer := batch + [entry];
    assert longer[|batch|] == entry;
    if InBatch(batch, id) {
      var i :| 0 <= i < |batch| && batch[i].0 == id;
      assert longer[i].0 == id;
    }
  }

  lemma UnseenIsUntouched(p: Policy, before: map<string, Row>, after: map<string, Row>, seen: seq<string>, id: string,
                          batch: Batch, owner: string, now: nat)
    requires Claimed(p, before, after, seen, batch, owner, now) && id !in seen && id in before
    ensures !InBatch(batch, id) && after[id] == before[id]
  {
  }

  lemma ClaimStep(p: Policy, before: map<string, Row>, after: map<string, Row>, seen: seq<string>, id: string,
                  batch: Batch, owner: string, now: nat)
    requires Claimed(p, before, after, seen, batch, owner, now) && id !in seen && id in before
    requires EligibleNow(p, after[id], now)
    ensures Claimed(p, before, after[id := Leased(after[id], owner, now + p.leaseFor)], seen + [id],
                    batch + [(id, CandidateOf(after[id]))], owner, now)
  {
    UnseenIsUntouched(p, before, after, seen, id, batch, owner, now);
    var entry := (id, CandidateOf(after[id]));
    var after', seen', batch' := after[id := Leased(after[id], owner, now + p.leaseFor)], seen + [id], batch + [entry];
    forall other
      ensures InBatch(batch', other) <==> InBatch(batch, other) || other == id
    {
      InBatchAppend(batch, entry, other);
    }
    forall i | 0 <= i < |batch|
      ensures batch[i].0 != id && EntryOk(p, before, after', seen', batch[i], owner, now)
    {
      assert InBatch(batch, batch[i].0) && EntryOk(p, before, after, seen, batch[i], owner, now);
    }
    assert EntryOk(p, before, after', seen', entry, owner, now);
  }

  lemma PassStep(p: Policy, before: map<string, Row>, after: map<string, Row>, seen: seq<string>, id: string,
                 batch: Batch, owner: string, now: nat)
    requires Claimed(p, before, after, seen, batch, owner, now) && id !in seen && id in before
    requires !EligibleNow(p, after[id], now)
    ensures Claimed(p, before, after, seen + [id], batch, owner, now)
  {
    UnseenIsUntouched(p, before, after, seen, id, batch, owner, now);
    forall i | 0 <= i < |batch|
      ensures EntryOk(p, before, after, seen + [id], batch[i], owner, now)
    {
      assert EntryOk(p, before, after, seen, batch[i], owner, now);
    }
  }

  /** Leases a row if it is eligible. */
  function Offer(p: Policy, rows: map<string, Row>, batch: Batch, id: string, owner: string,
                 now: nat): (map<string, Row>, Batch)
    requires id in rows
  {
    if EligibleNow(p, rows[id], now)
    then (rows[id := Leased(rows[id], owner, now + p.leaseFor)], batch + [(id, CandidateOf(rows[id]))])
    else (rows, batch)
  }

  lemma OfferStep(p: Policy, before: map<string, Row>, after: map<string, Row>, order: seq<string>, i: nat,
                  batch: Batch, owner: string, now: nat)
    requires i < |order| && Distinct(order) && order[i] in before
    requires Claimed(p, before, after, order[..i], batch, owner, now)
    ensures var (after', batch') := Offer(p, after, batch, order[i], owner, now);
            Claimed(p, before, after', order[..i + 1], batch', owner, now)
  {
    assert order[..i + 1] == order[..i] + [order[i]] && order[i] !in order[..i];
    if EligibleNow(p, after[order[i]], now) {
      ClaimStep(p, before, after, order[..i], order[i], batch, owner, now);
    } else {
      PassStep(p, before, after, order[..i], order[i], batch, owner, now);
    }
  }

  /** `batch` hands out exactly the eligible rows among `seen`, as they were. */
  ghost predicate Selected(p: Policy, before: map<string, Row>, seen: seq<string>, batch: Batch, now: nat) {
    && DistinctIds(batch)
    && (forall i :: 0 <= i < |batch| ==>
          && batch[i].0 in seen && batch[i].0 in before && EligibleNow(p, before[batch[i].0], now)
          && batch[i].1 == CandidateOf(before[batch[i].0]))
    && (forall id :: id in seen && id in before && EligibleNow(p, before[id], now) ==> InBatch(batch, id))
  }

  lemma ClaimedIsSelected(p: Policy, before: map<string, Row>, after: map<string, Row>, seen: seq<string>, batch: Batch,
                          owner: string, now: nat)
    requires Claimed(p, before, after, seen, batch, owner, now)
    ensures Selected(p, before, seen, batch, now)
    ensures forall i :: 0 <= i < |batch| ==> batch[i].0 in after && OwnedBy(after[batch[i].0], owner)
  {
    forall i | 0 <= i < |batch|
      ensures EntryOk(p, before, after, seen, batch[i], owner, now)
    {
    }
  }

  function KeySet(keys: seq<string>): set<string> { set k | k in keys }

  ghost predicate AllDone(answers: seq<Answer>, n: nat) {
    n <= |answers| && forall i :: 0 <= i < n ==> answers[i].Done?
  }

  /** The code of the first call that does not answer, if any. */
  ghost function Failure(c: Candidate, answers: seq<Answer>): Option<string>
    requires |answers| >= PlanLength(c)
  {
    var opens := c.state == Created && c.transfer == Multipart;
    var rest := if opens then answers[1..] else answers;
    if opens && c.sessionId.None? then Some("CLEANUP_STATE_INVALID")
    else if opens && !answers[0].Done? then Some("MULTIPART_ABORT_FAILED")
    else if !AllDone(rest, |c.derivativeKeys|) then Some("DERIVATIVE_DELETE_FAILED")
    else if !rest[|c.derivativeKeys|].Done? then Some("RAW_DELETE_FAILED") else None
  }

  /** The keys are deleted in order up to the first call without an answer, which may still have deleted its own. */
  ghost predicate DeletedUpTo(keys: seq<string>, answers: seq<Answer>, before: set<string>, after: set<string>,
                              error: Option<string>)
    requires |answers| >= |keys|
  {
    if AllDone(answers, |keys|) then error.None? && after == before - KeySet(keys)
    else
      && error == Some("DERIVATIVE_DELETE_FAILED")
      && exists i :: && 0 <= i < |keys| && AllDone(answers, i) && !answers[i].Done?
                     && after == before - KeySet(keys[..if answers[i].Refused? then i else i + 1])
  }

  class Service {
    const policy: ValidPolicy
    var rows: map<string, Row>
    var sessions: set<string>
    var raws: set<string>
    var derivatives: set<string>

    constructor (policy: ValidPolicy, rows: map<string, Row>, objects: Objects)
      ensures this.policy == policy && this.rows == rows && Store() == objects
    {
      this.policy := policy;
      this.rows := rows;
      sessions, raws, derivatives := objects.sessions, objects.raws, objects.derivatives;
    }

    ghost function Store(): Objects
      reads this
    {
      Objects(sessions, raws, derivatives)
    }

    method Issue(call: Call, answer: Answer) returns (ok: bool)
      modifies this`sessions, this`raws, this`derivatives
      ensures ok <==> answer.Done?
      ensures Store() == if answer.Refused? then old(Store()) else call.Effect(old(Store()))
    {
      if !answer.Refused? {
        match call {
          case AbortSession(id) => sessions := sessions - {id};
          case DeleteDerivative(key) => derivatives := derivatives - {key};
          case DeleteRaw(key) => raws := raws - {key};
        }
      }
      ok := answer.Done?;
    }

    /** The derivative loop, which stops at the first call that does not answer. */
    method DeleteDerivatives(keys: seq<string>, answers: seq<Answer>) returns (error: Option<string>)
      requires |answers| >= |keys|
      modifies this`sessions, this`raws, this`derivatives
      ensures (Store(), error) == Execute(old(Store()), Deletions(keys), answers)
      ensures DeletedUpTo(keys, answers, old(derivatives), derivatives, error)
      ensures sessions == old(sessions) && raws == old(raws)
    {
      ghost var plan := Deletions(keys);
      var i := 0;
      while i < |keys|
        invariant 0 <= i <= |keys|
        invariant Execute(old(Store()), plan, answers) == Execute(Store(), plan[i..], answers[i..])
        invariant AllDone(answers, i) && sessions == old(sessions) && raws == old(raws)
        invariant derivatives == old(derivatives) - KeySet(keys[..i])
      {
        assert plan[i..][1..] == plan[i + 1..] && answers[i..][1..] == answers[i + 1..];
        assert keys[..i + 1] == keys[..i] + [keys[i]];
        var ok := Issue(DeleteDerivative(keys[i]), answers[i]);
        if !ok {
          return Some("DERIVATIVE_DELETE_FAILED");
        }
        i := i + 1;
      }
      assert keys[..i] == keys;
      error := None;
    }

    /** `cleanup_storage`: aborts, deletes recorded derivatives in order, deletes the raw object. */
    method CleanupStorage(c: Candidate, answers: seq<Answer>) returns (error: Option<string>)
      requires Plan(c).Some? ==> |answers| >= |Plan(c).value|
      modifies this`sessions, this`raws, this`derivatives
      ensures (Store(), error) == SpecOf(c, old(Store()), answers)
      ensures var opens, before := c.state == Created && c.transfer == Multipart, old(Store());
              if opens && c.sessionId.None? then error == Some("CLEANUP_STATE_INVALID") && Store() == before
              else if opens && !answers[0].Done? then
                && error == Some("MULTIPART_ABORT_FAILED") && derivatives == before.derivatives && raws == before.raws
                && sessions == before.sessions - (if answers[0].Refused? then {} else {c.sessionId.value})
              else
                var rest, k := if opens then answers[1..] else answers, |c.derivativeKeys|;
                && sessions == before.sessions - (if opens then {c.sessionId.value} else {})
                && (if AllDone(rest, k) then
                      && derivatives == before.derivatives - KeySet(c.derivativeKeys)
                      && raws == before.raws - (if rest[k].Refused? then {} else {c.rawKey})
                      && error == if rest[k].Done? then None else Some("RAW_DELETE_FAILED")
                    else
                      && raws == before.raws && error == Some("DERIVATIVE_DELETE_FAILED")
                      && DeletedUpTo(c.derivativeKeys, rest, before.derivatives, derivatives, error))
    {
      var next := 0;
      if c.state == Created && c.transfer == Multipart {
        if c.sessionId.None? {
          return Some("CLEANUP_STATE_INVALID");
        }
        PlanUnfolds(c, Store(), answers);
        var ok := Issue(AbortSession(c.sessionId.value), answers[0]);
        if !ok {
          return Some("MULTIPART_ABORT_FAILED");
        }
        next := 1;
      } else {
        PlanUnfolds(c, Store(), answers);
      }
      ghost var start := Store();
      var n := |c.derivativeKeys|;
      error := DeleteDerivatives(c.derivativeKeys, answers[next..]);
      ExecuteAppend(start, Deletions(c.derivativeKeys), [DeleteRaw(c.rawKey)], answers[next..]);
      if error.Some? {
        return;
      }
      assert answers[next..][n..][0] == answers[next + n];
      var ok := Issue(DeleteRaw(c.rawKey), answers[next + n]);
      error := if ok then None else Some("RAW_DELETE_FAILED");
    }

    /** Leases eligible rows in the database's order, up to the batch size. */
    method ClaimBatch(owner: string, order: seq<string>, now: nat) returns (batch: Batch, ghost n: nat)
      requires Distinct(order) && forall id :: id in order ==> id in rows
      modifies this`rows
      ensures rows.Keys == old(rows.Keys) && |batch| <= policy.batchSize
      ensures n <= |order| && (n < |order| ==> |batch| == policy.batchSize)
      ensures Claimed(policy, old(rows), rows, order[..n], batch, owner, now)
      ensures forall id :: id in order[..n] ==>
                var r := old(rows)[id];
                InBatch(batch, id) <==>
                  && r.state != Deleted && r.attempts < policy.maxAttempts
                  && (r.retryAt == None || r.retryAt.value <= now)
                  && (r.leaseUntil == None || r.leaseUntil.value <= now)
                  && (|| r.deleteRequested
                      || (r.state == Created && r.createdAt + policy.createdTtl <= now)
                      || (r.state in {Rejected, Failed} && r.updatedAt + policy.rejectedRetention <= now))
      ensures forall i :: 0 <= i < |batch| ==>
                var (id, c) := batch[i];
                id in order[..n] &&
                var r := old(rows)[id];
                && c == Candidate(r.rawKey, r.state, r.transfer, r.sessionId, r.derivatives, r.attempts + 1)
                && rows[id] == r.(leaseOwner := Some(owner), leaseUntil := Some(now + policy.leaseFor),
                                  attempts := r.attempts + 1, errorCode := None)
    {
      batch := [];
      ghost var before := rows;
      var i := 0;
      while i < |order| && |batch| < policy.batchSize
        invariant 0 <= i <= |order| && |batch| <= policy.batchSize && rows.Keys == before.Keys
        invariant Claimed(policy, before, rows, order[..i], batch, owner, now)
      {
        OfferStep(policy, before, rows, order, i, batch, owner, now);
        var (offered, longer) := Offer(policy, rows, batch, order[i], owner, now);
        rows, batch := offered, longer;
        i := i + 1;
      }
      n := i;
      forall j | 0 <= j < |batch|
        ensures EntryOk(policy, before, rows, order[..n], batch[j], owner, now)
      {
      }
    }

    method CompleteCleanup(id: string, owner: string, now: nat) returns (ok: bool)
      requires id in rows
      modifies this`rows
      ensures var r := old(rows)[id];
              && (ok <==> r.state != Deleted && r.leaseOwner == Some(owner))
              && rows == (if ok then old(rows)[id := r.(state := Deleted, updatedAt := now, leaseOwner := None,
                                                        leaseUntil := None, retryAt := None, errorCode := None)]
                          else old(rows))
    {
      ok := rows[id].state != Deleted && rows[id].leaseOwner == Some(owner);
      if ok { rows := rows[id := Tombstoned(rows[id], now)]; }
    }

    method FailCleanup(id: string, owner: string, now: nat, retryAt: nat, code: string) returns (ok: bool)
      requires id in rows
      modifies this`rows
      ensures var r := old(rows)[id];
              && (ok <==> && r.state != Deleted && r.leaseOwner == Some(owner) && now < retryAt && 0 < |code| <= 64
                          && forall c :: c in code ==> 'A' <= c <= 'Z' || '0' <= c <= '9' || c == '_')
              && rows == (if ok then old(rows)[id := r.(leaseOwner := None, leaseUntil := None, updatedAt := now,
                                                        retryAt := Some(retryAt), errorCode := Some(code))]
                          else old(rows))
    {
      CodeChars(code);
      if retryAt <= now || !CodeValid(code) {
        return false;
      }
      ok := rows[id].state != Deleted && rows[id].leaseOwner == Some(owner);
      if ok { rows := rows[id := Released(rows[id], now, retryAt, code)]; }
    }

    /** One candidate of a run: its storage attempt and the report that follows. */
    method Process(id: string, c: Candidate, owner: string, now: nat, oracle: Oracle)
      returns (completed: bool, reported: bool)
      requires id in rows
      modifies this
      ensures reported <==> OwnedBy(old(rows)[id], owner)
      ensures Shrinks(old(Store()), Store()) && rows.Keys == old(rows.Keys)
      ensures forall other :: other in rows && other != id ==> rows[other] == old(rows)[other]
      ensures reported ==> Settled(policy, now, oracle, id, rows[id], c, Store())
      ensures reported ==> (rows[id].state == Deleted <==> completed)
    {
      PlanBounded(c);
      var answers := AnswersFor(oracle, id, PlanLength(c));
      var error := CleanupStorage(c, answers);
      SpecRemoves(c, old(Store()), answers);
      SpecCodeValid(c, old(Store()), answers);
      completed := error.None?;
      if completed {
        reported := CompleteCleanup(id, owner, now);
      } else {
        reported := FailCleanup(id, owner, now, now + policy.retryDelay, error.value);
      }
    }

    /** Every candidate of a leased batch in turn, with the counters. */
    method ProcessAll(batch: Batch, owner: string, now: nat, oracle: Oracle)
      returns (ok: bool, completed: nat, failed: nat, deadLettered: nat)
      requires DistinctIds(batch)
      requires forall i :: 0 <= i < |batch| ==> batch[i].0 in rows && OwnedBy(rows[batch[i].0], owner)
      modifies this
      ensures ok && rows.Keys == old(rows.Keys)
      ensures Reported(policy, now, oracle, batch, rows, Store(), completed, failed, deadLettered)
      ensures forall id :: id in rows && !InBatch(batch, id) ==> rows[id] == old(rows)[id]
    {
      hide Reported, Settled, OwnedBy;
      ok, completed, failed, deadLettered := true, 0, 0, 0;
      NothingReported(policy, now, oracle, rows, Store());
      assert batch[..0] == [];
      var i := 0;
      while i < |batch|
        invariant 0 <= i <= |batch| && rows.Keys == old(rows.Keys) && ok
        invariant Reported(policy, now, oracle, batch[..i], rows, Store(), completed, failed, deadLettered)
        invariant forall j :: i <= j < |batch| ==> rows[batch[j].0] == old(rows)[batch[j].0]
        invariant forall id :: id in rows && !InBatch(batch, id) ==> rows[id] == old(rows)[id]
      {
        var (id, c) := batch[i];
        ghost var before, store := rows, Store();
        assert InBatch(batch, id);
        var done;
        done, ok := Process(id, c, owner, now, oracle);
        if !ok {
          return;
        }
        ReportStep(policy, now, oracle, batch, i, before, rows, store, Store(), completed, failed, deadLettered);
        if done {
          completed := completed + 1;
        } else {
          failed := failed + 1;
          if c.attempts >= policy.maxAttempts { deadLettered := deadLettered + 1; }
        }
        i := i + 1;
      }
      assert batch[..i] == batch;
    }

    /**
     * `run_once` without another runner: it takes the first eligible rows in order, and every
     * candidate is then either tombstoned with nothing of it left in storage, or released for a
     * later retry with the code of the call that failed.
     */
    method RunOnce(owner: string, order: seq<string>, now: nat, oracle: Oracle)
      returns (batch: Batch, ghost n: nat, r: Result<Summary, RunError>)
      requires Distinct(order) && forall id :: id in order ==> id in rows
      modifies this
      ensures r.Ok? <==> Token(owner, 128)
      ensures r.Err? ==> r == Err(InvalidOwner) && batch == [] && rows == old(rows) && Store() == old(Store())
      ensures r.Ok? ==> n <= |order| && (n < |order| ==> |batch| == policy.batchSize)
                        && Selected(policy, old(rows), order[..n], batch, now)
      ensures r.Ok? ==> r.value.claimed == |batch| && rows.Keys == old(rows.Keys)
                        && Reported(policy, now, oracle, batch, rows, Store(), r.value.completed, r.value.failed,
                                    r.value.deadLettered)
      ensures forall id :: id in rows && !InBatch(batch, id) ==> id in old(rows) && rows[id] == old(rows)[id]
    {
      if !Token(owner, 128) {
        return [], 0, Err(InvalidOwner);
      }
      batch, n := ClaimBatch(owner, order, now);
      ghost var leased := rows;
      ClaimedIsSelected(policy, old(rows), leased, order[..n], batch, owner, now);
      var ok, completed, failed, deadLettered := ProcessAll(batch, owner, now, oracle);
      if !ok {
        return batch, n, Err(LeaseLost);
      }
      r := Ok(Summary(|batch|, completed, failed, deadLettered));
    }
  }

  /**
   * After its attempt a candidate is tombstoned and gone from storage if every call answered, and
   * otherwise waits for the retry delay with the code of the call that did not.
   */
  ghost predicate Settled(p: Policy, now: nat, oracle: Oracle, id: string, row: Row, c: Candidate, o: Objects) {
    && row.leaseOwner.None? && row.leaseUntil.None?
    && row.errorCode == Failure(c, AnswersFor(oracle, id, PlanLength(c)))
    && (row.state == Deleted <==> row.errorCode.None?)
    && (if row.state == Deleted then row.retryAt.None? && forall call :: call in PlanCalls(c) ==> call.Gone(o)
        else row.retryAt == Some(now + p.retryDelay))
  }

  ghost function PlanCalls(c: Candidate): seq<Call> {
    if Plan(c).Some? then Plan(c).value else []
  }

  /** Positions of a batch whose row is tombstoned. */
  ghost function Tombstones(batch: Batch, rows: map<string, Row>): set<int> {
    set i | 0 <= i < |batch| && batch[i].0 in rows && rows[batch[i].0].state == Deleted
  }

  /** Positions left waiting although their attempts are used up. */
  ghost function DeadLetters(p: Policy, batch: Batch, rows: map<string, Row>): set<int> {
    set i | 0 <= i < |batch| && batch[i].0 in rows && rows[batch[i].0].state != Deleted
        && batch[i].1.attempts >= p.maxAttempts
  }

  /** The counters are the exact census of a batch every member of which is settled. */
  ghost predicate Reported(p: Policy, now: nat, oracle: Oracle, batch: Batch, rows: map<string, Row>, o: Objects,
                           completed: nat, failed: nat, deadLettered: nat)
  {
    && completed + failed == |batch| && deadLettered <= failed
    && completed == |Tombstones(batch, rows)| && deadLettered == |DeadLetters(p, batch, rows)|
    && (forall i :: 0 <= i < |batch| ==>
          batch[i].0 in rows && Settled(p, now, oracle, batch[i].0, rows[batch[i].0], batch[i].1, o))
  }

  lemma NothingReported(p: Policy, now: nat, oracle: Oracle, rows: map<string, Row>, o: Objects)
    ensures Reported(p, now, oracle, [], rows, o, 0, 0, 0)
  {
  }

  lemma PlanBounded(c: Candidate)
    ensures Plan(c).Some? ==> |Plan(c).value| <= PlanLength(c)
  {
    if Plan(c).Some? { PlanShape(c); }
  }

  lemma SpecRemoves(c: Candidate, o: Objects, answers: seq<Answer>)
    requires Plan(c).Some? ==> |answers| >= |Plan(c).value|
    ensures Shrinks(o, SpecOf(c, o, answers).0)
    ensures SpecOf(c, o, answers).1.None? ==> forall call :: call in PlanCalls(c) ==> call.Gone(SpecOf(c, o, answers).0)
  {
    if Plan(c).Some? {
      var plan := Plan(c).value;
      var n := ExecuteIsPrefix(o, plan, answers);
      EffectOfRemoves(o, plan[..n]);
      if SpecOf(c, o, answers).1.None? { assert plan[..n] == plan; }
    }
  }

  lemma SpecCodeValid(c: Candidate, o: Objects, answers: seq<Answer>)
    requires Plan(c).Some? ==> |answers| >= |Plan(c).value|
    ensures SpecOf(c, o, answers).1.Some? ==> CodeValid(SpecOf(c, o, answers).1.value)
  {
    hide CodeValid, Execute;
    if Plan(c).None? {
      StateCodeValid();
    } else if SpecOf(c, o, answers).1.Some? {
      var plan := Plan(c).value;
      var n := ExecuteIsPrefix(o, plan, answers);
      var i :| 0 <= i < |plan| && n <= i + 1 && SpecOf(c, o, answers).1 == Some(plan[i].ErrorCode());
      CallCodeValid(plan[i]);
    }
  }

  lemma ReportStep(p: Policy, now: nat, oracle: Oracle, batch: Batch, i: nat, rows: map<string, Row>,
                   rows': map<string, Row>, o: Objects, o': Objects, completed: nat, failed: nat, deadLettered: nat)
    requires i < |batch| && DistinctIds(batch) && batch[i].0 in rows && rows'.Keys == rows.Keys
    requires Reported(p, now, oracle, batch[..i], rows, o, completed, failed, deadLettered)
    requires forall id :: id in rows && id != batch[i].0 ==> rows'[id] == rows[id]
    requires Shrinks(o, o') && Settled(p, now, oracle, batch[i].0, rows'[batch[i].0], batch[i].1, o')
    ensures var done := rows'[batch[i].0].state == Deleted;
            Reported(p, now, oracle, batch[..i + 1], rows', o', completed + (if done then 1 else 0),
                     failed + (if done then 0 else 1),
                     deadLettered + (if !done && batch[i].1.attempts >= p.maxAttempts then 1 else 0))
  {
    CensusStep(p, batch, i, rows, rows');
    var b' := batch[..i + 1];
    forall j | 0 <= j < |b'|
      ensures b'[j].0 in rows' && Settled(p, now, oracle, b'[j].0, rows'[b'[j].0], b'[j].1, o')
    {
      if j < i {
        assert batch[..i][j] == batch[j] && batch[j].0 != batch[i].0;
        assert Settled(p, now, oracle, batch[j].0, rows[batch[j].0], batch[j].1, o);
      }
    }
  }

  lemma CensusStep(p: Policy, batch: Batch, i: nat, rows: map<string, Row>, rows': map<string, Row>)
    requires i < |batch| && DistinctIds(batch) && batch[i].0 in rows && rows'.Keys == rows.Keys
    requires forall id :: id in rows && id != batch[i].0 ==> rows'[id] == rows[id]
    ensures var done := rows'[batch[i].0].state == Deleted;
            && |Tombstones(batch[..i + 1], rows')| == |Tombstones(batch[..i], rows)| + (if done then 1 else 0)
            && |DeadLetters(p, batch[..i + 1], rows')| == |DeadLetters(p, batch[..i], rows)|
                 + (if !done && batch[i].1.attempts >= p.maxAttempts then 1 else 0)
  {
    var b, b', done := batch[..i], batch[..i + 1], rows'[batch[i].0].state == Deleted;
    forall j | 0 <= j < i
      ensures b[j] == b'[j] && b[j].0 != b'[i].0 && (b[j].0 in rows ==> rows'[b[j].0] == rows[b[j].0])
    {
    }
    TombstonesStep(b, b', i, rows, rows');
    DeadLettersStep(p, b, b', i, rows, rows');
  }

  lemma TombstonesStep(b: Batch, b': Batch, i: nat, rows: map<string, Row>, rows': map<string, Row>)
    requires |b| == i && |b'| == i + 1 && rows'.Keys == rows.Keys && b'[i].0 in rows
    requires forall j :: 0 <= j < i ==> b[j] == b'[j] && (b[j].0 in rows ==> rows'[b[j].0] == rows[b[j].0])
    ensures |Tombstones(b', rows')| == |Tombstones(b, rows)| + (if rows'[b'[i].0].state == Deleted then 1 else 0)
  {
    assert i !in Tombstones(b, rows);
    assert Tombstones(b', rows') == Tombstones(b, rows) + (if rows'[b'[i].0].state == Deleted then {i} else {});
  }

  lemma DeadLettersStep(p: Policy, b: Batch, b': Batch, i: nat, rows: map<string, Row>, rows': map<string, Row>)
    requires |b| == i && |b'| == i + 1 && rows'.Keys == rows.Keys && b'[i].0 in rows
    requires forall j :: 0 <= j < i ==> b[j] == b'[j] && (b[j].0 in rows ==> rows'[b[j].0] == rows[b[j].0])
    ensures |DeadLetters(p, b', rows')| == |DeadLetters(p, b, rows)|
              + (if rows'[b'[i].0].state != Deleted && b'[i].1.attempts >= p.maxAttempts then 1 else 0)
  {
    var dead := rows'[b'[i].0].state != Deleted && b'[i].1.attempts >= p.maxAttempts;
    assert i !in DeadLetters(p, b, rows);
    assert DeadLetters(p, b', rows') == DeadLetters(p, b, rows) + (if dead then {i} else {});
  }
}
