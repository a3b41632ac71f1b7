/**
 * Batch reservation: provider sessions are opened one file at a time, saved in one transaction, and
 * rolled back on any failure. Calls may be refused, or take effect while their answer is lost.
 */
module CreateBatch {
  import opened Basics
  import opened Domain
  import ObjectKeys
  import opened Multipart

  datatype File = File(clientRef: string, kind: MediaKind, length: nat, contentType: string) {
    function Candidate(): Candidate { Multipart.Candidate(kind, length) }
  }

  datatype Request = Request(tenant: string, files: seq<File>)

  datatype Reservation = Reservation(uploadId: string, key: string, kind: MediaKind, bytes: nat, contentType: string,
                                     transfer: Transfer, session: Option<nat>)

  datatype Intent = Intent(clientRef: string, uploadId: string, transfer: Transfer, presigned: bool)

  datatype Error =
    | InvalidTenant | InvalidClientRef | InvalidContentType | Planning(reason: PlanError) | Backpressure
    | Repository | GeneratedObjectKey | ObjectStore | CleanupRequired

  datatype SaveAnswer = Saved | CapacityExhausted | Failed | CommitAnswerLost

  /** What the outside answers: preflight, the call for each file, each abort and the final save. */
  datatype Script = Script(preflight: Option<bool>, call: nat -> Answer, abort: nat -> Answer, save: SaveAnswer)

  /** The provider call for file `i` is the first one that does not answer. */
  ghost predicate FailsAt(script: Script, i: nat) {
    !script.call(i).Done? && forall j: nat :: j < i ==> script.call(j).Done?
  }

  // ----- Request checks -----

  predicate ContentTypeOk(s: string) {
    0 < |s| <= 255 && forall i :: 0 <= i < |s| ==> Graphic(s[i])
  }

  lemma ContentTypeChars(s: string)
    ensures ContentTypeOk(s) <==> 0 < |s| <= 255 && forall c :: c in s ==> '!' <= c <= '~'
  {
    if ContentTypeOk(s) {
      forall c | c in s
        ensures '!' <= c <= '~'
      {
        var i :| 0 <= i < |s| && s[i] == c;
      }
    }
    assert forall i :: 0 <= i < |s| ==> s[i] in s;
  }

  function FileErrors(files: seq<File>, seen: set<string>): Option<Error>
    decreases files
  {
    if files == [] then None
    else if !Token(files[0].clientRef, 128) || files[0].clientRef in seen then Some(InvalidClientRef)
    else if !ContentTypeOk(files[0].contentType) then Some(InvalidContentType)
    else FileErrors(files[1..], seen + {files[0].clientRef})
  }

  /** Metadata passes exactly when every field is well formed and no client reference repeats. */
  lemma {:induction false} FilesAcceptedExactly(files: seq<File>, seen: set<string>)
    ensures FileErrors(files, seen).None? <==>
      (&& (forall i :: 0 <= i < |files| ==>
             && Token(files[i].clientRef, 128) && files[i].clientRef !in seen && 0 < |files[i].contentType| <= 255
             && forall c :: c in files[i].contentType ==> '!' <= c <= '~')
       && forall i, j :: 0 <= i < j < |files| ==> files[i].clientRef != files[j].clientRef)
    decreases files
  {
    if files != [] {
      ContentTypeChars(files[0].contentType);
      FilesAcceptedExactly(files[1..], seen + {files[0].clientRef});
      assert files == [files[0]] + files[1..];
      if FileErrors(files, seen).None? {
        forall i, j | 0 <= i < j < |files|
          ensures files[i].clientRef != files[j].clientRef
        {
          assert files[j] == files[1..][j - 1];
          if i > 0 { assert files[i] == files[1..][i - 1]; }
        }
      }
    }
  }

  /** The first file at fault and the error it causes; a repeated reference is at fault where it recurs. */
  ghost predicate FirstFileFault(files: seq<File>, seen: set<string>, i: nat, e: Error) {
    && i < |files| && FileErrors(files[..i], seen).None?
    && var f := files[i];
       var recurs := f.clientRef in seen || exists j :: 0 <= j < i && files[j].clientRef == f.clientRef;
    && (!Token(f.clientRef, 128) || recurs || !ContentTypeOk(f.contentType))
    && e == (if !Token(f.clientRef, 128) || recurs then InvalidClientRef else InvalidContentType)
  }

  lemma {:induction false} FileErrorNamed(files: seq<File>, seen: set<string>) returns (i: nat)
    requires FileErrors(files, seen).Some?
    ensures FirstFileFault(files, seen, i, FileErrors(files, seen).value)
    decreases files
  {
    var f, rest, more := files[0], files[1..], seen + {files[0].clientRef};
    if Token(f.clientRef, 128) && f.clientRef !in seen && ContentTypeOk(f.contentType) {
      var k := FileErrorNamed(rest, more);
      i := k + 1;
      assert files[..i][0] == f && files[..i][1..] == rest[..k] && files[i] == rest[k];
      assert forall j :: 0 <= j < k ==> rest[j] == files[j + 1];
      var e := FileErrors(files, seen).value;
      var recurs := files[i].clientRef in seen || exists j :: 0 <= j < i && files[j].clientRef == files[i].clientRef;
      var before := files[i].clientRef in more || exists j :: 0 <= j < k && rest[j].clientRef == files[i].clientRef;
      if recurs && files[i].clientRef !in more {
        var j :| 0 <= j < i && files[j].clientRef == files[i].clientRef;
        assert rest[j - 1].clientRef == files[i].clientRef;
      }
      if before && files[i].clientRef in more && files[i].clientRef !in seen {
        assert files[0].clientRef == files[i].clientRef;
      }
      if before && files[i].clientRef !in more {
        var j :| 0 <= j < k && rest[j].clientRef == files[i].clientRef;
        assert files[j + 1].clientRef == files[i].clientRef;
      }
    } else {
      i := 0;
      assert files[..0] == [];
    }
  }

  function Candidates(files: seq<File>): seq<Candidate> {
    seq(|files|, i requires 0 <= i < |files| => files[i].Candidate())
  }

  /** Every check before the first provider call passes. */
  ghost predicate Proceeds(policy: Policy, capacityValid: bool, request: Request, script: Script) {
    && ObjectKeys.TenantValid(request.tenant) && FileErrors(request.files, {}).None?
    && Admissible(policy, Candidates(request.files)) && capacityValid && script.preflight == Some(true)
  }

  /** The first provider call that does not answer opened a session and lost its answer. */
  ghost predicate LosesSession(policy: Policy, request: Request, script: Script) {
    exists i: nat :: i < |request.files| && FailsAt(script, i) && script.call(i).AnswerLost?
                     && TransferFor(policy, request.files[i].Candidate()).Multipart?
  }

  // ----- Sessions -----

  function SessionsOf(rs: seq<Reservation>): set<nat> {
    set r | r in rs && r.session.Some? :: r.session.value
  }

  function Opened(session: Option<nat>): set<nat> {
    if session.Some? then {session.value} else {}
  }

  lemma SessionsAppend(rs: seq<Reservation>, r: Reservation)
    ensures SessionsOf(rs + [r]) == SessionsOf(rs) + Opened(r.session)
  {
    forall s | s in SessionsOf(rs) || (r.session.Some? && s == r.session.value)
      ensures s in SessionsOf(rs + [r])
    {
      if s in SessionsOf(rs) {
        var q :| q in rs && q.session == Some(s);
        assert q in rs + [r];
      } else {
        assert r in rs + [r];
      }
    }
    assert forall q :: q in rs + [r] <==> q in rs || q == r;
  }

  /** Reservation and answer for one file, in step with the request. */
  predicate Matches(policy: Policy, tenant: string, ids: nat -> string, f: File, i: nat, r: Reservation, o: Intent) {
    && r.uploadId == o.uploadId == ids(i) && r.key == ObjectKeys.RawKey(tenant, ids(i))
    && r.kind == f.kind && r.bytes == f.length && r.contentType == f.contentType && o.clientRef == f.clientRef
    && r.transfer == o.transfer == TransferFor(policy, f.Candidate())
    && (r.session.Some? <==> r.transfer.Multipart?) && (o.presigned <==> r.transfer.SinglePut?)
  }

  ghost predicate Aligned(policy: Policy, request: Request, ids: nat -> string, rs: seq<Reservation>, os: seq<Intent>) {
    && |rs| == |os| <= |request.files|
    && forall i :: 0 <= i < |rs| ==> Matches(policy, request.tenant, ids, request.files[i], i, rs[i], os[i])
  }

  lemma NothingReserved(policy: Policy, request: Request, ids: nat -> string)
    ensures Aligned(policy, request, ids, [], []) && SessionsOf([]) == {}
  {
  }

  lemma AlignedLength(policy: Policy, request: Request, ids: nat -> string, rs: seq<Reservation>, os: seq<Intent>)
    requires Aligned(policy, request, ids, rs, os)
    ensures |rs| == |os|
  {
  }

  lemma AlignedStep(policy: Policy, request: Request, ids: nat -> string, rs: seq<Reservation>, os: seq<Intent>,
                    r: Reservation, o: Intent)
    requires Aligned(policy, request, ids, rs, os) && |rs| < |request.files|
    requires Matches(policy, request.tenant, ids, request.files[|rs|], |rs|, r, o)
    ensures Aligned(policy, request, ids, rs + [r], os + [o])
  {
  }

  lemma RawKeyValid(tenant: string, id: string)
    requires ObjectKeys.TenantValid(tenant) && ObjectKeys.UploadIdText(id)
    ensures ObjectKeys.Valid(ObjectKeys.RawKey(tenant, id))
  {
    ObjectKeys.RawPartsClean(tenant, id);
    ObjectKeys.PathValid(ObjectKeys.RawParts(tenant, id));
  }

  /** Every abort of a rollback answered, and the sessions whose abort had no effect. */
  ghost predicate AllAborted(script: Script, sessions: set<nat>) { forall s :: s in sessions ==> script.abort(s).Done? }

  ghost function Refusing(script: Script, sessions: set<nat>): set<nat> {
    set s | s in sessions && script.abort(s).Refused?
  }

  lemma NothingRefused(script: Script)
    ensures Refusing(script, {}) == {} && AllAborted(script, {})
  {
  }

  class Service {
    const policy: Policy
    const capacityValid: bool
    /** Provider sessions still open; identifiers below `next` have been used. */
    var open: set<nat>
    var next: nat
    var saved: seq<seq<Reservation>>

    constructor (policy: Policy, capacityValid: bool)
      ensures this.policy == policy && this.capacityValid == capacityValid
      ensures open == {} && saved == [] && Valid()
    {
      this.policy, this.capacityValid := policy, capacityValid;
      open, next, saved := {}, 0, [];
    }

    ghost predicate Valid()
      reads this
    {
      forall s :: s in open ==> s < next
    }

    /** Opens a session unless refused; when the answer is lost the caller never learns its identifier. */
    method CreateMultipart(answer: Answer) returns (session: Option<nat>)
      requires Valid()
      modifies this`open, this`next
      ensures Valid() && next == old(next) + 1
      ensures open == if answer.Refused? then old(open) else old(open) + {old(next)}
      ensures session == if answer.Done? then Some(old(next)) else None
    {
      session := if answer.Done? then Some(next) else None;
      if !answer.Refused? { open := open + {next}; }
      next := next + 1;
    }

    /** `cleanup`: tries to abort every session it knows and reports whether all aborts answered. */
    method Cleanup(rs: seq<Reservation>, abort: nat -> Answer) returns (allAborted: bool)
      requires Valid()
      modifies this`open
      ensures Valid()
      ensures open == old(open) - (set s | s in SessionsOf(rs) && !abort(s).Refused?)
      ensures allAborted <==> forall s :: s in SessionsOf(rs) ==> abort(s).Done?
    {
      allAborted := true;
      var i := 0;
      while i < |rs|
        invariant 0 <= i <= |rs| && Valid()
        invariant open == old(open) - (set s | s in SessionsOf(rs[..i]) && !abort(s).Refused?)
        invariant allAborted <==> forall s :: s in SessionsOf(rs[..i]) ==> abort(s).Done?
      {
        assert rs[..i + 1] == rs[..i] + [rs[i]];
        SessionsAppend(rs[..i], rs[i]);
        if rs[i].session.Some? {
          var s := rs[i].session.value;
          if !abort(s).Refused? { open := open - {s}; }
          if !abort(s).Done? { allAborted := false; }
        }
        i := i + 1;
      }
      assert rs[..i] == rs;
    }

    /** The validated raw key; a valid tenant and upload identifier never fail. */
    method NewKey(tenant: string, id: string) returns (key: Option<string>)
      requires ObjectKeys.TenantValid(tenant) && ObjectKeys.UploadIdText(id)
      ensures key == Some(ObjectKeys.RawKey(tenant, id))
    {
      var text := ObjectKeys.RawKey(tenant, id);
      RawKeyValid(tenant, id);
      key := if ObjectKeys.Valid(text) then Some(text) else None;
    }

    /** The provider call for one file: a local signature, or a new session. */
    method CallFor(transfer: Transfer, answer: Answer) returns (ok: bool, session: Option<nat>, ghost lost: Option<nat>)
      requires Valid()
      modifies this`open, this`next
      ensures Valid() && next >= old(next) && (ok <==> answer.Done?)
      ensures lost == if transfer.Multipart? && answer.AnswerLost? then Some(old(next)) else None
      ensures session == if transfer.Multipart? && answer.Done? then Some(old(next)) else None
      ensures open == old(open) + Opened(lost) + Opened(session)
      ensures session.Some? ==> session.value < next
    {
      session, lost := None, None;
      if transfer.Multipart? {
        if answer.AnswerLost? { lost := Some(next); }
        session := CreateMultipart(answer);
      }
      ok := answer.Done?;
    }

    /** `cleanup_or_error` after a failed call. */
    method Abandon(rs: seq<Reservation>, script: Script, ghost before: set<nat>, ghost lost: Option<nat>)
      returns (error: Error)
      requires Valid() && open == before + SessionsOf(rs) + Opened(lost)
      requires SessionsOf(rs) !! (before + Opened(lost))
      modifies this`open
      ensures Valid() && error == (if AllAborted(script, SessionsOf(rs)) then ObjectStore else CleanupRequired)
      ensures open == before + Opened(lost) + Refusing(script, SessionsOf(rs))
    {
      var aborted := Cleanup(rs, script.abort);
      error := if aborted then ObjectStore else CleanupRequired;
    }

    /** One file: its key, its provider call, and the rollback of the earlier files if the call fails. */
    method ReserveOne(request: Request, i: nat, transfer: Transfer, ids: nat -> string, script: Script,
                      earlier: seq<Reservation>, ghost before: set<nat>)
      returns (r: Result<(Reservation, Intent), Error>, ghost lost: Option<nat>)
      requires Valid() && ObjectKeys.TenantValid(request.tenant) && ObjectKeys.UploadIdText(ids(i))
      requires i < |request.files| && transfer == TransferFor(policy, request.files[i].Candidate())
      requires open == before + SessionsOf(earlier) && SessionsOf(earlier) !! before
      modifies this`open, this`next
      ensures Valid() && next >= old(next)
      ensures r.Ok? <==> script.call(i).Done?
      ensures lost.Some? <==> transfer.Multipart? && script.call(i).AnswerLost?
      ensures lost.Some? ==> old(next) <= lost.value
      ensures r.Ok? ==> && Matches(policy, request.tenant, ids, request.files[i], i, r.value.0, r.value.1)
                        && open == old(open) + Opened(r.value.0.session) && Opened(r.value.0.session) !! old(open)
      ensures r.Err? ==> && open == before + Opened(lost) + Refusing(script, SessionsOf(earlier))
                         && r == Err(if AllAborted(script, SessionsOf(earlier)) then ObjectStore else CleanupRequired)
    {
      hide SessionsOf, AllAborted, Refusing, ObjectKeys.Valid, Token;
      lost := None;
      var file := request.files[i];
      var key := NewKey(request.tenant, ids(i));
      if key.None? {
        return Err(GeneratedObjectKey), lost;
      }
      var ok, session;
      ok, session, lost := CallFor(transfer, script.call(i));
      if !ok {
        var error := Abandon(earlier, script, before, lost);
        return Err(error), lost;
      }
      var reservation := Reservation(ids(i), key.value, file.kind, file.length, file.contentType, transfer, session);
      r := Ok((reservation, Intent(file.clientRef, ids(i), transfer, transfer.SinglePut?)));
    }

    /** The file loop: opens sessions in request order and rolls back at the first failure. */
    method Reserve(request: Request, transfers: seq<Transfer>, ids: nat -> string, script: Script)
      returns (r: Result<(seq<Reservation>, seq<Intent>), Error>, ghost lost: Option<nat>, ghost known: set<nat>)
      requires Valid() && ObjectKeys.TenantValid(request.tenant) && forall i :: ObjectKeys.UploadIdText(ids(i))
      requires |transfers| == |request.files|
      requires forall i :: 0 <= i < |transfers| ==> transfers[i] == TransferFor(policy, request.files[i].Candidate())
      modifies this`open, this`next
      ensures Valid() && next >= old(next)
      ensures r.Ok? ==> && |r.value.0| == |request.files| && Aligned(policy, request, ids, r.value.0, r.value.1)
                        && known == SessionsOf(r.value.0) && open == old(open) + known
      ensures r.Ok? <==> forall i: nat :: i < |request.files| ==> script.call(i).Done?
      ensures lost.Some? <==> LosesSession(policy, request, script)
      ensures r.Ok? ==> lost.None?
      ensures known !! old(open) && (lost.Some? ==> old(next) <= lost.value)
      ensures r.Err? ==> && open == old(open) + Opened(lost) + Refusing(script, known)
                         && r == Err(if AllAborted(script, known) then ObjectStore else CleanupRequired)
    {
      hide Matches, Aligned, SessionsOf, AllAborted, Refusing, LosesSession, FailsAt, Token;
      NothingReserved(policy, request, ids);
      lost, known := None, {};
      var reservations: seq<Reservation> := [];
      var outputs: seq<Intent> := [];
      var i := 0;
      while i < |request.files|
        invariant 0 <= i <= |request.files| && |reservations| == i && Valid() && next >= old(next) && lost.None?
        invariant forall j: nat :: j < i ==> script.call(j).Done?
        invariant Aligned(policy, request, ids, reservations, outputs)
        invariant open == old(open) + SessionsOf(reservations) && SessionsOf(reservations) !! old(open)
      {
        assert ObjectKeys.UploadIdText(ids(i));
        var one;
        one, lost := ReserveOne(request, i, transfers[i], ids, script, reservations, old(open));
        if one.Err? {
          FirstFailure(policy, request, script, i);
          return Err(one.error), lost, SessionsOf(reservations);
        }
        var (reservation, output) := one.value;
        AlignedStep(policy, request, ids, reservations, outputs, reservation, output);
        SessionsAppend(reservations, reservation);
        reservations := reservations + [reservation];
        outputs := outputs + [output];
        i := i + 1;
      }
      NothingLost(policy, request, script);
      return Ok((reservations, outputs)), None, SessionsOf(reservations);
    }

    /**
     * `create_batch`: the answer for every request and every pattern of failures. On success every
     * session it opened is in the saved batch; on failure exactly those whose abort is refused stay
     * open, and cleanup is reported due exactly when some abort does not answer. One session can be
     * left open without a word: exactly when the first provider call that does not answer has opened
     * it.
     */
    method Create(request: Request, ids: nat -> string, script: Script)
      returns (r: Result<seq<Intent>, Error>, ghost lost: Option<nat>, ghost known: set<nat>)
      requires Valid() && policy.Machine() && forall i :: ObjectKeys.UploadIdText(ids(i))
      requires forall i :: 0 <= i < |request.files| ==> request.files[i].length <= U64_MAX
      modifies this
      ensures Valid() && known !! old(open) && (lost.Some? ==> old(next) <= lost.value)
      ensures r.Ok? ==>
                && |saved| == |old(saved)| + 1 && saved[..|old(saved)|] == old(saved)
                && var batch := saved[|old(saved)|];
                   |batch| == |request.files| && Aligned(policy, request, ids, batch, r.value)
                   && known == SessionsOf(batch)
      ensures open == old(open) + Opened(lost) + (if r.Ok? then known else Refusing(script, known))
      ensures r.Err? && script.save != CommitAnswerLost ==> saved == old(saved)
      ensures r.Err? ==> old(saved) <= saved && |saved| <= |old(saved)| + 1
      ensures lost.Some? <==> Proceeds(policy, capacityValid, request, script) && LosesSession(policy, request, script)
      ensures var answered := forall i: nat :: i < |request.files| ==> script.call(i).Done?;
              if !Token(request.tenant, 64) then r == Err(InvalidTenant)
              else if FileErrors(request.files, {}).Some? then
                exists i: nat :: r.Err? && FirstFileFault(request.files, {}, i, r.error)
              else if !Admissible(policy, Candidates(request.files)) then
                r.Err? && r.error.Planning? && PlanFault(policy, Candidates(request.files), r.error.reason)
              else if !capacityValid then r == Err(Backpressure)
              else if script.preflight.None? then r == Err(Repository)
              else if !script.preflight.value then r == Err(Backpressure)
              else if answered && script.save == Saved then r.Ok?
              else if !AllAborted(script, known) then r == Err(CleanupRequired)
              else if !answered then r == Err(ObjectStore)
              else r == Err(if script.save == CapacityExhausted then Backpressure else Repository)
    {
      hide FileErrors, FirstFileFault, Admissible, PlanFault, Aligned, SessionsOf, LosesSession, Token,
        AllAborted, Refusing;
      NothingRefused(script);
      lost, known := None, {};
      if !ObjectKeys.TenantValid(request.tenant) {
        return Err(InvalidTenant), None, {};
      }
      var invalid := FileErrors(request.files, {});
      if invalid.Some? {
        ghost var i := FileErrorNamed(request.files, {});
        return Err(invalid.value), None, {};
      }
      var planned := Plan(policy, Candidates(request.files));
      if planned.Err? {
        return Err(Planning(planned.error)), None, {};
      }
      if !capacityValid {
        return Err(Backpressure), None, {};
      }
      if script.preflight != Some(true) {
        return Err(if script.preflight.None? then Repository else Backpressure), None, {};
      }
      var reserved;
      reserved, lost, known := Reserve(request, planned.value, ids, script);
      if reserved.Err? {
        return Err(reserved.error), lost, known;
      }
      var (batch, outputs) := reserved.value;
      var error := Save(batch, script, old(open));
      return if error.Some? then Err(error.value) else Ok(outputs), None, known;
    }

    /** The saving transaction, and the rollback if it fails; a lost commit answer is a failure too. */
    method Save(batch: seq<Reservation>, script: Script, ghost before: set<nat>) returns (error: Option<Error>)
      requires Valid() && open == before + SessionsOf(batch) && SessionsOf(batch) !! before
      modifies this`open, this`saved
      ensures Valid()
      ensures saved == if script.save in {Saved, CommitAnswerLost} then old(saved) + [batch] else old(saved)
      ensures open == before + (if script.save == Saved then SessionsOf(batch) else Refusing(script, SessionsOf(batch)))
      ensures error == if script.save == Saved then None
                       else if !AllAborted(script, SessionsOf(batch)) then Some(CleanupRequired)
                       else Some(if script.save == CapacityExhausted then Backpressure else Repository)
    {
      if script.save in {Saved, CommitAnswerLost} { saved := saved + [batch]; }
      if script.save == Saved {
        return None;
      }
      var aborted := Cleanup(batch, script.abort);
      error := Some(if !aborted then CleanupRequired
                    else if script.save == CapacityExhausted then Backpressure else Repository);
    }
  }

  lemma FirstFailure(policy: Policy, request: Request, script: Script, i: nat)
    requires i < |request.files| && !script.call(i).Done? && forall j: nat :: j < i ==> script.call(j).Done?
    ensures LosesSession(policy, request, script) <==>
              script.call(i).AnswerLost? && TransferFor(policy, request.files[i].Candidate()).Multipart?
  {
    forall j: nat
      ensures FailsAt(script, j) <==> j == i
    {
      assert j < i ==> script.call(j).Done?;
      assert i < j && FailsAt(script, j) ==> script.call(i).Done?;
    }
  }

  lemma NothingLost(policy: Policy, request: Request, script: Script)
    requires forall i: nat :: i < |request.files| ==> script.call(i).Done?
    ensures !LosesSession(policy, request, script)
  {
    forall i: nat | i < |request.files|
      ensures !FailsAt(script, i)
    {
      assert script.call(i).Done?;
    }
  }

  /** One video under the default policy: its session is opened, the answer is lost, and nobody knows. */
  lemma LostSessionRequest() returns (request: Request, script: Script)
    ensures Proceeds(DEFAULT_POLICY, true, request, script) && LosesSession(DEFAULT_POLICY, request, script)
  {
    var clip := File("clip", Video, 1_000_000, "video/mp4");
    request := Request("site-a", [clip]);
    script := Script(Some(true), i => AnswerLost, i => Done, Saved);
    FilesAcceptedExactly(request.files, {});
    assert Candidates(request.files) == [clip.Candidate()];
    assert TotalBytes([clip.Candidate()]) == 1_000_000 + TotalBytes([]);
    assert FailsAt(script, 0);
  }
}
