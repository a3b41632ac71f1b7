/**
 * The life of one reservation up to quarantine: signed parts, completion, confirmation and abort,
 * requested any number of times, interleaved, and cut short at any point.
 */
module UploadControl {
  import opened Basics
  import opened Domain
  import opened Multipart

  /** What the repository holds; `session` is missing only for a single PUT. */
  datatype Row = Row(state: UploadState, total: nat, transfer: Transfer, session: Option<nat>) {
    predicate Planned() {
      && 0 < total <= U64_MAX
      && (transfer.Multipart? ==> MIN_PART_SIZE <= transfer.partSize && session.Some?)
    }
  }

  /**
   * The provider keeps signed lengths: a part or an object is stored only at a length that was
   * signed. `parts` are the parts received, `source` the length of the source object if it exists.
   */
  datatype Provider = Provider(open: bool, signed: set<(nat, nat)>, parts: map<nat, nat>, source: Option<nat>)

  datatype Error = InvalidState | InvalidPart | InvalidCompletion | ObjectStore | StoredSizeMismatch | Repository

  predicate Confirmed(s: UploadState) { s.Uploaded? || s.Quarantined? || s.Processing? || s.Ready? }

  // ----- Requests run alone -----

  /** `presign_part` up to the signature. */
  function SignPart(row: Row, number: nat, length: nat): Result<(), Error> {
    if !row.transfer.Multipart? || row.session.None? then Err(InvalidState)
    else if row.state != Created then Err(InvalidState)
    else if ExpectedPartLength(row.total, row.transfer.partSize, number) != Some(length) then Err(InvalidPart)
    else Ok(())
  }

  /** Sum of the received lengths of the listed parts, in order. */
  function Assembled(parts: map<nat, nat>, list: seq<Part>): nat
    requires forall i :: 0 <= i < |list| ==> list[i].number in parts
    decreases |list|
  {
    if list == [] then 0 else Assembled(parts, list[..|list| - 1]) + parts[list[|list| - 1].number]
  }

  /** The provider joins the listed parts only while the session is open and all of them arrived. */
  predicate CanAssemble(p: Provider, list: seq<Part>) {
    p.open && forall i :: 0 <= i < |list| ==> list[i].number in p.parts
  }

  function AfterAssembly(p: Provider, list: seq<Part>): Provider
    requires CanAssemble(p, list)
  {
    p.(open := false, source := Some(Assembled(p.parts, list)))
  }

  /** Every part the provider holds has the one length its number may have. */
  ghost predicate Exact(row: Row, p: Provider) {
    && (forall x :: x in p.signed ==>
          row.transfer.Multipart? && ExpectedPartLength(row.total, row.transfer.partSize, x.0) == Some(x.1))
    && (forall n :: n in p.parts ==> (n, p.parts[n]) in p.signed)
    && (p.source.Some? ==> p.source.value == row.total)
  }

  /** A list of exactly the parts `1..n` adds up to the lengths of those parts. */
  lemma {:induction false} AssembledIsLengths(row: Row, p: Provider, list: seq<Part>)
    requires Exact(row, p) && row.transfer.Multipart?
    requires forall i :: 0 <= i < |list| ==> list[i].number == i + 1 && list[i].number in p.parts
    ensures Assembled(p.parts, list) == Sum(Lengths(row.total, row.transfer.partSize, |list|))
    decreases |list|
  {
    if list != [] {
      var n := |list|;
      AssembledIsLengths(row, p, list[..n - 1]);
      SumAppend(Lengths(row.total, row.transfer.partSize, n - 1), [LengthOf(row.total, row.transfer.partSize, n)]);
      assert list[n - 1].number == n && (n, p.parts[n]) in p.signed;
      assert Sum([p.parts[n]]) == p.parts[n];
    }
  }

  /** End to end: an accepted completion of received parts rebuilds exactly the reserved bytes. */
  lemma AssemblyIsExact(row: Row, p: Provider, list: seq<Part>)
    requires row.Planned() && row.transfer.Multipart? && Exact(row, p)
    requires ValidateCompletion(row.total, row.transfer.partSize, list) && CanAssemble(p, list)
    ensures AfterAssembly(p, list).source == Some(row.total) && Exact(row, AfterAssembly(p, list))
  {
    AssembledIsLengths(row, p, list);
    FitsPartCount(row.total, row.transfer.partSize);
    PartsTileTheFile(row.total, row.transfer.partSize);
  }

  class Service {
    var row: Row
    var provider: Provider

    constructor (total: nat, transfer: Transfer, session: Option<nat>)
      requires Row(Created, total, transfer, session).Planned()
      ensures row == Row(Created, total, transfer, session) && Valid()
      ensures provider == Provider(transfer.Multipart?, {}, map[], None)
    {
      row := Row(Created, total, transfer, session);
      provider := Provider(transfer.Multipart?, {}, map[], None);
    }

    ghost predicate Valid()
      reads this
    {
      row.Planned() && Exact(row, provider)
    }

    /** `answers` says whether the metadata request itself answers. */
    method VerifyStoredSize(answers: bool) returns (r: Result<(), Error>)
      ensures r == if !answers || provider.source.None? then Err(ObjectStore)
                   else if provider.source.value == row.total then Ok(()) else Err(StoredSizeMismatch)
    {
      if !answers || provider.source.None? {
        return Err(ObjectStore);
      }
      if provider.source.value != row.total {
        return Err(StoredSizeMismatch);
      }
      return Ok(());
    }

    method PresignPart(number: nat, length: nat) returns (r: Result<(), Error>)
      requires Valid()
      modifies this`provider
      ensures Valid() && r == SignPart(row, number, length)
      ensures var writable := row.transfer.Multipart? && row.state == Created;
              && (!writable <==> r == Err(InvalidState)) && (r.Err? && writable ==> r == Err(InvalidPart))
              && (writable ==>
                    var size := row.transfer.partSize;
                    (r.Ok? <==> && 1 <= number <= 10_000 && (number - 1) * size < row.total
                                && length == Min(row.total - (number - 1) * size, size)))
      ensures provider == if r.Ok? then old(provider).(signed := old(provider).signed + {(number, length)})
                          else old(provider)
    {
      r := SignPart(row, number, length);
      if row.transfer.Multipart? { CheckedStartIsExact(row.total, row.transfer.partSize, number); }
      if r.Ok? { provider := provider.(signed := provider.signed + {(number, length)}); }
    }

    /**
     * `complete_multipart`: `joined` is the provider's answer to the completion, `heads` and `commits`
     * say whether the metadata request and the database answer.
     */
    method CompleteMultipart(list: seq<Part>, joined: Answer, heads: bool, commits: bool) returns (r: Result<(), Error>)
      requires Valid()
      modifies this
      ensures Valid() && r != Err(StoredSizeMismatch)
      ensures var row, provider := old(row), old(provider);
              var repeated := row.state in {Uploaded, Quarantined, Processing, Ready};
              var received := provider.open && forall part :: part in list ==> part.number in provider.parts;
              if !row.transfer.Multipart? || (!repeated && row.state != Created) then r == Err(InvalidState)
              else if repeated then r == if heads && provider.source.Some? then Ok(()) else Err(ObjectStore)
              else if !ValidateCompletion(row.total, row.transfer.partSize, list) then r == Err(InvalidCompletion)
              else if !received || !joined.Done? || !heads then r == Err(ObjectStore)
              else r == if commits then Ok(()) else Err(Repository)
      ensures var possible := && old(row).transfer.Multipart? && old(row).state == Created
                              && ValidateCompletion(old(row).total, old(row).transfer.partSize, list)
                              && CanAssemble(old(provider), list);
              && provider == (if possible && !joined.Refused? then AfterAssembly(old(provider), list)
                              else old(provider))
              && row == (if r.Ok? && possible then old(row).(state := Quarantined) else old(row))
      ensures r.Ok? ==> row.state in {Uploaded, Quarantined, Processing, Ready} && provider.source == Some(row.total)
    {
      if !row.transfer.Multipart? || row.session.None? {
        return Err(InvalidState);
      }
      if Confirmed(row.state) {
        r := VerifyStoredSize(heads);
        return;
      }
      if row.state != Created {
        return Err(InvalidState);
      }
      if !ValidateCompletion(row.total, row.transfer.partSize, list) {
        return Err(InvalidCompletion);
      }
      if joined.Refused? || !provider.open || exists i :: 0 <= i < |list| && list[i].number !in provider.parts {
        return Err(ObjectStore);
      }
      AssemblyIsExact(row, provider, list);
      provider := AfterAssembly(provider, list);
      if joined.AnswerLost? {
        return Err(ObjectStore);
      }
      r := VerifyStoredSize(heads);
      if r.Err? {
        return;
      }
      if !commits {
        return Err(Repository);
      }
      row := row.(state := Quarantined);
    }

    /** `confirm_single_upload`. */
    method ConfirmSingle(heads: bool, commits: bool) returns (r: Result<(), Error>)
      requires Valid()
      modifies this`row
      ensures Valid() && r != Err(StoredSizeMismatch)
      ensures var repeated := old(row).state in {Uploaded, Quarantined, Processing, Ready};
              if !old(row).transfer.SinglePut? || (!repeated && old(row).state != Created) then r == Err(InvalidState)
              else if !heads || provider.source.None? then r == Err(ObjectStore)
              else r == if repeated || commits then Ok(()) else Err(Repository)
      ensures row == if r.Ok? && old(row).state == Created then old(row).(state := Quarantined) else old(row)
    {
      if !row.transfer.SinglePut? {
        return Err(InvalidState);
      }
      if Confirmed(row.state) {
        r := VerifyStoredSize(heads);
        return;
      }
      if row.state != Created {
        return Err(InvalidState);
      }
      r := VerifyStoredSize(heads);
      if r.Err? {
        return;
      }
      if !commits {
        return Err(Repository);
      }
      row := row.(state := Quarantined);
    }

    /** `abort_multipart`: closes the session before the tombstone. */
    method AbortMultipart(answer: Answer, commits: bool) returns (r: Result<(), Error>)
      requires Valid()
      modifies this
      ensures Valid()
      ensures var aborts := old(row).transfer.Multipart? && old(row).state == Created;
              && r == (if old(row).transfer.Multipart? && old(row).state == Deleted then Ok(())
                       else if !aborts then Err(InvalidState)
                       else if !answer.Done? then Err(ObjectStore)
                       else if !commits then Err(Repository) else Ok(()))
              && provider == (if aborts && !answer.Refused? then old(provider).(open := false) else old(provider))
              && row == (if aborts && r.Ok? then old(row).(state := Deleted) else old(row))
      ensures row.state == Deleted && old(row).state != Deleted ==> old(row).state == Created && !provider.open
    {
      if !row.transfer.Multipart? || row.session.None? {
        return Err(InvalidState);
      }
      if row.state == Deleted {
        return Ok(());
      }
      if row.state != Created {
        return Err(InvalidState);
      }
      if !answer.Refused? { provider := provider.(open := false); }
      if !answer.Done? {
        return Err(ObjectStore);
      }
      if !commits {
        return Err(Repository);
      }
      row := row.(state := Deleted);
      return Ok(());
    }
  }

  // ----- Requests interleaved -----

  /** How far one completion, confirmation or abort has come; each arrow is a separate call. */
  datatype Progress = CheckedCompletion(list: seq<Part>) | Joined | CheckedSingle | Verified | CheckedAbort | Aborted

  /**
   * `signed` says that the URL signed for a single PUT, which is given out once, has not expired.
   * `seen` is history: a request has observed the object at exactly the reserved length.
   */
  datatype State = State(row: Row, provider: Provider, requests: map<nat, Progress>, signed: bool, seen: bool)

  datatype Step =
    | Sign(number: nat, length: nat)
    | UploadPart(number: nat, length: nat)
    | Put
    | BeginCompletion(id: nat, list: seq<Part>)
    | Assemble(id: nat)
    | BeginSingle(id: nat)
    | Verify(id: nat)
    | Mark(id: nat)
    | BeginAbort(id: nat)
    | AbortSession(id: nat)
    | Tombstone(id: nat)
    | ExpireSignature
    | CleanSession
    | RemoveObject
    | CleanTombstone
    | Drop(id: nat)

  function Go(s: State, id: nat, p: Progress): State { s.(requests := s.requests[id := p]) }

  predicate At(s: State, id: nat, p: Progress) { id in s.requests && s.requests[id] == p }

  function Apply(s: State, step: Step): State {
    match step
    case Sign(number, length) =>
      if SignPart(s.row, number, length).Ok? then
        s.(provider := s.provider.(signed := s.provider.signed + {(number, length)}))
      else s
    case UploadPart(number, length) =>
      if s.provider.open && (number, length) in s.provider.signed then
        s.(provider := s.provider.(parts := s.provider.parts[number := length]))
      else s
    case Put =>
      if s.row.transfer.SinglePut? && s.signed then s.(provider := s.provider.(source := Some(s.row.total))) else s
    case BeginCompletion(id, list) =>
      if id !in s.requests && s.row.transfer.Multipart? && s.row.session.Some? && s.row.state == Created
         && ValidateCompletion(s.row.total, s.row.transfer.partSize, list) then
        Go(s, id, CheckedCompletion(list))
      else s
    case Assemble(id) =>
      if id in s.requests && s.requests[id].CheckedCompletion? && CanAssemble(s.provider, s.requests[id].list) then
        Go(s.(provider := AfterAssembly(s.provider, s.requests[id].list)), id, Joined)
      else s
    case BeginSingle(id) =>
      if id !in s.requests && s.row.transfer.SinglePut? && s.row.state == Created then Go(s, id, CheckedSingle) else s
    case Verify(id) =>
      if (At(s, id, Joined) || At(s, id, CheckedSingle)) && s.provider.source == Some(s.row.total) then
        Go(s, id, Verified).(seen := true)
      else s
    case Mark(id) =>
      if At(s, id, Verified) then
        (if s.row.state == Created then s.(row := s.row.(state := Quarantined)) else s).(requests := s.requests - {id})
      else s
    case BeginAbort(id) =>
      if id !in s.requests && s.row.transfer.Multipart? && s.row.session.Some? && s.row.state == Created then
        Go(s, id, CheckedAbort)
      else s
    case AbortSession(id) =>
      if At(s, id, CheckedAbort) then Go(s.(provider := s.provider.(open := false)), id, Aborted) else s
    case Tombstone(id) =>
      if At(s, id, Aborted) then
        (if s.row.state == Created then s.(row := s.row.(state := Deleted)) else s).(requests := s.requests - {id})
      else s
    case ExpireSignature => s.(signed := false)
    case CleanSession => s.(provider := s.provider.(open := false))
    case RemoveObject => s.(provider := s.provider.(source := None))
    case CleanTombstone => s.(row := s.row.(state := Deleted))
    case Drop(id) => s.(requests := s.requests - {id})
  }

  function Run(s: State, steps: seq<Step>): State
    decreases steps
  {
    if steps == [] then s else Run(Apply(s, steps[0]), steps[1..])
  }

  ghost predicate Reserved(s: State) {
    && s.row.Planned() && s.row.state == Created
    && s.provider == Provider(s.row.transfer.Multipart?, {}, map[], None) && s.requests == map[] && s.signed && !s.seen
  }

  ghost predicate Inv(s: State) {
    && s.row.Planned() && Exact(s.row, s.provider)
    && (forall id :: id in s.requests && s.requests[id].CheckedCompletion? ==>
          s.row.transfer.Multipart? && ValidateCompletion(s.row.total, s.row.transfer.partSize, s.requests[id].list))
    && (forall id :: id in s.requests && s.requests[id].Verified? ==> s.seen)
    && (forall id :: id in s.requests && s.requests[id].CheckedSingle? ==> s.row.transfer.SinglePut?)
    && (s.row.state == Created || s.row.state == Deleted || (s.row.state == Quarantined && s.seen))
  }

  lemma StepKeepsInv(s: State, step: Step)
    requires Inv(s)
    ensures Inv(Apply(s, step))
    ensures Apply(s, step).row == s.row.(state := Apply(s, step).row.state)
  {
    if step.Assemble? && step.id in s.requests && s.requests[step.id].CheckedCompletion?
       && CanAssemble(s.provider, s.requests[step.id].list) {
      AssemblyIsExact(s.row, s.provider, s.requests[step.id].list);
    }
  }

  lemma {:induction false} RunKeepsInv(s: State, steps: seq<Step>)
    requires Inv(s)
    ensures Inv(Run(s, steps)) && Run(s, steps).row == s.row.(state := Run(s, steps).row.state)
    decreases steps
  {
    if steps != [] {
      StepKeepsInv(s, steps[0]);
      RunKeepsInv(Apply(s, steps[0]), steps[1..]);
    }
  }

  /**
   * In every interleaving the source object, whenever it exists, has exactly the reserved length, so
   * the stored-size check never finds a mismatch, and an upload is quarantined only after a request
   * saw its object at that length.
   */
  lemma {:induction false} SourceHasReservedLength(s0: State, steps: seq<Step>)
    requires Reserved(s0)
    ensures var s := Run(s0, steps);
            && (s.provider.source.Some? ==> s.provider.source.value == s0.row.total)
            && (s.row.state == Quarantined ==> s.seen)
            && (s.row.state in {Created, Quarantined, Deleted})
  {
    RunKeepsInv(s0, steps);
  }

  // ----- Which reservations can still be confirmed -----

  /** Some completion list is accepted for this file. */
  predicate FitsLayout(row: Row) {
    row.transfer.Multipart? && row.total <= MAX_PARTS * row.transfer.partSize
  }

  /** A request only has to commit, or to see the object it has joined. */
  ghost predicate NearlyConfirmed(s: State) {
    exists id :: id in s.requests && (s.requests[id].Verified? || (s.requests[id].Joined? && s.provider.source.Some?))
  }

  /** The object of a single PUT is there, or can still be put. */
  predicate SingleReachable(s: State) {
    s.row.transfer.SinglePut? && (s.signed || s.provider.source.Some?)
  }

  ghost predicate Confirmable(s: State) {
    SingleReachable(s) || (s.provider.open && FitsLayout(s.row)) || NearlyConfirmed(s)
  }

  ghost predicate CanConfirm(s: State) {
    exists steps :: Run(s, steps).row.state == Quarantined
  }

  lemma RunCons(s: State, step: Step, rest: seq<Step>)
    ensures Run(s, [step] + rest) == Run(Apply(s, step), rest)
  {
    assert ([step] + rest)[1..] == rest;
  }

  lemma RunOne(s: State, step: Step)
    ensures Run(s, [step]) == Apply(s, step)
  {
    RunCons(s, step, []);
    assert [step] + [] == [step];
  }

  lemma {:induction false} RunAppend(s: State, a: seq<Step>, b: seq<Step>)
    ensures Run(s, a + b) == Run(Run(s, a), b)
    decreases a
  {
    if a == [] {
      assert a + b == b;
    } else {
      assert (a + b)[1..] == a[1..] + b;
      RunAppend(Apply(s, a[0]), a[1..], b);
    }
  }

  /** Accepted lists exist only for files that fit the layout. */
  lemma ValidatedFits(row: Row, list: seq<Part>)
    requires row.Planned() && row.transfer.Multipart? && ValidateCompletion(row.total, row.transfer.partSize, list)
    ensures FitsLayout(row)
  {
    CompletableExactly(row.total, row.transfer.partSize);
  }

  /** A reservation that is not confirmable stays so: nothing reopens its session or brings its object back. */
  lemma StrandedStep(s: State, step: Step)
    requires Inv(s) && s.row.state != Quarantined && !Confirmable(s)
    ensures Apply(s, step).row.state != Quarantined && !Confirmable(Apply(s, step))
  {
    if step.Assemble? && step.id in s.requests && s.requests[step.id].CheckedCompletion? {
      ValidatedFits(s.row, s.requests[step.id].list);
    }
    forall id | id in s.requests
      ensures !s.requests[id].Verified? && !(s.requests[id].Joined? && s.provider.source.Some?)
    {
    }
  }

  lemma {:induction false} StrandedForever(s: State, steps: seq<Step>)
    requires Inv(s) && s.row.state != Quarantined && !Confirmable(s)
    ensures Run(s, steps).row.state != Quarantined
    decreases steps
  {
    hide Apply, Inv, Confirmable;
    if steps != [] {
      StrandedStep(s, steps[0]);
      StepKeepsInv(s, steps[0]);
      StrandedForever(Apply(s, steps[0]), steps[1..]);
    }
  }

  // ----- Confirming a reservation -----

  /** Every part up to `n` is signed and uploaded. */
  function UploadAll(row: Row, n: nat): seq<Step>
    requires row.transfer.Multipart?
  {
    if n == 0 then []
    else
      var length := LengthOf(row.total, row.transfer.partSize, n);
      UploadAll(row, n - 1) + ([Sign(n, length)] + [UploadPart(n, length)])
  }

  function FullList(n: nat): seq<Part> { seq(n, i requires 0 <= i < n => Part(i + 1, "e")) }

  ghost predicate PartsThere(p: Provider, n: nat) {
    p.open && forall k :: 1 <= k <= n ==> k in p.parts
  }

  lemma OnePartUploads(s: State, n: nat)
    requires s.row.Planned() && FitsLayout(s.row) && s.row.state == Created
    requires 1 <= n <= PartCount(s.row.total, s.row.transfer.partSize) && PartsThere(s.provider, n - 1)
    ensures var length := LengthOf(s.row.total, s.row.transfer.partSize, n);
            var s' := Run(s, [Sign(n, length)] + [UploadPart(n, length)]);
            PartsThere(s'.provider, n) && s' == s.(provider := s'.provider) && s'.provider.source == s.provider.source
  {
    var length := LengthOf(s.row.total, s.row.transfer.partSize, n);
    PresignableExactly(s.row.total, s.row.transfer.partSize, n);
    FitsPartCount(s.row.total, s.row.transfer.partSize);
    var s1 := Apply(s, Sign(n, length));
    RunCons(s, Sign(n, length), [UploadPart(n, length)]);
    RunOne(s1, UploadPart(n, length));
  }

  lemma {:induction false} AllPartsUpload(s: State, n: nat)
    requires s.row.Planned() && FitsLayout(s.row) && s.row.state == Created && s.provider.open
    requires n <= PartCount(s.row.total, s.row.transfer.partSize)
    ensures var s' := Run(s, UploadAll(s.row, n));
            PartsThere(s'.provider, n) && s' == s.(provider := s'.provider) && s'.provider.source == s.provider.source
  {
    if n > 0 {
      var length := LengthOf(s.row.total, s.row.transfer.partSize, n);
      AllPartsUpload(s, n - 1);
      RunAppend(s, UploadAll(s.row, n - 1), [Sign(n, length)] + [UploadPart(n, length)]);
      OnePartUploads(Run(s, UploadAll(s.row, n - 1)), n);
    }
  }

  /** Uploads every part and has the provider join them. */
  lemma CompletionJoins(s: State, id: nat) returns (steps: seq<Step>)
    requires Inv(s) && FitsLayout(s.row) && s.row.state == Created && s.provider.open && id !in s.requests
    ensures var s' := Run(s, steps);
            && s'.row == s.row && At(s', id, Joined) && s'.requests == s.requests[id := Joined]
            && !s'.provider.open && s'.provider.source == Some(s.row.total)
  {
    var n := PartCount(s.row.total, s.row.transfer.partSize);
    var list := FullList(n);
    var upload := UploadAll(s.row, n);
    AllPartsUpload(s, n);
    FullListAccepted(s.row);
    RunKeepsInv(s, upload);
    var s1 := Run(s, upload);
    var s2 := Apply(s1, BeginCompletion(id, list));
    steps := upload + ([BeginCompletion(id, list)] + [Assemble(id)]);
    RunAppend(s, upload, [BeginCompletion(id, list)] + [Assemble(id)]);
    RunCons(s1, BeginCompletion(id, list), [Assemble(id)]);
    RunOne(s2, Assemble(id));
    assert CanAssemble(s1.provider, list);
    AssemblyIsExact(s1.row, s1.provider, list);
  }

  lemma FullListAccepted(row: Row)
    requires row.Planned() && FitsLayout(row)
    ensures ValidateCompletion(row.total, row.transfer.partSize, FullList(PartCount(row.total, row.transfer.partSize)))
  {
    FitsPartCount(row.total, row.transfer.partSize);
  }

  lemma JoinedConfirms(s: State, id: nat)
    requires Inv(s) && s.row.state == Created && s.provider.source.Some?
    requires id in s.requests && (s.requests[id].Joined? || s.requests[id].CheckedSingle?)
    ensures Run(s, [Verify(id)] + [Mark(id)]).row.state == Quarantined
  {
    RunCons(s, Verify(id), [Mark(id)]);
    RunOne(Apply(s, Verify(id)), Mark(id));
  }

  lemma {:induction false} Bound(ids: set<nat>) returns (b: nat)
    ensures forall id :: id in ids ==> id < b
  {
    if ids == {} {
      b := 0;
    } else {
      var id :| id in ids;
      var rest := Bound(ids - {id});
      b := Max(rest, id + 1);
      assert forall other :: other in ids ==> other == id || other in ids - {id};
    }
  }

  lemma SingleConfirms(s: State, id: nat) returns (steps: seq<Step>)
    requires Inv(s) && SingleReachable(s) && s.row.state == Created && id !in s.requests
    ensures Run(s, steps).row.state == Quarantined
  {
    var s1 := Apply(s, Put);
    var s2 := Apply(s1, BeginSingle(id));
    StepKeepsInv(s, Put);
    StepKeepsInv(s1, BeginSingle(id));
    var rest := [Verify(id)] + [Mark(id)];
    steps := [Put] + ([BeginSingle(id)] + rest);
    RunCons(s, Put, [BeginSingle(id)] + rest);
    RunCons(s1, BeginSingle(id), rest);
    JoinedConfirms(s2, id);
  }

  lemma ConfirmableConfirms(s: State) returns (steps: seq<Step>)
    requires Inv(s) && s.row.state == Created && Confirmable(s)
    ensures Run(s, steps).row.state == Quarantined
  {
    var unused := Bound(s.requests.Keys);
    if SingleReachable(s) {
      steps := SingleConfirms(s, unused);
    } else if NearlyConfirmed(s) {
      var id :| id in s.requests && (s.requests[id].Verified? || (s.requests[id].Joined? && s.provider.source.Some?));
      if s.requests[id].Verified? {
        steps := [Mark(id)];
        RunOne(s, Mark(id));
      } else {
        steps := [Verify(id)] + [Mark(id)];
        JoinedConfirms(s, id);
      }
    } else {
      var join := CompletionJoins(s, unused);
      RunKeepsInv(s, join);
      var rest := [Verify(unused)] + [Mark(unused)];
      steps := join + rest;
      RunAppend(s, join, rest);
      JoinedConfirms(Run(s, join), unused);
    }
  }

  /**
   * In every interleaving, beside cleanup, a reservation still in the created state can be confirmed
   * exactly when its single object is there or its URL has not expired, or its session is open and
   * the file fits the part layout, or a request has joined the parts and still finds the object, or
   * has seen it already. Once a completion was joined and its confirmation lost, no repetition helps.
   */
  lemma {:induction false} ConfirmableExactly(s0: State, steps: seq<Step>)
    requires Reserved(s0) && Run(s0, steps).row.state == Created
    ensures CanConfirm(Run(s0, steps)) <==> Confirmable(Run(s0, steps))
  {
    RunKeepsInv(s0, steps);
    var s := Run(s0, steps);
    if Confirmable(s) {
      var later := ConfirmableConfirms(s);
    } else {
      forall later
        ensures Run(s, later).row.state != Quarantined
      {
        StrandedForever(s, later);
      }
    }
  }

  /**
   * From any fresh multipart reservation: every part is uploaded, the provider joins them at exactly
   * the reserved length, the request is dropped before it commits, and the upload is stuck.
   */
  lemma DropAfterAssemblyStrands(s0: State) returns (steps: seq<Step>)
    requires Reserved(s0) && FitsLayout(s0.row)
    ensures var s := Run(s0, steps);
            s.row.state == Created && s.provider.source == Some(s.row.total) && !CanConfirm(s)
  {
    var join := CompletionJoins(s0, 0);
    steps := join + [Drop(0)];
    RunAppend(s0, join, [Drop(0)]);
    var s1 := Run(s0, join);
    RunOne(s1, Drop(0));
    assert Apply(s1, Drop(0)).requests == map[];
    ConfirmableExactly(s0, steps);
  }

  // ----- A request run alone does what the service does -----

  lemma RunFive(s: State, a: Step, b: Step, c: Step, d: Step, e: Step)
    ensures Run(s, [a, b, c, d, e]) == Apply(Apply(Apply(Apply(Apply(s, a), b), c), d), e)
  {
    var s1, s2, s3 := Apply(s, a), Apply(Apply(s, a), b), Apply(Apply(Apply(s, a), b), c);
    hide Apply;
    RunCons(s, a, [b, c, d, e]);
    RunCons(s1, b, [c, d, e]);
    RunCons(s2, c, [d, e]);
    RunCons(s3, d, [e]);
    RunOne(Apply(s3, d), e);
  }

  lemma RunFour(s: State, a: Step, b: Step, c: Step, d: Step)
    ensures Run(s, [a, b, c, d]) == Apply(Apply(Apply(Apply(s, a), b), c), d)
  {
    var s1, s2 := Apply(s, a), Apply(Apply(s, a), b);
    hide Apply;
    RunCons(s, a, [b, c, d]);
    RunCons(s1, b, [c, d]);
    RunCons(s2, c, [d]);
    RunOne(Apply(s2, c), d);
  }

  lemma Finished(requests: map<nat, Progress>, id: nat, p: Progress)
    requires id !in requests
    ensures requests[id := p] - {id} == requests && requests - {id} == requests
  {
  }

  /** A step of a request that is not at that point changes nothing. */
  lemma Elsewhere(s: State, id: nat)
    ensures (id in s.requests ==> !s.requests[id].CheckedCompletion?) ==> Apply(s, Assemble(id)) == s
    ensures (id in s.requests ==> !s.requests[id].Joined? && !s.requests[id].CheckedSingle?) ==>
              Apply(s, Verify(id)) == s
    ensures !At(s, id, Verified) ==> Apply(s, Mark(id)) == s
    ensures !At(s, id, CheckedAbort) ==> Apply(s, AbortSession(id)) == s
    ensures !At(s, id, Aborted) ==> Apply(s, Tombstone(id)) == s
  {
  }

  lemma SeenThenMarked(s: State, id: nat, requests: map<nat, Progress>)
    requires (At(s, id, Joined) || At(s, id, CheckedSingle)) && s.requests - {id} == requests && id !in requests
    requires s.provider.source == Some(s.row.total) && s.row.state == Created
    ensures var t := Apply(Apply(Apply(s, Verify(id)), Mark(id)), Drop(id));
            t == s.(row := s.row.(state := Quarantined), requests := requests, seen := true)
  {
    var s1 := Go(s, id, Verified).(seen := true);
    assert Apply(s, Verify(id)) == s1 && s1.requests - {id} == requests && requests - {id} == requests;
  }

  /** Undisturbed, a completion with every call answered has the effect of `Service.CompleteMultipart`. */
  lemma CompletionAlone(s: State, id: nat, list: seq<Part>)
    requires Inv(s) && id !in s.requests
    ensures var t := Run(s, [BeginCompletion(id, list), Assemble(id), Verify(id), Mark(id), Drop(id)]);
            var joins := && s.row.transfer.Multipart? && s.row.state == Created && CanAssemble(s.provider, list)
                         && ValidateCompletion(s.row.total, s.row.transfer.partSize, list);
            && t.row == (if joins then s.row.(state := Quarantined) else s.row)
            && t.provider == (if joins then AfterAssembly(s.provider, list) else s.provider)
            && t.requests == s.requests && t.signed == s.signed
  {
    hide Run, Exact, ValidateCompletion, Assembled;
    RunFive(s, BeginCompletion(id, list), Assemble(id), Verify(id), Mark(id), Drop(id));
    var s1 := Apply(s, BeginCompletion(id, list));
    var s2 := Apply(s1, Assemble(id));
    Finished(s.requests, id, CheckedCompletion(list));
    Finished(s.requests, id, Joined);
    if s1 == s || !CanAssemble(s.provider, list) {
      assert s2 == s1;
      Elsewhere(s1, id);
    } else {
      AssemblyIsExact(s.row, s.provider, list);
      SeenThenMarked(s2, id, s.requests);
    }
  }

  /** Undisturbed, a confirmation has the effect of `Service.ConfirmSingle`. */
  lemma ConfirmationAlone(s: State, id: nat)
    requires Inv(s) && id !in s.requests
    ensures var t := Run(s, [BeginSingle(id), Verify(id), Mark(id), Drop(id)]);
            var marks := s.row.transfer.SinglePut? && s.row.state == Created && s.provider.source.Some?;
            && t.row == (if marks then s.row.(state := Quarantined) else s.row)
            && t.provider == s.provider && t.requests == s.requests && t.signed == s.signed
  {
    hide Run, Exact;
    RunFour(s, BeginSingle(id), Verify(id), Mark(id), Drop(id));
    var s1 := Apply(s, BeginSingle(id));
    Finished(s.requests, id, CheckedSingle);
    if s1 == s || s.provider.source.None? {
      Elsewhere(s1, id);
      assert Apply(s1, Verify(id)) == s1;
    } else {
      SourceLength(s);
      SeenThenMarked(s1, id, s.requests);
    }
  }

  lemma SourceLength(s: State)
    requires Inv(s) && s.provider.source.Some?
    ensures s.provider.source == Some(s.row.total)
  {
  }

  lemma ClosedThenDeleted(s: State, id: nat, requests: map<nat, Progress>)
    requires At(s, id, CheckedAbort) && s.requests - {id} == requests && id !in requests && s.row.state == Created
    ensures var t := Apply(Apply(Apply(s, AbortSession(id)), Tombstone(id)), Drop(id));
            t == s.(row := s.row.(state := Deleted), provider := s.provider.(open := false), requests := requests)
  {
    var s1 := Go(s.(provider := s.provider.(open := false)), id, Aborted);
    assert Apply(s, AbortSession(id)) == s1 && s1.requests - {id} == requests && requests - {id} == requests;
  }

  /** Undisturbed, an abort with every call answered has the effect of `Service.AbortMultipart`. */
  lemma AbortAlone(s: State, id: nat)
    requires Inv(s) && id !in s.requests
    ensures var t := Run(s, [BeginAbort(id), AbortSession(id), Tombstone(id), Drop(id)]);
            var aborts := s.row.transfer.Multipart? && s.row.state == Created;
            && t.row == (if aborts then s.row.(state := Deleted) else s.row)
            && t.provider == (if aborts then s.provider.(open := false) else s.provider)
            && t.requests == s.requests && t.signed == s.signed
  {
    hide Run, Exact;
    RunFour(s, BeginAbort(id), AbortSession(id), Tombstone(id), Drop(id));
    var s1 := Apply(s, BeginAbort(id));
    Finished(s.requests, id, CheckedAbort);
    if s1 == s {
      Elsewhere(s, id);
    } else {
      ClosedThenDeleted(s1, id, s.requests);
    }
  }

  /** Cleanup leaves neither session nor object; a put after the URL expired stores nothing, one before does. */
  lemma CleanupAlone(s: State)
    requires Inv(s)
    ensures var t := Run(s, [CleanSession, RemoveObject, CleanTombstone, ExpireSignature, Put]);
            && t.row == s.row.(state := Deleted) && t.provider == s.provider.(open := false, source := None)
            && t.requests == s.requests && !t.signed
    ensures s.row.transfer.SinglePut? && s.signed ==> Apply(s, Put).provider.source == Some(s.row.total)
  {
    hide Run;
    RunFive(s, CleanSession, RemoveObject, CleanTombstone, ExpireSignature, Put);
  }
}
