/**
 * Upload planning and the exact multipart layout: which part lengths may be signed, which completion
 * lists are accepted, and that together they rebuild exactly the reserved bytes.
 */
module Multipart {
  import opened Basics
  import opened Domain

  const MAX_PARTS: nat := 10_000
  const MIN_PART_SIZE: nat := 5 * 1024 * 1024

  datatype Transfer = SinglePut | Multipart(partSize: nat)

  datatype Candidate = Candidate(kind: MediaKind, byteLen: nat)

  datatype Policy = Policy(maxFiles: nat, maxBatchBytes: nat, maxImageBytes: nat, maxVideoBytes: nat,
                           threshold: nat, partSize: nat)
  {
    predicate Machine() {
      maxBatchBytes <= U64_MAX && maxImageBytes <= U64_MAX && maxVideoBytes <= U64_MAX && partSize <= U64_MAX
    }

    function MaxBytes(kind: MediaKind): nat { if kind.Image? then maxImageBytes else maxVideoBytes }
  }

  const DEFAULT_POLICY := Policy(100, 20 * 1024 * 1024 * 1024, 128 * 1024 * 1024, 5 * 1024 * 1024 * 1024,
                                 100 * 1024 * 1024, 32 * 1024 * 1024)

  datatype PlanError = Empty | TooManyFiles | EmptyFile | FileTooLarge | BatchTooLarge | InvalidPartSize

  function TransferFor(p: Policy, c: Candidate): Transfer {
    if c.kind.Video? || c.byteLen >= p.threshold then Multipart(p.partSize) else SinglePut
  }

  function TotalBytes(candidates: seq<Candidate>): nat {
    if candidates == [] then 0 else candidates[0].byteLen + TotalBytes(candidates[1..])
  }

  /** Every file fits its class cap and every file is nonempty. */
  ghost predicate FilesFit(p: Policy, candidates: seq<Candidate>) {
    && (forall i :: 0 <= i < |candidates| && candidates[i].kind == Image ==>
          0 < candidates[i].byteLen <= p.maxImageBytes)
    && (forall i :: 0 <= i < |candidates| && candidates[i].kind == Video ==>
          0 < candidates[i].byteLen <= p.maxVideoBytes)
  }

  /** The first file that breaks a rule, after files that break none, and the rule it breaks. */
  ghost predicate FirstFault(p: Policy, candidates: seq<Candidate>, i: nat, e: PlanError) {
    && i < |candidates| && FilesFit(p, candidates[..i]) && TotalBytes(candidates[..i]) <= p.maxBatchBytes
    && var c, limit := candidates[i], if candidates[i].kind == Video then p.maxVideoBytes else p.maxImageBytes;
    && e == (if c.byteLen == 0 then EmptyFile else if c.byteLen > limit then FileTooLarge else BatchTooLarge)
    && (e == BatchTooLarge ==> TotalBytes(candidates[..i + 1]) > p.maxBatchBytes)
  }

  ghost predicate Admissible(p: Policy, candidates: seq<Candidate>) {
    && 0 < |candidates| <= p.maxFiles && p.partSize >= MIN_PART_SIZE
    && FilesFit(p, candidates) && TotalBytes(candidates) <= p.maxBatchBytes
  }

  /** The rule a refused batch breaks. */
  ghost predicate PlanFault(p: Policy, candidates: seq<Candidate>, e: PlanError) {
    match e
    case Empty => candidates == []
    case TooManyFiles => 0 < |candidates| && p.maxFiles < |candidates|
    case InvalidPartSize => 0 < |candidates| <= p.maxFiles && p.partSize < 5 * 1024 * 1024
    case _ =>
      0 < |candidates| <= p.maxFiles && 5 * 1024 * 1024 <= p.partSize && exists i :: FirstFault(p, candidates, i, e)
  }

  lemma {:induction false} TotalBytesAppend(a: seq<Candidate>, b: seq<Candidate>)
    ensures TotalBytes(a + b) == TotalBytes(a) + TotalBytes(b)
  {
    if a == [] {
      assert a + b == b;
    } else {
      TotalBytesAppend(a[1..], b);
      assert (a + b)[1..] == a[1..] + b;
    }
  }

  lemma TotalBytesPrefix(candidates: seq<Candidate>, i: nat)
    requires i < |candidates|
    ensures TotalBytes(candidates[..i + 1]) == TotalBytes(candidates[..i]) + candidates[i].byteLen
    ensures TotalBytes(candidates[..i + 1]) <= TotalBytes(candidates)
  {
    assert candidates[..i + 1] == candidates[..i] + [candidates[i]];
    TotalBytesAppend(candidates[..i], [candidates[i]]);
    assert candidates == candidates[..i + 1] + candidates[i + 1..];
    TotalBytesAppend(candidates[..i + 1], candidates[i + 1..]);
  }

  /**
   * `plan`: accepts exactly the admissible batches, the checked total never rejects a fitting one, and
   * a refusal names the rule broken by the first file at fault. Videos and images from the threshold
   * on are uploaded in parts.
   */
  method Plan(p: Policy, candidates: seq<Candidate>) returns (r: Result<seq<Transfer>, PlanError>)
    requires p.Machine() && forall i :: 0 <= i < |candidates| ==> candidates[i].byteLen <= U64_MAX
    ensures r.Ok? <==> Admissible(p, candidates)
    ensures r.Ok? ==> |r.value| == |candidates|
                      && forall i :: 0 <= i < |candidates| ==>
                           r.value[i] == if candidates[i].kind == Video || p.threshold <= candidates[i].byteLen
                                         then Multipart(p.partSize) else SinglePut
    ensures r.Err? ==> PlanFault(p, candidates, r.error)
  {
    if candidates == [] {
      return Err(Empty);
    }
    if |candidates| > p.maxFiles {
      return Err(TooManyFiles);
    }
    if p.partSize < MIN_PART_SIZE {
      return Err(InvalidPartSize);
    }
    var total := 0;
    var transfers: seq<Transfer> := [];
    var i := 0;
    while i < |candidates|
      invariant 0 <= i <= |candidates| && |transfers| == i
      invariant total == TotalBytes(candidates[..i]) <= p.maxBatchBytes
      invariant FilesFit(p, candidates[..i])
      invariant forall j :: 0 <= j < i ==> transfers[j] == TransferFor(p, candidates[j])
    {
      var c := candidates[i];
      TotalBytesPrefix(candidates, i);
      ghost var fault := if c.byteLen == 0 then EmptyFile else if c.byteLen > p.MaxBytes(c.kind) then FileTooLarge
                         else BatchTooLarge;
      assert fault != BatchTooLarge || TotalBytes(candidates[..i + 1]) > p.maxBatchBytes ==>
          FirstFault(p, candidates, i, fault);
      assert candidates[..i + 1] == candidates[..i] + [c];
      if c.byteLen == 0 {
        return Err(EmptyFile);
      }
      if c.byteLen > p.MaxBytes(c.kind) {
        return Err(FileTooLarge);
      }
      var sum := CheckedAdd(total, c.byteLen);
      if sum.None? {
        return Err(BatchTooLarge);
      }
      total := sum.value;
      if total > p.maxBatchBytes {
        return Err(BatchTooLarge);
      }
      transfers := transfers + [TransferFor(p, c)];
      i := i + 1;
    }
    assert candidates[..i] == candidates;
    r := Ok(transfers);
  }

  // ----- Part lengths -----

  function ExpectedPartLength(total: nat, partSize: nat, number: nat): Option<nat> {
    if total == 0 || partSize == 0 || number == 0 || number > MAX_PARTS then None
    else
      match CheckedMul(number - 1, partSize)
      case None => None
      case Some(start) => if start >= total then None else Some(Min(total - start, partSize))
  }

  /** The overflow check never changes the answer: a start beyond `u64` is beyond any file. */
  lemma CheckedStartIsExact(total: nat, partSize: nat, number: nat)
    requires total <= U64_MAX
    ensures ExpectedPartLength(total, partSize, number) ==
            if 0 < total && 0 < partSize && 1 <= number <= MAX_PARTS && (number - 1) * partSize < total
            then Some(Min(total - (number - 1) * partSize, partSize)) else None
  {
  }

  function PartCount(total: nat, partSize: nat): nat
    requires partSize > 0
  {
    CeilDiv(total, partSize)
  }

  /** A part number can be signed exactly when it lies in the layout and under the protocol limit. */
  lemma PresignableExactly(total: nat, partSize: nat, number: nat)
    requires 0 < total <= U64_MAX && partSize > 0
    ensures ExpectedPartLength(total, partSize, number).Some? <==>
            1 <= number <= PartCount(total, partSize) && number <= MAX_PARTS
  {
    CheckedStartIsExact(total, partSize, number);
    CeilDivBounds(total, partSize);
    var n := PartCount(total, partSize);
    if number >= 1 {
      if number <= n {
        MulMonotone(number - 1, n - 1, partSize);
        assert (n - 1) * partSize == n * partSize - partSize;
      } else {
        MulMonotone(n, number - 1, partSize);
      }
    }
  }

  function LengthOf(total: nat, partSize: nat, number: nat): nat {
    match ExpectedPartLength(total, partSize, number)
    case None => 0
    case Some(length) => length
  }

  /** The lengths of parts 1 to `n`, in part order. */
  function Lengths(total: nat, partSize: nat, n: nat): seq<nat>
  {
    if n == 0 then [] else Lengths(total, partSize, n - 1) + [LengthOf(total, partSize, n)]
  }

  /** The first `n` parts cover exactly the first `n * partSize` bytes of the file. */
  lemma {:induction false} PrefixTiles(total: nat, partSize: nat, n: nat)
    requires 0 < total <= U64_MAX && partSize > 0 && n <= PartCount(total, partSize) && n <= MAX_PARTS
    ensures Sum(Lengths(total, partSize, n)) == Min(n * partSize, total)
    decreases n
  {
    if n > 0 {
      var front, last := Lengths(total, partSize, n - 1), LengthOf(total, partSize, n);
      PrefixTiles(total, partSize, n - 1);
      SumAppend(front, [last]);
      assert Sum([last]) == last;
      PresignableExactly(total, partSize, n);
      CheckedStartIsExact(total, partSize, n);
      assert n * partSize == (n - 1) * partSize + partSize;
    }
  }

  lemma FullPart(total: nat, partSize: nat, number: nat)
    requires 0 < total <= U64_MAX && partSize > 0 && 1 <= number <= MAX_PARTS && number * partSize <= total
    ensures ExpectedPartLength(total, partSize, number) == Some(partSize)
  {
    CheckedStartIsExact(total, partSize, number);
    assert number * partSize == (number - 1) * partSize + partSize;
  }

  lemma FitsPartCount(total: nat, partSize: nat)
    requires 0 < total && partSize > 0
    ensures 1 <= PartCount(total, partSize)
    ensures PartCount(total, partSize) <= MAX_PARTS <==> total <= MAX_PARTS * partSize
  {
    var n := PartCount(total, partSize);
    CeilDivBounds(total, partSize);
    if n > MAX_PARTS {
      MulMonotone(MAX_PARTS + 1, n, partSize);
      assert (MAX_PARTS + 1) * partSize == MAX_PARTS * partSize + partSize;
    } else {
      MulMonotone(n, MAX_PARTS, partSize);
    }
  }

  /**
   * Tiling: when the file fits 10,000 parts the signable lengths add up to it exactly, every part
   * but the last is full, and the last is not empty.
   */
  lemma PartsTileTheFile(total: nat, partSize: nat)
    requires 0 < total <= U64_MAX && partSize > 0 && total <= MAX_PARTS * partSize
    ensures var n := PartCount(total, partSize);
            && 1 <= n <= MAX_PARTS
            && Sum(Lengths(total, partSize, n)) == total
            && (forall i :: 1 <= i < n ==> ExpectedPartLength(total, partSize, i) == Some(partSize))
            && 0 < LengthOf(total, partSize, n) <= partSize
            && forall i :: i > n ==> ExpectedPartLength(total, partSize, i).None?
  {
    var n := PartCount(total, partSize);
    FitsPartCount(total, partSize);
    CeilDivBounds(total, partSize);
    PrefixTiles(total, partSize, n);
    assert (n - 1) * partSize == n * partSize - partSize;
    forall i | 1 <= i < n
      ensures ExpectedPartLength(total, partSize, i) == Some(partSize)
    {
      MulMonotone(i, n - 1, partSize);
      FullPart(total, partSize, i);
    }
    PresignableExactly(total, partSize, n);
    forall i | i > n
      ensures ExpectedPartLength(total, partSize, i).None?
    {
      PresignableExactly(total, partSize, i);
    }
  }

  // ----- Completion lists -----

  datatype Part = Part(number: nat, etag: string)

  predicate Graphic(c: char) { '!' <= c <= '~' }

  predicate EtagOk(etag: string) {
    0 < |etag| <= 1024 && forall i :: 0 <= i < |etag| ==> Graphic(etag[i])
  }

  predicate ValidateCompletion(total: nat, partSize: nat, parts: seq<Part>) {
    && total > 0 && partSize > 0
    && PartCount(total, partSize) <= MAX_PARTS && |parts| == PartCount(total, partSize)
    && forall i :: 0 <= i < |parts| ==> parts[i].number == i + 1 && EtagOk(parts[i].etag)
  }

  /**
   * A completion list is accepted exactly if it numbers the parts 1 to n in order, n parts of this
   * size just cover the file, and every tag is nonempty, short and printable.
   */
  lemma CompletionExactly(total: nat, partSize: nat, parts: seq<Part>)
    requires total > 0 && partSize > 0
    ensures ValidateCompletion(total, partSize, parts) <==>
      (&& 0 < |parts| <= 10_000 && (|parts| - 1) * partSize < total <= |parts| * partSize
       && (forall i :: 0 <= i < |parts| ==> parts[i].number == i + 1)
       && (forall part :: part in parts ==> 0 < |part.etag| <= 1024 && forall c :: c in part.etag ==> '!' <= c <= '~'))
  {
    var n := PartCount(total, partSize);
    CeilDivBounds(total, partSize);
    assert (n - 1) * partSize == n * partSize - partSize;
    if |parts| > 0 && (|parts| - 1) * partSize < total <= |parts| * partSize {
      if |parts| < n { MulMonotone(|parts|, n - 1, partSize); }
      if n < |parts| { MulMonotone(n, |parts| - 1, partSize); }
      assert |parts| == n;
    }
    forall part | part in parts
      ensures EtagOk(part.etag) <==> 0 < |part.etag| <= 1024 && forall c :: c in part.etag ==> '!' <= c <= '~'
    {
      assert forall i :: 0 <= i < |part.etag| ==> part.etag[i] in part.etag;
      if EtagOk(part.etag) {
        forall c | c in part.etag
          ensures '!' <= c <= '~'
        {
          var i :| 0 <= i < |part.etag| && part.etag[i] == c;
        }
      }
    }
    assert forall i :: 0 <= i < |parts| ==> parts[i] in parts;
  }

  /** The adapter's own check before the provider call. */
  method ValidateCompletedParts(parts: seq<Part>) returns (ok: bool)
    requires forall i :: 0 <= i < |parts| ==> parts[i].number <= U16_MAX
    ensures ok <==> AdapterAccepts(parts)
  {
    if |parts| == 0 || |parts| > MAX_PARTS {
      return false;
    }
    var previous := 0;
    var i := 0;
    while i < |parts|
      invariant 0 <= i <= |parts|
      invariant previous == if i == 0 then 0 else parts[i - 1].number
      invariant forall j :: 0 <= j < i ==> parts[j].number > 0 && 0 < |parts[j].etag| <= 1024
      invariant forall j :: 0 < j < i ==> parts[j - 1].number < parts[j].number
    {
      var part := parts[i];
      if part.number == 0 || part.number <= previous || part.etag == "" || |part.etag| > 1024 {
        return false;
      }
      previous := part.number;
      i := i + 1;
    }
    return true;
  }

  ghost predicate AdapterAccepts(parts: seq<Part>) {
    && 0 < |parts| <= MAX_PARTS
    && (forall j :: 0 <= j < |parts| ==> parts[j].number > 0 && 0 < |parts[j].etag| <= 1024)
    && (forall j :: 0 < j < |parts| ==> parts[j - 1].number < parts[j].number)
  }

  /** An accepted completion names exactly the signable part numbers, once each, and the adapter takes it. */
  lemma CompletionNamesSignableParts(total: nat, partSize: nat, parts: seq<Part>)
    requires total <= U64_MAX && ValidateCompletion(total, partSize, parts)
    ensures forall number :: (exists i :: 0 <= i < |parts| && parts[i].number == number)
                             <==> number >= 0 && ExpectedPartLength(total, partSize, number).Some?
    ensures forall i, j :: 0 <= i < j < |parts| ==> parts[i].number != parts[j].number
    ensures AdapterAccepts(parts)
  {
    forall number: int
      ensures (exists i :: 0 <= i < |parts| && parts[i].number == number)
              <==> number >= 0 && ExpectedPartLength(total, partSize, number).Some?
    {
      if number >= 0 {
        PresignableExactly(total, partSize, number);
        if 1 <= number <= |parts| { assert parts[number - 1].number == number; }
      }
    }
    CeilDivBounds(total, partSize);
  }

  /** A completion list exists exactly for files of at most 10,000 parts, which planning does not check. */
  lemma CompletableExactly(total: nat, partSize: nat)
    requires 0 < total <= U64_MAX && partSize > 0
    ensures (exists parts :: ValidateCompletion(total, partSize, parts)) <==> total <= MAX_PARTS * partSize
  {
    var n := PartCount(total, partSize);
    FitsPartCount(total, partSize);
    if n <= MAX_PARTS {
      var parts := seq(n, i requires 0 <= i < n => Part(i + 1, "e"));
      assert ValidateCompletion(total, partSize, parts);
    }
  }

  /** Under the default policy every planned multipart file can be completed. */
  lemma DefaultPolicyCompletable(c: Candidate)
    requires Admissible(DEFAULT_POLICY, [c])
    ensures c.byteLen <= MAX_PARTS * DEFAULT_POLICY.partSize
  {
    assert FilesFit(DEFAULT_POLICY, [c]) && [c][0] == c;
  }

  /** Another policy can plan a video that no completion list will ever finish. */
  lemma PlanCanExceedTheLayout()
    ensures exists p: Policy, c: Candidate ::
              p.Machine() && Admissible(p, [c]) && TransferFor(p, c) == Multipart(p.partSize)
              && forall parts :: !ValidateCompletion(c.byteLen, p.partSize, parts)
  {
    var size := MAX_PARTS * MIN_PART_SIZE + 1;
    var p := Policy(1, size, size, size, 0, MIN_PART_SIZE);
    var c := Candidate(Video, size);
    assert TotalBytes([c]) == size;
    CompletableExactly(size, MIN_PART_SIZE);
    assert Admissible(p, [c]);
  }
}
