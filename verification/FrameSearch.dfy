/** The bounded search for a first decodable frame: sample order, byte budget and decoder error budget. */
module FrameSearch {
  import opened Basics
  import opened AnnexB

  datatype Sample = Sample(isSync: bool, bytes: Bytes)

  datatype Limits = Limits(maxSamples: nat, maxSampleBytes: nat, maxDecodeBytes: nat, maxNals: nat, maxErrors: nat,
                           maxDimension: nat, maxPixels: nat)
  {
    predicate Valid() {
      maxSamples > 0 && maxSampleBytes > 0 && maxDecodeBytes >= maxSampleBytes && maxNals > 0 && maxErrors > 0
      && maxDecodeBytes <= U64_MAX && maxDimension > 0 && 0 < maxPixels <= U64_MAX
    }
  }

  /** What the decoder answers for the unit with this number of this sample. */
  datatype Decoded = Frame(width: nat, height: nat) | NoFrame | Failed

  type Decoder = (nat, nat) -> Decoded

  datatype Found = Found(width: nat, height: nat, samplesRead: nat, decodedBytes: nat)

  /** The frame fits the limits, and its bytes and sides fit the machine's integers. */
  predicate FrameFits(width: nat, height: nat, limits: Limits) {
    && 0 < width <= Min(limits.maxDimension, U32_MAX) && 0 < height <= Min(limits.maxDimension, U32_MAX)
    && width * height <= limits.maxPixels && width * height * 3 <= U64_MAX
  }

  /** Decoder failures among the first `n` units of a sample. */
  function Failures(decode: Decoder, sample: nat, n: nat): nat {
    if n == 0 then 0 else Failures(decode, sample, n - 1) + (if decode(sample, n - 1).Failed? then 1 else 0)
  }

  ghost predicate NoFrames(decode: Decoder, sample: nat, n: nat) {
    forall i :: 0 <= i < n ==> !decode(sample, i).Frame?
  }

  /** The first frame among `n` units of a sample, reached before `spare` failures are exceeded. */
  ghost predicate FirstFrame(decode: Decoder, sample: nat, n: nat, width: nat, height: nat, spare: int) {
    exists k :: 0 <= k < n && decode(sample, k) == Frame(width, height) && NoFrames(decode, sample, k)
                && Failures(decode, sample, k) <= spare
  }

  /** Failures are counted one by one. */
  lemma {:induction false} FailuresCounted(decode: Decoder, sample: nat, n: nat)
    ensures Failures(decode, sample, n) == |set i: nat | i < n && decode(sample, i) == Failed|
  {
    if n > 0 {
      FailuresCounted(decode, sample, n - 1);
      var before := set i: nat | i < n - 1 && decode(sample, i) == Failed;
      assert (set i: nat | i < n && decode(sample, i) == Failed)
          == before + (if decode(sample, n - 1) == Failed then {n - 1} else {});
    }
  }

  datatype Outcome = FrameFound(width: nat, height: nat) | Exhausted(errors: nat) | TooManyErrors

  /** The outcome of feeding `n` units with `errors` failures already counted. */
  ghost predicate OutcomeOf(decode: Decoder, sample: nat, n: nat, errors: nat, maxErrors: nat, r: Outcome) {
    match r
    case FrameFound(width, height) =>
      FirstFrame(decode, sample, n, width, height, maxErrors - errors)
    case Exhausted(e) => NoFrames(decode, sample, n) && e == errors + Failures(decode, sample, n) <= maxErrors
    case TooManyErrors =>
      exists k :: 0 < k <= n && NoFrames(decode, sample, k) && errors + Failures(decode, sample, k) == maxErrors + 1
  }

  /** Feeds the units of one sample until a frame, the end, or the error budget. */
  method FeedUnits(stream: Bytes, sample: nat, decode: Decoder, errors: nat, maxErrors: nat) returns (r: Outcome)
    requires errors <= maxErrors
    ensures OutcomeOf(decode, sample, |Split(stream)|, errors, maxErrors, r)
  {
    var units := Split(stream);
    var count := errors;
    var i := 0;
    while i < |units|
      invariant 0 <= i <= |units| && NoFrames(decode, sample, i)
      invariant count == errors + Failures(decode, sample, i) <= maxErrors
    {
      var answer := decode(sample, i);
      if answer.Frame? {
        return FrameFound(answer.width, answer.height);
      }
      if answer.Failed? {
        count := count + 1;
        if count > maxErrors {
          assert errors + Failures(decode, sample, i + 1) == maxErrors + 1;
          return TooManyErrors;
        }
      }
      i := i + 1;
    }
    r := Exhausted(count);
  }

  /** Units the splitter finds in a converted sample. */
  function UnitCount(s: Sample, l: nat): nat
    requires l > 0
  {
    match Parse(s.bytes, l)
    case None => 0
    case Some(nals) => |Split(Stream(nals))|
  }

  ghost predicate Feedable(s: Sample, l: nat, limits: Limits) {
    0 < |s.bytes| <= limits.maxSampleBytes && Convertible(s.bytes, l, limits.maxNals, limits.maxSampleBytes)
  }

  /** What the loop can learn about one sample. */
  datatype Facts = Facts(read: bool, isSync: bool, bytes: nat, feedable: bool, parses: bool, units: nat)

  /** A sample the demuxer cannot read is `None`. */
  ghost function FactsOf(s: Option<Sample>, l: nat, limits: Limits): Facts
    requires l > 0
  {
    match s
    case None => Facts(false, false, 0, false, false, 0)
    case Some(s) => Facts(true, s.isSync, |s.bytes|, Feedable(s, l, limits), Parse(s.bytes, l).Some?, UnitCount(s, l))
  }

  /** Size, budget and conversion of one sample. */
  method Admit(sample: Sample, l: nat, limits: Limits, decodedBytes: nat) returns (r: Result<(nat, Bytes), Error>)
    requires PrefixSize(l) && |sample.bytes| <= U64_MAX / 8 && decodedBytes <= limits.maxDecodeBytes <= U64_MAX
    ensures r.Ok? <==> Feedable(sample, l, limits) && decodedBytes + |sample.bytes| <= limits.maxDecodeBytes
    ensures r.Ok? ==> r.value.0 == decodedBytes + |sample.bytes| && |Split(r.value.1)| == UnitCount(sample, l)
    ensures r == Err(FallbackDecode) ==> Parse(sample.bytes, l).None?
  {
    if sample.bytes == [] || |sample.bytes| > limits.maxSampleBytes {
      return Err(FallbackLimit);
    }
    var total := CheckedAdd(decodedBytes, |sample.bytes|);
    if total.None? || total.value > limits.maxDecodeBytes {
      return Err(FallbackLimit);
    }
    var unit := AvccToAnnexB(sample.bytes, l, limits.maxNals, limits.maxSampleBytes);
    if unit.Err? {
      return Err(unit.error);
    }
    r := Ok((total.value, unit.value));
  }

  datatype Progress = Stop(result: Result<Found, Error>) | Continue(decodedBytes: nat, errors: nat)

  /** One more failure among these units than the budget leaves after `errors`. */
  ghost predicate OverBudget(units: nat, limits: Limits, decode: Decoder, i: nat, errors: nat) {
    exists k :: 0 < k <= units && NoFrames(decode, i, k) && errors + Failures(decode, i, k) == limits.maxErrors + 1
  }

  /** The first frame among these units breaks the frame limits. */
  ghost predicate UnfitFrame(units: nat, limits: Limits, decode: Decoder, i: nat, errors: nat) {
    exists width: nat, height: nat ::
      FirstFrame(decode, i, units, width, height, limits.maxErrors - errors) && Unfit(width, height, limits)
  }

  /** A side is missing or over its limit, there are too many pixels, or a size does not fit the machine. */
  ghost predicate Unfit(width: nat, height: nat, limits: Limits) {
    || width == 0 || height == 0 || width > limits.maxDimension || height > limits.maxDimension
    || width > U32_MAX || height > U32_MAX || width * height > limits.maxPixels || 3 * (width * height) > U64_MAX
  }

  lemma FitsExactly(width: nat, height: nat, limits: Limits)
    ensures FrameFits(width, height, limits) <==> !Unfit(width, height, limits)
  {
  }

  /** What looking at sample `i` can lead to. */
  ghost predicate ProgressOf(f: Facts, limits: Limits, decode: Decoder, i: nat, decodedBytes: nat, errors: nat,
                             p: Progress)
  {
    var fits := f.feedable && decodedBytes + f.bytes <= limits.maxDecodeBytes;
    match p
    case Continue(total, e) =>
      && fits && total == decodedBytes + f.bytes && NoFrames(decode, i, f.units)
      && e == errors + Failures(decode, i, f.units) <= limits.maxErrors
    case Stop(Ok(found)) =>
      && fits && found == Found(found.width, found.height, i + 1, decodedBytes + f.bytes)
      && FirstFrame(decode, i, f.units, found.width, found.height, limits.maxErrors - errors)
      && FrameFits(found.width, found.height, limits)
    case Stop(Err(FallbackLimit)) => !fits || UnfitFrame(f.units, limits, decode, i, errors)
    case Stop(Err(FallbackDecode)) => if fits then OverBudget(f.units, limits, decode, i, errors) else !f.parses
  }

  /** One sample after the first key frame: admit, convert, feed. */
  method FeedSample(sample: Sample, i: nat, l: nat, limits: Limits, decode: Decoder, decodedBytes: nat, errors: nat)
    returns (p: Progress)
    requires decodedBytes <= limits.maxDecodeBytes <= U64_MAX && PrefixSize(l) && errors <= limits.maxErrors
    requires |sample.bytes| <= U64_MAX / 8
    ensures ProgressOf(FactsOf(Some(sample), l, limits), limits, decode, i, decodedBytes, errors, p)
  {
    hide FirstFrame, FrameFits, Unfit, Failures, NoFrames, Convertible, Parse, Split;
    var admitted := Admit(sample, l, limits, decodedBytes);
    if admitted.Err? {
      return Stop(Err(admitted.error));
    }
    var outcome := FeedUnits(admitted.value.1, i, decode, errors, limits.maxErrors);
    match outcome {
      case FrameFound(width, height) =>
        assert FirstFrame(decode, i, UnitCount(sample, l), width, height, limits.maxErrors - errors);
        FitsExactly(width, height, limits);
        if !FrameFits(width, height, limits) {
          return Stop(Err(FallbackLimit));
        }
        return Stop(Ok(Found(width, height, i + 1, admitted.value.0)));
      case TooManyErrors => return Stop(Err(FallbackDecode));
      case Exhausted(e) => return Continue(admitted.value.0, e);
    }
  }

  // ----- The loop, over the facts of its samples -----

  function ByteTotal(facts: seq<Facts>, first: nat, n: nat): nat
    requires n <= |facts|
  {
    if n <= first then 0 else ByteTotal(facts, first, n - 1) + facts[n - 1].bytes
  }

  /** Decoder failures over samples `first` to `n`. */
  function FailureTotal(facts: seq<Facts>, decode: Decoder, first: nat, n: nat): nat
    requires n <= |facts|
  {
    if n <= first then 0 else FailureTotal(facts, decode, first, n - 1) + Failures(decode, n - 1, facts[n - 1].units)
  }

  /** Position of the first key frame among the first `limit` samples, or `limit`. */
  function FirstSync(facts: seq<Facts>, limit: nat): (n: nat)
    requires limit <= |facts|
    ensures n <= limit
  {
    if limit == 0 then 0
    else
      var n := FirstSync(facts, limit - 1);
      if n < limit - 1 || facts[limit - 1].isSync then n else limit
  }

  /** Samples `first` to `n` have all been fed, within the budget, and none gave a frame. */
  ghost predicate FedInVain(facts: seq<Facts>, limits: Limits, decode: Decoder, first: nat, n: nat) {
    && first <= n <= |facts| && ByteTotal(facts, first, n) <= limits.maxDecodeBytes
    && forall i :: first <= i < n ==> facts[i].feedable && NoFrames(decode, i, facts[i].units)
  }

  ghost predicate Fits(facts: seq<Facts>, limits: Limits, first: nat, i: nat)
    requires i < |facts|
  {
    facts[i].feedable && ByteTotal(facts, first, i) + facts[i].bytes <= limits.maxDecodeBytes
  }

  /**
   * A search that read the samples before `i`, and fed those from the first key frame on in vain,
   * stops at sample `i`, or at the end.
   */
  ghost predicate Ends(facts: seq<Facts>, limits: Limits, decode: Decoder, parameterErrors: nat, i: nat,
                       r: Result<Found, Error>)
  {
    var limit := Min(|facts|, limits.maxSamples);
    && i <= limit && (forall j :: 0 <= j < i ==> facts[j].read)
    && var first := FirstSync(facts, i);
       var failures := parameterErrors + FailureTotal(facts, decode, first, i);
    && FedInVain(facts, limits, decode, first, i)
    && if i == limit then r == Err(if |facts| > limit then FallbackLimit else FallbackDecode)
       else if !facts[i].read then r == Err(FallbackDecode)
       else && (first < i || facts[i].isSync)
            && match r
               case Ok(found) =>
                 && Fits(facts, limits, first, i)
                 && FirstFrame(decode, i, facts[i].units, found.width, found.height, limits.maxErrors - failures)
                 && FrameFits(found.width, found.height, limits)
                 && found.samplesRead == i + 1 && found.decodedBytes == ByteTotal(facts, first, i + 1)
               case Err(FallbackLimit) =>
                 !Fits(facts, limits, first, i) || UnfitFrame(facts[i].units, limits, decode, i, failures)
               case Err(FallbackDecode) =>
                 if Fits(facts, limits, first, i)
                 then OverBudget(facts[i].units, limits, decode, i, failures)
                 else !facts[i].parses
  }

  /**
   * What an answer means: nothing before the first key frame was fed; a frame is the first one, fits
   * the frame limits and reports exactly the bytes fed; a limit error has its cause in a sample, in
   * that frame or in samples left unread; a decoding error in an unreadable or malformed sample, too
   * many failures, or a track without a frame.
   */
  ghost predicate Justified(facts: seq<Facts>, limits: Limits, decode: Decoder, parameterErrors: nat,
                            r: Result<Found, Error>)
  {
    exists i: nat :: Ends(facts, limits, decode, parameterErrors, i, r)
  }

  /** The loop's state before sample `i`. */
  ghost predicate Searching(facts: seq<Facts>, limits: Limits, decode: Decoder, parameterErrors: nat, i: nat,
                            decodedBytes: nat, errors: nat)
    requires i <= |facts|
  {
    var first := FirstSync(facts, i);
    && (forall j :: 0 <= j < i ==> facts[j].read)
    && FedInVain(facts, limits, decode, first, i) && decodedBytes == ByteTotal(facts, first, i)
    && errors == parameterErrors + FailureTotal(facts, decode, first, i)
  }

  lemma StopEnds(facts: seq<Facts>, limits: Limits, decode: Decoder, parameterErrors: nat, i: nat,
                 decodedBytes: nat, errors: nat, p: Progress)
    requires i < Min(|facts|, limits.maxSamples) && (FirstSync(facts, i) < i || facts[i].isSync) && p.Stop?
             && facts[i].read
    requires Searching(facts, limits, decode, parameterErrors, i, decodedBytes, errors)
    requires ProgressOf(facts[i], limits, decode, i, decodedBytes, errors, p)
    ensures Ends(facts, limits, decode, parameterErrors, i, p.result)
  {
    hide UnfitFrame, OverBudget, FirstFrame, FrameFits, FedInVain, FirstSync, FailureTotal, Failures, NoFrames;
    var first := FirstSync(facts, i);
    assert ByteTotal(facts, first, i + 1) == ByteTotal(facts, first, i) + facts[i].bytes;
  }

  lemma StopIsJustified(facts: seq<Facts>, limits: Limits, decode: Decoder, parameterErrors: nat, i: nat,
                        decodedBytes: nat, errors: nat, p: Progress)
    requires i < Min(|facts|, limits.maxSamples) && (FirstSync(facts, i) < i || facts[i].isSync) && p.Stop?
             && facts[i].read
    requires Searching(facts, limits, decode, parameterErrors, i, decodedBytes, errors)
    requires ProgressOf(facts[i], limits, decode, i, decodedBytes, errors, p)
    ensures Justified(facts, limits, decode, parameterErrors, p.result)
  {
    hide Ends, Searching, ProgressOf;
    StopEnds(facts, limits, decode, parameterErrors, i, decodedBytes, errors, p);
  }

  lemma UnreadIsJustified(facts: seq<Facts>, limits: Limits, decode: Decoder, parameterErrors: nat, i: nat,
                          decodedBytes: nat, errors: nat)
    requires i < Min(|facts|, limits.maxSamples) && !facts[i].read
    requires Searching(facts, limits, decode, parameterErrors, i, decodedBytes, errors)
    ensures Justified(facts, limits, decode, parameterErrors, Err(FallbackDecode))
  {
    assert Ends(facts, limits, decode, parameterErrors, i, Err(FallbackDecode));
  }

  lemma EndIsJustified(facts: seq<Facts>, limits: Limits, decode: Decoder, parameterErrors: nat, foundSync: bool,
                       decodedBytes: nat, errors: nat)
    requires Loop(facts, limits, decode, parameterErrors, Min(|facts|, limits.maxSamples), foundSync, decodedBytes,
                  errors)
    ensures Justified(facts, limits, decode, parameterErrors,
                      Err(if |facts| > Min(|facts|, limits.maxSamples) then FallbackLimit else FallbackDecode))
  {
    var limit := Min(|facts|, limits.maxSamples);
    assert Ends(facts, limits, decode, parameterErrors, limit,
                Err(if |facts| > limit then FallbackLimit else FallbackDecode));
  }

  lemma ContinueStep(facts: seq<Facts>, limits: Limits, decode: Decoder, parameterErrors: nat, i: nat,
                     decodedBytes: nat, errors: nat, p: Progress)
    requires i < |facts| && (FirstSync(facts, i) < i || facts[i].isSync) && p.Continue? && facts[i].read
    requires Searching(facts, limits, decode, parameterErrors, i, decodedBytes, errors)
    requires ProgressOf(facts[i], limits, decode, i, decodedBytes, errors, p)
    ensures Searching(facts, limits, decode, parameterErrors, i + 1, p.decodedBytes, p.errors)
    ensures FirstSync(facts, i + 1) < i + 1 && p.decodedBytes <= limits.maxDecodeBytes && p.errors <= limits.maxErrors
  {
    assert FirstSync(facts, i + 1) == FirstSync(facts, i);
  }

  /** The loop invariant: either no key frame has been seen and nothing fed, or the search is under way. */
  ghost predicate Loop(facts: seq<Facts>, limits: Limits, decode: Decoder, parameterErrors: nat, i: nat,
                       foundSync: bool,
                       decodedBytes: nat, errors: nat)
  {
    && i <= |facts| && errors <= limits.maxErrors && decodedBytes <= limits.maxDecodeBytes
    && Searching(facts, limits, decode, parameterErrors, i, decodedBytes, errors)
    && (if foundSync then FirstSync(facts, i) < i
        else FirstSync(facts, i) == i && decodedBytes == 0 && errors == parameterErrors)
  }

  lemma LoopStarts(facts: seq<Facts>, limits: Limits, decode: Decoder, parameterErrors: nat)
    requires parameterErrors <= limits.maxErrors
    ensures Loop(facts, limits, decode, parameterErrors, 0, false, 0, parameterErrors)
  {
  }

  lemma SkipStep(facts: seq<Facts>, limits: Limits, decode: Decoder, parameterErrors: nat, i: nat, decodedBytes: nat,
                 errors: nat)
    requires i < |facts| && !facts[i].isSync && facts[i].read
             && Loop(facts, limits, decode, parameterErrors, i, false, decodedBytes, errors)
    ensures Loop(facts, limits, decode, parameterErrors, i + 1, false, decodedBytes, errors)
  {
  }

  lemma LoopUnread(facts: seq<Facts>, limits: Limits, decode: Decoder, parameterErrors: nat, i: nat, foundSync: bool,
                   decodedBytes: nat, errors: nat)
    requires i < Min(|facts|, limits.maxSamples) && !facts[i].read
    requires Loop(facts, limits, decode, parameterErrors, i, foundSync, decodedBytes, errors)
    ensures Justified(facts, limits, decode, parameterErrors, Err(FallbackDecode))
  {
    UnreadIsJustified(facts, limits, decode, parameterErrors, i, decodedBytes, errors);
  }

  ghost function AllFacts(samples: seq<Option<Sample>>, l: nat, limits: Limits): (facts: seq<Facts>)
    requires l > 0
    ensures |facts| == |samples|
    ensures forall i :: 0 <= i < |samples| ==>
              facts[i].read == samples[i].Some? && facts[i].isSync == (samples[i].Some? && samples[i].value.isSync)
  {
    seq(|samples|, i requires 0 <= i < |samples| => FactsOf(samples[i], l, limits))
  }

  /** The loop body after the first key frame. */
  method Look(samples: seq<Option<Sample>>, i: nat, l: nat, limits: Limits, decode: Decoder, ghost parameterErrors: nat,
              ghost foundSync: bool, decodedBytes: nat, errors: nat, ghost facts: seq<Facts>)
    returns (p: Progress)
    requires PrefixSize(l) && limits.Valid() && i < Min(|samples|, limits.maxSamples)
    requires samples[i].Some? && |samples[i].value.bytes| <= U64_MAX / 8
    requires facts == AllFacts(samples, l, limits) && (foundSync || facts[i].isSync)
    requires Loop(facts, limits, decode, parameterErrors, i, foundSync, decodedBytes, errors)
    ensures match p
            case Stop(r) =>
              && Justified(facts, limits, decode, parameterErrors, r)
              && (r.Ok? ==> && FrameFits(r.value.width, r.value.height, limits)
                            && r.value.samplesRead <= limits.maxSamples
                            && r.value.decodedBytes <= limits.maxDecodeBytes)
            case Continue(total, e) => Loop(facts, limits, decode, parameterErrors, i + 1, true, total, e)
  {
    assert facts[i] == FactsOf(samples[i], l, limits);
    p := FeedSample(samples[i].value, i, l, limits, decode, decodedBytes, errors);
    if p.Stop? {
      StopIsJustified(facts, limits, decode, parameterErrors, i, decodedBytes, errors, p);
    } else {
      ContinueStep(facts, limits, decode, parameterErrors, i, decodedBytes, errors, p);
    }
  }

  /**
   * The sample loop of `extract_first_frame_ppm`: every answer is justified by the samples, the byte
   * budget and the error budget.
   */
  method Search(samples: seq<Option<Sample>>, l: nat, limits: Limits, decode: Decoder, parameterErrors: nat)
    returns (r: Result<Found, Error>)
    requires limits.Valid() && PrefixSize(l) && parameterErrors <= limits.maxErrors
    requires forall i :: 0 <= i < |samples| && samples[i].Some? ==> |samples[i].value.bytes| <= U64_MAX / 8
    ensures Justified(AllFacts(samples, l, limits), limits, decode, parameterErrors, r)
    ensures r.Ok? ==> && 0 < r.value.width <= limits.maxDimension && 0 < r.value.height <= limits.maxDimension
                      && r.value.width * r.value.height <= limits.maxPixels
                      && r.value.decodedBytes <= limits.maxDecodeBytes && r.value.samplesRead <= limits.maxSamples
  {
    hide FactsOf, Loop, Justified;
    var limit := Min(|samples|, limits.maxSamples);
    var foundSync := false;
    var decodedBytes: nat, errors: nat := 0, parameterErrors;
    ghost var facts := AllFacts(samples, l, limits);
    LoopStarts(facts, limits, decode, parameterErrors);
    var i := 0;
    while i < limit
      invariant 0 <= i <= limit && Loop(facts, limits, decode, parameterErrors, i, foundSync, decodedBytes, errors)
    {
      if samples[i].None? {
        LoopUnread(facts, limits, decode, parameterErrors, i, foundSync, decodedBytes, errors);
        return Err(FallbackDecode);
      }
      if !foundSync && !samples[i].value.isSync {
        SkipStep(facts, limits, decode, parameterErrors, i, decodedBytes, errors);
      } else {
        var next := Look(samples, i, l, limits, decode, parameterErrors, foundSync, decodedBytes, errors, facts);
        if next.Stop? {
          return next.result;
        }
        foundSync, decodedBytes, errors := true, next.decodedBytes, next.errors;
      }
      i := i + 1;
    }
    r := Err(if |samples| > limit then FallbackLimit else FallbackDecode);
    EndIsJustified(facts, limits, decode, parameterErrors, foundSync, decodedBytes, errors);
  }
}
