/**
 * Length-prefixed H.264 samples (ISO/IEC 14496-15 section 5.2.4.1) rewritten as the byte stream of
 * ITU-T H.264 Annex B section B.1, and how a decoder splits that stream again.
 */
module AnnexB {
  import opened Basics

  datatype Error = FallbackDecode | FallbackLimit

  const START_CODE: Bytes := [0, 0, 0, 1]

  predicate PrefixSize(l: nat) { l == 1 || l == 2 || l == 4 }

  // ----- The length-prefixed form -----

  /** The NAL list of a well-formed sample. */
  function Parse(input: Bytes, l: nat): Option<seq<Bytes>>
    requires l > 0
    decreases |input|
  {
    if input == [] then Some([])
    else if |input| < l then None
    else
      var length := BigEndian(input[..l]);
      if length == 0 || l + length > |input| then None
      else
        match Parse(input[l + length..], l)
        case None => None
        case Some(rest) => Some([input[l..l + length]] + rest)
  }

  function Encode(nals: seq<Bytes>, l: nat): Bytes {
    if nals == [] then [] else ToBigEndian(|nals[0]|, l) + nals[0] + Encode(nals[1..], l)
  }

  ghost predicate Sized(nals: seq<Bytes>, l: nat) {
    forall i :: 0 <= i < |nals| ==> 0 < |nals[i]| < Power256(l)
  }

  lemma {:induction false} ParseInvertsEncode(nals: seq<Bytes>, l: nat)
    requires l > 0 && Sized(nals, l)
    ensures Parse(Encode(nals, l), l) == Some(nals)
    decreases nals
  {
    if nals != [] {
      ParseInvertsEncode(nals[1..], l);
      var s, n := Encode(nals, l), |nals[0]|;
      BigEndianInverts(n, l);
      assert s[..l] == ToBigEndian(n, l);
      assert s[l..l + n] == nals[0] && s[l + n..] == Encode(nals[1..], l);
      assert [nals[0]] + nals[1..] == nals;
    }
  }

  lemma ParseUnfold(input: Bytes, l: nat)
    requires l > 0 && input != [] && Parse(input, l).Some?
    ensures |input| >= l && 0 < BigEndian(input[..l]) <= |input| - l
    ensures var n := BigEndian(input[..l]);
            && Parse(input[l + n..], l).Some?
            && Parse(input, l).value == [input[l..l + n]] + Parse(input[l + n..], l).value
  {
  }

  lemma {:induction false} EncodeInvertsParse(input: Bytes, l: nat)
    requires l > 0 && Parse(input, l).Some?
    ensures Sized(Parse(input, l).value, l) && Encode(Parse(input, l).value, l) == input
    decreases |input|
  {
    if input != [] {
      ParseUnfold(input, l);
      var n := BigEndian(input[..l]);
      var nal, rest := input[l..l + n], input[l + n..];
      var nals := Parse(rest, l).value;
      EncodeInvertsParse(rest, l);
      BigEndianBounded(input[..l]);
      ToBigEndianInverts(input[..l]);
      EncodeCons(nal, nals, l);
      assert input == input[..l] + nal + rest;
    }
  }

  lemma EncodeCons(nal: Bytes, nals: seq<Bytes>, l: nat)
    ensures Encode([nal] + nals, l) == ToBigEndian(|nal|, l) + nal + Encode(nals, l)
    ensures Sized(nals, l) && 0 < |nal| < Power256(l) ==> Sized([nal] + nals, l)
  {
    assert ([nal] + nals)[1..] == nals;
  }

  // ----- The byte-stream form -----

  function Stream(nals: seq<Bytes>): Bytes {
    if nals == [] then [] else START_CODE + nals[0] + Stream(nals[1..])
  }

  lemma {:induction false} StreamAppend(a: seq<Bytes>, b: seq<Bytes>)
    ensures Stream(a + b) == Stream(a) + Stream(b)
  {
    if a == [] {
      assert a + b == b;
    } else {
      StreamAppend(a[1..], b);
      assert (a + b)[1..] == a[1..] + b;
    }
  }

  /** Rewriting each prefix as a start code changes the length by `4 - l` for each NAL. */
  lemma {:induction false} StreamLength(nals: seq<Bytes>, l: nat)
    requires l <= 4
    ensures |Stream(nals)| == |Encode(nals, l)| + |nals| * (4 - l)
  {
    if nals != [] {
      StreamLength(nals[1..], l);
      assert |nals| * (4 - l) == (|nals| - 1) * (4 - l) + (4 - l);
    }
  }

  /** `append_annex_b_nal`. */
  method AppendNal(output: Bytes, nal: Bytes, maxOutput: nat) returns (r: Result<Bytes, Error>)
    requires |output| + |nal| + 4 <= U64_MAX
    ensures r == if |output| + 4 + |nal| <= maxOutput then Ok(output + Stream([nal])) else Err(FallbackLimit)
  {
    var length := CheckedAdd(|output|, |START_CODE|);
    if length.None? {
      return Err(FallbackLimit);
    }
    length := CheckedAdd(length.value, |nal|);
    if length.None? || length.value > maxOutput {
      return Err(FallbackLimit);
    }
    assert Stream([nal]) == START_CODE + nal;
    assert output + START_CODE + nal == output + Stream([nal]);
    return Ok(output + START_CODE + nal);
  }

  /** The big-endian length; for at most four bytes neither checked operation can overflow. */
  method ReadLength(prefix: Bytes) returns (length: nat)
    requires |prefix| <= 4
    ensures length == BigEndian(prefix)
  {
    length := 0;
    var i := 0;
    while i < |prefix|
      invariant 0 <= i <= |prefix| && length == BigEndian(prefix[..i])
    {
      BigEndianBounded(prefix[..i]);
      PowerSmall(i);
      assert prefix[..i + 1][..i] == prefix[..i];
      var scaled := CheckedMul(length, 256);
      assert scaled.Some?;
      var next := CheckedAdd(scaled.value, prefix[i]);
      assert next.Some?;
      length := next.value;
      i := i + 1;
    }
    assert prefix[..i] == prefix;
  }

  lemma PowerSmall(l: nat)
    requires l <= 4
    ensures Power256(l) <= 0x1_0000_0000
  {
    assert Power256(1) == 256 && Power256(2) == 65536 && Power256(3) == 0x100_0000 && Power256(4) == 0x1_0000_0000;
  }

  /** Puts NALs already read in front of what remains to be parsed. */
  function Prepend(done: seq<Bytes>, rest: Option<seq<Bytes>>): Option<seq<Bytes>> {
    match rest
    case None => None
    case Some(nals) => Some(done + nals)
  }

  /** Why a conversion can fail: not a NAL list at all, or one that breaks a limit. */
  ghost predicate Convertible(input: Bytes, l: nat, maxNals: nat, maxOutput: nat) {
    && input != [] && PrefixSize(l) && Parse(input, l).Some?
    && |Parse(input, l).value| <= maxNals && |Stream(Parse(input, l).value)| <= maxOutput
  }

  /** Reads the unit at `cursor`: its length prefix, then its bytes. */
  method ReadNal(input: Bytes, cursor: nat, l: nat) returns (r: Result<nat, Error>)
    requires cursor < |input| <= U64_MAX / 8 && PrefixSize(l)
    ensures r.Err? ==> r == Err(FallbackDecode) && Parse(input[cursor..], l).None?
    ensures r.Ok? ==> && cursor + l < r.value <= |input|
                      && BigEndian(input[cursor..][..l]) == r.value - cursor - l
  {
    ghost var rest := input[cursor..];
    if cursor + l > |input| {
      return Err(FallbackDecode);
    }
    var lengthEnd := cursor + l;
    assert rest[..l] == input[cursor..lengthEnd];
    var length := ReadLength(input[cursor..lengthEnd]);
    if length == 0 {
      return Err(FallbackDecode);
    }
    if lengthEnd + length > |input| {
      return Err(FallbackDecode);
    }
    r := Ok(lengthEnd + length);
  }

  /**
   * `avcc_to_annex_b`: succeeds exactly on nonempty concatenations of nonempty length-prefixed NALs
   * within both limits, and then returns their byte stream.
   */
  method AvccToAnnexB(input: Bytes, l: nat, maxNals: nat, maxOutput: nat) returns (r: Result<Bytes, Error>)
    requires |input| <= U64_MAX / 8
    ensures r.Ok? <==> Convertible(input, l, maxNals, maxOutput)
    ensures r.Ok? ==> r.value == Stream(Parse(input, l).value)
    ensures input == [] || l !in {1, 2, 4} ==> r == Err(FallbackDecode)
    ensures r == Err(FallbackDecode) ==> input == [] || l !in {1, 2, 4} || Parse(input, l).None?
    ensures r.Ok? ==> l in {1, 2, 4} && |Parse(input, l).value| <= maxNals && |r.value| <= maxOutput
  {
    if input == [] || !PrefixSize(l) {
      return Err(FallbackDecode);
    }
    var cursor, nals := 0, 0;
    var output: Bytes := [];
    ghost var done: seq<Bytes> := [];
    assert input[cursor..] == input;
    assert Parse(input, l).Some? ==> done + Parse(input, l).value == Parse(input, l).value;
    while cursor < |input|
      invariant 0 <= cursor <= |input| && nals == |done| <= maxNals && |output| <= maxOutput
      invariant ReadSoFar(input, l, cursor, done, output)
    {
      var read := ReadNal(input, cursor, l);
      if read.Err? {
        return Err(read.error);
      }
      var nal := input[cursor + l..read.value];
      ReadStep(input, l, cursor, done, output, read.value);
      nals := nals + 1;
      if nals > maxNals {
        return Err(FallbackLimit);
      }
      var appended := AppendNal(output, nal, maxOutput);
      if appended.Err? {
        return Err(appended.error);
      }
      output := appended.value;
      done := done + [nal];
      cursor := read.value;
    }
    assert input[cursor..] == [];
    assert done + [] == done;
    if output == [] {
      return Err(FallbackDecode);
    }
    r := Ok(output);
  }

  /** `done` is what lies before the cursor, and `output` its byte stream. */
  ghost predicate ReadSoFar(input: Bytes, l: nat, cursor: nat, done: seq<Bytes>, output: Bytes)
    requires cursor <= |input| && l > 0
  {
    && output == Stream(done) && |output| <= 4 * cursor && (cursor > 0 ==> output != [])
    && Parse(input, l) == Prepend(done, Parse(input[cursor..], l))
  }

  lemma ReadStep(input: Bytes, l: nat, cursor: nat, done: seq<Bytes>, output: Bytes, end: nat)
    requires PrefixSize(l) && cursor + l < end <= |input| && BigEndian(input[cursor..][..l]) == end - cursor - l
    requires ReadSoFar(input, l, cursor, done, output)
    ensures var nal := input[cursor + l..end];
            && ReadSoFar(input, l, end, done + [nal], output + Stream([nal]))
            && |output| + |nal| + 4 <= 4 * end
            && (Parse(input, l).Some? ==>
                  && |Parse(input, l).value| >= |done| + 1
                  && |Stream(Parse(input, l).value)| >= |output| + 4 + |nal|)
  {
    var nal := input[cursor + l..end];
    ParseStep(input, input[cursor..], l, done, nal, input[end..]);
    StreamAppend(done, [nal]);
    StreamOne(nal);
  }

  lemma StreamOne(nal: Bytes)
    ensures Stream([nal]) == START_CODE + nal
  {
  }

  /** Reading one more NAL, and why a prefix that breaks a limit dooms the whole sample. */
  lemma ParseStep(input: Bytes, rest: Bytes, l: nat, done: seq<Bytes>, nal: Bytes, tail: Bytes)
    requires l > 0 && rest != [] && |rest| >= l && BigEndian(rest[..l]) == |nal| > 0
    requires l + |nal| <= |rest| && rest[l..l + |nal|] == nal && rest[l + |nal|..] == tail
    requires Parse(input, l) == Prepend(done, Parse(rest, l))
    ensures Parse(input, l) == Prepend(done + [nal], Parse(tail, l))
    ensures Parse(input, l).Some? ==>
              && |Parse(input, l).value| >= |done| + 1
              && |Stream(Parse(input, l).value)| >= |Stream(done)| + 4 + |nal|
  {
    if Parse(tail, l).Some? {
      var nals := Parse(tail, l).value;
      assert done + ([nal] + nals) == done + [nal] + nals;
      StreamAppend(done, [nal] + nals);
      assert ([nal] + nals)[1..] == nals;
      assert Stream([nal] + nals) == START_CODE + nal + Stream(nals);
    }
  }

  /** With four-byte prefixes the output is as long as the input, so a sample under its cap never breaks it. */
  lemma {:induction false} FourBytePrefixesKeepTheLength(input: Bytes, maxNals: nat, maxOutput: nat)
    requires |input| <= maxOutput && input != [] && Parse(input, 4).Some? && |Parse(input, 4).value| <= maxNals
    ensures Convertible(input, 4, maxNals, maxOutput) && |Stream(Parse(input, 4).value)| == |input|
  {
    EncodeInvertsParse(input, 4);
    StreamLength(Parse(input, 4).value, 4);
  }

  /** The output length in general: `4 - l` more bytes for each NAL. */
  lemma {:induction false} OutputLength(input: Bytes, l: nat)
    requires PrefixSize(l) && Parse(input, l).Some?
    ensures |Stream(Parse(input, l).value)| == |input| + |Parse(input, l).value| * (4 - l)
  {
    EncodeInvertsParse(input, l);
    StreamLength(Parse(input, l).value, l);
  }

  // ----- The B.1 splitter -----

  /** The three bytes that end a NAL unit: `00 00 00` or `00 00 01`. */
  predicate Boundary(s: Bytes, i: nat) {
    i + 3 <= |s| && s[i] == 0 && s[i + 1] == 0 && s[i + 2] <= 1
  }

  function NalEnd(s: Bytes, i: nat): (e: nat)
    requires i <= |s|
    ensures i <= e <= |s| && (e < |s| ==> Boundary(s, e))
    ensures forall j :: i <= j < e ==> !Boundary(s, j)
    decreases |s| - i
  {
    if i == |s| || Boundary(s, i) then i else NalEnd(s, i + 1)
  }

  /** First start-code prefix `00 00 01` at or after `i`. */
  function StartCode(s: Bytes, i: nat): (p: Option<nat>)
    requires i <= |s|
    ensures p.Some? ==> i <= p.value && p.value + 3 <= |s|
    decreases |s| - i
  {
    if i + 3 > |s| then None
    else if s[i] == 0 && s[i + 1] == 0 && s[i + 2] == 1 then Some(i)
    else StartCode(s, i + 1)
  }

  function Split(s: Bytes): seq<Bytes>
    decreases |s|
  {
    match StartCode(s, 0)
    case None => []
    case Some(p) =>
      var e := NalEnd(s, p + 3);
      [s[p + 3..e]] + Split(s[e..])
  }

  /** No `00 00 00` or `00 00 01` inside a NAL, and none formed with the start code that follows it. */
  ghost predicate Separate(nal: Bytes, last: bool) {
    && (forall i :: 0 <= i < |nal| - 2 ==> nal[i] != 0 || nal[i + 1] != 0 || nal[i + 2] > 1)
    && (!last && nal != [] ==> nal[|nal| - 1] != 0)
  }

  ghost predicate Recoverable(nals: seq<Bytes>) {
    forall i :: 0 <= i < |nals| ==> Separate(nals[i], i == |nals| - 1)
  }

  lemma FirstStartCode(nal: Bytes, rest: Bytes)
    ensures StartCode(START_CODE + nal + rest, 0) == Some(1)
  {
    var s := START_CODE + nal + rest;
    assert s[0] == 0 && s[1] == 0 && s[2] == 0 && s[3] == 1;
    assert StartCode(s, 1) == Some(1);
  }

  /** From `from` on, `s` is `nal` followed by nothing or by a start code. */
  ghost predicate UnitAt(s: Bytes, from: nat, nal: Bytes, last: bool) {
    && from + |nal| <= |s| && (last <==> from + |nal| == |s|)
    && (forall j :: from <= j < from + |nal| ==> s[j] == nal[j - from])
    && (!last ==> Boundary(s, from + |nal|) && s[from + |nal| + 2] == 0)
  }

  ghost predicate NoBoundary(s: Bytes, from: nat, to: nat) {
    forall j :: from <= j < to ==> !Boundary(s, j)
  }

  lemma SeparateHasNoBoundary(s: Bytes, from: nat, nal: Bytes, last: bool)
    requires UnitAt(s, from, nal, last) && Separate(nal, last)
    ensures NoBoundary(s, from, from + |nal|)
  {
    forall j | from <= j < from + |nal|
      ensures !Boundary(s, j)
    {
      var i := j - from;
      if i < |nal| - 2 {
        assert nal[i] != 0 || nal[i + 1] != 0 || nal[i + 2] > 1;
        assert s[from + (i + 1)] == nal[i + 1] && s[from + (i + 2)] == nal[i + 2];
      }
    }
  }

  lemma NoBoundaryIsSeparate(s: Bytes, from: nat, nal: Bytes, last: bool)
    requires UnitAt(s, from, nal, last) && NoBoundary(s, from, from + |nal|)
    ensures Separate(nal, last)
  {
    forall i | 0 <= i < |nal| - 2
      ensures nal[i] != 0 || nal[i + 1] != 0 || nal[i + 2] > 1
    {
      assert !Boundary(s, from + i);
      assert s[from + i] == nal[i] && s[from + (i + 1)] == nal[i + 1] && s[from + (i + 2)] == nal[i + 2];
    }
    if !last && nal != [] {
      assert !Boundary(s, from + (|nal| - 1));
    }
  }

  lemma NalEndIs(s: Bytes, from: nat, e: nat)
    requires from <= e <= |s| && (e < |s| ==> Boundary(s, e))
    ensures NalEnd(s, from) == e <==> NoBoundary(s, from, e)
  {
    var n := NalEnd(s, from);
    assert n < e ==> Boundary(s, n);
  }

  lemma FirstUnitAt(nal: Bytes, rest: Bytes)
    requires rest == [] || (|rest| >= 4 && rest[..4] == START_CODE)
    ensures UnitAt(START_CODE + nal + rest, 4, nal, rest == [])
  {
    var s := START_CODE + nal + rest;
    if rest != [] {
      assert rest[..4][0] == 0 && rest[..4][1] == 0 && rest[..4][2] == 0;
      assert s[4 + |nal|] == rest[0] && s[4 + |nal| + 1] == rest[1] && s[4 + |nal| + 2] == rest[2];
    }
  }

  /** The first unit ends where it should exactly when its NAL is separate from what follows. */
  lemma FirstUnitEnds(nal: Bytes, rest: Bytes)
    requires rest == [] || (|rest| >= 4 && rest[..4] == START_CODE)
    ensures NalEnd(START_CODE + nal + rest, 4) == 4 + |nal| <==> Separate(nal, rest == [])
  {
    var s, last := START_CODE + nal + rest, rest == [];
    FirstUnitAt(nal, rest);
    NalEndIs(s, 4, 4 + |nal|);
    if Separate(nal, last) {
      SeparateHasNoBoundary(s, 4, nal, last);
    } else if NoBoundary(s, 4, 4 + |nal|) {
      NoBoundaryIsSeparate(s, 4, nal, last);
    }
  }

  lemma StreamShape(nals: seq<Bytes>)
    ensures Stream(nals) == [] <==> nals == []
    ensures nals != [] ==> |Stream(nals)| >= 4 && Stream(nals)[..4] == START_CODE
  {
  }

  /** The splitter gives back exactly the NALs that were joined when, and only when, each is separate. */
  lemma {:induction false} SplitRecoversExactly(nals: seq<Bytes>)
    ensures Split(Stream(nals)) == nals <==> Recoverable(nals)
    decreases nals
  {
    if nals == [] {
    } else {
      var nal, rest := nals[0], Stream(nals[1..]);
      var s := Stream(nals);
      StreamShape(nals[1..]);
      FirstStartCode(nal, rest);
      FirstUnitEnds(nal, rest);
      SplitRecoversExactly(nals[1..]);
      var e := NalEnd(s, 4);
      assert s == START_CODE + nal + rest;
      assert Split(s) == [s[4..e]] + Split(s[e..]);
      assert nals == [nal] + nals[1..];
      if e == 4 + |nal| {
        assert s[4..e] == nal && s[e..] == rest;
        assert Split(s)[1..] == Split(rest);
        RecoverableTail(nals);
      } else {
        assert Split(s)[0] == s[4..e] && |s[4..e]| != |nal|;
        assert !Separate(nals[0], 0 == |nals| - 1);
      }
    }
  }

  lemma RecoverableTail(nals: seq<Bytes>)
    requires nals != []
    ensures Recoverable(nals) <==> Separate(nals[0], |nals| == 1) && Recoverable(nals[1..])
  {
    var tail := nals[1..];
    assert forall i :: 0 <= i < |tail| ==> tail[i] == nals[i + 1];
    if Separate(nals[0], |nals| == 1) && Recoverable(tail) {
      forall i | 0 <= i < |nals|
        ensures Separate(nals[i], i == |nals| - 1)
      {
        if i > 0 { assert Separate(tail[i - 1], i - 1 == |tail| - 1); }
      }
    }
    if Recoverable(nals) {
      forall i | 0 <= i < |tail|
        ensures Separate(tail[i], i == |tail| - 1)
      {
        assert Separate(nals[i + 1], i + 1 == |nals| - 1);
      }
    }
  }

  /** What reaches the decoder is what the sample held, for every sample whose NALs obey the standard. */
  lemma ConversionPreservesNals(input: Bytes, l: nat)
    requires PrefixSize(l) && Parse(input, l).Some? && Recoverable(Parse(input, l).value)
    ensures Split(Stream(Parse(input, l).value)) == Parse(input, l).value
    ensures Encode(Split(Stream(Parse(input, l).value)), l) == input
  {
    SplitRecoversExactly(Parse(input, l).value);
    EncodeInvertsParse(input, l);
  }
}
