/**
 * Server-owned object keys: validation, and the raw and derivative key layouts.
 * A string stands for its bytes, one character for each byte.
 */
module ObjectKeys {
  import opened Basics

  datatype KeyError = Empty | TooLong | Absolute | UnsafeSegment | UnsupportedCharacter

  predicate KeyChar(c: char) { TokenChar(c) || c == '/' || c == '.' }

  predicate LowerSha256(s: string) {
    |s| == 64 && forall i :: 0 <= i < |s| ==> Digit(s[i]) || 'a' <= s[i] <= 'f'
  }

  /** `str::split('/')`: always at least one segment. */
  function Segments(s: string): (parts: seq<string>)
    ensures |parts| >= 1
  {
    if s == "" then [""]
    else
      var rest := Segments(s[1..]);
      if s[0] == '/' then [""] + rest else [[s[0]] + rest[0]] + rest[1..]
  }

  predicate IsUnsafe(segment: string) {
    segment == "" || segment == "." || segment == ".."
  }

  function Validate(s: string): Result<(), KeyError> {
    if s == "" then Err(Empty)
    else if |s| > 1024 then Err(TooLong)
    else if s[0] == '/' then Err(Absolute)
    else if exists i :: 0 <= i < |Segments(s)| && IsUnsafe(Segments(s)[i]) then Err(UnsafeSegment)
    else if exists i :: 0 <= i < |s| && !KeyChar(s[i]) then Err(UnsupportedCharacter)
    else Ok(())
  }

  predicate Valid(s: string) { Validate(s).Ok? }

  /** A segment free of separators stays whole in front of a separator. */
  lemma {:induction false} SegmentsOfPath(head: string, tail: string)
    requires '/' !in head
    ensures Segments(head + "/" + tail) == [head] + Segments(tail)
  {
    var s := head + "/" + tail;
    if head == "" {
      assert s[1..] == tail;
    } else {
      SegmentsOfPath(head[1..], tail);
      assert s[1..] == head[1..] + "/" + tail;
      assert [head[0]] + head[1..] == head;
    }
  }

  lemma {:induction false} SegmentsOfWord(word: string)
    requires '/' !in word
    ensures Segments(word) == [word]
  {
    if word != "" {
      SegmentsOfWord(word[1..]);
      assert [word[0]] + word[1..] == word;
    }
  }

  /** Segments joined by separators. */
  function Path(parts: seq<string>): string
    requires |parts| >= 1
  {
    if |parts| == 1 then parts[0] else parts[0] + "/" + Path(parts[1..])
  }

  ghost predicate Separable(parts: seq<string>) {
    |parts| >= 1 && forall i :: 0 <= i < |parts| ==> '/' !in parts[i]
  }

  /** Splitting undoes joining, so a path determines its segments. */
  lemma {:induction false} SegmentsOfJoin(parts: seq<string>)
    requires Separable(parts)
    ensures Segments(Path(parts)) == parts
  {
    if |parts| == 1 {
      SegmentsOfWord(parts[0]);
    } else {
      SegmentsOfJoin(parts[1..]);
      SegmentsOfPath(parts[0], Path(parts[1..]));
    }
  }

  /** A segment that is neither empty nor a dot path and uses only key characters. */
  predicate CleanSegment(s: string) {
    !IsUnsafe(s) && forall i :: 0 <= i < |s| ==> KeyChar(s[i]) && s[i] != '/'
  }

  function Lengths(parts: seq<string>): nat {
    if parts == [] then 0 else |parts[0]| + 1 + Lengths(parts[1..])
  }

  lemma LengthsUnfold(parts: seq<string>)
    requires |parts| >= 2
    ensures Lengths(parts) == |parts[0]| + |parts[1]| + 2 + Lengths(parts[2..])
  {
    assert parts[1..][1..] == parts[2..];
  }

  lemma {:induction false} PathChars(parts: seq<string>)
    requires |parts| >= 1 && forall i :: 0 <= i < |parts| ==> CleanSegment(parts[i])
    ensures |Path(parts)| + 1 == Lengths(parts)
    ensures forall i :: 0 <= i < |Path(parts)| ==> KeyChar(Path(parts)[i])
    ensures parts[0] != "" && Path(parts) != "" && Path(parts)[0] == parts[0][0]
  {
    assert CleanSegment(parts[0]);
    if |parts| > 1 {
      PathChars(parts[1..]);
    } else {
      assert Lengths(parts[1..]) == 0;
    }
  }

  lemma PathValid(parts: seq<string>)
    requires |parts| >= 1 && forall i :: 0 <= i < |parts| ==> CleanSegment(parts[i])
    requires Lengths(parts) <= 1025
    ensures Valid(Path(parts))
  {
    PathChars(parts);
    SegmentsOfJoin(parts);
    var s := Path(parts);
    assert Segments(s) == parts && s[0] == parts[0][0] && CleanSegment(parts[0]);
    assert forall i :: 0 <= i < |parts| ==> !IsUnsafe(parts[i]);
  }

  lemma TokenIsClean(s: string, n: nat)
    requires Token(s, n)
    ensures CleanSegment(s)
  {
    assert TokenChar(s[0]);
  }

  // ----- Upload identifiers, presets and the two key layouts -----

  /** Hyphenated lower-case UUID text. */
  predicate UploadIdText(s: string) {
    |s| == 36 && Token(s, 36)
  }

  predicate TenantValid(s: string) { Token(s, 64) }

  /** Watermark identity carried by a preset name. */
  datatype PresetWatermark = PresetWatermark(revision: string, assetSha256: string) {
    predicate Valid() { Token(revision, 32) && LowerSha256(assetSha256) }
  }

  function PresetId(watermark: Option<PresetWatermark>): string {
    match watermark
    case None => "board-default-v1"
    case Some(w) => "board-default-v1-wm-" + w.revision + "-" + w.assetSha256
  }

  lemma PresetIdIsToken(watermark: Option<PresetWatermark>)
    requires watermark.Some? ==> watermark.value.Valid()
    ensures Token(PresetId(watermark), 117)
  {
    if watermark.Some? {
      var p, q := "board-default-v1-wm-", "board-default-v1-wm-" + watermark.value.revision;
      assert forall i :: 0 <= i < |p| ==> TokenChar(p[i]);
      assert forall i :: 0 <= i < |q| ==> TokenChar(q[i]);
      assert forall i :: 0 <= i < |q + "-"| ==> TokenChar((q + "-")[i]);
      assert PresetId(watermark) == q + "-" + watermark.value.assetSha256;
    } else {
      assert forall i :: 0 <= i < |"board-default-v1"| ==> TokenChar("board-default-v1"[i]);
    }
  }

  datatype File = MasterJpg | MasterMp4 | MasterMov | MasterWebm | ThumbnailJpg {
    function Name(): string {
      match this
      case MasterJpg => "master.jpg"
      case MasterMp4 => "master.mp4"
      case MasterMov => "master.mov"
      case MasterWebm => "master.webm"
      case ThumbnailJpg => "thumbnail.jpg"
    }
  }

  /** A derivative key before it is rendered as text. */
  datatype DerivativeKey = DerivativeKey(tenant: string, upload: string, digest: string, preset: string, file: File) {
    function Parts(): seq<string> { ["media", tenant, upload, digest, preset, file.Name()] }

    function Text(): string { Path(Parts()) }

    ghost predicate WellFormed() {
      TenantValid(tenant) && UploadIdText(upload) && LowerSha256(digest) && Token(preset, 117)
    }
  }

  function RawParts(tenant: string, upload: string): seq<string> { ["raw", tenant, upload, "source"] }

  function RawKey(tenant: string, upload: string): string { Path(RawParts(tenant, upload)) }

  lemma FileNamesClean(f: File)
    ensures CleanSegment(f.Name()) && |f.Name()| <= 13
  {
  }

  lemma FileNamesDistinct(f: File, g: File)
    requires f.Name() == g.Name()
    ensures f == g
  {
    var n := f.Name();
    assert |n| == 10 ==> n[7] == 'j' || n[8] == 'p' || n[8] == 'o';
    assert f.MasterJpg? ==> n[7] == 'j';
    assert f.MasterMp4? ==> n[7] == 'm' && n[8] == 'p';
    assert f.MasterMov? ==> n[7] == 'm' && n[8] == 'o';
  }

  lemma DerivativePartsClean(k: DerivativeKey)
    requires k.WellFormed()
    ensures forall i :: 0 <= i < |k.Parts()| ==> CleanSegment(k.Parts()[i])
    ensures Lengths(k.Parts()) <= 1025
  {
    TokenIsClean(k.tenant, 64);
    TokenIsClean(k.upload, 36);
    TokenIsClean(k.preset, 117);
    FileNamesClean(k.file);
    assert CleanSegment("media");
    var parts := k.Parts();
    LengthsUnfold(parts);
    LengthsUnfold(parts[2..]);
    LengthsUnfold(parts[2..][2..]);
  }

  /** Key construction in the worker never fails: every derivative key passes validation. */
  lemma DerivativeKeyAlwaysValid(k: DerivativeKey)
    requires k.WellFormed()
    ensures Valid(k.Text())
  {
    DerivativePartsClean(k);
    PathValid(k.Parts());
  }

  /** Different structured keys render differently, so no two uploads can share an object. */
  lemma DerivativeKeyInjective(k: DerivativeKey, l: DerivativeKey)
    requires k.WellFormed() && l.WellFormed() && k.Text() == l.Text()
    ensures k == l
  {
    DerivativePartsClean(k);
    DerivativePartsClean(l);
    SegmentsOfJoin(k.Parts());
    SegmentsOfJoin(l.Parts());
    var p, q := k.Parts(), l.Parts();
    assert p[1] == q[1] && p[2] == q[2] && p[3] == q[3] && p[4] == q[4] && p[5] == q[5];
    FileNamesDistinct(k.file, l.file);
  }

  lemma RawPartsClean(tenant: string, upload: string)
    requires TenantValid(tenant) && UploadIdText(upload)
    ensures forall i :: 0 <= i < 4 ==> CleanSegment(RawParts(tenant, upload)[i])
    ensures Lengths(RawParts(tenant, upload)) <= 1025
  {
    TokenIsClean(tenant, 64);
    TokenIsClean(upload, 36);
    assert CleanSegment("raw") && CleanSegment("source");
    var parts := RawParts(tenant, upload);
    LengthsUnfold(parts);
    LengthsUnfold(parts[2..]);
  }

  /** Raw keys always validate, determine their upload, and never collide with a derivative key. */
  lemma RawKeyFacts(tenant: string, upload: string, tenant': string, upload': string, k: DerivativeKey)
    requires TenantValid(tenant) && UploadIdText(upload)
    requires TenantValid(tenant') && UploadIdText(upload') && k.WellFormed()
    ensures Valid(RawKey(tenant, upload))
    ensures RawKey(tenant, upload) == RawKey(tenant', upload') ==> tenant == tenant' && upload == upload'
    ensures RawKey(tenant, upload) != k.Text()
  {
    RawPartsClean(tenant, upload);
    RawPartsClean(tenant', upload');
    DerivativePartsClean(k);
    PathValid(RawParts(tenant, upload));
    SegmentsOfJoin(RawParts(tenant, upload));
    SegmentsOfJoin(RawParts(tenant', upload'));
    SegmentsOfJoin(k.Parts());
    var p, q := RawParts(tenant, upload), RawParts(tenant', upload');
    assert p == q ==> p[1] == q[1] && p[2] == q[2];
    assert |p| != |k.Parts()|;
  }
}
