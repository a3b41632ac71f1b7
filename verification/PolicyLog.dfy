/**
 * Site policies: validation and pinning, the normalised byte string that is hashed, and the
 * append-only revision log shared by any number of publishers.
 */
module PolicyLog {
  import opened Basics
  import opened Domain
  import ObjectKeys

  datatype Position = Center | TopLeft | TopRight | BottomLeft | BottomRight {
    function Name(): string {
      match this
      case Center => "center"
      case TopLeft => "top-left"
      case TopRight => "top-right"
      case BottomLeft => "bottom-left"
      case BottomRight => "bottom-right"
    }
  }

  /** `uploadId` is the identifier's sixteen raw bytes. */
  datatype Requested = Requested(uploadId: string, position: Position, margin: nat, widthPercent: nat,
                                 opacityPercent: nat)

  datatype Asset = Asset(uploadId: string, key: string, kind: MediaKind, state: UploadState, byteLen: nat,
                         contentType: Option<string>, sha256: Option<string>)

  datatype Watermark = Watermark(uploadId: string, key: string, byteLen: nat, sha256: string, position: Position,
                                 margin: nat, widthPercent: nat, opacityPercent: nat)
  {
    predicate Valid() {
      && |uploadId| == 16 && ObjectKeys.Valid(key) && 0 < byteLen <= MAX_ASSET_BYTES && ObjectKeys.LowerSha256(sha256)
      && margin <= 1024 && 1 <= widthPercent <= 50 && 1 <= opacityPercent <= 100
    }
  }

  const MAX_ASSET_BYTES: nat := 16 * 1024 * 1024
  const SCHEMA_VERSION: nat := 1
  const I64_MAX: nat := 0x7FFF_FFFF_FFFF_FFFF

  datatype Request = Request(tenant: string, schema: nat, revision: nat, issuedAt: int, watermark: Option<Requested>)

  datatype Snapshot = Snapshot(tenant: string, schema: nat, revision: nat, issuedAt: int, settingsSha256: string,
                               watermark: Option<Watermark>)

  datatype Error = InvalidTenant | InvalidPolicy | AssetNotFound | AssetRejected | RevisionConflict | Repository

  // ----- Validation -----

  function Distance(a: int, b: int): nat { if a < b then b - a else a - b }

  function EnvelopeError(r: Request, now: int, maxSkew: nat): Option<Error> {
    if !ObjectKeys.TenantValid(r.tenant) then Some(InvalidTenant)
    else if r.schema != SCHEMA_VERSION || r.revision == 0 || r.revision > I64_MAX
            || Distance(now, r.issuedAt) > maxSkew then
      Some(InvalidPolicy)
    else None
  }

  predicate SettingsOk(w: Requested) {
    w.margin <= 1024 && 1 <= w.widthPercent <= 50 && 1 <= w.opacityPercent <= 100
  }

  function ValidateAsset(a: Asset, w: Requested): Result<Watermark, Error> {
    if a.sha256.None? || !ObjectKeys.LowerSha256(a.sha256.value) then Err(AssetRejected)
    else if a.contentType.None? then Err(AssetRejected)
    else if a.uploadId != w.uploadId || a.kind != Image || a.state != Ready || a.byteLen == 0
            || a.byteLen > MAX_ASSET_BYTES
            || a.contentType.value !in {"image/jpeg", "image/png", "image/webp"} then Err(AssetRejected)
    else Ok(Watermark(a.uploadId, a.key, a.byteLen, a.sha256.value, w.position, w.margin, w.widthPercent,
                      w.opacityPercent))
  }

  /** The snapshot a request would publish, given the tenant's upload it names. */
  function Snap(hash: string -> string, r: Request, now: int, maxSkew: nat,
                asset: Option<Asset>): Result<Snapshot, Error>
  {
    var envelope := EnvelopeError(r, now, maxSkew);
    if envelope.Some? then Err(envelope.value)
    else if r.watermark.None? then
      Ok(Snapshot(r.tenant, r.schema, r.revision, r.issuedAt, hash(Normalised(None)), None))
    else if !SettingsOk(r.watermark.value) then Err(InvalidPolicy)
    else if asset.None? then Err(AssetNotFound)
    else
      match ValidateAsset(asset.value, r.watermark.value)
      case Err(e) => Err(e)
      case Ok(w) => Ok(Snapshot(r.tenant, r.schema, r.revision, r.issuedAt, hash(Normalised(Some(w))), Some(w)))
  }

  /** The same when the database may fail to answer about the asset. */
  function Snapped(hash: string -> string, r: Request, now: int, maxSkew: nat,
                   lookup: Option<Option<Asset>>): Result<Snapshot, Error>
  {
    var asked := EnvelopeError(r, now, maxSkew).None? && r.watermark.Some? && SettingsOk(r.watermark.value);
    if asked && lookup.None? then Err(Repository)
    else Snap(hash, r, now, maxSkew, if lookup.Some? then lookup.value else None)
  }

  // ----- The normalised byte string -----

  const DOMAIN := "g7mb-site-policy-settings-v1\0"

  /** Big-endian bytes, one character each. */
  function Be(n: nat, l: nat): (s: string)
    ensures |s| == l
  {
    var b := ToBigEndian(n, l);
    seq(l, i requires 0 <= i < l => b[i] as char)
  }

  lemma BeInjective(m: nat, n: nat, l: nat)
    requires m < Power256(l) && n < Power256(l) && Be(m, l) == Be(n, l)
    ensures m == n
  {
    var a, b := ToBigEndian(m, l), ToBigEndian(n, l);
    forall i | 0 <= i < l
      ensures a[i] == b[i]
    {
      assert Be(m, l)[i] == a[i] as char && Be(n, l)[i] == b[i] as char;
    }
    assert a == b;
    BigEndianInverts(m, l);
    BigEndianInverts(n, l);
  }

  /** Everything after the position name has fixed width. */
  function Tail(w: Watermark): (s: string)
    ensures |s| == 6
  {
    Be(w.margin, 4) + [(w.widthPercent % 256) as char, (w.opacityPercent % 256) as char]
  }

  function AfterKey(w: Watermark): string {
    Be(w.byteLen, 8) + (w.sha256 + (w.position.Name() + Tail(w)))
  }

  function Enabled(w: Watermark): string {
    w.uploadId + ("\0" + (w.key + ("\0" + AfterKey(w))))
  }

  /** The bytes fed to the hash, in order. */
  function Normalised(w: Option<Watermark>): string {
    DOMAIN + ("watermark\0" + (match w case None => "disabled\0" case Some(w) => "enabled\0" + Enabled(w)))
  }

  /** The layout field by field: numbers are big-endian, and no field but the two ids is terminated. */
  lemma NormalisedLayout(w: Watermark)
    requires w.Valid()
    ensures Normalised(None) == "g7mb-site-policy-settings-v1\0" + ("watermark\0" + "disabled\0")
    ensures var name := if w.position == Center then "center" else if w.position == TopLeft then "top-left"
                        else if w.position == TopRight then "top-right"
                        else if w.position == BottomLeft then "bottom-left" else "bottom-right";
            var settings := name + (Be(w.margin, 4) + [w.widthPercent as char, w.opacityPercent as char]);
            var asset := w.uploadId + ("\0" + (w.key + ("\0" + (Be(w.byteLen, 8) + (w.sha256 + settings)))));
            Normalised(Some(w)) == "g7mb-site-policy-settings-v1\0" + ("watermark\0" + ("enabled\0" + asset))
  {
    hide Be;
  }

  /** A number's bytes, most significant first. */
  lemma BeIsBigEndian(n: nat, l: nat) returns (b: Bytes)
    requires n < Power256(l)
    ensures |b| == l && BigEndian(b) == n && forall i :: 0 <= i < l ==> Be(n, l)[i] == b[i] as char
  {
    b := ToBigEndian(n, l);
    BigEndianInverts(n, l);
  }

  lemma SamePrefix(a: string, b: string, x: string, y: string)
    requires |a| == |b| && a + x == b + y
    ensures a == b && x == y
  {
    assert a == (a + x)[..|a|] && b == (b + y)[..|a|];
    assert x == (a + x)[|a|..] && y == (b + y)[|a|..];
  }

  /** A field without NUL ends at the first NUL. */
  lemma {:induction false} NulTerminated(a: string, b: string, x: string, y: string)
    requires '\0' !in a && '\0' !in b && a + ("\0" + x) == b + ("\0" + y)
    ensures a == b && x == y
    decreases a
  {
    var s, t := a + ("\0" + x), b + ("\0" + y);
    assert s[0] == (if a == "" then '\0' else a[0]) && t[0] == (if b == "" then '\0' else b[0]);
    assert a == "" <==> b == "";
    if a == "" {
      assert x == s[1..] && y == t[1..];
    } else {
      assert s[1..] == a[1..] + ("\0" + x) && t[1..] == b[1..] + ("\0" + y);
      NulTerminated(a[1..], b[1..], x, y);
    }
  }

  lemma KeyHasNoNul(key: string)
    requires ObjectKeys.Valid(key)
    ensures '\0' !in key
  {
    assert forall i :: 0 <= i < |key| ==> ObjectKeys.KeyChar(key[i]);
  }

  lemma NamesDiffer(p: Position, q: Position)
    requires |p.Name()| == |q.Name()|
    ensures p == q
  {
  }

  lemma TailInjective(v: Watermark, w: Watermark)
    requires v.Valid() && w.Valid() && Tail(v) == Tail(w)
    ensures v.margin == w.margin && v.widthPercent == w.widthPercent && v.opacityPercent == w.opacityPercent
  {
    SamePrefix(Be(v.margin, 4), Be(w.margin, 4), Tail(v)[4..], Tail(w)[4..]);
    assert Power256(2) == 65536;
    assert Power256(4) == 256 * (256 * Power256(2));
    BeInjective(v.margin, w.margin, 4);
    assert Tail(v)[4] == v.widthPercent as char && Tail(w)[4] == w.widthPercent as char;
    assert Tail(v)[5] == v.opacityPercent as char && Tail(w)[5] == w.opacityPercent as char;
  }

  lemma Power256Eight()
    ensures Power256(8) > MAX_ASSET_BYTES && Power256(4) > 1024
  {
    assert Power256(2) == 65536;
    assert Power256(4) == 256 * (256 * Power256(2));
    assert Power256(6) == 256 * (256 * Power256(4));
    assert Power256(8) == 256 * (256 * Power256(6));
  }

  lemma AfterKeyInjective(v: Watermark, w: Watermark)
    requires v.Valid() && w.Valid() && AfterKey(v) == AfterKey(w)
    ensures v.byteLen == w.byteLen && v.sha256 == w.sha256 && v.position == w.position && Tail(v) == Tail(w)
  {
    SamePrefix(Be(v.byteLen, 8), Be(w.byteLen, 8), v.sha256 + (v.position.Name() + Tail(v)),
               w.sha256 + (w.position.Name() + Tail(w)));
    Power256Eight();
    BeInjective(v.byteLen, w.byteLen, 8);
    SamePrefix(v.sha256, w.sha256, v.position.Name() + Tail(v), w.position.Name() + Tail(w));
    assert |v.position.Name() + Tail(v)| == |v.position.Name()| + 6;
    NamesDiffer(v.position, w.position);
    SamePrefix(v.position.Name(), w.position.Name(), Tail(v), Tail(w));
  }

  lemma EnabledInjective(v: Watermark, w: Watermark)
    requires v.Valid() && w.Valid() && Enabled(v) == Enabled(w)
    ensures v == w
  {
    SamePrefix(v.uploadId, w.uploadId, "\0" + (v.key + ("\0" + AfterKey(v))), "\0" + (w.key + ("\0" + AfterKey(w))));
    SamePrefix("\0", "\0", v.key + ("\0" + AfterKey(v)), w.key + ("\0" + AfterKey(w)));
    KeyHasNoNul(v.key);
    KeyHasNoNul(w.key);
    NulTerminated(v.key, w.key, AfterKey(v), AfterKey(w));
    AfterKeyInjective(v, w);
    TailInjective(v, w);
  }

  /** The byte string determines the settings: over valid watermarks and the disabled case it never collides. */
  lemma NormalisedInjective(v: Option<Watermark>, w: Option<Watermark>)
    requires (v.Some? ==> v.value.Valid()) && (w.Some? ==> w.value.Valid()) && Normalised(v) == Normalised(w)
    ensures v == w
  {
    var x := match v case None => "disabled\0" case Some(v) => "enabled\0" + Enabled(v);
    var y := match w case None => "disabled\0" case Some(w) => "enabled\0" + Enabled(w);
    SamePrefix(DOMAIN, DOMAIN, "watermark\0" + x, "watermark\0" + y);
    SamePrefix("watermark\0", "watermark\0", x, y);
    assert v.None? ==> x[0] == 'd';
    assert v.Some? ==> x[0] == 'e';
    assert w.None? ==> y[0] == 'd';
    assert w.Some? ==> y[0] == 'e';
    if v.Some? && w.Some? {
      SamePrefix("enabled\0", "enabled\0", Enabled(v.value), Enabled(w.value));
      EnabledInjective(v.value, w.value);
    }
  }

  // ----- The revision log -----

  datatype Key = Key(tenant: string, revision: nat)

  type Log = map<Key, Snapshot>

  /** The inserted revision must be the tenant's highest plus one, or one. */
  predicate IsNext(log: Log, tenant: string, revision: nat) {
    if forall k :: k in log ==> k.tenant != tenant then revision == 1
    else revision > 0 && Key(tenant, revision - 1) in log
         && forall k :: k in log && k.tenant == tenant ==> k.revision < revision
  }

  /** The conditional INSERT. */
  function Insert(log: Log, s: Snapshot): Log {
    var k := Key(s.tenant, s.revision);
    if IsNext(log, s.tenant, s.revision) && k !in log then log[k := s] else log
  }

  datatype Outcome = Published | Unchanged | Conflict

  /** The SELECT that follows an INSERT that added nothing. */
  function Compare(log: Log, s: Snapshot): Outcome {
    var k := Key(s.tenant, s.revision);
    if k in log && log[k].settingsSha256 == s.settingsSha256 then Unchanged else Conflict
  }

  datatype Publisher = Inserted(s: Snapshot, added: bool) | Answered(s: Snapshot, outcome: Outcome)

  datatype State = State(log: Log, publishers: map<nat, Publisher>)

  /** The two statements of one publication are separate steps, so publications interleave between them. */
  datatype Step = RunInsert(id: nat, s: Snapshot) | RunCompare(id: nat)

  function Apply(st: State, step: Step): State {
    match step
    case RunInsert(id, s) =>
      if id in st.publishers || s.revision > I64_MAX then st
      else
        var log := Insert(st.log, s);
        State(log, st.publishers[id := Inserted(s, log != st.log)])
    case RunCompare(id) =>
      if id !in st.publishers || !st.publishers[id].Inserted? then st
      else
        var p := st.publishers[id];
        st.(publishers := st.publishers[id := Answered(p.s, if p.added then Published else Compare(st.log, p.s))])
  }

  function Run(st: State, steps: seq<Step>): State
    decreases steps
  {
    if steps == [] then st else Run(Apply(st, steps[0]), steps[1..])
  }

  const INITIAL := State(map[], map[])

  /** One tenant's revisions are exactly `1..n`. */
  ghost predicate Dense(log: Log, tenant: string, n: nat) {
    forall r: nat :: Key(tenant, r) in log <==> 1 <= r <= n
  }

  ghost predicate Contiguous(log: Log, tenant: string) {
    exists n: nat :: Dense(log, tenant, n)
  }

  ghost predicate PublisherOk(log: Log, p: Publisher) {
    var k := Key(p.s.tenant, p.s.revision);
    match p
    case Inserted(s, added) => added ==> k in log && log[k] == s
    case Answered(s, outcome) =>
      && (outcome == Published ==> k in log && log[k] == s)
      && (outcome == Unchanged ==> k in log && log[k].settingsSha256 == s.settingsSha256)
  }

  ghost predicate Inv(st: State) {
    && (forall tenant :: Contiguous(st.log, tenant))
    && (forall k :: k in st.log ==> st.log[k].tenant == k.tenant && st.log[k].revision == k.revision)
    && (forall id :: id in st.publishers ==> PublisherOk(st.log, st.publishers[id]))
  }

  /** A dense tenant's next revision is the one after its last, and inserting it keeps the log dense. */
  lemma InsertKeepsDense(log: Log, s: Snapshot, tenant: string, n: nat)
    requires Dense(log, tenant, n)
    ensures Dense(Insert(log, s), tenant, n)
            || (s.tenant == tenant && s.revision == n + 1 && Dense(Insert(log, s), tenant, n + 1))
  {
    assert n > 0 ==> Key(tenant, 1) in log && Key(tenant, n) in log;
    if s.tenant == tenant && Insert(log, s) != log {
      assert s.revision == n + 1;
    }
  }

  lemma StepKeepsInv(st: State, step: Step)
    requires Inv(st)
    ensures Inv(Apply(st, step))
    ensures forall k :: k in st.log ==> k in Apply(st, step).log && Apply(st, step).log[k] == st.log[k]
  {
    if step.RunInsert? && Apply(st, step) != st {
      forall tenant
        ensures Contiguous(Apply(st, step).log, tenant)
      {
        assert Contiguous(st.log, tenant);
        var n: nat :| Dense(st.log, tenant, n);
        InsertKeepsDense(st.log, step.s, tenant, n);
      }
      forall id | id in st.publishers
        ensures PublisherOk(Apply(st, step).log, st.publishers[id])
      {
        assert PublisherOk(st.log, st.publishers[id]);
      }
    } else if step.RunCompare? && Apply(st, step) != st {
      assert PublisherOk(st.log, st.publishers[step.id]);
    }
  }

  lemma {:induction false} RunKeepsInv(st: State, steps: seq<Step>)
    requires Inv(st)
    ensures Inv(Run(st, steps))
    ensures forall k :: k in st.log ==> k in Run(st, steps).log && Run(st, steps).log[k] == st.log[k]
    decreases steps
  {
    if steps != [] {
      StepKeepsInv(st, steps[0]);
      RunKeepsInv(Apply(st, steps[0]), steps[1..]);
    }
  }

  lemma InitialInv()
    ensures Inv(INITIAL)
  {
    forall tenant
      ensures Contiguous(INITIAL.log, tenant)
    {
      assert Dense(INITIAL.log, tenant, 0);
    }
  }

  /** However publications interleave, each tenant's revisions are exactly `1..n`. */
  lemma {:induction false} RevisionsAreDense(steps: seq<Step>, tenant: string)
    ensures Contiguous(Run(INITIAL, steps).log, tenant)
  {
    InitialInv();
    RunKeepsInv(INITIAL, steps);
  }

  lemma {:induction false} RunAppend(st: State, a: seq<Step>, b: seq<Step>)
    ensures Run(st, a + b) == Run(Run(st, a), b)
    decreases a
  {
    if a == [] {
      assert a + b == b;
    } else {
      assert (a + b)[1..] == a[1..] + b;
      RunAppend(Apply(st, a[0]), a[1..], b);
    }
  }

  /** A revision pinned by a job resolves to the same snapshot for ever. */
  lemma PinnedRevisionIsStable(before: seq<Step>, after: seq<Step>, k: Key)
    requires k in Run(INITIAL, before).log
    ensures k in Run(INITIAL, before + after).log && Run(INITIAL, before + after).log[k] == Run(INITIAL, before).log[k]
  {
    InitialInv();
    RunKeepsInv(INITIAL, before);
    RunAppend(INITIAL, before, after);
    RunKeepsInv(Run(INITIAL, before), after);
  }

  ghost predicate InjectiveHash(hash: string -> string) {
    forall a, b :: hash(a) == hash(b) ==> a == b
  }

  /** A snapshot made by the service: its digest is the hash of its own valid settings. */
  ghost predicate Genuine(hash: string -> string, s: Snapshot) {
    (s.watermark.Some? ==> s.watermark.value.Valid()) && s.settingsSha256 == hash(Normalised(s.watermark))
  }

  ghost predicate AllGenuine(hash: string -> string, st: State) {
    && (forall k :: k in st.log ==> Genuine(hash, st.log[k]))
    && (forall id :: id in st.publishers ==> Genuine(hash, st.publishers[id].s))
  }

  lemma {:induction false} GenuineRun(hash: string -> string, st: State, steps: seq<Step>)
    requires AllGenuine(hash, st)
    requires forall i :: 0 <= i < |steps| && steps[i].RunInsert? ==> Genuine(hash, steps[i].s)
    ensures AllGenuine(hash, Run(st, steps))
    decreases steps
  {
    if steps != [] {
      assert steps[0].RunInsert? ==> Genuine(hash, steps[0].s);
      GenuineRun(hash, Apply(st, steps[0]), steps[1..]);
    }
  }

  /**
   * Whenever a publication is answered Published or Unchanged, the log holds the publisher's own
   * settings at that revision: under a hash without collisions, "unchanged" means identical settings.
   */
  lemma {:induction false} AnswersAreTruthful(hash: string -> string, steps: seq<Step>, id: nat)
    requires InjectiveHash(hash)
    requires forall i :: 0 <= i < |steps| && steps[i].RunInsert? ==> Genuine(hash, steps[i].s)
    requires id in Run(INITIAL, steps).publishers && Run(INITIAL, steps).publishers[id].Answered?
    requires Run(INITIAL, steps).publishers[id].outcome != Conflict
    ensures var st := Run(INITIAL, steps);
            var s := st.publishers[id].s;
            && Key(s.tenant, s.revision) in st.log && st.log[Key(s.tenant, s.revision)].watermark == s.watermark
            && (st.publishers[id].outcome == Published ==> st.log[Key(s.tenant, s.revision)] == s)
  {
    InitialInv();
    RunKeepsInv(INITIAL, steps);
    GenuineRun(hash, INITIAL, steps);
    var st := Run(INITIAL, steps);
    var s := st.publishers[id].s;
    assert PublisherOk(st.log, st.publishers[id]);
    var stored := st.log[Key(s.tenant, s.revision)];
    NormalisedInjective(stored.watermark, s.watermark);
  }

  /** Publishing a stored snapshot again changes nothing and answers Unchanged. */
  lemma {:induction false} ReplayIsUnchanged(steps: seq<Step>, s: Snapshot, id: nat)
    requires var log := Run(INITIAL, steps).log;
             Key(s.tenant, s.revision) in log && log[Key(s.tenant, s.revision)] == s
    requires id !in Run(INITIAL, steps).publishers && s.revision <= I64_MAX
    ensures var st := Run(INITIAL, steps);
            Run(st, [RunInsert(id, s), RunCompare(id)]) == State(st.log, st.publishers[id := Answered(s, Unchanged)])
  {
    var st := Run(INITIAL, steps);
    var st1 := Apply(st, RunInsert(id, s));
    assert st1 == State(st.log, st.publishers[id := Inserted(s, false)]);
    assert [RunInsert(id, s), RunCompare(id)][1..] == [RunCompare(id)] && [RunCompare(id)][1..] == [];
    assert Run(st1, [RunCompare(id)]) == Apply(st1, RunCompare(id));
    assert st.publishers[id := Inserted(s, false)][id := Answered(s, Unchanged)]
             == st.publishers[id := Answered(s, Unchanged)];
  }

  /**
   * The answers, exactly: in every run a publication is Published if and only if its revision is one
   * more than the tenant's last when its INSERT runs, and then exactly that snapshot is added. Later,
   * whatever others did in between, it is Unchanged if and only if the stored settings have its
   * digest, and a conflict otherwise.
   */
  lemma PublicationExactly(steps: seq<Step>, s: Snapshot, id: nat, between: seq<Step>, n: nat)
    requires id !in Run(INITIAL, steps).publishers && 1 <= s.revision <= I64_MAX
    requires forall r: nat :: Key(s.tenant, r) in Run(INITIAL, steps).log <==> 1 <= r <= n
    requires forall i :: 0 <= i < |between| ==> between[i].id != id
    ensures var st, k := Run(INITIAL, steps), Key(s.tenant, s.revision);
            var st1 := Run(st, [RunInsert(id, s)]);
            var st2 := Run(st1, between);
            && st1.log == (if s.revision == n + 1 then st.log[k := s] else st.log)
            && id in Apply(st2, RunCompare(id)).publishers
            && Apply(st2, RunCompare(id)).publishers[id]
               == Answered(s, if s.revision == n + 1 then Published
                              else if k in st2.log && st2.log[k].settingsSha256 == s.settingsSha256 then Unchanged
                              else Conflict)
  {
    var st, k := Run(INITIAL, steps), Key(s.tenant, s.revision);
    assert n > 0 ==> Key(s.tenant, n) in st.log;
    assert Key(s.tenant, s.revision - 1) in st.log <==> 1 <= s.revision - 1 <= n;
    assert forall other :: other in st.log && other.tenant == s.tenant ==> Key(s.tenant, other.revision) in st.log;
    assert [RunInsert(id, s)][1..] == [];
    var st1 := Apply(st, RunInsert(id, s));
    assert Run(st, [RunInsert(id, s)]) == st1;
    assert s.revision == n + 1 ==> k !in st.log;
    assert st1.log == (if s.revision == n + 1 then st.log[k := s] else st.log);
    InitialInv();
    RunKeepsInv(INITIAL, steps);
    OthersLeaveAlone(st1, between, id);
  }

  lemma {:induction false} OthersLeaveAlone(st: State, steps: seq<Step>, id: nat)
    requires id in st.publishers && forall i :: 0 <= i < |steps| ==> steps[i].id != id
    ensures id in Run(st, steps).publishers && Run(st, steps).publishers[id] == st.publishers[id]
    decreases steps
  {
    if steps != [] {
      assert steps[0].id != id;
      OthersLeaveAlone(Apply(st, steps[0]), steps[1..], id);
    }
  }

  // ----- The service -----

  class Service {
    const maxSkew: nat
    const hash: string -> string
    var log: Log

    constructor (maxSkew: nat, hash: string -> string)
      ensures this.maxSkew == maxSkew && this.hash == hash && log == map[]
    {
      this.maxSkew, this.hash, log := maxSkew, hash, map[];
    }

    /**
     * `publish` running alone. `lookup` is the database's answer about the watermark asset, if it
     * answers; `insert` the answer to the INSERT, whose effect a lost answer does not undo; `selects`
     * whether the SELECT that follows answers.
     */
    method Publish(r: Request, now: int, lookup: Option<Option<Asset>>, insert: Answer, selects: bool)
      returns (res: Result<(Snapshot, Outcome), Error>)
      modifies this
      ensures var wanted := Snapped(hash, r, now, maxSkew, lookup);
              if wanted.Err? then res == Err(wanted.error) && log == old(log)
              else
                var s := wanted.value;
                && log == (if insert.Refused? then old(log) else Insert(old(log), s))
                && (!insert.Done? ==> res == Err(Repository))
                && (insert.Done? && log != old(log) ==> res == Ok((s, Published)))
                && (insert.Done? && log == old(log) ==>
                      res == if !selects then Err(Repository)
                             else if Compare(log, s) == Unchanged then Ok((s, Unchanged)) else Err(RevisionConflict))
      ensures res.Ok? ==>
                && Key(r.tenant, r.revision) in log
                && log[Key(r.tenant, r.revision)].settingsSha256 == res.value.0.settingsSha256
                && (res.value.1 == Published ==> IsNext(old(log), r.tenant, r.revision))
    {
      var envelope := EnvelopeError(r, now, maxSkew);
      if envelope.Some? {
        return Err(envelope.value);
      }
      var watermark: Option<Watermark> := None;
      if r.watermark.Some? {
        if !SettingsOk(r.watermark.value) {
          return Err(InvalidPolicy);
        }
        if lookup.None? {
          return Err(Repository);
        }
        if lookup.value.None? {
          return Err(AssetNotFound);
        }
        var pinned := ValidateAsset(lookup.value.value, r.watermark.value);
        if pinned.Err? {
          return Err(pinned.error);
        }
        watermark := Some(pinned.value);
      }
      var s := Snapshot(r.tenant, r.schema, r.revision, r.issuedAt, hash(Normalised(watermark)), watermark);
      var k := Key(s.tenant, s.revision);
      var adds := IsNext(log, s.tenant, s.revision) && k !in log;
      if adds && !insert.Refused? {
        log := log[k := s];
      }
      if !insert.Done? {
        return Err(Repository);
      }
      if adds {
        return Ok((s, Published));
      }
      if !selects {
        return Err(Repository);
      }
      if k in log && log[k].settingsSha256 == s.settingsSha256 {
        return Ok((s, Unchanged));
      }
      return Err(RevisionConflict);
    }
  }

  /** What the service publishes is genuine: only validated assets and bounded settings are pinned. */
  lemma SnapIsGenuine(hash: string -> string, r: Request, now: int, maxSkew: nat, asset: Option<Asset>)
    requires Snap(hash, r, now, maxSkew, asset).Ok?
    requires asset.Some? ==> |asset.value.uploadId| == 16 && ObjectKeys.Valid(asset.value.key)
    ensures Genuine(hash, Snap(hash, r, now, maxSkew, asset).value)
  {
  }

  /** The named upload is the tenant's, a Ready image of a bounded size and an accepted type, with a digest. */
  ghost predicate Acceptable(a: Asset, w: Requested) {
    && a.uploadId == w.uploadId && a.kind == Image && a.state == Ready && 0 < a.byteLen <= 16 * 1024 * 1024
    && a.contentType in {Some("image/jpeg"), Some("image/png"), Some("image/webp")}
    && a.sha256.Some? && ObjectKeys.LowerSha256(a.sha256.value)
  }

  /**
   * Every request's outcome before the database is written: the first rule broken names the error,
   * and a snapshot pins the request's own settings, and the asset's own key, length and digest.
   */
  lemma SnapExactly(hash: string -> string, r: Request, now: int, maxSkew: nat, asset: Option<Asset>)
    ensures var res := Snap(hash, r, now, maxSkew, asset);
            if !Token(r.tenant, 64) then res == Err(InvalidTenant)
            else if r.schema != 1 || !(0 < r.revision < 0x8000_0000_0000_0000)
                    || now - r.issuedAt > maxSkew || r.issuedAt - now > maxSkew
            then res == Err(InvalidPolicy)
            else if r.watermark.None? then
              res == Ok(Snapshot(r.tenant, 1, r.revision, r.issuedAt, hash(Normalised(None)), None))
            else
              var w := r.watermark.value;
              if w.margin > 1024 || !(0 < w.widthPercent <= 50) || !(0 < w.opacityPercent <= 100)
              then res == Err(InvalidPolicy)
              else if asset.None? then res == Err(AssetNotFound)
              else if !Acceptable(asset.value, w) then res == Err(AssetRejected)
              else
                var pinned := Watermark(w.uploadId, asset.value.key, asset.value.byteLen, asset.value.sha256.value,
                                        w.position, w.margin, w.widthPercent, w.opacityPercent);
                res == Ok(Snapshot(r.tenant, 1, r.revision, r.issuedAt, hash(Normalised(Some(pinned))), Some(pinned)))
  {
  }
}
