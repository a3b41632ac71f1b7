/**
 * Derivative delivery: a manifest cache with coalesced loads in front of mutable upload rows.
 * Any cache entry may vanish at any time, and a load may store its result after an invalidation.
 */
module Delivery {
  import opened Basics
  import opened Domain
  import opened ObjectKeys
  import Inventory

  datatype Stored = Stored(preset: string, variant: string, key: string, contentType: string, byteLen: nat)

  datatype Row = Row(state: UploadState, deleteRequested: bool, derivatives: seq<Stored>)

  datatype ManifestKey = ManifestKey(tenant: string, upload: string)

  /** `used` remembers every key ever reserved: upload identifiers are random and never come back. */
  datatype Db = Db(rows: map<ManifestKey, Row>, used: set<ManifestKey>)

  datatype Snapshot = Snapshot(state: UploadState, deletionPending: bool, derivatives: seq<Stored>)

  datatype Manifest = Manifest(derivatives: seq<Stored>)

  datatype Error = InvalidTenant | InvalidVariant | NotFound | NotReady | Repository
                 | ObjectStore | UntrustedRedirect

  // ----- Repository reads -----

  /** `find_status`: derivatives of an upload being deleted are withheld. */
  function FindStatus(db: Db, k: ManifestKey): (r: Option<Snapshot>)
    ensures r.Some? <==> k in db.rows
    ensures r.Some? && (db.rows[k].deleteRequested || db.rows[k].state == Deleted) ==> r.value.derivatives == []
  {
    if k !in db.rows then None
    else
      var r := db.rows[k];
      var pending := r.deleteRequested && r.state != Deleted;
      Some(Snapshot(r.state, pending, if pending || r.state == Deleted then [] else r.derivatives))
  }

  /** `is_delivery_allowed`. */
  function DeliveryAllowed(db: Db, k: ManifestKey): Option<bool> {
    if k !in db.rows then None else Some(db.rows[k].state == Ready && !db.rows[k].deleteRequested)
  }

  // ----- Manifests -----

  function CountVariant(ds: seq<Stored>, variant: string): nat {
    if ds == [] then 0 else (if ds[0].variant == variant then 1 else 0) + CountVariant(ds[1..], variant)
  }

  predicate ItemOk(d: Stored, preset: string) {
    && d.byteLen > 0 && Token(d.preset, 128) && d.preset == preset
    && (if d.variant == "master" then d.contentType in {"image/jpeg", "video/mp4", "video/quicktime"}
        else d.variant == "thumbnail" && d.contentType == "image/jpeg")
  }

  function FromStatus(status: Snapshot): (r: Result<Manifest, Error>)
    ensures r.Err? ==> r.error == NotReady
  {
    if status.state != Ready || status.deletionPending || |status.derivatives| != 2 then Err(NotReady)
    else
      var ds := status.derivatives;
      var valid := CountVariant(ds, "master") == 1 && CountVariant(ds, "thumbnail") == 1
                   && forall i :: 0 <= i < |ds| ==> ItemOk(ds[i], ds[0].preset);
      if valid then Ok(Manifest(ds)) else Err(NotReady)
  }

  /** A master and a thumbnail of one preset, both deliverable. */
  ghost predicate Pair(m: Stored, t: Stored) {
    && m.variant == "master" && t.variant == "thumbnail" && m.preset == t.preset && Token(m.preset, 128)
    && m.byteLen > 0 && t.byteLen > 0 && t.contentType == "image/jpeg"
    && m.contentType in {"image/jpeg", "video/mp4", "video/quicktime"}
  }

  lemma CountPair(a: Stored, b: Stored, variant: string)
    ensures CountVariant([a, b], variant)
              == (if a.variant == variant then 1 else 0) + (if b.variant == variant then 1 else 0)
  {
    assert [a, b][1..] == [b];
    assert CountVariant([b], variant) == (if b.variant == variant then 1 else 0) + CountVariant([], variant);
  }

  /** A snapshot is deliverable exactly when it is Ready, stays, and lists one such pair in either order. */
  lemma FromStatusExactly(status: Snapshot)
    ensures FromStatus(status).Ok? <==>
      (&& status.state == Ready && !status.deletionPending
       && exists m, t :: Pair(m, t) && (status.derivatives == [m, t] || status.derivatives == [t, m]))
  {
    var ds := status.derivatives;
    if |ds| == 2 {
      assert ds == [ds[0], ds[1]];
      CountPair(ds[0], ds[1], "master");
      CountPair(ds[0], ds[1], "thumbnail");
      if FromStatus(status).Ok? {
        assert ItemOk(ds[0], ds[0].preset) && ItemOk(ds[1], ds[0].preset);
        assert Pair(ds[0], ds[1]) || Pair(ds[1], ds[0]);
      }
      assert "master" != "thumbnail" by { assert |"master"| == 6; }
    }
  }

  /** First derivative of the variant. */
  function Find(ds: seq<Stored>, variant: string): Option<Stored> {
    if ds == [] then None else if ds[0].variant == variant then Some(ds[0]) else Find(ds[1..], variant)
  }

  /** What a request answers once it holds a manifest and the guard has let it pass. */
  function Select(m: Manifest, preset: Option<string>, variant: string): Result<Stored, Error> {
    match Find(m.derivatives, variant)
    case None => Err(NotFound)
    case Some(d) => if preset.Some? && d.preset != preset.value then Err(NotFound) else Ok(d)
  }

  function LoadManifest(db: Db, k: ManifestKey): (r: Result<Manifest, Error>)
    ensures r.Err? ==> r.error == NotFound || r.error == NotReady
  {
    match FindStatus(db, k)
    case None => Err(NotFound)
    case Some(status) => FromStatus(status)
  }

  /** The service without a cache: one consistent read of the rows answers everything. */
  function Lookup(db: Db, k: ManifestKey, preset: Option<string>, variant: string): Result<Stored, Error> {
    match LoadManifest(db, k)
    case Err(e) => Err(e)
    case Ok(m) => Select(m, preset, variant)
  }

  /** The derivative a request asks for: listed, of its variant, and of its preset if it names one. */
  ghost predicate Wanted(row: Row, preset: Option<string>, variant: string, d: Stored) {
    d in row.derivatives && d.variant == variant && (preset.Some? ==> d.preset == preset.value)
  }

  /** A Ready row that stays and lists exactly one deliverable master and thumbnail of one preset. */
  ghost predicate Deliverable(row: Row) {
    && row.state == Ready && !row.deleteRequested
    && exists m, t :: Pair(m, t) && (row.derivatives == [m, t] || row.derivatives == [t, m])
  }

  lemma SelectExactly(m: Manifest, preset: Option<string>, variant: string, a: Stored, b: Stored)
    requires m.derivatives == [a, b] && a.variant != b.variant && a.preset == b.preset
    ensures forall d :: Select(m, preset, variant) == Ok(d) <==>
                        d in m.derivatives && d.variant == variant && (preset.Some? ==> d.preset == preset.value)
    ensures Select(m, preset, variant).Err? ==> Select(m, preset, variant).error == NotFound
  {
    assert [a, b][1..] == [b] && [b][1..] == [];
    assert Find([b], variant) == if b.variant == variant then Some(b) else Find([], variant);
  }

  /**
   * The uncached service: it serves exactly the derivative wanted from a deliverable row, and says
   * NotFound for a missing row or an unwanted preset and NotReady for everything else.
   */
  lemma LookupExactly(db: Db, k: ManifestKey, preset: Option<string>, variant: string)
    ensures var r := Lookup(db, k, preset, variant);
            && (forall d :: r == Ok(d) <==>
                  k in db.rows && Deliverable(db.rows[k]) && Wanted(db.rows[k], preset, variant, d))
            && (r == Err(NotFound) <==>
                  k !in db.rows || (Deliverable(db.rows[k]) && forall d :: !Wanted(db.rows[k], preset, variant, d)))
            && (r.Err? ==> r.error == NotFound || r.error == NotReady)
  {
    if k in db.rows {
      var status := FindStatus(db, k).value;
      FromStatusExactly(status);
      var row := db.rows[k];
      if FromStatus(status).Ok? {
        var m, t :| Pair(m, t) && (status.derivatives == [m, t] || status.derivatives == [t, m]);
        assert Deliverable(row);
        assert "master" != "thumbnail" by { assert |"master"| == 6; }
        SelectExactly(Manifest(row.derivatives), preset, variant, row.derivatives[0], row.derivatives[1]);
        var r := Select(Manifest(row.derivatives), preset, variant);
        if r.Ok? { assert Wanted(row, preset, variant, r.value); }
      } else {
        assert !Deliverable(row);
      }
    }
  }

  /** The answer given at the guard for a manifest held since some earlier moment. */
  function GuardAnswer(db: Db, k: ManifestKey, m: Manifest, preset: Option<string>,
                       variant: string): Result<Stored, Error>
  {
    match DeliveryAllowed(db, k)
    case None => Err(NotFound)
    case Some(false) => Err(NotReady)
    case Some(true) => Select(m, preset, variant)
  }

  /**
   * The row can still be served by `m`: it is Ready and lists the derivatives of `m`, or it is gone
   * for good. Without `steady` publication it may also have come to list more besides.
   */
  ghost predicate Fits(steady: bool, db: Db, k: ManifestKey, m: Manifest) {
    && k in db.used && FromStatus(Snapshot(Ready, false, m.derivatives)) == Ok(m)
    && (k in db.rows ==> || db.rows[k].state == Deleted
                         || (&& db.rows[k].state == Ready
                             && (|| db.rows[k].derivatives == m.derivatives
                                 || (&& !steady && |db.rows[k].derivatives| > 2
                                     && forall d :: d in m.derivatives ==> d in db.rows[k].derivatives))))
  }

  ghost predicate DbOk(db: Db) {
    db.rows.Keys <= db.used
  }

  lemma LoadedFits(steady: bool, db: Db, k: ManifestKey)
    requires DbOk(db) && LoadManifest(db, k).Ok?
    ensures Fits(steady, db, k, LoadManifest(db, k).value)
  {
  }

  /** A deliverable row that has gained derivatives since a manifest of it was made. */
  predicate Diverged(db: Db, k: ManifestKey) {
    DeliveryAllowed(db, k) == Some(true) && |db.rows[k].derivatives| != 2
  }

  /** With a manifest that fits, the guarded answer is the uncached one exactly while the row lists two derivatives. */
  lemma GuardIsLookupExactly(steady: bool, db: Db, k: ManifestKey, m: Manifest, preset: Option<string>, variant: string)
    requires Fits(steady, db, k, m)
    ensures GuardAnswer(db, k, m, preset, variant) == Lookup(db, k, preset, variant) <==> !Diverged(db, k)
    ensures steady ==> !Diverged(db, k)
  {
    if DeliveryAllowed(db, k) == Some(true) && |db.rows[k].derivatives| == 2 {
      assert m.derivatives == db.rows[k].derivatives;
    }
  }

  /**
   * Past the guard a request is served only a derivative it wanted and the row still lists, and from
   * a deliverable row it gets that derivative if there is one.
   */
  lemma GuardServesWanted(steady: bool, db: Db, k: ManifestKey, m: Manifest, preset: Option<string>, variant: string)
    requires Fits(steady, db, k, m)
    ensures var r := GuardAnswer(db, k, m, preset, variant);
            && (r.Ok? ==> && k in db.rows && db.rows[k].state == Ready && !db.rows[k].deleteRequested
                          && Wanted(db.rows[k], preset, variant, r.value))
            && (k in db.rows && Deliverable(db.rows[k]) ==>
                  && (forall d :: r == Ok(d) <==> Wanted(db.rows[k], preset, variant, d))
                  && (r.Ok? || r == Err(NotFound)))
            && (k !in db.rows ==> r == Err(NotFound))
            && (k in db.rows && (db.rows[k].state != Ready || db.rows[k].deleteRequested) ==> r == Err(NotReady))
  {
    var snapshot := Snapshot(Ready, false, m.derivatives);
    FromStatusExactly(snapshot);
    var master, thumb :| Pair(master, thumb) && (m.derivatives == [master, thumb] || m.derivatives == [thumb, master]);
    assert "master" != "thumbnail" by { assert |"master"| == 6; }
    SelectExactly(m, preset, variant, m.derivatives[0], m.derivatives[1]);
  }

  // ----- Changes to the rows -----

  predicate SameIdentity(a: Stored, b: Stored) { a.preset == b.preset && a.variant == b.variant }

  /** The order in which `find_status` lists derivatives. */
  predicate ListedBefore(a: Stored, b: Stored) {
    Inventory.Less(a.preset, b.preset) || (a.preset == b.preset && Inventory.Less(a.variant, b.variant))
  }

  function Insert(ds: seq<Stored>, d: Stored): (r: seq<Stored>)
    ensures |r| == |ds| + 1 && forall x :: x in r <==> x in ds || x == d
  {
    if ds == [] || ListedBefore(d, ds[0]) then [d] + ds else [ds[0]] + Insert(ds[1..], d)
  }

  /** The listing after one publication, or None when a row conflicts with what is stored. */
  function Merge(ds: seq<Stored>, more: seq<Stored>): (r: Option<seq<Stored>>)
    ensures r.Some? ==> r.value == ds || |r.value| > |ds|
    ensures r.Some? ==> forall x :: x in r.value <==> x in ds || x in more
    decreases |more|
  {
    if more == [] then Some(ds)
    else if exists i :: 0 <= i < |ds| && SameIdentity(ds[i], more[0]) then
      if more[0] in ds then Merge(ds, more[1..]) else None
    else Merge(Insert(ds, more[0]), more[1..])
  }

  /** No two different rows share an identity. */
  ghost predicate Coherent(ds: seq<Stored>) {
    forall x, y :: x in ds && y in ds && SameIdentity(x, y) ==> x == y
  }

  /** A publication is accepted exactly if its rows agree with each other and with what is stored. */
  lemma {:induction false} MergeExactly(ds: seq<Stored>, more: seq<Stored>)
    requires Coherent(ds)
    ensures Merge(ds, more).Some? <==> Coherent(ds + more)
    decreases |more|
  {
    if more == [] {
      assert ds + more == ds;
    } else {
      var d, rest := more[0], more[1..];
      assert forall x :: x in ds + more <==> x in ds || x == d || x in rest;
      if exists i :: 0 <= i < |ds| && SameIdentity(ds[i], d) {
        var i :| 0 <= i < |ds| && SameIdentity(ds[i], d);
        assert ds[i] in ds && ds[i] in ds + more && d in ds + more;
        if d in ds {
          MergeExactly(ds, rest);
          assert forall x :: x in ds + more <==> x in ds + rest;
        }
      } else {
        var longer := Insert(ds, d);
        assert forall x :: x in ds ==> !SameIdentity(x, d) && !SameIdentity(d, x);
        MergeExactly(longer, rest);
        assert forall x :: x in ds + more <==> x in longer + rest;
      }
    }
  }

  /** Listed by preset and then by variant, each identity once. */
  ghost predicate InOrder(ds: seq<Stored>) {
    forall i, j :: 0 <= i < j < |ds| ==>
      || Inventory.Less(ds[i].preset, ds[j].preset)
      || (ds[i].preset == ds[j].preset && Inventory.Less(ds[i].variant, ds[j].variant))
  }

  lemma {:induction false} InsertKeepsOrder(ds: seq<Stored>, d: Stored)
    requires InOrder(ds) && forall x :: x in ds ==> !SameIdentity(x, d)
    ensures InOrder(Insert(ds, d))
    decreases ds
  {
    var r := Insert(ds, d);
    if ds != [] && !ListedBefore(d, ds[0]) {
      var rest := Insert(ds[1..], d);
      InsertKeepsOrder(ds[1..], d);
      assert !SameIdentity(ds[0], d);
      Inventory.LessTotal(ds[0].preset, d.preset);
      Inventory.LessTotal(ds[0].variant, d.variant);
      forall j | 0 <= j < |rest|
        ensures ListedBefore(ds[0], rest[j])
      {
        assert rest[j] in rest;
        if rest[j] in ds[1..] {
          var k :| 0 <= k < |ds[1..]| && ds[1..][k] == rest[j];
          assert ds[k + 1] == rest[j];
        }
      }
    } else if ds != [] {
      forall j | 0 <= j < |ds|
        ensures ListedBefore(d, ds[j])
      {
        if j > 0 { ListedTransitive(d, ds[0], ds[j]); }
      }
    }
  }

  lemma ListedTransitive(a: Stored, b: Stored, c: Stored)
    requires ListedBefore(a, b) && ListedBefore(b, c)
    ensures ListedBefore(a, c)
  {
    if Inventory.Less(a.preset, b.preset) && Inventory.Less(b.preset, c.preset) {
      Inventory.LessTransitive(a.preset, b.preset, c.preset);
    }
    if Inventory.Less(a.variant, b.variant) && Inventory.Less(b.variant, c.variant) {
      Inventory.LessTransitive(a.variant, b.variant, c.variant);
    }
  }

  /** However often rows are published, the listing stays in order. */
  lemma {:induction false} MergeKeepsOrder(ds: seq<Stored>, more: seq<Stored>)
    requires InOrder(ds) && Merge(ds, more).Some?
    ensures InOrder(Merge(ds, more).value)
    decreases |more|
  {
    if more != [] {
      if exists i :: 0 <= i < |ds| && SameIdentity(ds[i], more[0]) {
        MergeKeepsOrder(ds, more[1..]);
      } else {
        InsertKeepsOrder(ds, more[0]);
        MergeKeepsOrder(Insert(ds, more[0]), more[1..]);
      }
    }
  }

  datatype Event =
    | Reserve(k: ManifestKey)
    | Advance(k: ManifestKey, target: UploadState)
    | Publish(k: ManifestKey, derivatives: seq<Stored>)
    | RequestDeletion(k: ManifestKey)
    | Tombstone(k: ManifestKey)
    | Purge(k: ManifestKey)

  /**
   * One committed transaction. `steady` says that a second publication of a Ready row repeats the
   * derivatives it already has, as every attempt under a pinned policy revision does.
   */
  function Commit(steady: bool, db: Db, e: Event): Db {
    match e
    case Reserve(k) =>
      if k in db.used then db else Db(db.rows[k := Row(Created, false, [])], db.used + {k})
    case Advance(k, target) =>
      if k in db.rows && db.rows[k].state.CanTransitionTo(target) && target != Ready && target != Deleted then
        db.(rows := db.rows[k := db.rows[k].(state := target)])
      else db
    case Publish(k, ds) =>
      if k in db.rows && (db.rows[k].state == Processing || (db.rows[k].state == Ready && !steady)) then
        match Merge(db.rows[k].derivatives, ds)
        case None => db
        case Some(listed) => db.(rows := db.rows[k := db.rows[k].(state := Ready, derivatives := listed)])
      else db
    case RequestDeletion(k) =>
      if k in db.rows && db.rows[k].state in {Created, Ready, Rejected, Failed} then
        db.(rows := db.rows[k := db.rows[k].(deleteRequested := true)])
      else db
    case Tombstone(k) =>
      if k in db.rows && db.rows[k].state != Deleted then
        db.(rows := db.rows[k := db.rows[k].(state := Deleted)])
      else db
    case Purge(k) =>
      if k in db.rows && db.rows[k].state == Deleted then db.(rows := db.rows - {k}) else db
  }

  /** A published upload from its deletion request to the purge: refused at once, then unknown for good. */
  lemma DeletionAnswers(steady: bool, db: Db, k: ManifestKey, preset: Option<string>, variant: string)
    requires k in db.used && k in db.rows && Deliverable(db.rows[k])
    ensures var asked := Commit(steady, db, RequestDeletion(k));
            var gone := Commit(steady, asked, Tombstone(k));
            var purged := Commit(steady, gone, Purge(k));
            && Lookup(asked, k, preset, variant) == Err(NotReady) && Lookup(gone, k, preset, variant) == Err(NotReady)
            && Lookup(purged, k, preset, variant) == Err(NotFound)
            && Commit(steady, purged, Reserve(k)) == purged && purged.rows == db.rows - {k} && purged.used == db.used
  {
  }

  lemma CommitKeepsFit(steady: bool, db: Db, e: Event, k: ManifestKey, m: Manifest)
    requires DbOk(db) && Fits(steady, db, k, m)
    ensures DbOk(Commit(steady, db, e)) && Fits(steady, Commit(steady, db, e), k, m)
  {
  }

  /** Deletion was requested, or has already happened. */
  ghost predicate Withdrawn(db: Db, k: ManifestKey) {
    k in db.used && (k in db.rows ==> db.rows[k].deleteRequested || db.rows[k].state == Deleted)
  }

  lemma CommitKeepsWithdrawn(steady: bool, db: Db, e: Event, k: ManifestKey)
    requires Withdrawn(db, k)
    ensures Withdrawn(Commit(steady, db, e), k)
  {
  }

  // ----- The service object -----

  /** Request checks made before any state is read. */
  function InputError(k: ManifestKey, preset: Option<string>, variant: string): Option<Error> {
    if preset.Some? && !Token(preset.value, 128) then Some(InvalidVariant)
    else if !TenantValid(k.tenant) then Some(InvalidTenant)
    else if variant != "master" && variant != "thumbnail" then Some(InvalidVariant)
    else None
  }

  type Manifests = map<ManifestKey, Manifest>

  ghost predicate CacheFits(steady: bool, cache: Manifests, db: Db) {
    DbOk(db) && forall k :: k in cache ==> Fits(steady, db, k, cache[k])
  }

  /** `later` follows from `db` by committed transactions. */
  ghost predicate Follows(steady: bool, db: Db, events: seq<Event>, later: Db)
    decreases events
  {
    if events == [] then later == db else Follows(steady, Commit(steady, db, events[0]), events[1..], later)
  }

  lemma {:induction false} CacheStaysFit(steady: bool, cache: Manifests, db: Db, events: seq<Event>, later: Db)
    requires CacheFits(steady, cache, db) && Follows(steady, db, events, later)
    ensures CacheFits(steady, cache, later)
    decreases events
  {
    if events != [] {
      var next := Commit(steady, db, events[0]);
      forall k | k in cache
        ensures Fits(steady, next, k, cache[k])
      {
        CommitKeepsFit(steady, db, events[0], k, cache[k]);
      }
      assert DbOk(next);
      CacheStaysFit(steady, cache, next, events[1..], later);
    }
  }

  /** The answer to a request that consults `cache` and the rows at `atLoad`, and the guard at `atGuard`. */
  function Presigned(cache: Manifests, k: ManifestKey, preset: Option<string>, variant: string,
                     atLoad: Db, atGuard: Db): Result<Stored, Error>
  {
    if InputError(k, preset, variant).Some? then Err(InputError(k, preset, variant).value)
    else if k in cache then GuardAnswer(atGuard, k, cache[k], preset, variant)
    else
      match LoadManifest(atLoad, k)
      case Err(e) => Err(e)
      case Ok(m) => GuardAnswer(atGuard, k, m, preset, variant)
  }

  /** Unless the row has diverged, a request that holds a manifest gets the uncached answer of its guard. */
  lemma PresignedIsLookup(steady: bool, cache: Manifests, atLoad: Db, events: seq<Event>, atGuard: Db,
                          k: ManifestKey, preset: Option<string>, variant: string)
    requires CacheFits(steady, cache, atLoad) && Follows(steady, atLoad, events, atGuard)
    requires InputError(k, preset, variant).None?
    ensures var r := Presigned(cache, k, preset, variant, atLoad, atGuard);
            if k in cache || LoadManifest(atLoad, k).Ok? then
              r == Lookup(atGuard, k, preset, variant) <==> !Diverged(atGuard, k)
            else r == Lookup(atLoad, k, preset, variant)
    ensures steady && (k in cache || LoadManifest(atLoad, k).Ok?) ==> !Diverged(atGuard, k)
  {
    if k in cache {
      CacheStaysFit(steady, cache, atLoad, events, atGuard);
      GuardIsLookupExactly(steady, atGuard, k, cache[k], preset, variant);
    } else if LoadManifest(atLoad, k).Ok? {
      var m := LoadManifest(atLoad, k).value;
      LoadedFits(steady, atLoad, k);
      CacheStaysFit(steady, map[k := m], atLoad, events, atGuard);
      assert k in map[k := m];
      GuardIsLookupExactly(steady, atGuard, k, m, preset, variant);
    }
  }

  lemma PresignedServesWanted(steady: bool, cache: Manifests, atLoad: Db, events: seq<Event>, atGuard: Db,
                              k: ManifestKey, preset: Option<string>, variant: string)
    requires CacheFits(steady, cache, atLoad) && Follows(steady, atLoad, events, atGuard)
    requires InputError(k, preset, variant).None?
    ensures var r := Presigned(cache, k, preset, variant, atLoad, atGuard);
            && (r.Ok? ==> && k in atGuard.rows && atGuard.rows[k].state == Ready && !atGuard.rows[k].deleteRequested
                          && Wanted(atGuard.rows[k], preset, variant, r.value))
            && (&& (k in cache || LoadManifest(atLoad, k).Ok?) && k in atGuard.rows && Deliverable(atGuard.rows[k]) ==>
                  && (forall d :: r == Ok(d) <==> Wanted(atGuard.rows[k], preset, variant, d))
                  && (r.Ok? || r == Err(NotFound)))
  {
    if k in cache {
      CacheStaysFit(steady, cache, atLoad, events, atGuard);
      GuardServesWanted(steady, atGuard, k, cache[k], preset, variant);
    } else if LoadManifest(atLoad, k).Ok? {
      var m := LoadManifest(atLoad, k).value;
      LoadedFits(steady, atLoad, k);
      CacheStaysFit(steady, map[k := m], atLoad, events, atGuard);
      assert k in map[k := m];
      GuardServesWanted(steady, atGuard, k, m, preset, variant);
    }
  }

  /** Rows never come back, and an upload once withdrawn is not delivered again. */
  lemma {:induction false} RefusalLasts(steady: bool, db: Db, events: seq<Event>, later: Db, k: ManifestKey)
    requires DbOk(db) && Follows(steady, db, events, later) && Withdrawn(db, k)
    ensures Withdrawn(later, k) && (k !in db.rows ==> k !in later.rows)
    decreases events
  {
    if events != [] {
      CommitKeepsWithdrawn(steady, db, events[0], k);
      RefusalLasts(steady, Commit(steady, db, events[0]), events[1..], later, k);
    }
  }

  /**
   * Invalidating, evicting or never having cached any set of uploads changes no served answer. All
   * it can change is which refusal is given: an upload withdrawn before the request and purged
   * before its guard is NotFound from the cache and NotReady without it.
   */
  lemma ForgettingServesTheSame(cache: Manifests, lost: set<ManifestKey>, atLoad: Db, events: seq<Event>, atGuard: Db,
                                k: ManifestKey, preset: Option<string>, variant: string)
    requires CacheFits(true, cache, atLoad) && Follows(true, atLoad, events, atGuard)
    ensures var kept, without := Presigned(cache, k, preset, variant, atLoad, atGuard),
                                 Presigned(cache - lost, k, preset, variant, atLoad, atGuard);
            && (kept.Ok? || without.Ok? ==> kept == without)
            && (kept != without <==>
                  && InputError(k, preset, variant).None? && k in cache && k in lost
                  && DeliveryAllowed(atLoad, k) == Some(false) && k !in atGuard.rows)
  {
    if k in cache {
      CacheStaysFit(true, cache, atLoad, events, atGuard);
      assert Fits(true, atLoad, k, cache[k]) && Fits(true, atGuard, k, cache[k]);
      if DeliveryAllowed(atLoad, k) != Some(true) {
        RefusalLasts(true, atLoad, events, atGuard, k);
      }
    }
  }

  // ----- Signing -----

  /** A provider URL as parsed: userinfo, fragment, scheme, host and the lower-case authority. */
  datatype Url = Unparsable | Parsed(scheme: string, loopback: bool, userinfo: bool, fragment: bool,
                                     authority: Option<string>)

  predicate Trusted(url: Url, allowed: seq<string>) {
    && url.Parsed? && !url.userinfo && !url.fragment
    && (url.scheme == "https" || (url.scheme == "http" && url.loopback))
    && url.authority.Some? && url.authority.value in allowed
  }

  datatype Redirect = Redirect(derivative: Stored, url: Url)

  /** Signing reaches only the key of an answer already authorised, and only a trusted URL leaves. */
  function Signed(answer: Result<Stored, Error>, sign: string -> Option<Url>, allowed: seq<string>)
    : Result<Redirect, Error>
  {
    match answer
    case Err(e) => Err(e)
    case Ok(d) =>
      var url := sign(d.key);
      if url.None? then Err(ObjectStore)
      else if Trusted(url.value, allowed) then Ok(Redirect(d, url.value))
      else Err(UntrustedRedirect)
  }

  class Service {
    const allowed: seq<string>
    var manifests: Manifests

    constructor (allowed: seq<string>)
      ensures this.allowed == allowed && manifests == map[]
    {
      this.allowed := allowed;
      manifests := map[];
    }

    method InvalidateUpload(k: ManifestKey)
      modifies this
      ensures manifests == old(manifests) - {k}
    {
      manifests := manifests - {k};
    }

    /**
     * `presign` and `presign_exact` between two reads of the rows: `atLoad` when the cache is
     * consulted and `atGuard` when the live guard runs, with `events` committed in between.
     */
    method Presign(k: ManifestKey, preset: Option<string>, variant: string, sign: string -> Option<Url>,
                   atLoad: Db, ghost events: seq<Event>, atGuard: Db, ghost steady: bool)
      returns (r: Result<Redirect, Error>)
      requires CacheFits(steady, manifests, atLoad) && Follows(steady, atLoad, events, atGuard)
      modifies this
      ensures CacheFits(steady, manifests, atGuard)
      ensures manifests.Keys <= old(manifests.Keys) + {k}
      ensures forall other :: other != k && other in old(manifests) ==>
                other in manifests && manifests[other] == old(manifests[other])
      ensures r == Signed(Presigned(old(manifests), k, preset, variant, atLoad, atGuard), sign, allowed)
      ensures r.Ok? ==> && k in atGuard.rows && atGuard.rows[k].state == Ready && !atGuard.rows[k].deleteRequested
                        && Wanted(atGuard.rows[k], preset, variant, r.value.derivative)
                        && Some(r.value.url) == sign(r.value.derivative.key) && r.value.url.Parsed?
                        && !r.value.url.userinfo && !r.value.url.fragment && r.value.url.scheme in {"https", "http"}
                        && (r.value.url.scheme == "http" ==> r.value.url.loopback)
                        && r.value.url.authority.Some? && r.value.url.authority.value in allowed
      ensures var badPreset, badTenant := preset.Some? && !Token(preset.value, 128), !Token(k.tenant, 64);
              && (badPreset || (!badTenant && variant !in {"master", "thumbnail"}) <==> r == Err(InvalidVariant))
              && (!badPreset && badTenant <==> r == Err(InvalidTenant))
      ensures && InputError(k, preset, variant).None? && (k in old(manifests) || LoadManifest(atLoad, k).Ok?)
              && k in atGuard.rows && Deliverable(atGuard.rows[k]) ==>
                && (forall d :: Wanted(atGuard.rows[k], preset, variant, d) ==>
                      match sign(d.key)
                      case None => r == Err(ObjectStore)
                      case Some(url) =>
                        r == if Trusted(url, allowed) then Ok(Redirect(d, url)) else Err(UntrustedRedirect))
                && ((forall d :: !Wanted(atGuard.rows[k], preset, variant, d)) ==> r == Err(NotFound))
      ensures InputError(k, preset, variant).Some? ==>
                r == Err(InputError(k, preset, variant).value) && manifests == old(manifests)
      ensures InputError(k, preset, variant).None? && (k in old(manifests) || LoadManifest(atLoad, k).Ok?) ==>
                && (!Diverged(atGuard, k) ==> r == Signed(Lookup(atGuard, k, preset, variant), sign, allowed))
                && (DeliveryAllowed(atGuard, k) == Some(true) <==> k in manifests)
      ensures InputError(k, preset, variant).None? && k !in old(manifests) && LoadManifest(atLoad, k).Err? ==>
                r == Signed(Lookup(atLoad, k, preset, variant), sign, allowed) && manifests == old(manifests)
    {
      hide Lookup, Diverged, Follows, FromStatus, Fits, Wanted, Deliverable, Token, Trusted, LoadManifest, InputError;
      CacheStaysFit(steady, manifests, atLoad, events, atGuard);
      if InputError(k, preset, variant).None? {
        PresignedIsLookup(steady, manifests, atLoad, events, atGuard, k, preset, variant);
        PresignedServesWanted(steady, manifests, atLoad, events, atGuard, k, preset, variant);
      }
      var invalid := CheckInput(k, preset, variant);
      if invalid.Some? {
        return Err(invalid.value);
      }
      var held := Held(k, atLoad, events, atGuard, steady);
      if held.Err? {
        return Err(held.error);
      }
      var manifest := held.value;
      var allowedNow := DeliveryAllowed(atGuard, k);
      if allowedNow != Some(true) {
        manifests := manifests - {k};
        return Err(if allowedNow.Some? then NotReady else NotFound);
      }
      var selected := Select(manifest, preset, variant);
      if selected.Err? {
        return Err(selected.error);
      }
      r := Sign(selected.value, sign);
    }

    /** The checks made before any state is read. */
    method CheckInput(k: ManifestKey, preset: Option<string>, variant: string) returns (error: Option<Error>)
      ensures error == InputError(k, preset, variant)
      ensures error == if preset.Some? && !Token(preset.value, 128) then Some(InvalidVariant)
                       else if !Token(k.tenant, 64) then Some(InvalidTenant)
                       else if variant !in {"master", "thumbnail"} then Some(InvalidVariant) else None
    {
      if preset.Some? && !Token(preset.value, 128) {
        return Some(InvalidVariant);
      }
      if !TenantValid(k.tenant) {
        return Some(InvalidTenant);
      }
      if variant != "master" && variant != "thumbnail" {
        return Some(InvalidVariant);
      }
      return None;
    }

    /** The cached manifest, or a loaded one that is cached from then on. */
    method Held(k: ManifestKey, atLoad: Db, ghost events: seq<Event>, atGuard: Db, ghost steady: bool)
      returns (r: Result<Manifest, Error>)
      requires CacheFits(steady, manifests, atLoad) && Follows(steady, atLoad, events, atGuard)
      modifies this
      ensures CacheFits(steady, manifests, atGuard)
      ensures r == if k in old(manifests) then Ok(old(manifests)[k]) else LoadManifest(atLoad, k)
      ensures manifests == if r.Ok? then old(manifests)[k := r.value] else old(manifests)
    {
      hide Follows, FromStatus, Fits;
      CacheStaysFit(steady, manifests, atLoad, events, atGuard);
      if k in manifests {
        return Ok(manifests[k]);
      }
      r := LoadManifest(atLoad, k);
      if r.Ok? {
        LoadedFits(steady, atLoad, k);
        CacheStaysFit(steady, map[k := r.value], atLoad, events, atGuard);
        assert k in map[k := r.value];
        manifests := manifests[k := r.value];
      }
    }

    /** Signs one derivative's key; the provider's URL leaves only on a trusted authority. */
    method Sign(d: Stored, sign: string -> Option<Url>) returns (r: Result<Redirect, Error>)
      ensures r == Signed(Ok(d), sign, allowed)
      ensures match sign(d.key)
              case None => r == Err(ObjectStore)
              case Some(url) =>
                r == if && url.Parsed? && !url.userinfo && !url.fragment && url.scheme in {"https", "http"}
                        && (url.scheme == "http" ==> url.loopback)
                        && url.authority.Some? && url.authority.value in allowed
                     then Ok(Redirect(d, url)) else Err(UntrustedRedirect)
      ensures r.Ok? ==> Trusted(r.value.url, allowed)
      ensures sign(d.key).Some? && Trusted(sign(d.key).value, allowed) ==> r.Ok?
    {
      var url := sign(d.key);
      if url.None? {
        return Err(ObjectStore);
      }
      if !Trusted(url.value, allowed) {
        return Err(UntrustedRedirect);
      }
      r := Ok(Redirect(d, url.value));
    }
  }
}
