/**
 * Provider inventory: key order, page and cursor checks, the listing adapter's cursor rule and durable
 * reconciliation.
 */
module Inventory {
  import opened Basics
  import ObjectKeys

  // ----- Byte order on keys -----

  function Less(a: string, b: string): bool {
    if b == "" then false
    else if a == "" then true
    else a[0] < b[0] || (a[0] == b[0] && Less(a[1..], b[1..]))
  }

  lemma {:induction false} LessTransitive(a: string, b: string, c: string)
    requires Less(a, b) && Less(b, c)
    ensures Less(a, c)
    decreases a
  {
    if a != "" && a[0] == b[0] && b[0] == c[0] { LessTransitive(a[1..], b[1..], c[1..]); }
  }

  lemma {:induction false} LessIrreflexive(a: string)
    ensures !Less(a, a)
  {
    if a != "" { LessIrreflexive(a[1..]); }
  }

  lemma {:induction false} LessTotal(a: string, b: string)
    ensures Less(a, b) || a == b || Less(b, a)
    decreases a
  {
    if a != "" && b != "" && a[0] == b[0] {
      LessTotal(a[1..], b[1..]);
      assert a == [a[0]] + a[1..] && b == [b[0]] + b[1..];
    }
  }

  predicate Increasing(keys: seq<string>) {
    forall i :: 0 <= i < |keys| - 1 ==> Less(keys[i], keys[i + 1])
  }

  lemma {:induction false} IncreasingOrders(keys: seq<string>, i: nat, j: nat)
    requires Increasing(keys) && i < j < |keys|
    ensures Less(keys[i], keys[j]) && keys[i] != keys[j]
    decreases j
  {
    if i < j - 1 {
      IncreasingOrders(keys, i, j - 1);
      LessTransitive(keys[i], keys[j - 1], keys[j]);
    }
    LessIrreflexive(keys[i]);
  }

  // ----- Namespaces, pages and cursors -----

  datatype Namespace = Raw | Derivative {
    function Prefix(): string {
      match this
      case Raw => "raw/"
      case Derivative => "media/"
    }

    function Other(): Namespace { if this == Raw then Derivative else Raw }
  }

  predicate StartsWith(s: string, prefix: string) {
    |prefix| <= |s| && s[..|prefix|] == prefix
  }

  /** Every key the service writes is listed in its own namespace and in no other. */
  lemma KeysBelong(tenant: string, upload: string, d: ObjectKeys.DerivativeKey, ns: Namespace)
    ensures StartsWith(ObjectKeys.RawKey(tenant, upload), ns.Prefix()) <==> ns == Raw
    ensures StartsWith(d.Text(), ns.Prefix()) <==> ns == Derivative
  {
    var raw, media := ObjectKeys.RawKey(tenant, upload), d.Text();
    assert raw[0] == 'r' && media[0] == 'm';
    assert raw[..4] == "raw/" && media[..6] == "media/";
  }

  datatype Page = Page(keys: seq<string>, next: Option<string>)

  predicate ValidCursor(ns: Namespace, cursor: Option<string>) {
    cursor.Some? ==> |cursor.value| <= 1024 && StartsWith(cursor.value, ns.Prefix())
  }

  predicate ValidPage(ns: Namespace, previous: Option<string>, page: Page) {
    && |page.keys| <= 1000 && Increasing(page.keys)
    && (forall i :: 0 <= i < |page.keys| ==>
          && |page.keys[i]| <= 1024 && StartsWith(page.keys[i], ns.Prefix())
          && (previous.Some? ==> Less(previous.value, page.keys[i])))
    && (page.next.Some? ==> page.keys != [] && page.keys[|page.keys| - 1] == page.next.value)
  }

  /** A cursor taken from an accepted page is accepted by the next run and lies beyond the last one. */
  lemma NextCursorValid(ns: Namespace, previous: Option<string>, page: Page)
    requires ValidPage(ns, previous, page)
    ensures ValidCursor(ns, page.next)
    ensures previous.Some? && page.next.Some? ==> Less(previous.value, page.next.value)
  {
    if page.next.Some? { assert page.keys[|page.keys| - 1] == page.next.value; }
  }

  lemma ValidPageIncreases(ns: Namespace, previous: Option<string>, page: Page)
    requires ValidPage(ns, previous, page)
    ensures Increasing(page.keys)
  {
  }

  // ----- The listing adapter -----

  /** One raw listing answer: keys may be missing and `truncated` is the provider's flag. */
  datatype Response = Response(contents: seq<Option<string>>, truncated: bool)

  datatype ListError = InvalidRequest | NoObjectKey | EmptyTruncatedPage

  predicate Matches(prefix: string, after: Option<string>, key: string) {
    StartsWith(key, prefix) && (after.Some? ==> Less(after.value, key))
  }

  /** The provider's promise: the matching keys in order, all of them or all up to the last one given. */
  ghost predicate Honest(store: set<string>, prefix: string, after: Option<string>, response: Response) {
    && (forall i :: 0 <= i < |response.contents| ==>
          && response.contents[i].Some? && response.contents[i].value in store
          && Matches(prefix, after, response.contents[i].value))
    && (forall i :: 0 <= i < |response.contents| - 1 && response.contents[i].Some? && response.contents[i + 1].Some? ==>
          Less(response.contents[i].value, response.contents[i + 1].value))
    && (forall k :: k in store && Matches(prefix, after, k) ==>
          || Some(k) in response.contents
          || (response.truncated && response.contents != [] && response.contents[|response.contents| - 1].Some?
              && Less(response.contents[|response.contents| - 1].value, k)))
  }

  /** A page that lists every matching key up to its cursor, or up to the end. */
  ghost predicate Covers(store: set<string>, prefix: string, after: Option<string>, page: Page) {
    && Increasing(page.keys)
    && (forall k :: k in page.keys ==> k in store && Matches(prefix, after, k))
    && (page.next.Some? ==> page.keys != [] && page.keys[|page.keys| - 1] == page.next.value)
    && (forall k :: k in store && Matches(prefix, after, k) && k !in page.keys ==>
          page.next.Some? && Less(page.next.value, k))
  }

  predicate RequestOk(prefix: string, after: Option<string>, maxKeys: nat) {
    (prefix == "raw/" || prefix == "media/") && 0 < maxKeys <= 1000
    && (after.Some? ==> |after.value| <= 1024 && StartsWith(after.value, prefix))
  }

  method ListObjects(prefix: string, after: Option<string>, maxKeys: nat, response: Response, ghost store: set<string>)
    returns (r: Result<Page, ListError>)
    ensures !RequestOk(prefix, after, maxKeys) <==> r == Err(InvalidRequest)
    ensures r.Ok? ==> |r.value.keys| == |response.contents|
                      && (forall i :: 0 <= i < |response.contents| ==> response.contents[i] == Some(r.value.keys[i]))
    ensures r.Ok? ==> (r.value.next.Some? <==> response.truncated)
    ensures RequestOk(prefix, after, maxKeys) && Honest(store, prefix, after, response) ==>
              if response.truncated && response.contents == [] then r == Err(EmptyTruncatedPage)
              else r.Ok? && Covers(store, prefix, after, r.value)
  {
    if !RequestOk(prefix, after, maxKeys) {
      return Err(InvalidRequest);
    }
    var keys: seq<string> := [];
    var i := 0;
    while i < |response.contents|
      invariant 0 <= i <= |response.contents| && |keys| == i
      invariant forall j :: 0 <= j < i ==> response.contents[j] == Some(keys[j])
    {
      if response.contents[i].None? {
        return Err(NoObjectKey);
      }
      keys := keys + [response.contents[i].value];
      i := i + 1;
    }
    if response.truncated && keys == [] {
      return Err(EmptyTruncatedPage);
    }
    var page := Page(keys, if response.truncated then Some(keys[|keys| - 1]) else None);
    if Honest(store, prefix, after, response) {
      HonestPageCovers(store, prefix, after, response, page);
    }
    return Ok(page);
  }

  lemma HonestPageCovers(store: set<string>, prefix: string, after: Option<string>, response: Response, page: Page)
    requires Honest(store, prefix, after, response) && |page.keys| == |response.contents|
    requires forall j :: 0 <= j < |page.keys| ==> response.contents[j] == Some(page.keys[j])
    requires response.truncated ==> page.keys != []
    requires page.next == if response.truncated then Some(page.keys[|page.keys| - 1]) else None
    ensures Covers(store, prefix, after, page)
  {
    forall i | 0 <= i < |page.keys| - 1
      ensures Less(page.keys[i], page.keys[i + 1])
    {
      assert response.contents[i].Some? && response.contents[i + 1].Some?;
    }
    forall k | k in store && Matches(prefix, after, k) && k !in page.keys
      ensures page.next.Some? && Less(page.next.value, k)
    {
      assert Some(k) !in response.contents;
    }
  }

  /** A covering page of at most 1,000 bounded keys is exactly what the run's page check accepts. */
  lemma CoveringPageValid(store: set<string>, ns: Namespace, after: Option<string>, page: Page)
    requires Covers(store, ns.Prefix(), after, page) && |page.keys| <= 1000
    requires forall k :: k in store ==> |k| <= 1024
    ensures ValidPage(ns, after, page)
  {
    forall i | 0 <= i < |page.keys|
      ensures page.keys[i] in store && Matches(ns.Prefix(), after, page.keys[i])
    {
      assert page.keys[i] in page.keys;
    }
  }

  // ----- Durable reconciliation -----

  datatype Orphan = Orphan(firstSeen: int, lastSeen: int, deleted: bool, attempts: nat, error: Option<string>)

  type Orphans = map<string, Orphan>

  datatype Reconciled = Reconciled(known: nat, suspected: nat, eligible: seq<string>)

  /** An owned key loses its suspicion; an unowned one keeps its first sighting unless it was deleted since. */
  function Observe(orphans: Orphans, key: string, known: bool, observedAt: int): Orphans {
    if known then orphans - {key}
    else if key in orphans && !orphans[key].deleted then
      orphans[key := orphans[key].(lastSeen := observedAt, error := None)]
    else orphans[key := Orphan(observedAt, observedAt, false, 0, None)]
  }

  /** One transaction over the page, key by key. */
  function Reconcile(known: set<string>, orphans: Orphans, keys: seq<string>, observedAt: int, eligibleBefore: int)
    : (Orphans, Reconciled)
    decreases |keys|
  {
    if keys == [] then (orphans, Reconciled(0, 0, []))
    else
      var key := keys[|keys| - 1];
      var (before, r) := Reconcile(known, orphans, keys[..|keys| - 1], observedAt, eligibleBefore);
      var after := Observe(before, key, key in known, observedAt);
      if key in known then (after, r.(known := r.known + 1))
      else if after[key].firstSeen <= eligibleBefore then (after, r.(eligible := r.eligible + [key]))
      else (after, r.(suspected := r.suspected + 1))
  }

  /** A suspect whose recorded first sighting is old enough. */
  ghost predicate OldSuspect(orphans: Orphans, key: string, eligibleBefore: int) {
    key in orphans && !orphans[key].deleted && orphans[key].firstSeen <= eligibleBefore
  }

  ghost predicate AllDifferent(keys: seq<string>) {
    forall i, j :: 0 <= i < j < |keys| ==> keys[i] != keys[j]
  }

  /**
   * Every key of a page is counted once. With a positive grace period an eligible key was already
   * suspected before this page, first seen that long ago, and no key is eligible on first sight.
   */
  lemma {:induction false} ReconcilePartitions(known: set<string>, orphans: Orphans, keys: seq<string>,
                                               observedAt: int, eligibleBefore: int)
    requires AllDifferent(keys) && eligibleBefore < observedAt
    ensures var (after, r) := Reconcile(known, orphans, keys, observedAt, eligibleBefore);
            && r.known + r.suspected + |r.eligible| == |keys|
            && AllDifferent(r.eligible)
            && (forall k :: k in r.eligible <==> k in keys && k !in known && OldSuspect(orphans, k, eligibleBefore))
            && (forall k :: k in r.eligible ==>
                  OldSuspect(after, k, eligibleBefore) && after[k].firstSeen == orphans[k].firstSeen)
    decreases |keys|
  {
    if keys != [] {
      var front, key := keys[..|keys| - 1], keys[|keys| - 1];
      ReconcilePartitions(known, orphans, front, observedAt, eligibleBefore);
      assert keys == front + [key];
      assert key !in front;
      ReconcileSpares(known, orphans, front, observedAt, eligibleBefore, key);
    }
  }

  /** What one page does to the observation of a key on it. */
  lemma {:induction false} ReconcileObserves(known: set<string>, orphans: Orphans, keys: seq<string>, observedAt: int,
                                             eligibleBefore: int, k: string)
    requires AllDifferent(keys) && k in keys
    ensures var after := Reconcile(known, orphans, keys, observedAt, eligibleBefore).0;
            if k in known then k !in after
            else && k in after && !after[k].deleted
                 && (if k in orphans && !orphans[k].deleted then
                       after[k].firstSeen == orphans[k].firstSeen && after[k].attempts == orphans[k].attempts
                     else after[k].firstSeen == observedAt && after[k].attempts == 0)
    decreases |keys|
  {
    var front, key := keys[..|keys| - 1], keys[|keys| - 1];
    assert keys == front + [key];
    if k == key {
      ReconcileSpares(known, orphans, front, observedAt, eligibleBefore, k);
    } else {
      ReconcileObserves(known, orphans, front, observedAt, eligibleBefore, k);
    }
  }

  lemma {:induction false} ReconcileSpares(known: set<string>, orphans: Orphans, keys: seq<string>, observedAt: int,
                                           eligibleBefore: int, k: string)
    requires k !in keys
    ensures var after := Reconcile(known, orphans, keys, observedAt, eligibleBefore).0;
            (k in after <==> k in orphans) && (k in after ==> after[k] == orphans[k])
    decreases |keys|
  {
    if keys != [] {
      assert keys == keys[..|keys| - 1] + [keys[|keys| - 1]];
      ReconcileSpares(known, orphans, keys[..|keys| - 1], observedAt, eligibleBefore, k);
    }
  }

  // ----- Keys a run keeps -----

  predicate Keepable(ns: Namespace, key: string) {
    ObjectKeys.Valid(key) && StartsWith(key, ns.Prefix())
  }

  function Kept(ns: Namespace, keys: seq<string>): seq<string>
    decreases |keys|
  {
    if keys == [] then []
    else
      var front, last := Kept(ns, keys[..|keys| - 1]), keys[|keys| - 1];
      if Keepable(ns, last) then front + [last] else front
  }

  lemma {:induction false} KeptFacts(ns: Namespace, keys: seq<string>)
    requires AllDifferent(keys)
    ensures AllDifferent(Kept(ns, keys)) && forall k :: k in Kept(ns, keys) <==> k in keys && Keepable(ns, k)
    decreases |keys|
  {
    if keys != [] {
      KeptFacts(ns, keys[..|keys| - 1]);
      assert keys == keys[..|keys| - 1] + [keys[|keys| - 1]];
    }
  }
}
