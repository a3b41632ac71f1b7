/**
 * Storage quota: the incremental byte counters kept by triggers, the caps enforced inside the saving
 * transaction, and the backup verifier's comparison of counters with rows.
 */
module Quota {
  import opened Basics
  import opened Domain

  datatype Upload = Upload(tenant: string, bytes: nat, state: UploadState)

  /** The two counter tables. */
  datatype Counters = Counters(total: int, tenants: map<string, int>)

  datatype State = State(rows: seq<Upload>, counters: Counters)

  datatype Capacity = Capacity(activeGlobal: nat, activeTenant: nat, bytesGlobal: nat, bytesTenant: nat) {
    predicate Valid() {
      && 0 < activeTenant <= activeGlobal && 0 < bytesTenant <= bytesGlobal && bytesGlobal <= U64_MAX / 2
    }
  }

  const INITIAL := State([], Counters(0, map[]))

  // ----- Totals over rows -----

  type Measure = Upload -> nat

  function Total(rows: seq<Upload>, f: Measure): nat {
    if rows == [] then 0 else f(rows[0]) + Total(rows[1..], f)
  }

  lemma {:induction false} TotalAppend(a: seq<Upload>, b: seq<Upload>, f: Measure)
    ensures Total(a + b, f) == Total(a, f) + Total(b, f)
  {
    if a == [] {
      assert a + b == b;
    } else {
      TotalAppend(a[1..], b, f);
      assert (a + b)[1..] == a[1..] + b;
    }
  }

  lemma TotalSplit(rows: seq<Upload>, i: nat, f: Measure)
    requires i < |rows|
    ensures Total(rows, f) == Total(rows[..i], f) + f(rows[i]) + Total(rows[i + 1..], f)
  {
    assert rows == rows[..i] + rows[i..] && rows[i..][1..] == rows[i + 1..];
    TotalAppend(rows[..i], rows[i..], f);
  }

  lemma TotalUpdate(rows: seq<Upload>, i: nat, r: Upload, f: Measure)
    requires i < |rows|
    ensures Total(rows[i := r], f) == Total(rows, f) - f(rows[i]) + f(r)
  {
    TotalSplit(rows, i, f);
    TotalSplit(rows[i := r], i, f);
    assert rows[i := r][..i] == rows[..i] && rows[i := r][i + 1..] == rows[i + 1..];
  }

  lemma TotalRemove(rows: seq<Upload>, i: nat, f: Measure)
    requires i < |rows|
    ensures Total(rows[..i] + rows[i + 1..], f) == Total(rows, f) - f(rows[i])
  {
    TotalSplit(rows, i, f);
    TotalAppend(rows[..i], rows[i + 1..], f);
  }

  lemma TotalAtLeast(rows: seq<Upload>, i: nat, f: Measure)
    requires i < |rows|
    ensures f(rows[i]) <= Total(rows, f)
  {
    TotalSplit(rows, i, f);
  }

  function LiveBytes(): Measure { (r: Upload) => if r.state == Deleted then 0 else r.bytes }

  function TenantBytes(t: string): Measure { (r: Upload) => if r.state == Deleted || r.tenant != t then 0 else r.bytes }

  predicate Active(s: UploadState) { s.Created? || s.Uploaded? || s.Quarantined? || s.Processing? }

  function ActiveRows(): Measure { (r: Upload) => if Active(r.state) then 1 else 0 }

  function TenantActive(t: string): Measure { (r: Upload) => if Active(r.state) && r.tenant == t then 1 else 0 }

  // ----- Triggers -----

  /** INSERT with ON CONFLICT: adds to the tenant's row or creates it. */
  function Upsert(tenants: map<string, int>, t: string, bytes: int): map<string, int> {
    tenants[t := bytes + (if t in tenants then tenants[t] else 0)]
  }

  /** Subtracts from the tenant's row, then drops the row if it reached zero. */
  function Deduct(tenants: map<string, int>, t: string, bytes: int): map<string, int> {
    if t !in tenants then tenants
    else if tenants[t] == bytes then tenants - {t}
    else tenants[t := tenants[t] - bytes]
  }

  function AfterInsert(c: Counters, r: Upload): Counters {
    if r.state == Deleted then c else Counters(c.total + r.bytes, Upsert(c.tenants, r.tenant, r.bytes))
  }

  function AfterUpdate(c: Counters, was: Upload, now: Upload): Counters {
    if was == now then c
    else
      var deducted := if was.state == Deleted then (if was.tenant in c.tenants && c.tenants[was.tenant] == 0
                                                    then c.tenants - {was.tenant} else c.tenants)
                      else Deduct(c.tenants, was.tenant, was.bytes);
      Counters(c.total - LiveBytes()(was) + LiveBytes()(now),
               if now.state == Deleted then deducted else Upsert(deducted, now.tenant, now.bytes))
  }

  function AfterDelete(c: Counters, was: Upload): Counters {
    if was.state == Deleted then c else Counters(c.total - was.bytes, Deduct(c.tenants, was.tenant, was.bytes))
  }

  // ----- Operations -----

  /** `capacity_allows`, evaluated inside the transaction. */
  predicate Allows(cap: Capacity, s: State, tenant: string, files: nat, bytes: nat) {
    && files > 0 && bytes > 0 && cap.Valid()
    && Total(s.rows, ActiveRows()) + files <= cap.activeGlobal
    && Total(s.rows, TenantActive(tenant)) + files <= cap.activeTenant
    && s.counters.total + bytes <= cap.bytesGlobal
    && (if tenant in s.counters.tenants then s.counters.tenants[tenant] else 0) + bytes <= cap.bytesTenant
  }

  function InsertAll(s: State, tenant: string, sizes: seq<nat>): State
    decreases |sizes|
  {
    if sizes == [] then s
    else
      var r := Upload(tenant, sizes[0], Created);
      InsertAll(State(s.rows + [r], AfterInsert(s.counters, r)), tenant, sizes[1..])
  }

  datatype Step =
    | SaveBatch(tenant: string, sizes: seq<nat>)
    | Move(row: nat, target: UploadState)
    | Purge(row: nat)

  function Apply(cap: Capacity, s: State, step: Step): State {
    match step
    case SaveBatch(tenant, sizes) =>
      if 1 <= |sizes| <= 100 && (forall i :: 0 <= i < |sizes| ==> sizes[i] > 0)
         && Allows(cap, s, tenant, |sizes|, Sum(sizes)) then
        InsertAll(s, tenant, sizes)
      else s
    case Move(i, target) =>
      if i < |s.rows| && s.rows[i].state.CanTransitionTo(target) then
        var r := s.rows[i].(state := target);
        State(s.rows[i := r], AfterUpdate(s.counters, s.rows[i], r))
      else s
    case Purge(i) =>
      if i < |s.rows| && s.rows[i].state == Deleted then
        State(s.rows[..i] + s.rows[i + 1..], AfterDelete(s.counters, s.rows[i]))
      else s
  }

  function Run(cap: Capacity, s: State, steps: seq<Step>): State
    decreases steps
  {
    if steps == [] then s else Run(cap, Apply(cap, s, steps[0]), steps[1..])
  }

  // ----- The counters are the sums -----

  /** Counters equal the sums over rows that are not deleted; a tenant has a row exactly when it has bytes. */
  ghost predicate Exact(s: State) {
    && s.counters.total == Total(s.rows, LiveBytes())
    && (forall t :: t in s.counters.tenants ==> s.counters.tenants[t] == Total(s.rows, TenantBytes(t)) > 0)
    && (forall t :: t !in s.counters.tenants ==> Total(s.rows, TenantBytes(t)) == 0)
  }

  ghost predicate Positive(rows: seq<Upload>) {
    forall i :: 0 <= i < |rows| ==> rows[i].bytes > 0
  }

  /** The insert trigger keeps the counters exact for a row of any state. */
  lemma InsertKeepsExact(s: State, r: Upload)
    requires Exact(s) && r.bytes > 0
    ensures Exact(State(s.rows + [r], AfterInsert(s.counters, r)))
  {
    TotalAppend(s.rows, [r], LiveBytes());
    forall t
      ensures Total(s.rows + [r], TenantBytes(t)) == Total(s.rows, TenantBytes(t)) + TenantBytes(t)(r)
    {
      TotalAppend(s.rows, [r], TenantBytes(t));
    }
  }

  function Stored(tenants: map<string, int>, t: string): int { if t in tenants then tenants[t] else 0 }

  /** What the update trigger does to each tenant's bytes. */
  lemma UpdateBalance(c: Counters, was: Upload, r: Upload, t: string)
    requires was.bytes > 0 && r.bytes > 0 && forall u :: u in c.tenants ==> c.tenants[u] > 0
    requires was.state != Deleted ==> Stored(c.tenants, was.tenant) >= was.bytes
    ensures var after := AfterUpdate(c, was, r).tenants;
            && Stored(after, t) == Stored(c.tenants, t) - TenantBytes(t)(was) + TenantBytes(t)(r)
            && (t in after ==> after[t] > 0)
  {
  }

  /** The update trigger keeps the counters exact whatever changes: tenant, size or state, even from deleted. */
  lemma UpdateKeepsExact(s: State, i: nat, r: Upload)
    requires Exact(s) && Positive(s.rows) && i < |s.rows| && r.bytes > 0
    ensures Exact(State(s.rows[i := r], AfterUpdate(s.counters, s.rows[i], r)))
  {
    hide AfterUpdate, Total;
    var was := s.rows[i];
    TotalUpdate(s.rows, i, r, LiveBytes());
    TotalAtLeast(s.rows, i, TenantBytes(was.tenant));
    var after := AfterUpdate(s.counters, was, r);
    UpdateTotal(s.counters, was, r);
    forall t
      ensures Stored(after.tenants, t) == Total(s.rows[i := r], TenantBytes(t))
      ensures t in after.tenants ==> after.tenants[t] > 0
    {
      TotalUpdate(s.rows, i, r, TenantBytes(t));
      UpdateBalance(s.counters, was, r, t);
    }
  }

  lemma UpdateTotal(c: Counters, was: Upload, r: Upload)
    ensures AfterUpdate(c, was, r).total == c.total - LiveBytes()(was) + LiveBytes()(r)
  {
  }

  /** And so does the delete trigger, for a row of any state. */
  lemma DeleteKeepsExact(s: State, i: nat)
    requires Exact(s) && Positive(s.rows) && i < |s.rows|
    ensures Exact(State(s.rows[..i] + s.rows[i + 1..], AfterDelete(s.counters, s.rows[i])))
  {
    var was := s.rows[i];
    TotalRemove(s.rows, i, LiveBytes());
    forall t
      ensures Total(s.rows[..i] + s.rows[i + 1..], TenantBytes(t))
                == Total(s.rows, TenantBytes(t)) - TenantBytes(t)(was)
    {
      TotalRemove(s.rows, i, TenantBytes(t));
    }
    TotalAtLeast(s.rows, i, TenantBytes(was.tenant));
  }

  // ----- The caps hold -----

  ghost predicate Within(cap: Capacity, rows: seq<Upload>) {
    && Total(rows, LiveBytes()) <= cap.bytesGlobal && Total(rows, ActiveRows()) <= cap.activeGlobal
    && forall t :: Total(rows, TenantBytes(t)) <= cap.bytesTenant && Total(rows, TenantActive(t)) <= cap.activeTenant
  }

  ghost predicate Inv(cap: Capacity, s: State) {
    Exact(s) && Positive(s.rows) && Within(cap, s.rows)
  }

  /** What a saved batch adds to each total. */
  lemma {:induction false} InsertAllEffect(s: State, tenant: string, sizes: seq<nat>)
    requires Exact(s) && Positive(s.rows) && forall i :: 0 <= i < |sizes| ==> sizes[i] > 0
    ensures var s' := InsertAll(s, tenant, sizes);
            && Exact(s') && Positive(s'.rows)
            && Total(s'.rows, LiveBytes()) == Total(s.rows, LiveBytes()) + Sum(sizes)
            && Total(s'.rows, ActiveRows()) == Total(s.rows, ActiveRows()) + |sizes|
            && forall t :: var own := t == tenant;
                 && Total(s'.rows, TenantBytes(t)) == Total(s.rows, TenantBytes(t)) + (if own then Sum(sizes) else 0)
                 && Total(s'.rows, TenantActive(t)) == Total(s.rows, TenantActive(t)) + (if own then |sizes| else 0)
    decreases |sizes|
  {
    if sizes != [] {
      var r := Upload(tenant, sizes[0], Created);
      var next := State(s.rows + [r], AfterInsert(s.counters, r));
      InsertKeepsExact(s, r);
      TotalAppend(s.rows, [r], LiveBytes());
      TotalAppend(s.rows, [r], ActiveRows());
      forall t
        ensures Total(next.rows, TenantBytes(t))
                  == Total(s.rows, TenantBytes(t)) + (if t == tenant then sizes[0] else 0)
        ensures Total(next.rows, TenantActive(t)) == Total(s.rows, TenantActive(t)) + (if t == tenant then 1 else 0)
      {
        TotalAppend(s.rows, [r], TenantBytes(t));
        TotalAppend(s.rows, [r], TenantActive(t));
      }
      InsertAllEffect(next, tenant, sizes[1..]);
    }
  }

  lemma SaveKeepsInv(cap: Capacity, s: State, tenant: string, sizes: seq<nat>)
    requires Inv(cap, s)
    ensures Inv(cap, Apply(cap, s, SaveBatch(tenant, sizes)))
  {
    var s' := Apply(cap, s, SaveBatch(tenant, sizes));
    if s' != s {
      InsertAllEffect(s, tenant, sizes);
      forall t
        ensures Total(s'.rows, TenantBytes(t)) <= cap.bytesTenant && Total(s'.rows, TenantActive(t)) <= cap.activeTenant
      {
        assert Total(s.rows, TenantBytes(t)) <= cap.bytesTenant && Total(s.rows, TenantActive(t)) <= cap.activeTenant;
      }
    }
  }

  lemma MoveKeepsInv(cap: Capacity, s: State, i: nat, target: UploadState)
    requires Inv(cap, s)
    ensures Inv(cap, Apply(cap, s, Move(i, target)))
  {
    if i < |s.rows| && s.rows[i].state.CanTransitionTo(target) {
      var r := s.rows[i].(state := target);
      UpdateKeepsExact(s, i, r);
      TotalUpdate(s.rows, i, r, LiveBytes());
      TotalUpdate(s.rows, i, r, ActiveRows());
      forall t
        ensures Total(s.rows[i := r], TenantBytes(t)) <= cap.bytesTenant
                && Total(s.rows[i := r], TenantActive(t)) <= cap.activeTenant
      {
        TotalUpdate(s.rows, i, r, TenantBytes(t));
        TotalUpdate(s.rows, i, r, TenantActive(t));
        assert Total(s.rows, TenantBytes(t)) <= cap.bytesTenant && Total(s.rows, TenantActive(t)) <= cap.activeTenant;
      }
    }
  }

  lemma PurgeKeepsInv(cap: Capacity, s: State, i: nat)
    requires Inv(cap, s)
    ensures Inv(cap, Apply(cap, s, Purge(i)))
  {
    if i < |s.rows| && s.rows[i].state == Deleted {
      DeleteKeepsExact(s, i);
      TotalRemove(s.rows, i, LiveBytes());
      TotalRemove(s.rows, i, ActiveRows());
      forall t
        ensures Total(s.rows[..i] + s.rows[i + 1..], TenantBytes(t)) <= cap.bytesTenant
        ensures Total(s.rows[..i] + s.rows[i + 1..], TenantActive(t)) <= cap.activeTenant
      {
        TotalRemove(s.rows, i, TenantBytes(t));
        TotalRemove(s.rows, i, TenantActive(t));
        assert Total(s.rows, TenantBytes(t)) <= cap.bytesTenant && Total(s.rows, TenantActive(t)) <= cap.activeTenant;
      }
    }
  }

  lemma {:induction false} RunKeepsInv(cap: Capacity, s: State, steps: seq<Step>)
    requires Inv(cap, s)
    ensures Inv(cap, Run(cap, s, steps))
    decreases steps
  {
    if steps != [] {
      match steps[0] {
        case SaveBatch(tenant, sizes) => SaveKeepsInv(cap, s, tenant, sizes);
        case Move(i, target) => MoveKeepsInv(cap, s, i, target);
        case Purge(i) => PurgeKeepsInv(cap, s, i);
      }
      RunKeepsInv(cap, Apply(cap, s, steps[0]), steps[1..]);
    }
  }

  /**
   * Whatever is reserved, confirmed, aborted, cleaned up and purged, in any order and whatever any
   * preflight answered, the counters equal the sums over live uploads and no cap is exceeded.
   */
  lemma {:induction false} QuotaConserved(cap: Capacity, steps: seq<Step>)
    ensures Exact(Run(cap, INITIAL, steps)) && Within(cap, Run(cap, INITIAL, steps).rows)
  {
    RunKeepsInv(cap, INITIAL, steps);
  }

  // ----- Which batches are saved -----

  lemma {:induction false} TotalAgrees(rows: seq<Upload>, f: Measure, g: Measure)
    requires forall r :: f(r) == g(r)
    ensures Total(rows, f) == Total(rows, g)
  {
    if rows != [] { TotalAgrees(rows[1..], f, g); }
  }

  /** The total of a measure that is one for some uploads and zero for the others is their number. */
  lemma {:induction false} TotalCounts(rows: seq<Upload>, f: Measure)
    requires forall r :: f(r) <= 1
    ensures Total(rows, f) == |set i: nat | i < |rows| && f(rows[i]) == 1|
    decreases |rows|
  {
    var counted := set i: nat | i < |rows| && f(rows[i]) == 1;
    if rows != [] {
      var front, last := rows[..|rows| - 1], |rows| - 1;
      TotalCounts(front, f);
      TotalAppend(front, [rows[last]], f);
      assert rows == front + [rows[last]];
      var before := set i: nat | i < |front| && f(front[i]) == 1;
      assert counted == before + (if f(rows[last]) == 1 then {last} else {});
    }
  }

  lemma {:induction false} InsertAllRows(s: State, tenant: string, sizes: seq<nat>)
    ensures InsertAll(s, tenant, sizes).rows
         == s.rows + seq(|sizes|, i requires 0 <= i < |sizes| => Upload(tenant, sizes[i], Created))
    decreases |sizes|
  {
    if sizes != [] {
      var r := Upload(tenant, sizes[0], Created);
      InsertAllRows(State(s.rows + [r], AfterInsert(s.counters, r)), tenant, sizes[1..]);
    }
  }

  ghost function ActiveSet(rows: seq<Upload>): set<nat> {
    set i: nat | i < |rows| && rows[i].state in {Created, Uploaded, Quarantined, Processing}
  }

  lemma ActiveCounted(rows: seq<Upload>, tenant: string)
    ensures Total(rows, ActiveRows()) == |ActiveSet(rows)|
    ensures Total(rows, TenantActive(tenant)) == |set i | i in ActiveSet(rows) && rows[i].tenant == tenant|
  {
    TotalCounts(rows, ActiveRows());
    TotalCounts(rows, TenantActive(tenant));
    assert ActiveSet(rows) == set i: nat | i < |rows| && ActiveRows()(rows[i]) == 1;
    assert (set i | i in ActiveSet(rows) && rows[i].tenant == tenant)
        == set i: nat | i < |rows| && TenantActive(tenant)(rows[i]) == 1;
  }

  /** The counters hold the bytes of the uploads that are not deleted. */
  lemma BytesCounted(s: State, tenant: string)
    requires Exact(s)
    ensures s.counters.total == Total(s.rows, (r: Upload) => if r.state == Deleted then 0 else r.bytes)
    ensures (if tenant in s.counters.tenants then s.counters.tenants[tenant] else 0)
         == Total(s.rows, (r: Upload) => if r.state != Deleted && r.tenant == tenant then r.bytes else 0)
  {
    TotalAgrees(s.rows, LiveBytes(), (r: Upload) => if r.state == Deleted then 0 else r.bytes);
    TotalAgrees(s.rows, TenantBytes(tenant),
                (r: Upload) => if r.state != Deleted && r.tenant == tenant then r.bytes else 0);
  }

  /**
   * In every run a batch is saved exactly when it holds one to a hundred nonempty files, the files
   * waiting or in work stay within both caps, and the bytes of uploads that are not deleted stay
   * within both caps. Saved files are appended in order, freshly created for their tenant.
   */
  lemma {:induction false} SavedExactly(cap: Capacity, steps: seq<Step>, tenant: string, sizes: seq<nat>)
    ensures var s := Run(cap, INITIAL, steps);
            var s' := Apply(cap, s, SaveBatch(tenant, sizes));
            var active := ActiveSet(s.rows);
            var own := set i | i in active && s.rows[i].tenant == tenant;
            var live := Total(s.rows, (r: Upload) => if r.state == Deleted then 0 else r.bytes);
            var ownLive :=
              Total(s.rows, (r: Upload) => if r.state != Deleted && r.tenant == tenant then r.bytes else 0);
            var fits := && 0 < |sizes| <= 100 && (forall i :: 0 <= i < |sizes| ==> sizes[i] > 0)
                        && |active| + |sizes| <= cap.activeGlobal && |own| + |sizes| <= cap.activeTenant
                        && live + Sum(sizes) <= cap.bytesGlobal && ownLive + Sum(sizes) <= cap.bytesTenant
                        && cap.activeTenant <= cap.activeGlobal && cap.bytesTenant <= cap.bytesGlobal <= U64_MAX / 2;
            && (s' != s <==> fits)
            && (fits ==>
                  s'.rows == s.rows + seq(|sizes|, i requires 0 <= i < |sizes| => Upload(tenant, sizes[i], Created)))
  {
    hide Run, Total, Exact, ActiveSet, InsertAll;
    QuotaConserved(cap, steps);
    var s := Run(cap, INITIAL, steps);
    ActiveCounted(s.rows, tenant);
    BytesCounted(s, tenant);
    InsertAllRows(s, tenant, sizes);
    if sizes != [] { SumUpdate(sizes, 0, sizes[0]); }
  }

  // ----- The backup verifier -----

  /** Rows of the stored tenant table. */
  function StoredRows(c: Counters): set<(string, int)> {
    set t | t in c.tenants :: (t, c.tenants[t])
  }

  function LiveTenants(rows: seq<Upload>): set<string> {
    set r | r in rows && r.state != Deleted :: r.tenant
  }

  /** The grouped sums over live uploads. */
  function CalculatedRows(rows: seq<Upload>): set<(string, int)> {
    set t | t in LiveTenants(rows) :: (t, Total(rows, TenantBytes(t)))
  }

  /** SQLite evaluates a compound SELECT left to right: `((A EXCEPT B) UNION ALL B) EXCEPT A`. */
  function Mismatches(stored: set<(string, int)>, calculated: set<(string, int)>): set<(string, int)> {
    var united := multiset(stored - calculated) + multiset(calculated);
    set x | x in united && x !in stored
  }

  predicate VerifyAccepts(s: State) {
    s.counters.total == Total(s.rows, LiveBytes()) && |Mismatches(StoredRows(s.counters), CalculatedRows(s.rows))| == 0
  }

  /** Acceptance means exact counters for the whole and for every tenant with live uploads, and no more. */
  lemma VerifyAcceptsExactly(s: State)
    ensures VerifyAccepts(s) <==>
      (&& s.counters.total == Total(s.rows, LiveBytes())
       && forall t :: t in LiveTenants(s.rows) ==>
            t in s.counters.tenants && s.counters.tenants[t] == Total(s.rows, TenantBytes(t)))
  {
    var a, b := StoredRows(s.counters), CalculatedRows(s.rows);
    assert Mismatches(a, b) == b - a;
    if b - a == {} {
      forall t | t in LiveTenants(s.rows)
        ensures t in s.counters.tenants && s.counters.tenants[t] == Total(s.rows, TenantBytes(t))
      {
        var x := (t, Total(s.rows, TenantBytes(t)));
        assert x in b && x !in b - a;
        assert x in a;
      }
    }
    if |b - a| > 0 {
      var x :| x in b - a;
      assert x.0 in LiveTenants(s.rows);
    }
  }

  lemma LiveTenantHasBytes(rows: seq<Upload>, t: string)
    requires Positive(rows)
    ensures t in LiveTenants(rows) <==> Total(rows, TenantBytes(t)) > 0
    decreases rows
  {
    if rows != [] {
      LiveTenantHasBytes(rows[1..], t);
      assert rows == [rows[0]] + rows[1..];
      if t in LiveTenants(rows) {
        var r :| r in rows && r.state != Deleted && r.tenant == t;
        assert r == rows[0] || r in rows[1..];
      }
    }
  }

  /** Every database the service itself produced is accepted. */
  lemma {:induction false} RunsVerify(cap: Capacity, steps: seq<Step>)
    ensures VerifyAccepts(Run(cap, INITIAL, steps))
  {
    RunKeepsInv(cap, INITIAL, steps);
    var s := Run(cap, INITIAL, steps);
    VerifyAcceptsExactly(s);
    forall t | t in LiveTenants(s.rows)
      ensures t in s.counters.tenants
    {
      LiveTenantHasBytes(s.rows, t);
    }
  }

  /** An accepted database has exact counters precisely when no tenant without live uploads has a row. */
  lemma AcceptedIsExactExactly(s: State)
    requires VerifyAccepts(s) && Positive(s.rows)
    ensures Exact(s) <==> forall t :: t in s.counters.tenants ==> t in LiveTenants(s.rows)
  {
    VerifyAcceptsExactly(s);
    forall t
      ensures t in LiveTenants(s.rows) <==> Total(s.rows, TenantBytes(t)) > 0
    {
      LiveTenantHasBytes(s.rows, t);
    }
  }

  /** A stale counter row passes verification and keeps its tenant from reserving anything. */
  lemma StaleTenantRowAccepted(tenant: string, bytes: nat)
    requires bytes > 0
    ensures var s := State([], Counters(0, map[tenant := bytes]));
            && VerifyAccepts(s) && !Exact(s)
            && forall cap: Capacity, files, size :: bytes >= cap.bytesTenant ==> !Allows(cap, s, tenant, files, size)
  {
    var s := State([], Counters(0, map[tenant := bytes]));
    VerifyAcceptsExactly(s);
    assert tenant in s.counters.tenants && Total(s.rows, TenantBytes(tenant)) == 0;
  }
}
