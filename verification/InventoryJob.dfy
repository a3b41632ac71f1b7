/** One audit or prune run over both namespaces, page by page, and where it stops. */
module InventoryJob {
  import opened Basics
  import ObjectKeys
  import opened Inventory
  import opened InventoryFates

  datatype Policy = Policy(grace: nat, pageSize: nat, maxPages: nat) {
    predicate Valid() { 3600 <= grace <= 2592000 && 1 <= pageSize <= 1000 && 1 <= maxPages <= 100 }
  }

  datatype RunError = InvalidPage | ObjectStore | Repository

  function SaturatingSub(a: nat, b: nat): nat { if a < b then 0 else a - b }

  /** Both database calls about one eligible key answer. */
  predicate KeyAnswers(world: World, ns: Namespace, page: nat, key: string) {
    world.answers(ns, page, Check(key)) && world.answers(ns, page, Record(key))
  }

  /** Every database call about one page answers. */
  ghost predicate Answers(world: World, ns: Namespace, page: nat) {
    forall call :: world.answers(ns, page, call)
  }

  // ----- Why a run stops -----

  /** The outcome of one page that is not accepted. */
  ghost predicate Stops(e: RunError, ns: Namespace, world: World, cursor: Option<string>, number: nat) {
    match e
    case ObjectStore => world.page(ns, number).None?
    case InvalidPage => world.page(ns, number).Some? && !ValidPage(ns, cursor, world.page(ns, number).value)
    case Repository => !Answers(world, ns, number)
  }

  /** Why a run over a namespace stopped: the failing page is one after the cursor saved last. */
  ghost predicate Explains(e: RunError, ns: Namespace, world: World, cursor: Option<string>, pages: nat) {
    match e
    case ObjectStore => exists n: nat :: n < pages && world.page(ns, n).None?
    case InvalidPage =>
      exists n: nat :: n < pages && world.page(ns, n).Some? && !ValidPage(ns, cursor, world.page(ns, n).value)
    case Repository => !world.answers(ns, 0, ReadCursor) || exists n: nat :: n < pages && !Answers(world, ns, n)
  }

  lemma ReadExplains(ns: Namespace, world: World, cursor: Option<string>, pages: nat)
    requires !world.answers(ns, 0, ReadCursor)
    ensures Explains(Repository, ns, world, cursor, pages)
  {
  }

  lemma StopExplains(e: RunError, ns: Namespace, world: World, cursor: Option<string>, number: nat, pages: nat)
    requires number < pages && Stops(e, ns, world, cursor, number)
    ensures Explains(e, ns, world, cursor, pages)
  {
  }

  // ----- What a run makes of a namespace -----

  /** Every counter of the first pages, key for key. */
  ghost predicate Totals(s: Survey, pages: nat, before: Summary, after: Summary) {
    after == before.(pages := before.pages + pages, listed := after.listed,
                     invalidKeys := before.invalidKeys + s.Count({Foreign}, pages),
                     known := before.known + s.Count({Owned}, pages) + s.Count({Reclaimed}, pages),
                     suspected := before.suspected + s.Count({Suspect}, pages),
                     eligible := before.eligible + s.Count({Left}, pages) + s.Count({Deleted}, pages)
                                 + s.Count({Undeleted}, pages),
                     deleted := before.deleted + s.Count({Deleted}, pages),
                     deleteFailed := before.deleteFailed + s.Count({Undeleted}, pages),
                     completedNamespaces := after.completedNamespaces)
  }

  ghost predicate Unlisted(s: Survey, pages: nat, k: string) { forall n: nat :: n < pages ==> k !in s.Listed(n) }

  /** The observations after the first pages. */
  ghost predicate Observed(s: Survey, pages: nat, now: int, orphans: Orphans) {
    && (forall n: nat, k :: n < pages && k in s.Listed(n) ==> s.Leaves(n, s.Listed(n), now, k, orphans))
    && (forall k :: Unlisted(s, pages, k) ==> Same(s.before, orphans, k))
  }

  /** The keys listed so far lie at or before the cursor. */
  ghost predicate Behind(s: Survey, pages: nat, cursor: Option<string>) {
    cursor.Some? ==>
      forall n: nat, k :: n < pages && k in s.Listed(n) ==> k == cursor.value || Less(k, cursor.value)
  }

  lemma NothingObserved(s: Survey, now: int, before: Summary, cursor: Option<string>)
    ensures Observed(s, 0, now, s.before) && Totals(s, 0, before, before) && Behind(s, 0, cursor) && s.Log(0) == []
  {
  }

  /** A page after the cursor lists only keys of no earlier page. */
  lemma PageIsFresh(s: Survey, pages: nat, cursor: Option<string>, page: Page)
    requires Behind(s, pages, cursor) && (pages > 0 ==> cursor.Some?) && ValidPage(s.ns, cursor, page)
    ensures forall k :: k in page.keys ==> Unlisted(s, pages, k)
  {
    forall k, n: nat | k in page.keys && n < pages
      ensures k !in s.Listed(n)
    {
      if k in s.Listed(n) {
        assert Less(cursor.value, k);
        if k != cursor.value { LessTransitive(k, cursor.value, k); }
        LessIrreflexive(k);
      }
    }
  }

  lemma BehindNext(s: Survey, pages: nat, cursor: Option<string>, page: Page)
    requires Behind(s, pages, cursor) && (pages > 0 ==> cursor.Some?) && ValidPage(s.ns, cursor, page)
    requires s.world.page(s.ns, pages) == Some(page)
    ensures Behind(s, pages + 1, page.next)
  {
    if page.next.Some? {
      var last := |page.keys| - 1;
      forall n: nat, k | n < pages + 1 && k in s.Listed(n)
        ensures k == page.next.value || Less(k, page.next.value)
      {
        if n == pages {
          var i :| 0 <= i < |page.keys| && page.keys[i] == k;
          if i < last { IncreasingOrders(page.keys, i, last); }
        } else {
          assert Less(cursor.value, page.keys[last]);
          if k != cursor.value { LessTransitive(k, cursor.value, page.keys[last]); }
        }
      }
    }
  }

  /** A finished page adds its keys to those of the pages before it. */
  lemma ObservedNext(s: Survey, pages: nat, now: int, mid: Orphans, after: Orphans)
    requires Observed(s, pages, now, mid) && forall k :: k in s.Listed(pages) ==> Unlisted(s, pages, k)
    requires forall k :: s.(before := mid).Leaves(pages, s.Listed(pages), now, k, after)
    ensures Observed(s, pages + 1, now, after)
  {
    forall n: nat, k | n < pages + 1 && k in s.Listed(n)
      ensures s.Leaves(n, s.Listed(n), now, k, after)
    {
      assert s.(before := mid).Leaves(pages, s.Listed(pages), now, k, after);
      if n < pages {
        assert s.Leaves(n, s.Listed(n), now, k, mid);
        assert k in s.Listed(pages) ==> Unlisted(s, pages, k);
      } else {
        assert Same(s.before, mid, k);
      }
    }
    forall k | Unlisted(s, pages + 1, k)
      ensures Same(s.before, after, k)
    {
      assert k !in s.Listed(pages);
      assert Unlisted(s, pages, k) && Same(s.before, mid, k);
      assert s.(before := mid).Leaves(pages, s.Listed(pages), now, k, after);
    }
  }

  /** The keys of a fresh page fare as the observations before the run decide. */
  lemma FreshPageAgrees(s: Survey, pages: nat, now: int, mid: Orphans)
    requires Observed(s, pages, now, mid) && forall k :: k in s.Listed(pages) ==> Unlisted(s, pages, k)
    ensures forall fates ::
              s.With(fates, pages, s.Listed(pages)) == s.(before := mid).With(fates, pages, s.Listed(pages))
    ensures s.Entries(pages, s.Listed(pages)) == s.(before := mid).Entries(pages, s.Listed(pages))
  {
    var s' := s.(before := mid);
    forall k | k in s.Listed(pages)
      ensures Same(s.before, mid, k)
    {
      assert Unlisted(s, pages, k);
    }
    FatesAgree(s, s', {}, pages, s.Listed(pages));
    forall fates
      ensures s.With(fates, pages, s.Listed(pages)) == s'.With(fates, pages, s.Listed(pages))
    {
      FatesAgree(s, s', fates, pages, s.Listed(pages));
    }
  }

  lemma TotalsNext(s: Survey, pages: nat, before: Summary, mid: Summary, after: Summary, s': Survey)
    requires Totals(s, pages, before, mid) && Counted(s', pages, s.Listed(pages), mid, after)
    requires forall fates :: s.With(fates, pages, s.Listed(pages)) == s'.With(fates, pages, s.Listed(pages))
    ensures Totals(s, pages + 1, before, after)
  {
  }

  /** Where a run over a namespace stands after so many finished pages. */
  ghost predicate Surveyed(s: Survey, pages: nat, now: int, before: Summary, after: Summary, cursor: Option<string>,
                           orphans: Orphans, log: seq<Deletion>, log': seq<Deletion>)
  {
    && Observed(s, pages, now, orphans) && Behind(s, pages, cursor) && Totals(s, pages, before, after)
    && log' == log + s.Log(pages)
  }

  lemma SurveyNext(s: Survey, pages: nat, now: int, before: Summary, mid: Summary, after: Summary,
                   cursor: Option<string>, page: Page, orphans: Orphans, orphans': Orphans,
                   log: seq<Deletion>, logMid: seq<Deletion>, log': seq<Deletion>)
    requires Surveyed(s, pages, now, before, mid, cursor, orphans, log, logMid) && (pages > 0 ==> cursor.Some?)
    requires s.world.page(s.ns, pages) == Some(page) && ValidPage(s.ns, cursor, page)
    requires Scanned(s.(before := orphans), pages, now, true, mid, after, orphans', logMid, log')
    ensures Surveyed(s, pages + 1, now, before, after, page.next, orphans', log, log')
  {
    hide Survey.Leaves, Survey.With, Survey.Entries, Survey.FateOf, Observed, Behind, ValidPage, Totals, Counted,
      Unlisted, Same;
    PageIsFresh(s, pages, cursor, page);
    BehindNext(s, pages, cursor, page);
    FreshPageAgrees(s, pages, now, orphans);
    ObservedNext(s, pages, now, orphans, orphans');
    TotalsNext(s, pages, before, mid, after, s.(before := orphans));
  }

  /** A page that stops the run has logged at most its own deletions. */
  lemma SurveyStops(s: Survey, pages: nat, now: int, before: Summary, mid: Summary, cursor: Option<string>,
                    orphans: Orphans, orphans': Orphans, log: seq<Deletion>, logMid: seq<Deletion>,
                    log': seq<Deletion>)
    requires Surveyed(s, pages, now, before, mid, cursor, orphans, log, logMid) && (pages > 0 ==> cursor.Some?)
    requires || (orphans' == orphans && log' == logMid)
             || (s.world.page(s.ns, pages).Some? && ValidPage(s.ns, cursor, s.world.page(s.ns, pages).value))
    requires Scanned(s.(before := orphans), pages, now, false, mid, mid, orphans', logMid, log')
    ensures log + s.Log(pages) <= log' <= log + s.Log(pages + 1)
  {
    hide Survey.Leaves, Survey.With, Survey.Entries, Survey.FateOf, Observed, Behind, ValidPage, Totals, Counted,
      Unlisted, Same;
    if orphans' != orphans || log' != logMid {
      PageIsFresh(s, pages, cursor, s.world.page(s.ns, pages).value);
      FreshPageAgrees(s, pages, now, orphans);
    }
  }

  /** The counter of completed namespaces belongs to no page. */
  lemma CompletionUncounted(s: Survey, pages: nat, now: int, before: Summary, after: Summary, cursor: Option<string>,
                            orphans: Orphans, log: seq<Deletion>, log': seq<Deletion>, mode: Mode)
    requires Surveyed(s, pages, now, before, after, cursor, orphans, log, log') && Balanced(after, mode)
    ensures var after' := after.(completedNamespaces := after.completedNamespaces + 1);
            Surveyed(s, pages, now, before, after', cursor, orphans, log, log') && Balanced(after', mode)
  {
  }

  /** The loop over a namespace's pages: `finished` once a page ended the cycle. */
  ghost predicate Underway(s: Survey, pages: nat, now: int, before: Summary, after: Summary, finished: bool,
                           cursor: Option<string>, orphans: Orphans, log: seq<Deletion>, log': seq<Deletion>)
  {
    && Surveyed(s, pages, now, before, after, cursor, orphans, log, log') && Balanced(after, s.mode)
    && after.completedNamespaces == before.completedNamespaces + (if finished then 1 else 0)
    && (if pages == 0 then !finished else finished <==> cursor.None?)
  }

  lemma UnderwayStarts(s: Survey, now: int, before: Summary, cursor: Option<string>, log: seq<Deletion>)
    requires Balanced(before, s.mode)
    ensures Underway(s, 0, now, before, before, false, cursor, s.before, log, log)
    ensures log + s.Log(0) <= log <= log + s.Log(1)
  {
    NothingObserved(s, now, before, cursor);
  }

  lemma UnderwayNext(s: Survey, pages: nat, now: int, before: Summary, mid: Summary, after: Summary,
                     cursor: Option<string>, cursor': Option<string>, orphans: Orphans, orphans': Orphans,
                     log: seq<Deletion>, logMid: seq<Deletion>, log': seq<Deletion>)
    requires Underway(s, pages, now, before, mid, false, cursor, orphans, log, logMid)
    requires Surveyed(s, pages + 1, now, before, after, cursor', orphans', log, log') && Balanced(after, s.mode)
    requires after.completedNamespaces == mid.completedNamespaces + (if cursor'.None? then 1 else 0)
    ensures Underway(s, pages + 1, now, before, after, cursor'.None?, cursor', orphans', log, log')
  {
  }

  /** How a run over one namespace ends: after finished pages, or at a page that stops it. */
  ghost predicate NamespaceDone(s: Survey, pages: nat, maxPages: nat, now: int, before: Summary,
                                r: Result<Summary, RunError>, cursor: Option<string>, orphans: Orphans,
                                log: seq<Deletion>, log': seq<Deletion>)
  {
    match r
    case Err(e) => Explains(e, s.ns, s.world, cursor, maxPages) && log + s.Log(pages) <= log' <= log + s.Log(pages + 1)
    case Ok(after) =>
      && pages > 0 && (pages < maxPages ==> cursor.None?) && Balanced(after, s.mode)
      && Observed(s, pages, now, orphans) && Totals(s, pages, before, after) && log' == log + s.Log(pages)
      && after.completedNamespaces == before.completedNamespaces + (if cursor.None? then 1 else 0)
  }

  lemma NamespaceStops(s: Survey, pages: nat, maxPages: nat, now: int, before: Summary, e: RunError,
                       cursor: Option<string>, orphans: Orphans, log: seq<Deletion>, log': seq<Deletion>)
    requires Explains(e, s.ns, s.world, cursor, maxPages) && log + s.Log(pages) <= log' <= log + s.Log(pages + 1)
    ensures NamespaceDone(s, pages, maxPages, now, before, Err(e), cursor, orphans, log, log')
  {
  }

  lemma NamespaceEnds(s: Survey, pages: nat, maxPages: nat, now: int, before: Summary, after: Summary, finished: bool,
                      cursor: Option<string>, orphans: Orphans, log: seq<Deletion>, log': seq<Deletion>)
    requires Underway(s, pages, now, before, after, finished, cursor, orphans, log, log')
    requires pages > 0 && (finished || pages == maxPages)
    ensures NamespaceDone(s, pages, maxPages, now, before, Ok(after), cursor, orphans, log, log')
  {
  }

  lemma NamespaceBalanced(s: Survey, pages: nat, maxPages: nat, now: int, before: Summary, after: Summary,
                          cursor: Option<string>, orphans: Orphans, log: seq<Deletion>, log': seq<Deletion>)
    requires NamespaceDone(s, pages, maxPages, now, before, Ok(after), cursor, orphans, log, log')
    ensures Balanced(after, s.mode)
  {
  }

  // ----- Every deletion is justified -----

  ghost predicate Justified(world: World, d: Deletion, eligibleBefore: int) {
    && !world.ownedAtRecheck(d.ns, d.page, d.key) && d.firstSeen <= eligibleBefore
    && d.key !in world.owned(d.ns, d.page) && ObjectKeys.Valid(d.key) && StartsWith(d.key, d.ns.Prefix())
  }

  /** The log only grows, and by justified deletions. */
  ghost predicate Extends(world: World, log: seq<Deletion>, log': seq<Deletion>, eligibleBefore: int) {
    log <= log'
    && forall i :: |log| <= i < |log'| ==> Justified(world, log'[i], eligibleBefore)
  }

  /** Every deletion a run logs is of an unowned, kept key first seen early enough. */
  lemma {:induction false} EntriesJustified(s: Survey, page: nat, keys: seq<string>)
    ensures forall i :: 0 <= i < |s.Entries(page, keys)| ==> Justified(s.world, s.Entries(page, keys)[i], s.limit)
    decreases |keys|
  {
    if keys != [] { EntriesJustified(s, page, keys[..|keys| - 1]); }
  }

  lemma {:induction false} LogJustified(s: Survey, pages: nat)
    ensures forall i :: 0 <= i < |s.Log(pages)| ==> Justified(s.world, s.Log(pages)[i], s.limit)
  {
    if pages > 0 {
      LogJustified(s, pages - 1);
      EntriesJustified(s, pages - 1, s.Listed(pages - 1));
    }
  }

  lemma {:induction false} AuditLogsNothing(s: Survey, pages: nat)
    ensures s.mode == Audit ==> s.Log(pages) == []
  {
    hide Survey.With, Survey.Entries, Survey.FateOf;
    if pages > 0 {
      AuditLogsNothing(s, pages - 1);
      FatesByMode(s, pages - 1, s.Listed(pages - 1));
    }
  }

  /** A log between the one before the run and that of two namespaces holds justified deletions only. */
  lemma RunJustified(raw: Survey, raws: nat, derivative: Survey, derivatives: nat, base: seq<Deletion>,
                     log: seq<Deletion>)
    requires derivative == Survey(raw.world, derivative.ns, derivative.before, raw.mode, raw.limit)
    requires base <= log <= base + raw.Log(raws) + derivative.Log(derivatives)
    ensures Extends(raw.world, base, log, raw.limit) && (raw.mode == Audit ==> log == base)
  {
    hide Survey.Log;
    LogJustified(raw, raws);
    LogJustified(derivative, derivatives);
    AuditLogsNothing(raw, raws);
    AuditLogsNothing(derivative, derivatives);
    var whole := base + raw.Log(raws) + derivative.Log(derivatives);
    forall i | |base| <= i < |log|
      ensures Justified(raw.world, log[i], raw.limit)
    {
      assert log[i] == whole[i];
    }
  }

  // ----- What a run makes of both namespaces -----

  /** Every counter of a run over both namespaces, key for key. */
  ghost predicate RunTotals(raw: Survey, raws: nat, derivative: Survey, derivatives: nat, r: Summary) {
    var both := (fate: Fate) => raw.Count({fate}, raws) + derivative.Count({fate}, derivatives);
    && r.pages == raws + derivatives && r.invalidKeys == both(Foreign)
    && r.known == both(Owned) + both(Reclaimed) && r.suspected == both(Suspect)
    && r.eligible == both(Left) + both(Deleted) + both(Undeleted)
    && r.deleted == both(Deleted) && r.deleteFailed == both(Undeleted)
  }

  /** How a run over both namespaces ends. */
  ghost predicate RunDone(raw: Survey, raws: nat, derivative: Survey, derivatives: nat, maxPages: nat, now: int,
                          r: Result<Summary, RunError>, cursors: map<Namespace, Option<string>>,
                          orphans: map<Namespace, Orphans>, log: seq<Deletion>, log': seq<Deletion>)
    requires Raw in cursors && Derivative in cursors && Raw in orphans && Derivative in orphans
  {
    var both := log + raw.Log(raws);
    match r
    case Err(e) =>
      || (&& derivatives == 0 && Explains(e, Raw, raw.world, cursors[Raw], maxPages)
          && both <= log' <= log + raw.Log(raws + 1))
      || (&& Explains(e, Derivative, raw.world, cursors[Derivative], maxPages)
          && both + derivative.Log(derivatives) <= log' <= both + derivative.Log(derivatives + 1))
    case Ok(after) =>
      && Balanced(after, raw.mode) && RunTotals(raw, raws, derivative, derivatives, after)
      && log' == both + derivative.Log(derivatives)
      && Observed(raw, raws, now, orphans[Raw]) && Observed(derivative, derivatives, now, orphans[Derivative])
      && 0 < raws && (raws < maxPages ==> cursors[Raw].None?)
      && 0 < derivatives && (derivatives < maxPages ==> cursors[Derivative].None?)
      && after.completedNamespaces
           == (if cursors[Raw].None? then 1 else 0) + (if cursors[Derivative].None? then 1 else 0)
  }

  lemma NothingBalanced(mode: Mode)
    ensures Balanced(Summary(0, 0, 0, 0, 0, 0, 0, 0, 0), mode)
  {
  }

  lemma RawStops(raw: Survey, raws: nat, derivative: Survey, maxPages: nat, now: int, before: Summary, e: RunError,
                 cursors: map<Namespace, Option<string>>, orphans: map<Namespace, Orphans>,
                 log: seq<Deletion>, log': seq<Deletion>)
    requires Raw in cursors && Derivative in cursors && Raw in orphans && Derivative in orphans
    requires derivative == Survey(raw.world, derivative.ns, derivative.before, raw.mode, raw.limit) && raw.ns == Raw
    requires NamespaceDone(raw, raws, maxPages, now, before, Err(e), cursors[Raw], orphans[Raw], log, log')
    ensures RunDone(raw, raws, derivative, 0, maxPages, now, Err(e), cursors, orphans, log, log')
    ensures Extends(raw.world, log, log', raw.limit) && (raw.mode == Audit ==> log' == log)
  {
    assert derivative.Log(0) == [];
    RunJustified(raw, raws + 1, derivative, 0, log, log');
  }

  /** The second namespace follows a finished first one. */
  lemma BothDone(raw: Survey, raws: nat, derivative: Survey, derivatives: nat, maxPages: nat, now: int, mid: Summary,
                 r: Result<Summary, RunError>, cursors: map<Namespace, Option<string>>,
                 orphans: map<Namespace, Orphans>, log: seq<Deletion>, logMid: seq<Deletion>, log': seq<Deletion>)
    requires Raw in cursors && Derivative in cursors && Raw in orphans && Derivative in orphans
    requires derivative == Survey(raw.world, Derivative, derivative.before, raw.mode, raw.limit)
    requires NamespaceDone(raw, raws, maxPages, now, Summary(0, 0, 0, 0, 0, 0, 0, 0, 0), Ok(mid), cursors[Raw],
                           orphans[Raw], log, logMid)
    requires NamespaceDone(derivative, derivatives, maxPages, now, mid, r, cursors[Derivative], orphans[Derivative],
                           logMid, log')
    ensures RunDone(raw, raws, derivative, derivatives, maxPages, now, r, cursors, orphans, log, log')
    ensures Extends(raw.world, log, log', raw.limit) && (raw.mode == Audit ==> log' == log)
  {
    hide Explains, Balanced, Extends, Observed, Survey.Log, Survey.Count, Justified;
    RunJustified(raw, raws, derivative, if r.Ok? then derivatives else derivatives + 1, log, log');
  }

  // ----- The service object -----

  class Service {
    const policy: Policy
    var cursors: map<Namespace, Option<string>>
    var orphans: map<Namespace, Orphans>
    ghost var log: seq<Deletion>

    constructor (policy: Policy)
      requires policy.Valid()
      ensures this.policy == policy && Valid() && log == []
      ensures cursors == map[Raw := None, Derivative := None] && orphans == map[Raw := map[], Derivative := map[]]
    {
      this.policy := policy;
      cursors := map[Raw := None, Derivative := None];
      orphans := map[Raw := map[], Derivative := map[]];
      log := [];
    }

    ghost predicate Valid()
      reads this
    {
      && policy.Valid() && Raw in cursors && Derivative in cursors && Raw in orphans && Derivative in orphans
      && ValidCursor(Raw, cursors[Raw]) && ValidCursor(Derivative, cursors[Derivative])
    }

    /** Keeps the keys that parse and belong to the namespace; the rest are only counted. */
    method Screen(ns: Namespace, keys: seq<string>) returns (valid: seq<string>, invalid: nat)
      ensures valid == Kept(ns, keys) && |valid| + invalid == |keys|
    {
      valid, invalid := [], 0;
      var i := 0;
      while i < |keys|
        invariant 0 <= i <= |keys| && |valid| + invalid == i && valid == Kept(ns, keys[..i])
      {
        assert keys[..i + 1][..i] == keys[..i];
        if ObjectKeys.Valid(keys[i]) && StartsWith(keys[i], ns.Prefix()) {
          valid := valid + [keys[i]];
        } else {
          invalid := invalid + 1;
        }
        i := i + 1;
      }
      assert keys[..i] == keys;
    }

    /**
     * Recheck, then delete and record, one eligible key: the database's answer and the provider's
     * decide which of the three outcomes it is.
     */
    method PruneOne(ns: Namespace, page: nat, key: string, world: World, eligibleBefore: int, before: Summary)
      returns (summary: Summary, ok: bool)
      requires Valid() && OldSuspect(orphans[ns], key, eligibleBefore)
      requires key !in world.owned(ns, page) && Keepable(ns, key)
               && before.eligible > before.deleted + before.deleteFailed
      modifies this`orphans, this`log
      ensures Valid() && (ok <==> KeyAnswers(world, ns, page, key))
      ensures ok ==> PrunedKey(world, ns, page, key, old(orphans)[ns], orphans[ns], before, summary, old(log), log)
      ensures !ok ==> orphans == old(orphans)
                      && (log == old(log)
                          || (&& !world.ownedAtRecheck(ns, page, key) && world.deletes(ns, page, key)
                              && log == old(log) + [Deletion(ns, page, key, old(orphans)[ns][key].firstSeen)]))
      ensures orphans[ns] - {key} == old(orphans)[ns] - {key}
      ensures orphans[ns.Other()] == old(orphans)[ns.Other()]
    {
      summary, ok := before, world.answers(ns, page, Check(key));
      if !ok {
        return;
      }
      var owned := world.ownedAtRecheck(ns, page, key);
      var deleted := !owned && world.deletes(ns, page, key);
      if deleted {
        log := log + [Deletion(ns, page, key, orphans[ns][key].firstSeen)];
      }
      ok := world.answers(ns, page, Record(key));
      if !ok {
        return;
      }
      var o := orphans[ns][key];
      if owned {
        orphans := orphans[ns := orphans[ns] - {key}];
        summary := summary.(known := summary.known + 1, eligible := SaturatingSub(summary.eligible, 1));
      } else if deleted {
        orphans := orphans[ns := orphans[ns][key := o.(deleted := true, error := None)]];
        summary := summary.(deleted := summary.deleted + 1);
      } else {
        orphans := orphans[ns := orphans[ns][key := o.(attempts := o.attempts + 1,
                                                       error := Some("PROVIDER_DELETE_FAILED"))]];
        summary := summary.(deleteFailed := summary.deleteFailed + 1);
      }
    }

    /**
     * The prune loop over one page's eligible keys: those owned again become known, and of the others
     * exactly the ones the provider deletes are logged, in order; the rest are counted as failed.
     */
    method PruneAll(ns: Namespace, page: nat, eligible: seq<string>, world: World, now: int, before: Summary,
                    ghost s: Survey)
      returns (summary: Summary, ok: bool)
      requires Valid() && AllDifferent(eligible)
      requires s == Survey(world, ns, s.before, Prune, now - policy.grace)
      requires forall k :: k in eligible ==> s.FateOf(page, k) in Eligible() && Continues(s, orphans[ns], k)
      requires before.eligible == before.deleted + before.deleteFailed + |eligible|
      modifies this`orphans, this`log
      ensures Valid() && (ok <==> forall k :: k in eligible ==> KeyAnswers(world, ns, page, k))
      ensures old(log) <= log <= old(log) + s.Entries(page, eligible)
      ensures ok ==> log == old(log) + s.Entries(page, eligible) && Tallied(s, page, eligible, before, summary)
      ensures ok ==> forall k :: k in eligible ==> Outcome(s, page, k, orphans[ns])
      ensures orphans[ns.Other()] == old(orphans)[ns.Other()]
      ensures forall k :: k !in eligible ==> Same(old(orphans)[ns], orphans[ns], k)
    {
      hide Pruning, Outcome, Tallied, PrunedKey, KeyAnswers, Survey.FateOf, OldSuspect, Keepable, Survey.With,
        Survey.Entries, Same, Continues, AllDifferent;
      PruningStarts(s, page, eligible, orphans[ns], before, log);
      summary, ok := before, true;
      var i := 0;
      while i < |eligible|
        invariant 0 <= i <= |eligible| && Valid() && ok
        invariant forall j :: 0 <= j < i ==> KeyAnswers(world, ns, page, eligible[j])
        invariant Pruning(s, page, eligible, i, old(orphans)[ns], orphans[ns], before, summary, old(log), log)
        invariant orphans[ns.Other()] == old(orphans)[ns.Other()]
      {
        ghost var earlier, earlierLog, earlierSummary := orphans[ns], log, summary;
        PruningNext(s, page, eligible, i, old(orphans)[ns], earlier, before, summary, old(log), log);
        summary, ok := PruneOne(ns, page, eligible[i], world, now - policy.grace, summary);
        if !ok {
          PruningStops(s, page, eligible, i, old(orphans)[ns], earlier, before, earlierSummary, old(log), earlierLog,
                       log);
          return;
        }
        PruningStep(s, page, eligible, i, old(orphans)[ns], earlier, orphans[ns], before, earlierSummary, summary,
                    old(log), earlierLog, log);
        i := i + 1;
      }
      PruningEnds(s, page, eligible, old(orphans)[ns], orphans[ns], before, summary, old(log), log);
    }

    /** Screening and the reconciling transaction for an accepted page. */
    method ReconcilePage(ns: Namespace, number: nat, page: Page, now: int, world: World, before: Summary,
                         ghost s: Survey)
      returns (summary: Summary, eligible: seq<string>)
      requires Valid() && Increasing(page.keys)
      requires s == Survey(world, ns, orphans[ns], s.mode, now - policy.grace)
      modifies this`orphans
      ensures Valid() && AllDifferent(eligible) && eligible == s.With(Eligible(), number, page.keys)
      ensures Reconciles(s, number, page.keys, before, summary)
      ensures forall k :: if k in page.keys && s.FateOf(number, k) in Eligible() then Continues(s, orphans[ns], k)
                          else s.Leaves(number, page.keys, now, k, orphans[ns])
      ensures orphans[ns.Other()] == old(orphans)[ns.Other()]
    {
      hide Reconcile, Survey.With, Survey.FateOf, Survey.Leaves, Kept, Increasing, AllDifferent, Continues;
      ReconciledPage(s, number, page.keys, now);
      summary := before.(pages := before.pages + 1, listed := before.listed + |page.keys|);
      var valid, invalid := Screen(ns, page.keys);
      summary := summary.(invalidKeys := summary.invalidKeys + invalid);
      var (after, found) := Reconcile(world.owned(ns, number), orphans[ns], valid, now, now - policy.grace);
      orphans := orphans[ns := after];
      summary := summary.(known := summary.known + found.known, suspected := summary.suspected + found.suspected,
                          eligible := summary.eligible + |found.eligible|);
      eligible := found.eligible;
    }

    /**
     * One page: list, check, screen, reconcile, prune when asked, and only then save the cursor. Each
     * listed key is counted by its fate, and exactly the keys prune is to delete and can are deleted.
     */
    method ScanPage(ns: Namespace, number: nat, mode: Mode, now: int, world: World, before: Summary)
      returns (r: Result<Summary, RunError>)
      requires Valid() && Balanced(before, mode)
      modifies this
      ensures Valid()
      ensures r.Err? ==> Stops(r.error, ns, world, old(cursors)[ns], number) && cursors == old(cursors)
      ensures r == Err(ObjectStore) || r == Err(InvalidPage) ==> orphans == old(orphans) && log == old(log)
      ensures r.Ok? || r == Err(Repository) ==>
                world.page(ns, number).Some? && ValidPage(ns, old(cursors)[ns], world.page(ns, number).value)
      ensures r.Ok? ==> Balanced(r.value, mode) && cursors == old(cursors)[ns := world.page(ns, number).value.next]
                        && r.value.completedNamespaces == before.completedNamespaces
      ensures Scanned(Survey(world, ns, old(orphans)[ns], mode, now - policy.grace), number, now, r.Ok?, before,
                      if r.Ok? then r.value else before, orphans[ns], old(log), log)
      ensures orphans[ns.Other()] == old(orphans)[ns.Other()]
    {
      hide Increasing, StartsWith, OldSuspect, Keepable, AllDifferent, ValidPage, ValidCursor, Balanced, Scanned,
        Reconciles, Tallied, Outcome, Continues, Same, Survey.With, Survey.Entries, Survey.FateOf, Survey.Leaves;
      ghost var s := Survey(world, ns, orphans[ns], mode, now - policy.grace);
      NothingScanned(s, number, now, before, log);
      if world.page(ns, number).None? {
        return Err(ObjectStore);
      }
      var page := world.page(ns, number).value;
      if !ValidPage(ns, cursors[ns], page) {
        return Err(InvalidPage);
      }
      if !world.answers(ns, number, ReconcileKeys) {
        return Err(Repository);
      }
      NextCursorValid(ns, cursors[ns], page);
      ValidPageIncreases(ns, cursors[ns], page);
      var counted, eligible := ReconcilePage(ns, number, page, now, world, before, s);
      EligibleLeft(s, number, page.keys, before, counted);
      EligibleFates(s, number, page.keys);
      ghost var mid := orphans[ns];
      var summary := counted;
      if mode == Prune {
        var ok;
        summary, ok := PruneAll(ns, number, eligible, world, now, counted, s);
        if !ok {
          PartlyScanned(s, number, now, before, mid, orphans[ns], old(log), log);
          return Err(Repository);
        }
      }
      WhollyScanned(s, number, now, before, counted, summary, mid, orphans[ns], old(log), log);
      if !world.answers(ns, number, SaveCursor) {
        ScannedUnsaved(s, number, now, before, summary, orphans[ns], old(log), log);
        return Err(Repository);
      }
      cursors := cursors[ns := page.next];
      r := Ok(summary);
    }

    /** The next page of a namespace; `s`, `start` and `base` describe the run before its first page. */
    method ScanNext(ns: Namespace, p: nat, mode: Mode, now: int, world: World, summary: Summary,
                    ghost s: Survey, ghost start: Summary, ghost base: seq<Deletion>)
      returns (r: Result<Summary, RunError>)
      requires Valid() && p < policy.maxPages
      requires s == Survey(world, ns, s.before, mode, now - policy.grace)
      requires Underway(s, p, now, start, summary, false, cursors[ns], orphans[ns], base, log)
      modifies this
      ensures Valid()
      ensures cursors[ns.Other()] == old(cursors)[ns.Other()]
      ensures orphans[ns.Other()] == old(orphans)[ns.Other()]
      ensures if r.Err? then
                && Explains(r.error, ns, world, cursors[ns], policy.maxPages)
                && base + s.Log(p) <= log <= base + s.Log(p + 1)
              else Underway(s, p + 1, now, start, r.value, cursors[ns].None?, cursors[ns], orphans[ns], base, log)
    {
      hide Explains, Stops, Balanced, Scanned, Surveyed, ValidCursor, ValidPage, Survey.Log, Survey.Count, Totals,
        Observed, Behind, Survey.Leaves, Survey.FateOf, Survey.With, Survey.Entries, Unlisted, Same;
      ghost var cursor, earlier, earlierLog := cursors[ns], orphans[ns], log;
      r := ScanPage(ns, p, mode, now, world, summary);
      if r.Err? {
        StopExplains(r.error, ns, world, cursors[ns], p, policy.maxPages);
        SurveyStops(s, p, now, start, summary, cursor, earlier, orphans[ns], base, earlierLog, log);
        return;
      }
      SurveyNext(s, p, now, start, summary, r.value, cursor, world.page(ns, p).value, earlier, orphans[ns],
                 base, earlierLog, log);
      if cursors[ns].None? {
        CompletionUncounted(s, p + 1, now, start, r.value, cursors[ns], orphans[ns], base, log, mode);
        r := Ok(r.value.(completedNamespaces := r.value.completedNamespaces + 1));
      }
      UnderwayNext(s, p, now, start, summary, r.value, cursor, cursors[ns], earlier, orphans[ns], base, earlierLog,
                   log);
    }

    /**
     * Up to the page limit of one namespace, stopping where its cycle ends. After the finished pages
     * every listed key is counted, kept and deleted as the world and the observations the run
     * started with decide.
     */
    method ScanNamespace(ns: Namespace, mode: Mode, now: int, world: World, before: Summary)
      returns (r: Result<Summary, RunError>, ghost pages: nat)
      requires Valid() && Balanced(before, mode)
      modifies this
      ensures Valid() && cursors[ns.Other()] == old(cursors)[ns.Other()]
      ensures orphans[ns.Other()] == old(orphans)[ns.Other()]
      ensures pages <= policy.maxPages
      ensures NamespaceDone(Survey(world, ns, old(orphans)[ns], mode, now - policy.grace), pages, policy.maxPages, now,
                            before, r, cursors[ns], orphans[ns], old(log), log)
    {
      hide Explains, Balanced, ValidCursor, Survey.Log, NamespaceDone, Underway;
      ghost var s := Survey(world, ns, orphans[ns], mode, now - policy.grace);
      UnderwayStarts(s, now, before, cursors[ns], log);
      if !world.answers(ns, 0, ReadCursor) {
        ReadExplains(ns, world, cursors[ns], policy.maxPages);
        NamespaceStops(s, 0, policy.maxPages, now, before, Repository, cursors[ns], orphans[ns], log, log);
        return Err(Repository), 0;
      }
      var summary := before;
      var p := 0;
      var finished := false;
      while p < policy.maxPages && !finished
        invariant 0 <= p <= policy.maxPages && Valid() && (p == 0 ==> !finished)
        invariant Underway(s, p, now, before, summary, finished, cursors[ns], orphans[ns], old(log), log)
        invariant cursors[ns.Other()] == old(cursors)[ns.Other()]
        invariant orphans[ns.Other()] == old(orphans)[ns.Other()]
        decreases policy.maxPages - p
      {
        var next := ScanNext(ns, p, mode, now, world, summary, s, before, old(log));
        if next.Err? {
          NamespaceStops(s, p, policy.maxPages, now, before, next.error, cursors[ns], orphans[ns], old(log), log);
          return next, p;
        }
        summary := next.value;
        finished := cursors[ns].None?;
        p := p + 1;
      }
      NamespaceEnds(s, p, policy.maxPages, now, before, summary, finished, cursors[ns], orphans[ns], old(log), log);
      return Ok(summary), p;
    }

    /**
     * `run_once`: whatever the provider lists and the database answers, every listed key is counted
     * once by its fate, audit deletes nothing, and prune deletes, in listing order, exactly the
     * eligible keys that are unowned at their recheck and that the provider deletes. A run stops only
     * at a page that is not listed or not acceptable, or at a database call that fails; the saved
     * cursor is then the one before that page, and no key beyond that page is deleted.
     */
    method RunOnce(mode: Mode, now: int, world: World)
      returns (r: Result<Summary, RunError>, ghost raws: nat, ghost derivatives: nat)
      requires Valid()
      modifies this
      ensures Valid() && raws <= policy.maxPages && derivatives <= policy.maxPages
      ensures Extends(world, old(log), log, now - policy.grace) && (mode == Audit ==> log == old(log))
      ensures RunDone(Survey(world, Raw, old(orphans)[Raw], mode, now - policy.grace), raws,
                      Survey(world, Derivative, old(orphans)[Derivative], mode, now - policy.grace), derivatives,
                      policy.maxPages, now, r, cursors, orphans, old(log), log)
    {
      hide Explains, Balanced, Extends, Observed, Totals, NamespaceDone, RunDone, RunTotals, ValidCursor, Survey.Log;
      ghost var limit, zero := now - policy.grace, Summary(0, 0, 0, 0, 0, 0, 0, 0, 0);
      ghost var s1 := Survey(world, Raw, orphans[Raw], mode, limit);
      ghost var s2 := Survey(world, Derivative, orphans[Derivative], mode, limit);
      NothingBalanced(mode);
      var raw;
      raw, raws := ScanNamespace(Raw, mode, now, world, Summary(0, 0, 0, 0, 0, 0, 0, 0, 0));
      derivatives := 0;
      ghost var earlier := log;
      if raw.Err? {
        RawStops(s1, raws, s2, policy.maxPages, now, zero, raw.error, cursors, orphans, old(log), log);
        return raw, raws, 0;
      }
      NamespaceBalanced(s1, raws, policy.maxPages, now, zero, raw.value, cursors[Raw], orphans[Raw], old(log), log);
      ghost var cursor, observed := cursors[Raw], orphans[Raw];
      r, derivatives := ScanNamespace(Derivative, mode, now, world, raw.value);
      BothDone(s1, raws, s2, derivatives, policy.maxPages, now, raw.value, r, cursors, orphans, old(log), earlier, log);
    }
  }
}
