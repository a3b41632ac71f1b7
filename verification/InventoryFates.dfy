/**
 * What one page of an audit or prune run makes of each key the provider lists: its fate, decided by
 * the world the run meets and the observations it starts with, and what the transaction and the
 * prune loop do about it.
 */
module InventoryFates {
  import opened Basics
  import opened Inventory

  datatype Mode = Audit | Prune

  /** One object deleted by prune, with the first sighting recorded for it at that moment. */
  datatype Deletion = Deletion(ns: Namespace, page: nat, key: string, firstSeen: int)

  datatype DbCall = ReadCursor | ReconcileKeys | Check(key: string) | Record(key: string) | SaveCursor

  /**
   * The world a run meets, by namespace and page number: the provider's pages, if it answers; the
   * keys the database owns when a page is reconciled; for each key, whether it is owned at its
   * recheck and whether the provider deletes it; and which database calls answer.
   */
  datatype World = World(page: (Namespace, nat) -> Option<Page>, owned: (Namespace, nat) -> set<string>,
                         ownedAtRecheck: (Namespace, nat, string) -> bool, deletes: (Namespace, nat, string) -> bool,
                         answers: (Namespace, nat, DbCall) -> bool)

  datatype Summary = Summary(pages: nat, listed: nat, invalidKeys: nat, known: nat, suspected: nat, eligible: nat,
                             deleted: nat, deleteFailed: nat, completedNamespaces: nat)

  // ----- What a run makes of each listed key -----

  datatype Fate = Foreign | Owned | Suspect | Left | Reclaimed | Deleted | Undeleted

  /** The eligible keys: audit leaves them; prune finds them reclaimed, deletes them or fails to. */
  function Eligible(): set<Fate> { {Left, Reclaimed, Deleted, Undeleted} }

  /** One run over a namespace, from the observations it starts with. */
  datatype Survey = Survey(world: World, ns: Namespace, before: Orphans, mode: Mode, limit: int) {
    ghost function FateOf(page: nat, key: string): Fate {
      if !Keepable(ns, key) then Foreign
      else if key in world.owned(ns, page) then Owned
      else if !OldSuspect(before, key, limit) then Suspect
      else if mode == Audit then Left
      else if world.ownedAtRecheck(ns, page, key) then Reclaimed
      else if world.deletes(ns, page, key) then Deleted
      else Undeleted
    }

    /** The keys of one of these fates, in listing order. */
    ghost function With(fates: set<Fate>, page: nat, keys: seq<string>): seq<string>
      decreases |keys|
    {
      if keys == [] then []
      else
        var front, last := With(fates, page, keys[..|keys| - 1]), keys[|keys| - 1];
        if FateOf(page, last) in fates then front + [last] else front
    }

    /** The deletions of one page, each with the first sighting recorded for its key. */
    ghost function Entries(page: nat, keys: seq<string>): seq<Deletion>
      decreases |keys|
    {
      if keys == [] then []
      else
        var front, last := Entries(page, keys[..|keys| - 1]), keys[|keys| - 1];
        if FateOf(page, last) == Deleted then front + [Deletion(ns, page, last, before[last].firstSeen)] else front
    }

    function Listed(page: nat): seq<string> {
      if world.page(ns, page).Some? then world.page(ns, page).value.keys else []
    }

    /** The deletions of the first pages, and how many of their keys have one of these fates. */
    ghost function Log(pages: nat): seq<Deletion> {
      if pages == 0 then [] else Log(pages - 1) + Entries(pages - 1, Listed(pages - 1))
    }

    ghost function Count(fates: set<Fate>, pages: nat): nat {
      if pages == 0 then 0 else Count(fates, pages - 1) + |With(fates, pages - 1, Listed(pages - 1))|
    }

    /** The observation a page leaves of each key. */
    ghost predicate Leaves(page: nat, keys: seq<string>, now: int, k: string, after: Orphans) {
      if k !in keys then (k in after <==> k in before) && (k in after ==> after[k] == before[k])
      else
        var live := k in before && !before[k].deleted;
        match FateOf(page, k)
        case Foreign => (k in after <==> k in before) && (k in after ==> after[k] == before[k])
        case Owned => k !in after
        case Reclaimed => k !in after
        case Suspect =>
          k in after && !after[k].deleted && after[k].firstSeen == if live then before[k].firstSeen else now
        case Left => k in after && !after[k].deleted && after[k].firstSeen == before[k].firstSeen
        case Deleted => k in after && after[k].deleted && after[k].firstSeen == before[k].firstSeen
        case Undeleted =>
          && k in after && !after[k].deleted && after[k].firstSeen == before[k].firstSeen
          && after[k].attempts == before[k].attempts + 1 && after[k].error == Some("PROVIDER_DELETE_FAILED")
    }
  }

  ghost predicate Same(before: Orphans, after: Orphans, k: string) {
    (k in after <==> k in before) && (k in after ==> after[k] == before[k])
  }

  lemma {:induction false} WithMembers(s: Survey, fates: set<Fate>, page: nat, keys: seq<string>)
    ensures forall k :: k in s.With(fates, page, keys) <==> k in keys && s.FateOf(page, k) in fates
    decreases |keys|
  {
    if keys != [] {
      assert keys == keys[..|keys| - 1] + [keys[|keys| - 1]];
      WithMembers(s, fates, page, keys[..|keys| - 1]);
    }
  }

  lemma {:induction false} WithWithin(s: Survey, fates: set<Fate>, outer: set<Fate>, page: nat, keys: seq<string>)
    requires fates <= outer
    ensures s.With(fates, page, s.With(outer, page, keys)) == s.With(fates, page, keys)
    ensures Deleted in outer ==> s.Entries(page, s.With(outer, page, keys)) == s.Entries(page, keys)
    decreases |keys|
  {
    if keys != [] {
      var front, last := keys[..|keys| - 1], keys[|keys| - 1];
      WithWithin(s, fates, outer, page, front);
      var w := s.With(outer, page, front);
      assert (w + [last])[..|w|] == w;
    }
  }

  /** One more key. */
  lemma WithStep(s: Survey, page: nat, keys: seq<string>, i: nat)
    requires i < |keys|
    ensures forall fates ::
              s.With(fates, page, keys[..i + 1])
              == s.With(fates, page, keys[..i]) + (if s.FateOf(page, keys[i]) in fates then [keys[i]] else [])
    ensures s.Entries(page, keys[..i + 1])
         == s.Entries(page, keys[..i]) + (if s.FateOf(page, keys[i]) == Deleted
                                          then [Deletion(s.ns, page, keys[i], s.before[keys[i]].firstSeen)] else [])
  {
    assert keys[..i + 1][..i] == keys[..i];
  }

  lemma {:induction false} EntriesPrefix(s: Survey, page: nat, keys: seq<string>, i: nat)
    requires i <= |keys|
    ensures s.Entries(page, keys[..i]) <= s.Entries(page, keys)
    decreases |keys|
  {
    if i == |keys| {
      assert keys[..i] == keys;
    } else {
      EntriesPrefix(s, page, keys[..|keys| - 1], i);
      assert keys[..|keys| - 1][..i] == keys[..i];
    }
  }

  /** Audit prunes nothing, and prune leaves no eligible key as it is. */
  lemma {:induction false} FatesByMode(s: Survey, page: nat, keys: seq<string>)
    ensures s.mode == Audit ==> && s.With({Reclaimed}, page, keys) == [] && s.With({Deleted}, page, keys) == []
                                && s.With({Undeleted}, page, keys) == [] && s.Entries(page, keys) == []
    ensures s.mode == Prune ==> s.With({Left}, page, keys) == []
    ensures |s.With(Eligible(), page, keys)|
         == |s.With({Left}, page, keys)| + |s.With({Reclaimed}, page, keys)| + |s.With({Deleted}, page, keys)|
            + |s.With({Undeleted}, page, keys)|
    ensures |s.With({Foreign}, page, keys)| + |s.With({Owned}, page, keys)| + |s.With({Suspect}, page, keys)|
            + |s.With(Eligible(), page, keys)| == |keys|
    decreases |keys|
  {
    if keys != [] { FatesByMode(s, page, keys[..|keys| - 1]); }
  }

  /** Surveys that start from the same observations of a page's keys agree about it. */
  lemma {:induction false} FatesAgree(s: Survey, s': Survey, fates: set<Fate>, page: nat, keys: seq<string>)
    requires s' == s.(before := s'.before)
    requires forall k :: k in keys ==> Same(s.before, s'.before, k)
    ensures s.With(fates, page, keys) == s'.With(fates, page, keys) && s.Entries(page, keys) == s'.Entries(page, keys)
    decreases |keys|
  {
    if keys != [] {
      assert keys == keys[..|keys| - 1] + [keys[|keys| - 1]];
      assert keys[|keys| - 1] in keys && Same(s.before, s'.before, keys[|keys| - 1]);
      FatesAgree(s, s', fates, page, keys[..|keys| - 1]);
    }
  }

  // ----- The reconciling transaction -----

  /** The page's transaction kept the suspicion of this key. */
  ghost predicate Continues(s: Survey, orphans: Orphans, k: string) {
    && k in s.before && k in orphans && !orphans[k].deleted && orphans[k].firstSeen == s.before[k].firstSeen
    && orphans[k].attempts == s.before[k].attempts
  }

  /** The keys that are kept are those that are not foreign. */
  lemma {:induction false} KeptFates(s: Survey, fates: set<Fate>, page: nat, keys: seq<string>)
    requires Foreign !in fates
    ensures s.With(fates, page, Kept(s.ns, keys)) == s.With(fates, page, keys)
    ensures |Kept(s.ns, keys)| + |s.With({Foreign}, page, keys)| == |keys|
    decreases |keys|
  {
    if keys != [] {
      var front, last := keys[..|keys| - 1], keys[|keys| - 1];
      KeptFates(s, fates, page, front);
      var w := Kept(s.ns, front);
      assert (w + [last])[..|w|] == w;
    }
  }

  /** The reconciling transaction counts and selects by fate. */
  lemma {:induction false} ReconcileByFate(s: Survey, page: nat, keys: seq<string>, now: int)
    requires AllDifferent(keys) && s.limit < now && forall k :: k in keys ==> Keepable(s.ns, k)
    ensures Reconcile(s.world.owned(s.ns, page), s.before, keys, now, s.limit).1
         == Reconciled(|s.With({Owned}, page, keys)|, |s.With({Suspect}, page, keys)|, s.With(Eligible(), page, keys))
    decreases |keys|
  {
    hide Keepable;
    if keys != [] {
      var front, last := keys[..|keys| - 1], keys[|keys| - 1];
      assert keys == front + [last] && last !in front && Keepable(s.ns, last);
      ReconcileByFate(s, page, front, now);
      ReconcileSpares(s.world.owned(s.ns, page), s.before, front, now, s.limit, last);
    }
  }

  lemma ReconciledFates(s: Survey, page: nat, keys: seq<string>, now: int)
    requires AllDifferent(keys) && s.limit < now
    ensures Reconcile(s.world.owned(s.ns, page), s.before, Kept(s.ns, keys), now, s.limit).1
         == Reconciled(|s.With({Owned}, page, keys)|, |s.With({Suspect}, page, keys)|, s.With(Eligible(), page, keys))
    ensures |Kept(s.ns, keys)| + |s.With({Foreign}, page, keys)| == |keys|
  {
    KeptFacts(s.ns, keys);
    ReconcileByFate(s, page, Kept(s.ns, keys), now);
    KeptFates(s, {Owned}, page, keys);
    KeptFates(s, {Suspect}, page, keys);
    KeptFates(s, Eligible(), page, keys);
  }

  /** The transaction settles every key but the eligible ones, whose suspicion it keeps. */
  lemma ReconciledLeaves(s: Survey, page: nat, keys: seq<string>, now: int)
    requires AllDifferent(keys) && s.limit < now
    ensures var after := Reconcile(s.world.owned(s.ns, page), s.before, Kept(s.ns, keys), now, s.limit).0;
            forall k ::
              if k in keys && s.FateOf(page, k) in Eligible() then Continues(s, after, k)
              else s.Leaves(page, keys, now, k, after)
  {
    var owned, kept := s.world.owned(s.ns, page), Kept(s.ns, keys);
    KeptFacts(s.ns, keys);
    forall k
      ensures var after := Reconcile(owned, s.before, kept, now, s.limit).0;
              if k in keys && s.FateOf(page, k) in Eligible() then Continues(s, after, k)
              else s.Leaves(page, keys, now, k, after)
    {
      if k in kept {
        ReconcileObserves(owned, s.before, kept, now, s.limit, k);
      } else {
        ReconcileSpares(owned, s.before, kept, now, s.limit, k);
      }
    }
  }

  /** The whole of one reconciling transaction. */
  lemma ReconciledPage(s: Survey, page: nat, keys: seq<string>, now: int)
    requires Increasing(keys) && s.limit < now
    ensures AllDifferent(keys)
    ensures var (after, r) := Reconcile(s.world.owned(s.ns, page), s.before, Kept(s.ns, keys), now, s.limit);
            && r == Reconciled(|s.With({Owned}, page, keys)|, |s.With({Suspect}, page, keys)|,
                               s.With(Eligible(), page, keys))
            && |Kept(s.ns, keys)| + |s.With({Foreign}, page, keys)| == |keys| && AllDifferent(r.eligible)
            && forall k ::
                 if k in keys && s.FateOf(page, k) in Eligible() then Continues(s, after, k)
                 else s.Leaves(page, keys, now, k, after)
  {
    forall i, j | 0 <= i < j < |keys|
      ensures keys[i] != keys[j]
    {
      IncreasingOrders(keys, i, j);
    }
    hide Reconcile, Survey.With, Survey.FateOf, Survey.Leaves, Kept, Increasing;
    KeptFacts(s.ns, keys);
    ReconciledFates(s, page, keys, now);
    ReconciledLeaves(s, page, keys, now);
    ReconcilePartitions(s.world.owned(s.ns, page), s.before, Kept(s.ns, keys), now, s.limit);
  }

  /** A transaction leaves the keys of other pages alone. */
  lemma LeavesOthers(s: Survey, page: nat, keys: seq<string>, now: int, after: Orphans)
    requires forall k :: if k in keys && s.FateOf(page, k) in Eligible() then Continues(s, after, k)
                         else s.Leaves(page, keys, now, k, after)
    ensures forall k :: k !in keys ==> Same(s.before, after, k)
  {
    forall k | k !in keys
      ensures Same(s.before, after, k)
    {
      assert s.Leaves(page, keys, now, k, after);
    }
  }

  /** The eligible keys of a page make up its prunable fates and its log entries. */
  lemma EligibleFates(s: Survey, page: nat, keys: seq<string>)
    ensures var eligible := s.With(Eligible(), page, keys);
            && s.Entries(page, eligible) == s.Entries(page, keys)
            && s.With({Reclaimed}, page, eligible) == s.With({Reclaimed}, page, keys)
            && s.With({Deleted}, page, eligible) == s.With({Deleted}, page, keys)
            && s.With({Undeleted}, page, eligible) == s.With({Undeleted}, page, keys)
            && forall k :: k in eligible <==> k in keys && s.FateOf(page, k) in Eligible()
  {
    WithMembers(s, Eligible(), page, keys);
    WithWithin(s, {Reclaimed}, Eligible(), page, keys);
    WithWithin(s, {Deleted}, Eligible(), page, keys);
    WithWithin(s, {Undeleted}, Eligible(), page, keys);
  }

  // ----- The prune loop -----

  /** What becomes of one eligible key, as the database and the provider decide. */
  ghost predicate PrunedKey(world: World, ns: Namespace, page: nat, key: string, earlier: Orphans, after: Orphans,
                            before: Summary, summary: Summary, log: seq<Deletion>, log': seq<Deletion>)
  {
    key in earlier &&
    var o := earlier[key];
    if world.ownedAtRecheck(ns, page, key) then
      && key !in after && log' == log && before.eligible > 0
      && summary == before.(known := before.known + 1, eligible := before.eligible - 1)
    else if world.deletes(ns, page, key) then
      && key in after && after[key] == o.(deleted := true, error := None)
      && log' == log + [Deletion(ns, page, key, o.firstSeen)]
      && summary == before.(deleted := before.deleted + 1)
    else
      && key in after && after[key] == o.(attempts := o.attempts + 1, error := Some("PROVIDER_DELETE_FAILED"))
      && log' == log && summary == before.(deleteFailed := before.deleteFailed + 1)
  }

  /** What the prune loop leaves of an eligible key. */
  ghost predicate Outcome(s: Survey, page: nat, k: string, after: Orphans) {
    k in s.before &&
    match s.FateOf(page, k)
    case Deleted => k in after && after[k].deleted && after[k].firstSeen == s.before[k].firstSeen
    case Undeleted =>
      && k in after && !after[k].deleted && after[k].firstSeen == s.before[k].firstSeen
      && after[k].attempts == s.before[k].attempts + 1 && after[k].error == Some("PROVIDER_DELETE_FAILED")
    case _ => k !in after
  }

  /** The counters of the prune loop after the first keys. */
  ghost predicate Tallied(s: Survey, page: nat, done: seq<string>, before: Summary, after: Summary) {
    && after == before.(known := after.known, eligible := after.eligible, deleted := after.deleted,
                        deleteFailed := after.deleteFailed)
    && after.known == before.known + |s.With({Reclaimed}, page, done)|
    && after.eligible + |s.With({Reclaimed}, page, done)| == before.eligible
    && after.deleted == before.deleted + |s.With({Deleted}, page, done)|
    && after.deleteFailed == before.deleteFailed + |s.With({Undeleted}, page, done)|
  }

  lemma SameOutside(before: Orphans, after: Orphans, key: string)
    requires before - {key} == after - {key}
    ensures forall k :: k != key ==> Same(before, after, k)
  {
    forall k | k != key
      ensures Same(before, after, k)
    {
      assert k in before <==> k in before - {key};
      assert k in after <==> k in after - {key};
    }
  }

  lemma SameReflexive(orphans: Orphans)
    ensures forall k :: Same(orphans, orphans, k)
  {
  }

  lemma EligibleSuspect(s: Survey, page: nat, k: string, orphans: Orphans)
    requires s.FateOf(page, k) in Eligible() && Continues(s, orphans, k)
    ensures OldSuspect(orphans, k, s.limit) && k !in s.world.owned(s.ns, page) && Keepable(s.ns, k)
  {
  }

  /** One round of the prune loop, in terms of fates. */
  lemma PruneStep(s: Survey, page: nat, eligible: seq<string>, i: nat, earlier: Orphans, after: Orphans,
                  before: Summary, summary: Summary, summary': Summary, log: seq<Deletion>, log': seq<Deletion>)
    requires i < |eligible| && s.mode == Prune && s.FateOf(page, eligible[i]) in Eligible()
    requires Continues(s, earlier, eligible[i]) && Tallied(s, page, eligible[..i], before, summary)
    requires PrunedKey(s.world, s.ns, page, eligible[i], earlier, after, summary, summary', log, log')
    ensures Tallied(s, page, eligible[..i + 1], before, summary') && Outcome(s, page, eligible[i], after)
    ensures forall base ::
              log == base + s.Entries(page, eligible[..i]) ==> log' == base + s.Entries(page, eligible[..i + 1])
    ensures summary'.eligible + summary.deleted + summary.deleteFailed + 1
         == summary.eligible + summary'.deleted + summary'.deleteFailed
  {
    WithStep(s, page, eligible, i);
  }

  lemma OutcomesStay(s: Survey, page: nat, eligible: seq<string>, i: nat, earlier: Orphans, after: Orphans)
    requires i < |eligible| && AllDifferent(eligible) && forall k :: k != eligible[i] ==> Same(earlier, after, k)
    ensures forall j :: 0 <= j < i && Outcome(s, page, eligible[j], earlier) ==> Outcome(s, page, eligible[j], after)
    ensures forall j :: i < j < |eligible| && Continues(s, earlier, eligible[j]) ==> Continues(s, after, eligible[j])
  {
    forall j | 0 <= j < |eligible| && j != i
      ensures Same(earlier, after, eligible[j])
    {
    }
  }

  /** A deletion that was not recorded is still the next entry. */
  lemma UnrecordedPrefix(s: Survey, page: nat, eligible: seq<string>, i: nat, earlier: Orphans,
                         base: seq<Deletion>, log: seq<Deletion>)
    requires i < |eligible| && s.mode == Prune && s.FateOf(page, eligible[i]) in Eligible()
    requires var key := eligible[i];
             && Continues(s, earlier, key)
             && (|| log == base + s.Entries(page, eligible[..i])
                 || (&& !s.world.ownedAtRecheck(s.ns, page, key) && s.world.deletes(s.ns, page, key)
                     && log == base + s.Entries(page, eligible[..i])
                               + [Deletion(s.ns, page, key, earlier[key].firstSeen)]))
    ensures base <= log <= base + s.Entries(page, eligible)
  {
    WithStep(s, page, eligible, i);
    EntriesPrefix(s, page, eligible, i);
    EntriesPrefix(s, page, eligible, i + 1);
  }

  /** Where the prune loop stands after `i` keys. */
  ghost predicate Pruning(s: Survey, page: nat, eligible: seq<string>, i: nat, first: Orphans, now: Orphans,
                          before: Summary, summary: Summary, base: seq<Deletion>, log: seq<Deletion>)
  {
    && i <= |eligible| && AllDifferent(eligible)
    && (forall k :: k in eligible ==> s.FateOf(page, k) in Eligible())
    && (forall j :: i <= j < |eligible| ==> Continues(s, now, eligible[j]))
    && (forall j :: 0 <= j < i ==> Outcome(s, page, eligible[j], now))
    && (forall k :: k !in eligible ==> Same(first, now, k))
    && log == base + s.Entries(page, eligible[..i])
    && Tallied(s, page, eligible[..i], before, summary)
    && summary.eligible + i == summary.deleted + summary.deleteFailed + |eligible|
  }

  lemma PruningStarts(s: Survey, page: nat, eligible: seq<string>, now: Orphans, before: Summary, log: seq<Deletion>)
    requires AllDifferent(eligible) && before.eligible == before.deleted + before.deleteFailed + |eligible|
    requires forall k :: k in eligible ==> s.FateOf(page, k) in Eligible() && Continues(s, now, k)
    ensures Pruning(s, page, eligible, 0, now, now, before, before, log, log)
  {
    assert eligible[..0] == [];
  }

  lemma PruningNext(s: Survey, page: nat, eligible: seq<string>, i: nat, first: Orphans, now: Orphans, before: Summary,
                    summary: Summary, base: seq<Deletion>, log: seq<Deletion>)
    requires Pruning(s, page, eligible, i, first, now, before, summary, base, log) && i < |eligible|
    ensures OldSuspect(now, eligible[i], s.limit) && eligible[i] !in s.world.owned(s.ns, page)
    ensures Keepable(s.ns, eligible[i]) && summary.eligible > summary.deleted + summary.deleteFailed
  {
    assert eligible[i] in eligible;
    EligibleSuspect(s, page, eligible[i], now);
  }

  lemma PruningStep(s: Survey, page: nat, eligible: seq<string>, i: nat, first: Orphans, now: Orphans, now': Orphans,
                    before: Summary, summary: Summary, summary': Summary, base: seq<Deletion>, log: seq<Deletion>,
                    log': seq<Deletion>)
    requires Pruning(s, page, eligible, i, first, now, before, summary, base, log) && i < |eligible|
    requires s.mode == Prune && now - {eligible[i]} == now' - {eligible[i]}
    requires PrunedKey(s.world, s.ns, page, eligible[i], now, now', summary, summary', log, log')
    ensures Pruning(s, page, eligible, i + 1, first, now', before, summary', base, log')
  {
    assert eligible[i] in eligible;
    SameOutside(now, now', eligible[i]);
    PruneStep(s, page, eligible, i, now, now', before, summary, summary', log, log');
    OutcomesStay(s, page, eligible, i, now, now');
    forall k | k !in eligible
      ensures Same(first, now', k)
    {
      assert Same(first, now, k) && Same(now, now', k);
    }
  }

  /** A key whose database call failed may have been deleted already; nothing else was touched. */
  lemma PruningStops(s: Survey, page: nat, eligible: seq<string>, i: nat, first: Orphans, now: Orphans, before: Summary,
                     summary: Summary, base: seq<Deletion>, log: seq<Deletion>, log': seq<Deletion>)
    requires Pruning(s, page, eligible, i, first, now, before, summary, base, log) && i < |eligible| && s.mode == Prune
    requires eligible[i] in now
    requires var key := eligible[i];
             || log' == log
             || (&& !s.world.ownedAtRecheck(s.ns, page, key) && s.world.deletes(s.ns, page, key)
                 && log' == log + [Deletion(s.ns, page, key, now[key].firstSeen)])
    ensures base <= log' <= base + s.Entries(page, eligible)
    ensures forall k :: k !in eligible ==> Same(first, now, k)
  {
    assert eligible[i] in eligible;
    UnrecordedPrefix(s, page, eligible, i, now, base, log');
  }

  lemma PruningEnds(s: Survey, page: nat, eligible: seq<string>, first: Orphans, now: Orphans, before: Summary,
                    summary: Summary, base: seq<Deletion>, log: seq<Deletion>)
    requires Pruning(s, page, eligible, |eligible|, first, now, before, summary, base, log)
    ensures log == base + s.Entries(page, eligible) && Tallied(s, page, eligible, before, summary)
    ensures forall k :: if k in eligible then Outcome(s, page, k, now) else Same(first, now, k)
  {
    assert eligible[..|eligible|] == eligible;
  }

  // ----- One page -----

  /** No listed key is lost from the counters, and prune accounts for every eligible key. */
  ghost predicate Balanced(s: Summary, mode: Mode) {
    && s.listed == s.invalidKeys + s.known + s.suspected + s.eligible
    && (mode == Audit ==> s.deleted == 0 && s.deleteFailed == 0)
    && (mode == Prune ==> s.eligible == s.deleted + s.deleteFailed)
  }

  /** The counters after the page's transaction. */
  ghost predicate Reconciles(s: Survey, page: nat, keys: seq<string>, before: Summary, after: Summary) {
    after == before.(pages := before.pages + 1, listed := before.listed + |keys|,
                     invalidKeys := before.invalidKeys + |s.With({Foreign}, page, keys)|,
                     known := before.known + |s.With({Owned}, page, keys)|,
                     suspected := before.suspected + |s.With({Suspect}, page, keys)|,
                     eligible := before.eligible + |s.With(Eligible(), page, keys)|)
  }

  /** Every counter of one page, key for key. */
  ghost predicate Counted(s: Survey, page: nat, keys: seq<string>, before: Summary, after: Summary) {
    after == before.(pages := before.pages + 1, listed := before.listed + |keys|,
                     invalidKeys := before.invalidKeys + |s.With({Foreign}, page, keys)|,
                     known := before.known + |s.With({Owned}, page, keys)| + |s.With({Reclaimed}, page, keys)|,
                     suspected := before.suspected + |s.With({Suspect}, page, keys)|,
                     eligible := before.eligible + |s.With({Left}, page, keys)| + |s.With({Deleted}, page, keys)|
                                 + |s.With({Undeleted}, page, keys)|,
                     deleted := before.deleted + |s.With({Deleted}, page, keys)|,
                     deleteFailed := before.deleteFailed + |s.With({Undeleted}, page, keys)|)
  }

  /** The counters of a page after its transaction, and of the prune loop if there was one. */
  lemma CountedPage(s: Survey, page: nat, keys: seq<string>, before: Summary, mid: Summary, after: Summary)
    requires Reconciles(s, page, keys, before, mid)
    requires if s.mode == Prune then Tallied(s, page, s.With(Eligible(), page, keys), mid, after) else after == mid
    requires Balanced(before, s.mode)
    ensures Counted(s, page, keys, before, after) && Balanced(after, s.mode)
  {
    FatesByMode(s, page, keys);
    EligibleFates(s, page, keys);
  }

  /** The prune loop starts with exactly the page's eligible keys uncounted. */
  lemma EligibleLeft(s: Survey, page: nat, keys: seq<string>, before: Summary, mid: Summary)
    requires Balanced(before, s.mode) && Reconciles(s, page, keys, before, mid)
    ensures s.mode == Prune ==> mid.eligible == mid.deleted + mid.deleteFailed + |s.With(Eligible(), page, keys)|
  {
  }

  /** The page after its transaction and, in prune mode, after the prune loop. */
  lemma PageSettled(s: Survey, page: nat, keys: seq<string>, now: int, mid: Orphans, after: Orphans)
    requires forall k :: if k in keys && s.FateOf(page, k) in Eligible() then Continues(s, mid, k)
                         else s.Leaves(page, keys, now, k, mid)
    requires forall k ::
               if s.mode == Prune && k in keys && s.FateOf(page, k) in Eligible() then Outcome(s, page, k, after)
               else Same(mid, after, k)
    ensures forall k :: s.Leaves(page, keys, now, k, after)
  {
    forall k
      ensures s.Leaves(page, keys, now, k, after)
    {
      if s.mode == Prune && k in keys && s.FateOf(page, k) in Eligible() {
        assert Continues(s, mid, k) && Outcome(s, page, k, after);
      } else {
        assert Same(mid, after, k);
      }
    }
  }

  /**
   * What one page does, whether or not it is finished: nothing beyond its own keys is touched, and
   * only its own deletions are logged. A finished page counts and leaves every key by its fate.
   */
  ghost predicate Scanned(s: Survey, page: nat, now: int, finished: bool, before: Summary, after: Summary,
                          orphans: Orphans, log: seq<Deletion>, log': seq<Deletion>)
  {
    var keys := s.Listed(page);
    && log <= log' <= log + s.Entries(page, keys)
    && (forall k :: k !in keys ==> Same(s.before, orphans, k))
    && (finished ==>
          && log' == log + s.Entries(page, keys) && Counted(s, page, keys, before, after)
          && forall k :: s.Leaves(page, keys, now, k, orphans))
  }

  lemma NothingScanned(s: Survey, page: nat, now: int, before: Summary, log: seq<Deletion>)
    ensures Scanned(s, page, now, false, before, before, s.before, log, log)
  {
  }

  lemma ScannedUnsaved(s: Survey, page: nat, now: int, before: Summary, after: Summary, orphans: Orphans,
                       log: seq<Deletion>, log': seq<Deletion>)
    requires Scanned(s, page, now, true, before, after, orphans, log, log')
    ensures Scanned(s, page, now, false, before, before, orphans, log, log')
  {
  }

  /** The page's transaction is done and the prune loop, if any, has stopped. */
  lemma PartlyScanned(s: Survey, page: nat, now: int, before: Summary, mid: Orphans, after: Orphans,
                      log: seq<Deletion>, log': seq<Deletion>)
    requires var keys := s.Listed(page); var eligible := s.With(Eligible(), page, keys);
             && (forall k :: if k in keys && s.FateOf(page, k) in Eligible() then Continues(s, mid, k)
                             else s.Leaves(page, keys, now, k, mid))
             && log <= log' <= log + s.Entries(page, eligible)
             && forall k :: k !in eligible ==> Same(mid, after, k)
    ensures Scanned(s, page, now, false, before, before, after, log, log')
  {
    var keys := s.Listed(page);
    EligibleFates(s, page, keys);
    LeavesOthers(s, page, keys, now, mid);
    forall k | k !in keys
      ensures Same(s.before, after, k)
    {
      assert Same(s.before, mid, k) && Same(mid, after, k);
    }
  }

  lemma WhollyScanned(s: Survey, page: nat, now: int, before: Summary, counted: Summary, after: Summary, mid: Orphans,
                      orphans: Orphans, log: seq<Deletion>, log': seq<Deletion>)
    requires var keys := s.Listed(page); var eligible := s.With(Eligible(), page, keys);
             && Balanced(before, s.mode) && Reconciles(s, page, keys, before, counted)
             && (forall k :: if k in keys && s.FateOf(page, k) in Eligible() then Continues(s, mid, k)
                             else s.Leaves(page, keys, now, k, mid))
             && (if s.mode == Prune then
                   && log' == log + s.Entries(page, eligible) && Tallied(s, page, eligible, counted, after)
                   && forall k :: if k in eligible then Outcome(s, page, k, orphans) else Same(mid, orphans, k)
                 else orphans == mid && after == counted && log' == log)
    ensures Scanned(s, page, now, true, before, after, orphans, log, log') && Balanced(after, s.mode)
    ensures after.completedNamespaces == before.completedNamespaces
  {
    var keys := s.Listed(page);
    FatesByMode(s, page, keys);
    EligibleFates(s, page, keys);
    CountedPage(s, page, keys, before, counted, after);
    SameReflexive(mid);
    PageSettled(s, page, keys, now, mid, orphans);
    forall k | k !in keys
      ensures Same(s.before, orphans, k)
    {
      assert s.Leaves(page, keys, now, k, orphans);
    }
  }
}
