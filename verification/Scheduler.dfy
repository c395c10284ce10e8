/**
 Batch selection: which pending runs a drain may execute at the same time. A batch is chosen
 greedily in queue order; conflicts are path prefixes inside one repository, and an exclusive run
 is always alone.
 */
module Scheduler {
  import opened Wrappers
  import opened Lifecycles
  import opened StateStores
  import PosixPaths

  /** What the stored request of a run says about its scope, if it can be read. */
  datatype Evidence =
    | Readable(allowedPaths: seq<string>, exclusiveTests: bool, testProfile: Option<string>)
    | UnreadableEvidence

  /** Evidence by run, the exclusive test profiles, `os.path.realpath`, and the repository key (a hash). */
  datatype Catalog = Catalog(
    evidence: string -> Evidence,
    exclusiveProfiles: set<string>,
    realpath: string -> string,
    key: string -> string)

  /** A candidate: its composed scope and whether it must run alone. */
  datatype Entry = Entry(id: string, scope: seq<string>, exclusive: bool)

  /** `_request_scope`: unreadable evidence fails closed by being exclusive. */
  function RequestScope(catalog: Catalog, id: string): (seq<string>, bool) {
    match catalog.evidence(id)
    case UnreadableEvidence => (["**unreadable**"], true)
    case Readable(paths, exclusiveTests, profile) =>
      (paths, exclusiveTests || (profile.Some? && profile.value in catalog.exclusiveProfiles))
  }

  function EntryOf(catalog: Catalog, repository: string, id: string): Entry {
    var (scope, exclusive) := RequestScope(catalog, id);
    Entry(id, PosixPaths.ComposeAll(catalog.key(catalog.realpath(repository)), scope), exclusive)
  }

  function Entries(catalog: Catalog, rows: Rows, order: seq<string>): seq<Entry>
    requires forall id | id in order :: id in rows
  {
    seq(|order|, i requires 0 <= i < |order| => EntryOf(catalog, rows[order[i]].repository, order[i]))
  }

  function Ids(entries: seq<Entry>): seq<string> {
    seq(|entries|, i requires 0 <= i < |entries| => entries[i].id)
  }

  // ---------- queue order ----------

  /** `ids` lists runs so that none precedes an earlier one in the queue. */
  ghost predicate Sorted(rows: Rows, ids: seq<string>)
    requires forall id | id in ids :: id in rows
  {
    forall i, j | 0 <= i < j < |ids| :: !Before(rows[ids[j]], rows[ids[i]])
  }

  /** `order` lists exactly the pending runs, once each, in queue order; ties are in any order. */
  ghost predicate IsDrainOrder(rows: Rows, order: seq<string>) {
    && multiset(order) == multiset(PendingIds(rows))
    && (forall id | id in order :: id in rows)
    && Sorted(rows, order)
  }

  function Inserted(rows: Rows, id: string, ids: seq<string>): seq<string>
    requires id in rows && forall other | other in ids :: other in rows
  {
    if ids == [] || !Before(rows[ids[0]], rows[id]) then [id] + ids
    else [ids[0]] + Inserted(rows, id, ids[1..])
  }

  lemma SortedCons(rows: Rows, head: string, tail: seq<string>)
    requires head in rows && (forall id | id in tail :: id in rows) && Sorted(rows, tail)
    requires forall id | id in tail :: !Before(rows[id], rows[head])
    ensures Sorted(rows, [head] + tail)
  {
    var ids := [head] + tail;
    forall i, j | 0 <= i < j < |ids|
      ensures !Before(rows[ids[j]], rows[ids[i]])
    {
      assert ids[j] == tail[j - 1] && tail[j - 1] in tail;
      if i > 0 {
        assert ids[i] == tail[i - 1];
      }
    }
  }

  lemma InsertedMembers(rows: Rows, id: string, ids: seq<string>)
    requires id in rows && forall other | other in ids :: other in rows
    ensures multiset(Inserted(rows, id, ids)) == multiset(ids) + multiset{id}
    ensures forall other :: other in Inserted(rows, id, ids) <==> other == id || other in ids
  {
    if !(ids == [] || !Before(rows[ids[0]], rows[id])) {
      InsertedMembers(rows, id, ids[1..]);
      assert ids == [ids[0]] + ids[1..];
    }
  }

  lemma {:induction false} InsertedSorted(rows: Rows, id: string, ids: seq<string>)
    requires id in rows && (forall other | other in ids :: other in rows) && Sorted(rows, ids)
    ensures forall other | other in Inserted(rows, id, ids) :: other in rows
    ensures Sorted(rows, Inserted(rows, id, ids))
  {
    InsertedMembers(rows, id, ids);
    if ids == [] {
    } else if !Before(rows[ids[0]], rows[id]) {
      SortedCons(rows, id, ids);
    } else {
      InsertedSorted(rows, id, ids[1..]);
      InsertedMembers(rows, id, ids[1..]);
      assert forall k | 1 <= k < |ids| :: !Before(rows[ids[k]], rows[ids[0]]);
      SortedCons(rows, ids[0], Inserted(rows, id, ids[1..]));
    }
  }

  /** The pending rows of the store, sorted by priority and submission. */
  method SortedPending(store: StateStore) returns (order: seq<string>)
    ensures IsDrainOrder(store.rows, order)
    ensures forall id :: id in order <==> id in store.rows && store.rows[id].lifecycle == Pending
    ensures forall i, j | 0 <= i < j < |order| :: var first, second := store.rows[order[i]], store.rows[order[j]];
      first.priority > second.priority || (first.priority == second.priority && first.createdAt <= second.createdAt)
  {
    var listing := store.ListLifecycle(Pending);
    Enumerates(listing, PendingIds(store.rows));
    order := [];
    for i := 0 to |listing|
      invariant multiset(order) == multiset(listing[..i])
      invariant forall id | id in order :: id in store.rows
      invariant Sorted(store.rows, order)
    {
      assert listing[i] in PendingIds(store.rows);
      InsertedSorted(store.rows, listing[i], order);
      InsertedMembers(store.rows, listing[i], order);
      order := Inserted(store.rows, listing[i], order);
      assert listing[..i + 1] == listing[..i] + [listing[i]];
    }
    assert listing[..|listing|] == listing;
    Enumerates(order, PendingIds(store.rows));
  }

  // ---------- greedy selection ----------

  predicate HasExclusive(chosen: seq<Entry>) {
    exists i | 0 <= i < |chosen| :: chosen[i].exclusive
  }

  predicate ConflictsWith(entry: Entry, chosen: seq<Entry>) {
    exists i | 0 <= i < |chosen| :: PosixPaths.PathsConflict(entry.scope, chosen[i].scope)
  }

  /** The entry may join what is chosen so far. */
  predicate Admits(chosen: seq<Entry>, limit: nat, entry: Entry) {
    && |chosen| < limit
    && !HasExclusive(chosen)
    && !(entry.exclusive && chosen != [])
    && !ConflictsWith(entry, chosen)
  }

  /** The greedy choice over a queue, entry by entry. */
  function Greedy(queue: seq<Entry>, limit: nat): seq<Entry> {
    if queue == [] then []
    else
      var before, last := Greedy(queue[..|queue| - 1], limit), queue[|queue| - 1];
      if Admits(before, limit, last) then before + [last] else before
  }

  lemma {:induction false} FullStaysFull(queue: seq<Entry>, limit: nat, n: nat)
    requires n <= |queue| && |Greedy(queue[..n], limit)| >= limit
    ensures Greedy(queue, limit) == Greedy(queue[..n], limit)
    decreases |queue|
  {
    if n < |queue| {
      assert queue[..|queue| - 1][..n] == queue[..n];
      FullStaysFull(queue[..|queue| - 1], limit, n);
    } else {
      assert queue[..n] == queue;
    }
  }

  /** The greedy choice over the pending runs in an order by priority and submission. */
  ghost predicate IsSelection(rows: Rows, catalog: Catalog, limit: nat, chosen: seq<string>) {
    exists order: seq<string> :: IsDrainOrder(rows, order) && chosen == Ids(Greedy(Entries(catalog, rows, order), limit))
  }

  /** `_select_batch`: one pass over the sorted queue, with a flag that closes the batch. */
  method SelectBatch(store: StateStore, catalog: Catalog, limit: nat) returns (chosen: seq<string>)
    ensures IsSelection(store.rows, catalog, limit, chosen)
    ensures SafeTogether(catalog, RepositoryIn(store.rows), chosen) && |chosen| <= limit
    ensures forall id | id in chosen :: id in store.rows && store.rows[id].lifecycle == Pending
  {
    var pending := SortedPending(store);
    var entries := Pass(store, catalog, limit, pending);
    chosen := Ids(entries);
    SelectionIsSafe(store.rows, catalog, limit, chosen);
  }

  method Pass(store: StateStore, catalog: Catalog, limit: nat, pending: seq<string>) returns (entries: seq<Entry>)
    requires forall id | id in pending :: id in store.rows
    ensures entries == Greedy(Entries(catalog, store.rows, pending), limit)
  {
    hide Before;
    ghost var queue := Entries(catalog, store.rows, pending);
    var batchExclusive := false;
    var i := 0;
    entries := [];
    while i < |pending|
      invariant 0 <= i <= |pending|
      invariant entries == Greedy(queue[..i], limit)
      invariant batchExclusive <==> HasExclusive(entries)
    {
      if |entries| >= limit {
        break;
      }
      assert queue[..i + 1][..i] == queue[..i];
      var entry := EntryOf(catalog, store.rows[pending[i]].repository, pending[i]);
      i := i + 1;
      if batchExclusive || (entry.exclusive && entries != []) || ConflictsWith(entry, entries) {
        continue;
      }
      ExclusiveAppend(entries, entry);
      entries := entries + [entry];
      if entry.exclusive {
        batchExclusive := true;
      }
    }
    if i < |pending| {
      FullStaysFull(queue, limit, i);
    } else {
      assert queue[..i] == queue;
    }
  }

  lemma ExclusiveAppend(entries: seq<Entry>, entry: Entry)
    ensures HasExclusive(entries + [entry]) <==> HasExclusive(entries) || entry.exclusive
  {
    assert (entries + [entry])[|entries|] == entry;
    assert forall k | 0 <= k < |entries| :: (entries + [entry])[k] == entries[k];
  }

  // ---------- what a batch guarantees ----------

  /** At most `limit` runs, pairwise without conflict, an exclusive one alone. */
  ghost predicate Compatible(batch: seq<Entry>, limit: nat) {
    && |batch| <= limit
    && (forall i, j | 0 <= i < j < |batch| :: !PosixPaths.PathsConflict(batch[i].scope, batch[j].scope))
    && (forall i | 0 <= i < |batch| && batch[i].exclusive :: |batch| == 1)
  }

  lemma ConflictSymmetric(left: seq<string>, right: seq<string>)
    ensures PosixPaths.PathsConflict(left, right) == PosixPaths.PathsConflict(right, left)
  {
    PosixPaths.ConflictIsSharedFile(left, right);
    PosixPaths.ConflictIsSharedFile(right, left);
  }

  lemma AdmitKeepsCompatible(chosen: seq<Entry>, limit: nat, entry: Entry)
    requires Compatible(chosen, limit) && Admits(chosen, limit, entry)
    ensures Compatible(chosen + [entry], limit)
  {
    var batch := chosen + [entry];
    forall i, j | 0 <= i < j < |batch|
      ensures !PosixPaths.PathsConflict(batch[i].scope, batch[j].scope)
    {
      ConflictSymmetric(batch[i].scope, batch[j].scope);
    }
  }

  lemma {:induction false} GreedyCompatible(queue: seq<Entry>, limit: nat)
    ensures Compatible(Greedy(queue, limit), limit)
  {
    if queue != [] {
      var front, last := queue[..|queue| - 1], queue[|queue| - 1];
      GreedyCompatible(front, limit);
      if Admits(Greedy(front, limit), limit, last) {
        AdmitKeepsCompatible(Greedy(front, limit), limit, last);
      }
    }
  }

  /** The batch is taken from the queue, in queue order. */
  lemma {:induction false} GreedyFromQueue(queue: seq<Entry>, limit: nat)
    ensures forall entry | entry in Greedy(queue, limit) :: entry in queue
    ensures multiset(Greedy(queue, limit)) <= multiset(queue)
  {
    if queue != [] {
      GreedyFromQueue(queue[..|queue| - 1], limit);
      assert queue == queue[..|queue| - 1] + [queue[|queue| - 1]];
    }
  }

  lemma {:induction false} GreedyPrefix(queue: seq<Entry>, limit: nat, n: nat)
    requires n <= |queue|
    ensures Greedy(queue[..n], limit) <= Greedy(queue, limit)
    decreases |queue|
  {
    if n < |queue| {
      assert queue[..|queue| - 1][..n] == queue[..n];
      GreedyPrefix(queue[..|queue| - 1], limit, n);
    } else {
      assert queue[..n] == queue;
    }
  }

  lemma AdmittedIsChosen(queue: seq<Entry>, limit: nat, i: nat)
    requires i < |queue| && Admits(Greedy(queue[..i], limit), limit, queue[i])
    ensures queue[i] in Greedy(queue, limit)
  {
    GreedyPrefix(queue, limit, i + 1);
    assert queue[..i + 1][..i] == queue[..i];
    var earlier := Greedy(queue[..i], limit);
    assert Greedy(queue[..i + 1], limit) == earlier + [queue[i]];
    assert Greedy(queue, limit)[|earlier|] == queue[i];
  }

  /** The two cannot share a batch. */
  predicate Excludes(chosen: Entry, entry: Entry) {
    PosixPaths.PathsConflict(entry.scope, chosen.scope) || chosen.exclusive || entry.exclusive
  }

  /**
   A run that is passed over although slots remain has its reason among the runs chosen before it:
   a conflict with one of them, or that one of the two must run alone.
   */
  lemma SkippedOnlyForCause(queue: seq<Entry>, limit: nat, i: nat)
    requires i < |queue| && queue[i] !in Greedy(queue, limit) && |Greedy(queue, limit)| < limit
    ensures Greedy(queue[..i], limit) <= Greedy(queue, limit)
    ensures exists chosen | chosen in Greedy(queue[..i], limit) :: Excludes(chosen, queue[i])
  {
    GreedyPrefix(queue, limit, i);
    if Admits(Greedy(queue[..i], limit), limit, queue[i]) {
      AdmittedIsChosen(queue, limit, i);
    }
    var earlier := Greedy(queue[..i], limit);
    if HasExclusive(earlier) {
      var k :| 0 <= k < |earlier| && earlier[k].exclusive;
      assert Excludes(earlier[k], queue[i]);
    } else if queue[i].exclusive && earlier != [] {
      assert Excludes(earlier[0], queue[i]);
    } else {
      var k :| 0 <= k < |earlier| && PosixPaths.PathsConflict(queue[i].scope, earlier[k].scope);
      assert Excludes(earlier[k], queue[i]);
    }
  }

  /** The head of the queue is always chosen, so a drain with pending work never stalls on selection. */
  lemma HeadIsChosen(queue: seq<Entry>, limit: nat)
    requires queue != [] && limit >= 1
    ensures Greedy(queue, limit) != [] && Greedy(queue, limit)[0] == queue[0]
  {
    GreedyPrefix(queue, limit, 1);
    assert queue[..1][..0] == [];
    assert Greedy(queue[..1], limit) == [queue[0]];
  }

  // ---------- the same in terms of the stored evidence ----------

  /** The stored evidence demands that the run be alone, or cannot say otherwise. */
  predicate StatesAlone(catalog: Catalog, id: string) {
    match catalog.evidence(id)
    case UnreadableEvidence => true
    case Readable(_, exclusiveTests, profile) =>
      exclusiveTests || (profile.Some? && profile.value in catalog.exclusiveProfiles)
  }

  /** The two runs work on one repository, by its real path, whose key can be part of a path. */
  predicate OneRepository(catalog: Catalog, repository1: string, repository2: string) {
    catalog.realpath(repository1) == catalog.realpath(repository2) && PosixPaths.Plain(catalog.key(catalog.realpath(repository1)))
  }

  /** Both state relative scopes, and no file lies under both. */
  ghost predicate StateDisjointScopes(catalog: Catalog, id1: string, id2: string) {
    catalog.evidence(id1).Readable? && catalog.evidence(id2).Readable?
    && PosixPaths.RelativeScope(catalog.evidence(id1).allowedPaths) && PosixPaths.RelativeScope(catalog.evidence(id2).allowedPaths)
    ==>
      forall file: string ::
        !(PosixPaths.UnderAny(file, catalog.evidence(id1).allowedPaths) && PosixPaths.UnderAny(file, catalog.evidence(id2).allowedPaths))
  }

  /** What the stored evidence promises of runs that start together. */
  ghost predicate SafeTogether(catalog: Catalog, repository: string -> string, batch: seq<string>) {
    && (forall i | 0 <= i < |batch| && StatesAlone(catalog, batch[i]) :: |batch| == 1)
    && (forall i, j | 0 <= i < j < |batch| && OneRepository(catalog, repository(batch[i]), repository(batch[j])) ::
      StateDisjointScopes(catalog, batch[i], batch[j]))
  }

  /** An entry is exclusive exactly when its evidence demands it. */
  lemma EntryStates(catalog: Catalog, repository: string, id: string)
    ensures EntryOf(catalog, repository, id).id == id
    ensures EntryOf(catalog, repository, id).exclusive <==> StatesAlone(catalog, id)
  {
  }

  lemma EntriesStateDisjoint(catalog: Catalog, repository1: string, id1: string, repository2: string, id2: string)
    requires OneRepository(catalog, repository1, repository2)
    requires !PosixPaths.PathsConflict(EntryOf(catalog, repository1, id1).scope, EntryOf(catalog, repository2, id2).scope)
    ensures StateDisjointScopes(catalog, id1, id2)
  {
    var e1, e2 := catalog.evidence(id1), catalog.evidence(id2);
    if e1.Readable? && e2.Readable? && PosixPaths.RelativeScope(e1.allowedPaths) && PosixPaths.RelativeScope(e2.allowedPaths) {
      var key := catalog.key(catalog.realpath(repository1));
      PosixPaths.ComposedConflict(key, e1.allowedPaths, key, e2.allowedPaths);
      PosixPaths.ConflictIsSharedFile(e1.allowedPaths, e2.allowedPaths);
    }
  }

  /** Compatible entries are runs that may start together by their evidence. */
  lemma CompatibleIsSafe(catalog: Catalog, repository: string -> string, batch: seq<string>, entries: seq<Entry>, limit: nat)
    requires |entries| == |batch| && Compatible(entries, limit)
    requires forall i | 0 <= i < |batch| :: entries[i] == EntryOf(catalog, repository(batch[i]), batch[i])
    ensures SafeTogether(catalog, repository, batch) && |batch| <= limit
  {
    forall i | 0 <= i < |batch| && StatesAlone(catalog, batch[i])
      ensures |batch| == 1
    {
      EntryStates(catalog, repository(batch[i]), batch[i]);
    }
    forall i, j | 0 <= i < j < |batch| && OneRepository(catalog, repository(batch[i]), repository(batch[j]))
      ensures StateDisjointScopes(catalog, batch[i], batch[j])
    {
      EntriesStateDisjoint(catalog, repository(batch[i]), batch[i], repository(batch[j]), batch[j]);
    }
  }

  function RepositoryIn(rows: Rows): string -> string {
    id => if id in rows then rows[id].repository else ""
  }

  /** What `_select_batch` returns may start together, by the evidence of the runs it returns. */
  lemma SelectionIsSafe(rows: Rows, catalog: Catalog, limit: nat, chosen: seq<string>)
    requires IsSelection(rows, catalog, limit, chosen)
    ensures SafeTogether(catalog, RepositoryIn(rows), chosen) && |chosen| <= limit
    ensures forall id | id in chosen :: id in rows && rows[id].lifecycle == Pending
  {
    var order: seq<string> :| IsDrainOrder(rows, order) && chosen == Ids(Greedy(Entries(catalog, rows, order), limit));
    Enumerates(order, PendingIds(rows));
    var queue := Entries(catalog, rows, order);
    var entries := Greedy(queue, limit);
    GreedyCompatible(queue, limit);
    GreedyFromQueue(queue, limit);
    forall i | 0 <= i < |chosen|
      ensures chosen[i] in rows && rows[chosen[i]].lifecycle == Pending
      ensures entries[i] == EntryOf(catalog, RepositoryIn(rows)(chosen[i]), chosen[i])
    {
      assert entries[i] in entries && entries[i] in queue;
      var k :| 0 <= k < |queue| && queue[k] == entries[i];
      assert order[k] in order;
      EntryStates(catalog, rows[order[k]].repository, order[k]);
    }
    CompatibleIsSafe(catalog, RepositoryIn(rows), chosen, entries, limit);
  }

  lemma InIds(entries: seq<Entry>, entry: Entry)
    ensures entry in entries ==> entry.id in Ids(entries)
  {
    if entry in entries {
      var m :| 0 <= m < |entries| && entries[m] == entry;
      assert Ids(entries)[m] == entry.id;
    }
  }

  /** Why two runs cannot share a batch, by their evidence. */
  predicate MustPart(catalog: Catalog, repository1: string, id1: string, repository2: string, id2: string) {
    || StatesAlone(catalog, id1) || StatesAlone(catalog, id2)
    || PosixPaths.PathsConflict(
      PosixPaths.ComposeAll(catalog.key(catalog.realpath(repository1)), catalog.evidence(id1).allowedPaths),
      PosixPaths.ComposeAll(catalog.key(catalog.realpath(repository2)), catalog.evidence(id2).allowedPaths))
  }

  /** A run that selection passes over although slots remain must part from a run chosen before it. */
  lemma SkippedByEvidence(catalog: Catalog, rows: Rows, order: seq<string>, limit: nat, i: nat)
    requires IsDrainOrder(rows, order) && i < |order|
    requires var chosen := Greedy(Entries(catalog, rows, order), limit); order[i] !in Ids(chosen) && |chosen| < limit
    ensures exists k | 0 <= k < i ::
      && order[k] in Ids(Greedy(Entries(catalog, rows, order), limit))
      && MustPart(catalog, rows[order[k]].repository, order[k], rows[order[i]].repository, order[i])
  {
    var queue := Entries(catalog, rows, order);
    EntryStates(catalog, rows[order[i]].repository, order[i]);
    InIds(Greedy(queue, limit), queue[i]);
    SkippedOnlyForCause(queue, limit, i);
    var earlier := Greedy(queue[..i], limit);
    var cause :| cause in earlier && Excludes(cause, queue[i]);
    GreedyFromQueue(queue[..i], limit);
    var k :| 0 <= k < i && queue[k] == cause;
    EntryStates(catalog, rows[order[k]].repository, order[k]);
    var m :| 0 <= m < |earlier| && earlier[m] == cause;
    assert Greedy(queue, limit)[m] == cause;
    InIds(Greedy(queue, limit), cause);
    CauseParts(catalog, rows[order[k]].repository, order[k], rows[order[i]].repository, order[i]);
  }

  lemma CauseParts(catalog: Catalog, repository1: string, id1: string, repository2: string, id2: string)
    requires Excludes(EntryOf(catalog, repository1, id1), EntryOf(catalog, repository2, id2))
    ensures MustPart(catalog, repository1, id1, repository2, id2)
  {
    EntryStates(catalog, repository1, id1);
    EntryStates(catalog, repository2, id2);
    ConflictSymmetric(EntryOf(catalog, repository2, id2).scope, EntryOf(catalog, repository1, id1).scope);
  }

  /**
   Two runs of one selection on one repository, both accepted by the change gate under the paths
   their evidence states, changed disjoint files. A run whose evidence cannot be read is alone.
   */
  lemma BatchWritesDisjoint(
    rows: Rows, catalog: Catalog, limit: nat, chosen: seq<string>, i: nat, j: nat, paths1: seq<string>, paths2: seq<string>,
    files1: seq<string>, lines1: nat, maxFiles1: real, maxLines1: real,
    files2: seq<string>, lines2: nat, maxFiles2: real, maxLines2: real, file: string)
    requires IsSelection(rows, catalog, limit, chosen) && i < j < |chosen|
    requires chosen[i] in rows && chosen[j] in rows
      && OneRepository(catalog, rows[chosen[i]].repository, rows[chosen[j]].repository)
    requires catalog.evidence(chosen[i]).Readable? && catalog.evidence(chosen[i]).allowedPaths == paths1
    requires catalog.evidence(chosen[j]).Readable? && catalog.evidence(chosen[j]).allowedPaths == paths2
    requires PosixPaths.RelativeScope(paths1) && PosixPaths.RelativeScope(paths2)
    requires PosixPaths.MeasureChanges(files1, lines1, maxFiles1, maxLines1, paths1).Ok?
    requires PosixPaths.MeasureChanges(files2, lines2, maxFiles2, maxLines2, paths2).Ok?
    ensures !(file in files1 && file in files2)
  {
    SelectionIsSafe(rows, catalog, limit, chosen);
    assert StateDisjointScopes(catalog, chosen[i], chosen[j]);
    PosixPaths.ConflictIsSharedFile(paths1, paths2);
    PosixPaths.AcceptedChangesDisjoint(
      files1, lines1, maxFiles1, maxLines1, paths1, files2, lines2, maxFiles2, maxLines2, paths2, file);
  }
}
