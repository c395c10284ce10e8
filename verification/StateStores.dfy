/**
 The run store. Each method of the class is one call made while no other actor is using the
 database; what other actors may do between the statements of a call is the subject of RunProtocol,
 which is built on the same row functions.
 */
module StateStores {
  import opened Wrappers
  import opened Lifecycles

  /** One row of the `runs` table. Times are the order of the stored timestamps. */
  datatype Row = Row(
    repository: string,
    lifecycle: Lifecycle,
    outcome: Option<string>,
    priority: int,
    createdAt: int,
    epoch: Option<string>,
    pid: Option<int>)

  type Rows = map<string, Row>

  datatype StoreError = UnsafeId | DuplicateRun | NoSuchRun | IllegalTransition

  /** `_validate_run_id` */
  predicate SafeId(id: string) {
    id != "" && '/' !in id
  }

  // ---------- what each statement does to a row ----------

  function NewRow(repository: string, priority: int, createdAt: int): Row {
    Row(repository, Pending, None, priority, createdAt, None, None)
  }

  function Coalesce<T>(first: Option<T>, second: Option<T>): Option<T> {
    if first.Some? then first else second
  }

  /** The UPDATE of `claim_next` keeps an old pid or epoch when none is given. */
  function ClaimedNext(row: Row, pid: Option<int>, epoch: Option<string>): Row {
    row.(lifecycle := Running, pid := Coalesce(pid, row.pid), epoch := Coalesce(epoch, row.epoch))
  }

  /** The UPDATE of `claim_specific` overwrites both. */
  function ClaimedSpecific(row: Row, pid: Option<int>, epoch: Option<string>): Row {
    row.(lifecycle := Running, pid := pid, epoch := epoch)
  }

  /** The UPDATE of `finish`. */
  function Finished(row: Row, target: Lifecycle, outcome: string): Row {
    row.(lifecycle := target, outcome := Some(outcome), pid := None)
  }

  /** A run that bypassed `submit`, tracked after the fact. */
  function TrackedRow(repository: string, status: Status, createdAt: int): Row {
    Row(repository, LifecycleOf(status), Some(StatusName(status)), 0, createdAt, None, None)
  }

  /** No claim has left an epoch on a pending row. */
  predicate PendingWithoutEpoch(rows: Rows) {
    forall id | id in rows && rows[id].lifecycle == Pending :: rows[id].epoch.None?
  }

  // ---------- queue order ----------

  /** `a` is drained before `b`: higher priority, then earlier submission. */
  predicate Before(a: Row, b: Row) {
    a.priority > b.priority || (a.priority == b.priority && a.createdAt < b.createdAt)
  }

  function InState(rows: Rows, lifecycle: Lifecycle): set<string> {
    set id | id in rows && rows[id].lifecycle == lifecycle
  }

  function PendingIds(rows: Rows): set<string> {
    InState(rows, Pending)
  }

  /** `id` is a row `ORDER BY priority DESC, created_at ASC LIMIT 1` may return. */
  predicate IsNext(rows: Rows, id: string) {
    id in PendingIds(rows) && forall other | other in PendingIds(rows) :: !Before(rows[other], rows[id])
  }

  lemma {:induction false} SomeIsNext(rows: Rows, among: set<string>) returns (id: string)
    requires among != {} && among <= rows.Keys
    ensures id in among && forall other | other in among :: !Before(rows[other], rows[id])
    decreases among
  {
    var some :| some in among;
    var rest := among - {some};
    assert among == rest + {some};
    id := some;
    if rest != {} {
      var best := SomeIsNext(rows, rest);
      if Before(rows[best], rows[some]) {
        id := best;
      }
      forall other | other in among
        ensures !Before(rows[other], rows[id])
      {
        assert other == some || other in rest;
      }
    }
  }

  // ---------- what every operation keeps ----------

  /** Rows are never removed and each lifecycle moves along the table or stays. */
  ghost predicate Evolves(before: Rows, after: Rows) {
    forall id | id in before ::
      id in after && (after[id].lifecycle == before[id].lifecycle || Allowed(before[id].lifecycle, after[id].lifecycle))
  }

  /** The queue order in the rows' own numbers, and when nothing goes before a pending row. */
  lemma IsNextMeans(rows: Rows, id: string)
    requires id in rows && rows[id].lifecycle == Pending
    ensures IsNext(rows, id) <==> forall other | other in rows && rows[other].lifecycle == Pending ::
      || rows[other].priority < rows[id].priority
      || (rows[other].priority == rows[id].priority && rows[other].createdAt >= rows[id].createdAt)
  {
    forall other | other in rows && rows[other].lifecycle == Pending
      ensures !Before(rows[other], rows[id]) <==>
        || rows[other].priority < rows[id].priority
        || (rows[other].priority == rows[id].priority && rows[other].createdAt >= rows[id].createdAt)
    {
      assert other in PendingIds(rows);
    }
    assert forall other :: other in PendingIds(rows) <==> other in rows && rows[other].lifecycle == Pending;
  }

  /** The rows whose process is known to be gone, as `find_interrupted` reports them. */
  function Interrupted(rows: Rows, alive: int -> bool): set<string> {
    set id | id in rows && rows[id].lifecycle == Running && rows[id].pid.Some? && !alive(rows[id].pid.value)
  }

  /** The store after crash recovery. */
  function Reconciled(rows: Rows, alive: int -> bool, reason: string): Rows {
    map id | id in rows :: if id in Interrupted(rows, alive) then Finished(rows[id], Blocked, reason) else rows[id]
  }

  class StateStore {
    var rows: Rows

    constructor ()
      ensures rows == map[]
    {
      rows := map[];
    }

    method InsertPending(id: string, repository: string, priority: int, createdAt: int)
      returns (r: Result<(), StoreError>)
      modifies this
      ensures r.Ok? <==> id != "" && '/' !in id && id !in old(rows)
      ensures r.Ok? ==> rows == old(rows)[id := Row(
        repository := repository, lifecycle := Pending, outcome := None, priority := priority, createdAt := createdAt,
        epoch := None, pid := None)]
      ensures r.Err? ==> rows == old(rows)
      ensures Evolves(old(rows), rows)
    {
      if !SafeId(id) {
        return Err(UnsafeId);
      }
      if id in rows {
        return Err(DuplicateRun);
      }
      rows := rows[id := NewRow(repository, priority, createdAt)];
      r := Ok(());
    }

    method EnsureRow(id: string, repository: string, status: Status, now: int) returns (r: Result<Row, StoreError>)
      modifies this
      ensures r.Ok? <==> SafeId(id)
      ensures r.Ok? ==> id in rows && r.value == rows[id]
      ensures r.Err? || id in old(rows) ==> rows == old(rows)
      ensures r.Ok? && id !in old(rows) ==> rows == old(rows)[id := Row(
        repository := repository, lifecycle := if status == StatusEscalated then Blocked else ReadyForReview,
        outcome := Some(StatusName(status)), priority := 0, createdAt := now, epoch := None, pid := None)]
      ensures Evolves(old(rows), rows)
    {
      var known :- Get(id);
      if known.None? {
        rows := rows[id := TrackedRow(repository, status, now)];
      }
      r := Ok(rows[id]);
    }

    method Get(id: string) returns (r: Result<Option<Row>, StoreError>)
      ensures r.Ok? <==> SafeId(id)
      ensures r.Ok? ==> r.value == if id in rows then Some(rows[id]) else None
    {
      if !SafeId(id) {
        return Err(UnsafeId);
      }
      r := Ok(if id in rows then Some(rows[id]) else None);
    }

    /** The rows in one state, in some order. */
    method ListLifecycle(lifecycle: Lifecycle) returns (ids: seq<string>)
      ensures multiset(ids) == multiset(InState(rows, lifecycle))
    {
      ids := [];
      var left := InState(rows, lifecycle);
      while left != {}
        invariant multiset(ids) + multiset(left) == multiset(InState(rows, lifecycle))
        decreases left
      {
        var id :| id in left;
        ids, left := ids + [id], left - {id};
      }
    }

    /** Read the head of the queue without claiming it. */
    method PeekNextPending() returns (head: Option<string>)
      ensures head.None? <==> PendingIds(rows) == {}
      ensures head.Some? ==> IsNext(rows, head.value)
    {
      var pending := PendingIds(rows);
      if pending == {} {
        return None;
      }
      ghost var best := SomeIsNext(rows, pending);
      assert IsNext(rows, best);
      var id :| id in pending && IsNext(rows, id);
      head := Some(id);
    }

    method ClaimNext(pid: Option<int>, epoch: Option<string>) returns (claimed: Option<string>)
      modifies this
      ensures claimed.None? <==> PendingIds(old(rows)) == {}
      ensures claimed.None? ==> rows == old(rows)
      ensures claimed.Some? ==> claimed.value in old(rows) && old(rows)[claimed.value].lifecycle == Pending
      ensures claimed.Some? ==> forall other | other in old(rows) && old(rows)[other].lifecycle == Pending ::
        || old(rows)[other].priority < old(rows)[claimed.value].priority
        || (old(rows)[other].priority == old(rows)[claimed.value].priority
          && old(rows)[other].createdAt >= old(rows)[claimed.value].createdAt)
      ensures claimed.Some? ==>
        var row := old(rows)[claimed.value];
        rows == old(rows)[claimed.value := row.(
          lifecycle := Running, pid := if pid.Some? then pid else row.pid, epoch := if epoch.Some? then epoch else row.epoch)]
      ensures Evolves(old(rows), rows)
    {
      claimed := PeekNextPending();
      if claimed.Some? {
        rows := rows[claimed.value := ClaimedNext(rows[claimed.value], pid, epoch)];
      }
    }

    /** One conditional UPDATE: the row is won, or nothing happens. */
    method ClaimSpecific(id: string, pid: Option<int>, epoch: Option<string>) returns (won: bool)
      modifies this
      ensures won <==> id in old(rows) && old(rows)[id].lifecycle == Pending
      ensures won ==> rows == old(rows)[id := old(rows)[id].(lifecycle := Running, pid := pid, epoch := epoch)]
      ensures !won ==> rows == old(rows)
      ensures Evolves(old(rows), rows)
    {
      won := id in rows && rows[id].lifecycle == Pending;
      if won {
        rows := rows[id := ClaimedSpecific(rows[id], pid, epoch)];
      }
    }

    method SetPid(id: string, pid: int)
      modifies this
      ensures id in old(rows) ==> rows == old(rows)[id := old(rows)[id].(pid := Some(pid))]
      ensures id !in old(rows) ==> rows == old(rows)
      ensures Evolves(old(rows), rows)
    {
      if id in rows {
        rows := rows[id := rows[id].(pid := Some(pid))];
      }
    }

    method UpdateLifecycle(id: string, target: Lifecycle, pid: Option<int>) returns (r: Result<(), StoreError>)
      modifies this
      ensures r.Ok? <==> SafeId(id) && id in old(rows) && Allowed(old(rows)[id].lifecycle, target)
      ensures r.Ok? ==>
        rows == old(rows)[id := old(rows)[id].(lifecycle := target, pid := if pid.Some? then pid else old(rows)[id].pid)]
      ensures r.Err? ==> rows == old(rows)
      ensures Evolves(old(rows), rows)
    {
      if !SafeId(id) {
        return Err(UnsafeId);
      }
      if id !in rows {
        return Err(NoSuchRun);
      }
      if !Allowed(rows[id].lifecycle, target) {
        return Err(IllegalTransition);
      }
      rows := rows[id := rows[id].(lifecycle := target, pid := Coalesce(pid, rows[id].pid))];
      r := Ok(());
    }

    method Finish(id: string, target: Lifecycle, outcome: string) returns (r: Result<(), StoreError>)
      modifies this
      ensures r.Ok? <==> SafeId(id) && id in old(rows) && Allowed(old(rows)[id].lifecycle, target)
      ensures r.Ok? ==>
        rows == old(rows)[id := old(rows)[id].(lifecycle := target, outcome := Some(outcome), pid := None)]
      ensures r.Err? ==> rows == old(rows)
      ensures r == Err(IllegalTransition) <==>
        SafeId(id) && id in old(rows) && !Allowed(old(rows)[id].lifecycle, target)
      ensures Evolves(old(rows), rows)
    {
      if !SafeId(id) {
        return Err(UnsafeId);
      }
      if id !in rows {
        return Err(NoSuchRun);
      }
      if !Allowed(rows[id].lifecycle, target) {
        return Err(IllegalTransition);
      }
      rows := rows[id := Finished(rows[id], target, outcome)];
      r := Ok(());
    }

    method FindInterrupted(alive: int -> bool) returns (ids: seq<string>)
      ensures multiset(ids) == multiset(Interrupted(rows, alive))
    {
      ids := [];
      var left := Interrupted(rows, alive);
      while left != {}
        invariant multiset(ids) + multiset(left) == multiset(Interrupted(rows, alive))
        decreases left
      {
        var id :| id in left;
        ids, left := ids + [id], left - {id};
      }
    }

    /**
     Crash recovery: exactly the running rows whose process is gone become blocked, so a second
     recovery finds nothing to do.
     */
    method ReconcileInterrupted(alive: int -> bool, reason: string) returns (moved: nat)
      requires forall id | id in rows :: SafeId(id)
      modifies this
      ensures rows == Reconciled(old(rows), alive, reason)
      ensures forall id | id in rows :: var row := old(rows)[id];
        rows[id] == if row.lifecycle == Running && row.pid.Some? && !alive(row.pid.value)
          then row.(lifecycle := Blocked, outcome := Some(reason), pid := None) else row
      ensures moved == |Interrupted(old(rows), alive)|
      ensures Interrupted(rows, alive) == {}
    {
      moved := 0;
      var ids := FindInterrupted(alive);
      ghost var dead := Interrupted(rows, alive);
      Enumerates(ids, dead);
      for i := 0 to |ids|
        invariant moved == i
        invariant rows.Keys == old(rows).Keys
        invariant forall id | id in rows ::
          rows[id] == if id in ids[..i] then Finished(old(rows)[id], Blocked, reason) else old(rows)[id]
      {
        assert ids[i] in dead && ids[i] !in ids[..i];
        var r := Finish(ids[i], Blocked, reason);
        moved := moved + 1;
        assert ids[..i + 1] == ids[..i] + [ids[i]];
      }
      assert ids[..|ids|] == ids;
    }
  }

  /** A sequence with the multiset of a set lists each element once. */
  lemma Enumerates(ids: seq<string>, members: set<string>)
    requires multiset(ids) == multiset(members)
    ensures |ids| == |members|
    ensures forall id :: id in ids <==> id in members
    ensures forall i, j | 0 <= i < j < |ids| :: ids[i] != ids[j]
  {
    assert |multiset(ids)| == |multiset(members)|;
    forall id
      ensures id in ids <==> id in members
    {
      assert id in ids <==> id in multiset(ids);
    }
    forall i, j | 0 <= i < j < |ids|
      ensures ids[i] != ids[j]
    {
      assert ids == ids[..i] + [ids[i]] + ids[i + 1..];
      assert multiset(ids) == multiset(ids[..i]) + multiset{ids[i]} + multiset(ids[i + 1..]);
      assert ids[j] == ids[i + 1..][j - i - 1];
      assert multiset(members)[ids[i]] <= 1;
    }
  }
}
