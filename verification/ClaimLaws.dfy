/**
 Claims, in terms of the rows: which steps take a run, how often that happens to one run, and what
 may change in a row afterwards. Also that each call on the store class, undisturbed, is the step or
 the steps of RunProtocol that model it.
 */
module ClaimLaws {
  import opened Wrappers
  import opened Lifecycles
  import opened StateStores
  import opened RunProtocol

  predicate PendingRow(rows: Rows, id: string) {
    id in rows && rows[id].lifecycle == Pending
  }

  /** No pending run has a higher priority, or the same one and an earlier submission. */
  predicate HeadOfQueue(rows: Rows, id: string)
    requires id in rows
  {
    forall other | other in rows && rows[other].lifecycle == Pending ::
      || rows[other].priority < rows[id].priority
      || (rows[other].priority == rows[id].priority && rows[other].createdAt >= rows[id].createdAt)
  }

  predicate IsClaim(step: Step, id: string) {
    (step.ClaimSpecific? || step.ClaimNext?) && step.id == id
  }

  /** The step takes the pending run. */
  predicate Takes(s: System, step: Step, id: string) {
    IsClaim(step, id) && PendingRow(s.rows, id) && (step.ClaimNext? ==> HeadOfQueue(s.rows, id))
  }

  /** A claim that does not find its run pending, or at the head where that is asked, changes nothing at all. */
  lemma MissedClaim(s: System, step: Step, id: string)
    requires IsClaim(step, id) && !Takes(s, step, id)
    ensures Apply(s, step) == s
  {
    if PendingRow(s.rows, id) {
      IsNextMeans(s.rows, id);
    }
  }

  /** A claim that takes a run makes it running with the claim's pid and epoch, hands it out, and changes nothing else. */
  lemma TakingClaim(s: System, step: Step, id: string)
    requires Takes(s, step, id)
    ensures var row := s.rows[id]; Apply(s, step) == s.(
      rows := s.rows[id := row.(
        lifecycle := Running,
        pid := if step.ClaimNext? && step.pid.None? then row.pid else step.pid,
        epoch := if step.ClaimNext? && step.epoch.None? then row.epoch else step.epoch)],
      handed := s.handed + [id])
  {
    IsNextMeans(s.rows, id);
  }

  /** Nothing else hands a run out. */
  lemma OnlyTakingHands(s: System, step: Step)
    ensures Apply(s, step).handed == s.handed || (IsClaim(step, step.id) && Takes(s, step, step.id))
  {
    if step.ClaimNext? || step.ClaimSpecific? {
      if !Takes(s, step, step.id) {
        MissedClaim(s, step, step.id);
      }
    }
  }

  /** How many of the first `n` steps take the run while it is pending. */
  function Takings(s: System, steps: seq<Step>, n: nat, id: string): nat
    requires n <= |steps|
  {
    if n == 0 then 0
    else Takings(s, steps, n - 1, id) + if Takes(At(s, steps, n - 1), steps[n - 1], id) then 1 else 0
  }

  lemma StepCounts(s: System, step: Step, id: string)
    ensures multiset(Apply(s, step).handed)[id] == multiset(s.handed)[id] + if Takes(s, step, id) then 1 else 0
  {
    if (step.ClaimNext? || step.ClaimSpecific?) && Takes(s, step, step.id) {
      TakingClaim(s, step, step.id);
      assert multiset(s.handed + [step.id]) == multiset(s.handed) + multiset{step.id};
    } else {
      HandedSame(s, step);
    }
  }

  lemma HandedSame(s: System, step: Step)
    requires !((step.ClaimNext? || step.ClaimSpecific?) && Takes(s, step, step.id))
    ensures Apply(s, step).handed == s.handed
  {
    if step.ClaimNext? || step.ClaimSpecific? {
      MissedClaim(s, step, step.id);
    }
  }

  /** In every interleaving at most one step takes a run, and that is what the executors are handed. */
  lemma {:induction false} TakenAtMostOnce(s: System, steps: seq<Step>, n: nat, id: string)
    requires Start(s) && n <= |steps|
    ensures Takings(s, steps, n, id) == multiset(At(s, steps, n).handed)[id]
    ensures Takings(s, steps, n, id) <= 1
  {
    if n > 0 {
      TakenAtMostOnce(s, steps, n - 1, id);
      StepCounts(At(s, steps, n - 1), steps[n - 1], id);
    }
    HandedAtMostOnce(s, steps, n, id);
  }

  /** A write of `finish` or `update_lifecycle` to this run lands. */
  predicate WritesTo(s: System, step: Step, id: string) {
    step.Write? && step.actor in s.checked && s.checked[step.actor].id == id && id in s.rows
  }

  /** What each kind of step may change in a row. */
  lemma RowFrame(s: System, step: Step, id: string)
    requires id in s.rows
    ensures id in Apply(s, step).rows
    ensures !Takes(s, step, id) && !(step.SetPid? && step.id == id) && !WritesTo(s, step, id) ==>
      Apply(s, step).rows[id] == s.rows[id]
    ensures Takes(s, step, id) ==> s.rows[id].lifecycle == Pending
    ensures var before, after := s.rows[id], Apply(s, step).rows[id];
      && after.repository == before.repository && after.priority == before.priority && after.createdAt == before.createdAt
      && (after.epoch != before.epoch ==> Takes(s, step, id))
      && (after.pid != before.pid ==> Takes(s, step, id) || step.SetPid? || WritesTo(s, step, id))
      && (step.SetPid? && !Takes(s, step, id) ==> after == before.(pid := after.pid))
      && (after.lifecycle != before.lifecycle ==> Takes(s, step, id) || WritesTo(s, step, id))
      && (after.outcome != before.outcome ==> WritesTo(s, step, id))
      && (step.SetPid? && step.id != id ==> after == before)
  {
    if step.ClaimNext? || step.ClaimSpecific? {
      if !Takes(s, step, step.id) {
        MissedClaim(s, step, step.id);
      }
    }
  }

  /** After a run has left the queue its epoch never changes, and its row only by pid updates and writes to it. */
  lemma {:induction false} TakenRowStays(s: System, steps: seq<Step>, i: nat, j: nat, id: string)
    requires Start(s) && i <= j <= |steps|
    requires id in At(s, steps, i).rows && At(s, steps, i).rows[id].lifecycle != Pending
    ensures id in At(s, steps, j).rows && At(s, steps, j).rows[id].epoch == At(s, steps, i).rows[id].epoch
    ensures (forall n | i <= n < j :: !(steps[n].SetPid? && steps[n].id == id) && !WritesTo(At(s, steps, n), steps[n], id)) ==>
      At(s, steps, j).rows[id] == At(s, steps, i).rows[id]
  {
    hide Apply;
    hide WritesTo;
    hide Takes;
    if i < j {
      TakenRowStays(s, steps, i, j - 1, id);
      NeverPendingAgain(s, steps, i, j - 1, id);
      RowFrame(At(s, steps, j - 1), steps[j - 1], id);
    }
  }

  // ---------- the store's calls are these steps ----------

  method InsertIsStep(store: StateStore, ghost s: System, id: string, repository: string, priority: int, createdAt: int)
    returns (r: Result<(), StoreError>)
    requires store.rows == s.rows && SafeId(id)
    modifies store
    ensures store.rows == Apply(s, Insert(id, repository, priority, createdAt)).rows
    ensures r.Ok? <==> id !in s.rows
  {
    r := store.InsertPending(id, repository, priority, createdAt);
  }

  method EnsureIsStep(store: StateStore, ghost s: System, id: string, repository: string, status: Status, now: int)
    returns (r: Result<Row, StoreError>)
    requires store.rows == s.rows && SafeId(id)
    modifies store
    ensures store.rows == Apply(s, Track(id, repository, status, now)).rows
  {
    r := store.EnsureRow(id, repository, status, now);
  }

  method ClaimNextIsStep(store: StateStore, ghost s: System, pid: Option<int>, epoch: Option<string>)
    returns (claimed: Option<string>)
    requires store.rows == s.rows
    modifies store
    ensures claimed.None? <==> forall id :: !PendingRow(s.rows, id)
    ensures claimed.None? ==> store.rows == s.rows
    ensures claimed.Some? ==>
      && Takes(s, ClaimNext(claimed.value, pid, epoch), claimed.value)
      && store.rows == Apply(s, ClaimNext(claimed.value, pid, epoch)).rows
  {
    claimed := store.ClaimNext(pid, epoch);
    assert forall id :: PendingRow(s.rows, id) <==> id in PendingIds(s.rows);
    if claimed.Some? {
      assert PendingRow(s.rows, claimed.value) && HeadOfQueue(s.rows, claimed.value);
      TakingClaim(s, ClaimNext(claimed.value, pid, epoch), claimed.value);
    }
  }

  method ClaimSpecificIsStep(store: StateStore, ghost s: System, id: string, pid: Option<int>, epoch: Option<string>)
    returns (won: bool)
    requires store.rows == s.rows
    modifies store
    ensures won <==> Takes(s, ClaimSpecific(id, pid, epoch), id)
    ensures store.rows == Apply(s, ClaimSpecific(id, pid, epoch)).rows
  {
    won := store.ClaimSpecific(id, pid, epoch);
    if won {
      TakingClaim(s, ClaimSpecific(id, pid, epoch), id);
    } else {
      MissedClaim(s, ClaimSpecific(id, pid, epoch), id);
    }
  }

  method SetPidIsStep(store: StateStore, ghost s: System, id: string, pid: int)
    requires store.rows == s.rows
    modifies store
    ensures store.rows == Apply(s, SetPid(id, pid)).rows
  {
    store.SetPid(id, pid);
  }

  method FinishIsSteps(store: StateStore, ghost s: System, actor: nat, id: string, target: Lifecycle, outcome: string)
    returns (r: Result<(), StoreError>)
    requires store.rows == s.rows && SafeId(id) && actor !in s.checked
    modifies store
    ensures store.rows == Apply(Apply(s, CheckTransition(actor, id, target, Some(outcome))), Write(actor)).rows
  {
    r := store.Finish(id, target, outcome);
    if id in s.rows {
      FinishIsCheckThenWrite(s, actor, id, target, outcome);
    }
  }

  method UpdateIsSteps(store: StateStore, ghost s: System, actor: nat, id: string, target: Lifecycle)
    returns (r: Result<(), StoreError>)
    requires store.rows == s.rows && SafeId(id) && actor !in s.checked
    modifies store
    ensures store.rows == Apply(Apply(s, CheckTransition(actor, id, target, None)), Write(actor)).rows
  {
    r := store.UpdateLifecycle(id, target, None);
  }
}
