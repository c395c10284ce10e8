/**
 The run store under concurrency. Any number of drainers, cancellers, reconcilers, wedge handlers
 and integrate-syncs issue statements in any order, and any of them may crash at any point.

 A claim is one atomic statement. `finish` and `update_lifecycle` are two: a SELECT that checks the
 transition and an UPDATE that no longer does, so other actors' statements may fall in between.
 What holds of every interleaving is proved under that split; what needs the check and the write
 to happen together is proved under the explicit hypothesis `Guarded`.
 */
module RunProtocol {
  import opened Wrappers
  import opened Lifecycles
  import opened StateStores

  /**
   A transition an actor has checked but not yet written. `finish` carries an outcome;
   `update_lifecycle` does not and leaves outcome and pid alone.
   */
  datatype Check = Check(id: string, seen: Lifecycle, target: Lifecycle, outcome: Option<string>)

  datatype System = System(
    rows: Rows,
    checked: map<nat, Check>,
    handed: seq<string>,      // runs handed to an executor, in order
    closed: seq<string>)      // runs moved out of running by a write, in order

  datatype Step =
    | Insert(id: string, repository: string, priority: int, createdAt: int)
    | Track(id: string, repository: string, status: Status, now: int)
    | ClaimNext(id: string, pid: Option<int>, epoch: Option<string>)
    | ClaimSpecific(id: string, pid: Option<int>, epoch: Option<string>)
    | SetPid(id: string, child: int)
    | CheckTransition(actor: nat, id: string, target: Lifecycle, outcome: Option<string>)
    | Write(actor: nat)
    | Crash(actor: nat)

  function Written(row: Row, check: Check): Row {
    if check.outcome.Some? then Finished(row, check.target, check.outcome.value)
    else row.(lifecycle := check.target)
  }

  /** A write of this actor would land on a row. */
  predicate Writes(s: System, step: Step) {
    step.Write? && step.actor in s.checked && s.checked[step.actor].id in s.rows
  }

  /**
   One step; a statement that is refused or matches no row changes no row. An actor makes one call at
   a time: a check begins a new call, and a refused one ends it.
   */
  function Apply(s: System, step: Step): System {
    match step
    case Insert(id, repository, priority, createdAt) =>
      if id in s.rows then s else s.(rows := s.rows[id := NewRow(repository, priority, createdAt)])
    case Track(id, repository, status, now) =>
      if id in s.rows then s else s.(rows := s.rows[id := TrackedRow(repository, status, now)])
    case ClaimNext(id, pid, epoch) =>
      if !IsNext(s.rows, id) then s
      else s.(rows := s.rows[id := ClaimedNext(s.rows[id], pid, epoch)], handed := s.handed + [id])
    case ClaimSpecific(id, pid, epoch) =>
      if id !in PendingIds(s.rows) then s
      else s.(rows := s.rows[id := ClaimedSpecific(s.rows[id], pid, epoch)], handed := s.handed + [id])
    case SetPid(id, child) =>
      if id !in s.rows then s else s.(rows := s.rows[id := s.rows[id].(pid := Some(child))])
    case CheckTransition(actor, id, target, outcome) =>
      if id !in s.rows || !Allowed(s.rows[id].lifecycle, target) then s.(checked := s.checked - {actor})
      else s.(checked := s.checked[actor := Check(id, s.rows[id].lifecycle, target, outcome)])
    case Write(actor) =>
      if !Writes(s, step) then s.(checked := s.checked - {actor})
      else
        var check := s.checked[actor];
        System(
          s.rows[check.id := Written(s.rows[check.id], check)],
          s.checked - {actor},
          s.handed,
          if check.seen == Running then s.closed + [check.id] else s.closed)
    case Crash(actor) => s.(checked := s.checked - {actor})
  }

  /** The state after the first `n` steps. */
  function At(s: System, steps: seq<Step>, n: nat): System
    requires n <= |steps|
  {
    if n == 0 then s else Apply(At(s, steps, n - 1), steps[n - 1])
  }

  /** Any store content, no transition half way, nothing handed out yet. */
  predicate Start(s: System) {
    s.checked == map[] && s.handed == [] && s.closed == []
  }

  // ---------- every interleaving, with the split ----------

  ghost predicate Inv(s: System) {
    && (forall id | id in s.handed :: id in s.rows && s.rows[id].lifecycle != Pending)
    && (forall id :: multiset(s.handed)[id] <= 1)
    && (forall actor | actor in s.checked :: Allowed(s.checked[actor].seen, s.checked[actor].target))
  }

  lemma NeverTargetsPending(from: Lifecycle, target: Lifecycle)
    requires Allowed(from, target)
    ensures target != Pending
    ensures target == Running ==> from == Pending
  {
  }

  /** A run that has left the queue stays out of it. */
  lemma StepKeepsOut(s: System, step: Step, id: string)
    requires forall actor | actor in s.checked :: Allowed(s.checked[actor].seen, s.checked[actor].target)
    requires id in s.rows && s.rows[id].lifecycle != Pending
    ensures id in Apply(s, step).rows && Apply(s, step).rows[id].lifecycle != Pending
  {
    if Writes(s, step) {
      NeverTargetsPending(s.checked[step.actor].seen, s.checked[step.actor].target);
    }
  }

  lemma StepKeepsChecks(s: System, step: Step)
    requires forall actor | actor in s.checked :: Allowed(s.checked[actor].seen, s.checked[actor].target)
    ensures forall actor | actor in Apply(s, step).checked ::
      Allowed(Apply(s, step).checked[actor].seen, Apply(s, step).checked[actor].target)
  {
  }

  /** Only a claim of a pending row hands a run out, and that row is running afterwards. */
  lemma HandedByClaim(s: System, step: Step)
    ensures Apply(s, step).handed == s.handed
      || ((step.ClaimNext? || step.ClaimSpecific?) && step.id in PendingIds(s.rows)
        && Apply(s, step).handed == s.handed + [step.id]
        && step.id in Apply(s, step).rows && Apply(s, step).rows[step.id].lifecycle == Running)
  {
  }

  lemma StepKeepsInv(s: System, step: Step)
    requires Inv(s)
    ensures Inv(Apply(s, step))
  {
    var after := Apply(s, step);
    HandedByClaim(s, step);
    StepKeepsChecks(s, step);
    if after.handed != s.handed {
      assert multiset(s.handed + [step.id]) == multiset(s.handed) + multiset{step.id};
      assert step.id !in s.handed;
    }
    forall id | id in after.handed
      ensures id in after.rows && after.rows[id].lifecycle != Pending
    {
      if id in s.handed {
        StepKeepsOut(s, step, id);
      }
    }
  }

  lemma {:induction false} InvAt(s: System, steps: seq<Step>, n: nat)
    requires Start(s) && n <= |steps|
    ensures Inv(At(s, steps, n))
  {
    if n > 0 {
      InvAt(s, steps, n - 1);
      StepKeepsInv(At(s, steps, n - 1), steps[n - 1]);
    }
  }

  /** In every interleaving each run is handed to at most one executor. */
  lemma HandedAtMostOnce(s: System, steps: seq<Step>, n: nat, id: string)
    requires Start(s) && n <= |steps|
    ensures multiset(At(s, steps, n).handed)[id] <= 1
  {
    InvAt(s, steps, n);
  }

  /** In every interleaving a run that left the queue never becomes pending again. */
  lemma {:induction false} NeverPendingAgain(s: System, steps: seq<Step>, i: nat, j: nat, id: string)
    requires Start(s) && i <= j <= |steps|
    requires id in At(s, steps, i).rows && At(s, steps, i).rows[id].lifecycle != Pending
    ensures id in At(s, steps, j).rows && At(s, steps, j).rows[id].lifecycle != Pending
  {
    if i < j {
      NeverPendingAgain(s, steps, i, j - 1, id);
      InvAt(s, steps, j - 1);
      StepKeepsOut(At(s, steps, j - 1), steps[j - 1], id);
    }
  }

  lemma StepKeepsNoEpoch(s: System, step: Step)
    requires Inv(s) && PendingWithoutEpoch(s.rows)
    ensures PendingWithoutEpoch(Apply(s, step).rows)
  {
    if Writes(s, step) {
      NeverTargetsPending(s.checked[step.actor].seen, s.checked[step.actor].target);
    }
  }

  /** In every interleaving a pending run carries no epoch, so the claim that takes it decides its epoch. */
  lemma {:induction false} PendingHasNoEpoch(s: System, steps: seq<Step>, n: nat)
    requires Start(s) && n <= |steps| && PendingWithoutEpoch(s.rows)
    ensures PendingWithoutEpoch(At(s, steps, n).rows)
  {
    if n > 0 {
      PendingHasNoEpoch(s, steps, n - 1);
      InvAt(s, steps, n - 1);
      StepKeepsNoEpoch(At(s, steps, n - 1), steps[n - 1]);
    }
  }

  // ---------- when terminal states absorb ----------

  /** A step of this actor's calls of `finish` and `update_lifecycle`. */
  predicate OwnStep(step: Step, actor: nat) {
    (step.CheckTransition? || step.Write? || step.Crash?) && step.actor == actor
  }

  /** One call of `finish` or `update_lifecycle`: its check passes at step `m` and it writes at step `n`. */
  predicate Call(s: System, steps: seq<Step>, m: nat, n: nat) {
    && m < n < |steps|
    && steps[m].CheckTransition? && steps[n] == Write(steps[m].actor)
    && steps[m].id in At(s, steps, m).rows && Allowed(At(s, steps, m).rows[steps[m].id].lifecycle, steps[m].target)
    && (forall i | m < i < n :: !OwnStep(steps[i], steps[m].actor))
  }

  /**
   Two calls race on one run: the second writes a terminal state between the first one's check and
   its write, and the first then writes something else.
   */
  predicate LostRace(s: System, steps: seq<Step>, m: nat, n: nat, j: nat, k: nat) {
    && Call(s, steps, m, n) && Call(s, steps, j, k) && m < k < n
    && steps[j].id == steps[m].id && steps[j].target in TERMINAL && steps[j].target != steps[m].target
  }

  ghost predicate TerminalStays(s: System, steps: seq<Step>) {
    forall i, j, id | 0 <= i <= j <= |steps| && id in At(s, steps, i).rows ::
      At(s, steps, i).rows[id].lifecycle in TERMINAL ==>
        id in At(s, steps, j).rows && At(s, steps, j).rows[id].lifecycle == At(s, steps, i).rows[id].lifecycle
  }

  /** What an actor has checked and not yet written, it has checked at some step and has done nothing since. */
  lemma {:induction false} PendingSince(s: System, steps: seq<Step>, n: nat, actor: nat) returns (m: nat)
    requires Start(s) && n <= |steps| && actor in At(s, steps, n).checked
    ensures m < n && steps[m].CheckTransition? && steps[m].actor == actor
    ensures At(s, steps, n).checked[actor]
         == Check(steps[m].id, At(s, steps, n).checked[actor].seen, steps[m].target, steps[m].outcome)
    ensures steps[m].id in At(s, steps, m).rows
    ensures Allowed(At(s, steps, m).rows[steps[m].id].lifecycle, steps[m].target)
    ensures forall i | m < i < n :: !OwnStep(steps[i], actor)
  {
    ghost var before := At(s, steps, n - 1);
    assert At(s, steps, n) == Apply(before, steps[n - 1]);
    if OwnStep(steps[n - 1], actor) {
      assert steps[n - 1].CheckTransition?;
      m := n - 1;
    } else {
      m := PendingSince(s, steps, n - 1, actor);
    }
  }

  /** A write that lands is the end of a call. */
  lemma LandingWriteIsCall(s: System, steps: seq<Step>, n: nat) returns (m: nat)
    requires Start(s) && n < |steps| && Writes(At(s, steps, n), steps[n])
    ensures Call(s, steps, m, n)
    ensures At(s, steps, n).checked[steps[n].actor]
         == Check(steps[m].id, At(s, steps, n).checked[steps[n].actor].seen, steps[m].target, steps[m].outcome)
  {
    m := PendingSince(s, steps, n, steps[n].actor);
  }

  lemma {:induction false} RowsPersist(s: System, steps: seq<Step>, i: nat, j: nat, id: string)
    requires i <= j <= |steps| && id in At(s, steps, i).rows
    ensures id in At(s, steps, j).rows
  {
    if i < j {
      RowsPersist(s, steps, i, j - 1, id);
    }
  }

  /** Until it writes, the call still holds what it has checked. */
  lemma {:induction false} StillChecked(s: System, steps: seq<Step>, m: nat, n: nat, now: nat)
    requires Call(s, steps, m, n) && m < now <= n
    ensures steps[m].actor in At(s, steps, now).checked
    ensures At(s, steps, now).checked[steps[m].actor].id == steps[m].id
    ensures At(s, steps, now).checked[steps[m].actor].target == steps[m].target
    ensures At(s, steps, now).checked[steps[m].actor].outcome == steps[m].outcome
  {
    if m + 1 < now {
      StillChecked(s, steps, m, n, now - 1);
      assert !OwnStep(steps[now - 1], steps[m].actor);
    }
  }

  /** The write of a call lands, whatever the row has become. */
  lemma CallLands(s: System, steps: seq<Step>, m: nat, n: nat)
    requires Call(s, steps, m, n)
    ensures steps[m].id in At(s, steps, n + 1).rows
    ensures At(s, steps, n + 1).rows[steps[m].id].lifecycle == steps[m].target
    ensures steps[m].outcome.Some? ==> At(s, steps, n + 1).rows[steps[m].id].outcome == steps[m].outcome
  {
    StillChecked(s, steps, m, n, n);
    RowsPersist(s, steps, m, n, steps[m].id);
    assert At(s, steps, n + 1) == Apply(At(s, steps, n), steps[n]);
  }

  /** A lost race overwrites the terminal state. */
  lemma LostRaceOverwrites(s: System, steps: seq<Step>, m: nat, n: nat, j: nat, k: nat)
    requires LostRace(s, steps, m, n, j, k)
    ensures !TerminalStays(s, steps)
  {
    CallLands(s, steps, m, n);
    CallLands(s, steps, j, k);
    var id := steps[m].id;
    assert At(s, steps, k + 1).rows[id].lifecycle in TERMINAL;
  }

  /** A lifecycle that a step brings a row to, other than by a claim, is written by a call. */
  lemma StepBrings(s: System, step: Step, id: string)
    requires id in s.rows && id in Apply(s, step).rows
    requires Apply(s, step).rows[id].lifecycle != s.rows[id].lifecycle
    requires s.rows[id].lifecycle == Pending ==> Apply(s, step).rows[id].lifecycle != Running
    ensures Writes(s, step) && s.checked[step.actor].id == id
    ensures s.checked[step.actor].target == Apply(s, step).rows[id].lifecycle
  {
  }

  /** A run that became terminal became so by a call's write. */
  lemma {:induction false} BecameTerminal(s: System, steps: seq<Step>, m: nat, n: nat, id: string) returns (j: nat, k: nat)
    requires Start(s) && m <= n < |steps|
    requires id in At(s, steps, m).rows && At(s, steps, m).rows[id].lifecycle !in TERMINAL
    requires id in At(s, steps, n).rows && At(s, steps, n).rows[id].lifecycle in TERMINAL
    ensures m <= k < n && Call(s, steps, j, k) && steps[j].id == id
    ensures steps[j].target == At(s, steps, n).rows[id].lifecycle
  {
    RowsPersist(s, steps, m, n - 1, id);
    if At(s, steps, n - 1).rows[id].lifecycle == At(s, steps, n).rows[id].lifecycle {
      j, k := BecameTerminal(s, steps, m, n - 1, id);
    } else {
      k := n - 1;
      StepBrings(At(s, steps, k), steps[k], id);
      j := LandingWriteIsCall(s, steps, k);
    }
  }

  /** A terminal state that is overwritten is overwritten by a lost race. */
  lemma OverwrittenByLostRace(s: System, steps: seq<Step>, n: nat, id: string) returns (m: nat, j: nat, k: nat)
    requires Start(s) && n < |steps| && id in At(s, steps, n).rows && At(s, steps, n).rows[id].lifecycle in TERMINAL
    requires id in At(s, steps, n + 1).rows
    requires At(s, steps, n + 1).rows[id].lifecycle != At(s, steps, n).rows[id].lifecycle
    ensures LostRace(s, steps, m, n, j, k)
  {
    StepBrings(At(s, steps, n), steps[n], id);
    m := LandingWriteIsCall(s, steps, n);
    j, k := BecameTerminal(s, steps, m, n, id);
  }

  lemma {:induction false} StaysWithoutLostRace(s: System, steps: seq<Step>, i: nat, j: nat, id: string)
    requires Start(s) && i <= j <= |steps| && id in At(s, steps, i).rows && At(s, steps, i).rows[id].lifecycle in TERMINAL
    requires !exists m, n, l, k :: LostRace(s, steps, m, n, l, k)
    ensures id in At(s, steps, j).rows && At(s, steps, j).rows[id].lifecycle == At(s, steps, i).rows[id].lifecycle
  {
    if i < j {
      StaysWithoutLostRace(s, steps, i, j - 1, id);
      RowsPersist(s, steps, i, j, id);
      if At(s, steps, j).rows[id].lifecycle != At(s, steps, j - 1).rows[id].lifecycle {
        var m, l, k := OverwrittenByLostRace(s, steps, j - 1, id);
      }
    }
  }

  /**
   With the split, terminal states are not absorbing in general. They absorb in exactly the
   interleavings without a lost race: no call's write comes after another call's terminal write on
   the same run, since its own check, with a different state.
   */
  lemma TerminalStaysExactly(s: System, steps: seq<Step>)
    requires Start(s)
    ensures TerminalStays(s, steps) <==> !exists m, n, j, k :: LostRace(s, steps, m, n, j, k)
  {
    if !exists m, n, j, k :: LostRace(s, steps, m, n, j, k) {
      forall i, j, id | 0 <= i <= j <= |steps| && id in At(s, steps, i).rows && At(s, steps, i).rows[id].lifecycle in TERMINAL
        ensures id in At(s, steps, j).rows && At(s, steps, j).rows[id].lifecycle == At(s, steps, i).rows[id].lifecycle
      {
        StaysWithoutLostRace(s, steps, i, j, id);
      }
    } else {
      var m, n, j, k :| LostRace(s, steps, m, n, j, k);
      LostRaceOverwrites(s, steps, m, n, j, k);
    }
  }

  /** A worker's finish and a cancel both read `running`; the later write overwrites the earlier one. */
  function RacingCancel(workerResult: Lifecycle): seq<Step> {
    [
      Insert("r", "repo", 0, 0),
      ClaimSpecific("r", Some(7), None),
      CheckTransition(0, "r", workerResult, Some("worker")),
      CheckTransition(1, "r", Cancelled, Some("cancelled-by-user")),
      Write(1),
      Write(0)
    ]
  }

  /** The counterexample: a committed cancel is undone by the worker's write, even back to ready-for-review. */
  lemma SplitFinishUndoesCancel(workerResult: Lifecycle)
    requires workerResult in {ReadyForReview, Blocked}
    ensures var s, steps := System(map[], map[], [], []), RacingCancel(workerResult);
      && Start(s)
      && "r" in At(s, steps, 5).rows && At(s, steps, 5).rows["r"].lifecycle == Cancelled
      && "r" in At(s, steps, 6).rows && At(s, steps, 6).rows["r"].lifecycle == workerResult
  {
    var s, steps := System(map[], map[], [], []), RacingCancel(workerResult);
    assert At(s, steps, 0) == s;
    assert At(s, steps, 1).rows == map["r" := NewRow("repo", 0, 0)];
    assert At(s, steps, 2).rows == map["r" := ClaimedSpecific(NewRow("repo", 0, 0), Some(7), None)];
    assert At(s, steps, 3).checked == map[0 := Check("r", Running, workerResult, Some("worker"))];
    assert At(s, steps, 4).checked[1] == Check("r", Running, Cancelled, Some("cancelled-by-user"));
    assert At(s, steps, 4).checked[0] == Check("r", Running, workerResult, Some("worker"));
    assert At(s, steps, 5).rows["r"].lifecycle == Cancelled;
    assert 0 in At(s, steps, 5).checked;
  }

  // ---------- with a guarded write ----------

  /** The row still is in the state the check saw: a write in one statement with its check. */
  predicate FreshWrite(s: System, step: Step) {
    Writes(s, step) ==> s.rows[s.checked[step.actor].id].lifecycle == s.checked[step.actor].seen
  }

  /** Every write among the first `n` steps happens together with its check. */
  predicate Guarded(s: System, steps: seq<Step>, n: nat)
    requires n <= |steps|
  {
    n == 0 || (Guarded(s, steps, n - 1) && FreshWrite(At(s, steps, n - 1), steps[n - 1]))
  }

  /** `StateStore.Finish`, run without interference, is the check followed by a fresh write. */
  lemma FinishIsCheckThenWrite(s: System, actor: nat, id: string, target: Lifecycle, outcome: string)
    requires actor !in s.checked && id in s.rows
    ensures var mid := Apply(s, CheckTransition(actor, id, target, Some(outcome)));
      && FreshWrite(mid, Write(actor))
      && Apply(mid, Write(actor)).checked == s.checked
      && Apply(mid, Write(actor)).rows
        == if Allowed(s.rows[id].lifecycle, target) then s.rows[id := Finished(s.rows[id], target, outcome)] else s.rows
  {
    var mid := Apply(s, CheckTransition(actor, id, target, Some(outcome)));
    if Allowed(s.rows[id].lifecycle, target) {
      assert mid.checked - {actor} == s.checked;
    }
  }

  /** Under the guard a lifecycle only moves along the table, and a terminal row keeps its outcome too. */
  lemma GuardedStep(s: System, step: Step, id: string)
    requires Inv(s) && FreshWrite(s, step) && id in s.rows
    ensures id in Apply(s, step).rows
    ensures Apply(s, step).rows[id].lifecycle == s.rows[id].lifecycle
         || Allowed(s.rows[id].lifecycle, Apply(s, step).rows[id].lifecycle)
    ensures s.rows[id].lifecycle in TERMINAL ==> Apply(s, step).rows[id].outcome == s.rows[id].outcome
  {
    if Writes(s, step) {
      ReachesIsClosure(s.rows[id].lifecycle, s.rows[id].lifecycle, s.checked[step.actor].target);
    }
  }

  lemma GuardedMove(first: Row, s: System, step: Step, after: System, id: string)
    requires Inv(s) && FreshWrite(s, step) && after == Apply(s, step)
    requires id in s.rows && Reaches(first.lifecycle, s.rows[id].lifecycle)
    ensures id in after.rows && Reaches(first.lifecycle, after.rows[id].lifecycle)
    ensures first.lifecycle in TERMINAL ==> after.rows[id].outcome == s.rows[id].outcome
  {
    GuardedStep(s, step, id);
    ReachesIsClosure(first.lifecycle, s.rows[id].lifecycle, after.rows[id].lifecycle);
  }

  lemma {:induction false} GuardedMoves(s: System, steps: seq<Step>, i: nat, j: nat, id: string)
    requires Start(s) && i <= j <= |steps| && Guarded(s, steps, j) && id in At(s, steps, i).rows
    ensures id in At(s, steps, j).rows
    ensures Reaches(At(s, steps, i).rows[id].lifecycle, At(s, steps, j).rows[id].lifecycle)
    ensures At(s, steps, i).rows[id].lifecycle in TERMINAL ==>
      At(s, steps, j).rows[id].outcome == At(s, steps, i).rows[id].outcome
  {
    if i < j {
      GuardedMoves(s, steps, i, j - 1, id);
      InvAt(s, steps, j - 1);
      GuardedMove(At(s, steps, i).rows[id], At(s, steps, j - 1), steps[j - 1], At(s, steps, j), id);
    }
  }

  /** Guarded: blocked, cancelled and integrated rows keep their lifecycle and outcome for ever. */
  lemma GuardedTerminalAbsorbs(s: System, steps: seq<Step>, i: nat, j: nat, id: string)
    requires Start(s) && i <= j <= |steps| && Guarded(s, steps, j)
    requires id in At(s, steps, i).rows && At(s, steps, i).rows[id].lifecycle in TERMINAL
    ensures id in At(s, steps, j).rows
    ensures At(s, steps, j).rows[id].lifecycle == At(s, steps, i).rows[id].lifecycle
    ensures At(s, steps, j).rows[id].outcome == At(s, steps, i).rows[id].outcome
  {
    GuardedMoves(s, steps, i, j, id);
    var a, b := At(s, steps, i).rows[id].lifecycle, At(s, steps, j).rows[id].lifecycle;
    ReachesIsClosure(a, b, b);
  }

  ghost predicate ClosedOnce(s: System) {
    && (forall id :: multiset(s.closed)[id] <= 1)
    && (forall id | id in s.closed :: id in s.rows && s.rows[id].lifecycle !in {Pending, Running})
  }

  lemma StepKeepsClosedOnce(s: System, step: Step)
    requires Inv(s) && ClosedOnce(s) && FreshWrite(s, step)
    ensures ClosedOnce(Apply(s, step))
  {
    var after := Apply(s, step);
    forall id | id in s.closed
      ensures id in after.rows && after.rows[id].lifecycle !in {Pending, Running}
    {
      GuardedStep(s, step, id);
      ReachesIsClosure(s.rows[id].lifecycle, after.rows[id].lifecycle, after.rows[id].lifecycle);
    }
    if Writes(s, step) && s.checked[step.actor].seen == Running {
      var check := s.checked[step.actor];
      assert check.id !in s.closed;
      assert multiset(s.closed + [check.id]) == multiset(s.closed) + multiset{check.id};
      assert after.rows[check.id].lifecycle == check.target;
    }
  }

  /** Guarded: the first finisher from running wins; no second write ever ends the same execution. */
  lemma {:induction false} FirstFinisherWins(s: System, steps: seq<Step>, n: nat)
    requires Start(s) && n <= |steps| && Guarded(s, steps, n)
    ensures ClosedOnce(At(s, steps, n))
  {
    if n > 0 {
      FirstFinisherWins(s, steps, n - 1);
      InvAt(s, steps, n - 1);
      StepKeepsClosedOnce(At(s, steps, n - 1), steps[n - 1]);
    }
  }
}
