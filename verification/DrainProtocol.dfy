/**
 One batched `drain` call, `--once` included, as a state machine, with arbitrary interference: between any two of its
 steps other actors may leave the run store in any state at all. Also the order in which a backlog
 without interference is worked off.
 */
module DrainProtocol {
  import opened Wrappers
  import opened Lifecycles
  import opened StateStores
  import opened Scheduler
  import PosixPaths

  datatype Phase =
    | Deciding(checked: bool)          // between batches; `checked` once the provider was re-read
    | Claiming(todo: seq<string>)      // rows of the batch still to claim
    | Working                          // worker threads started
    | Stopped(code: nat)

  datatype Drain = Drain(
    rows: Rows,
    phase: Phase,
    batch: seq<Entry>,
    claimed: seq<string>,              // rows of this batch won so far
    live: set<string>,                 // runs whose worker thread is running
    log: seq<(string, Option<string>)>, // every claim of this call, with its epoch
    fingerprints: seq<Option<string>>)        // the fingerprints read, the first at the start

  /** What stays fixed during the call: the scope of each run and the batch size. */
  datatype Setup = Setup(entry: string -> Entry, limit: nat, pid: Option<int>)

  datatype Step =
    | Others(rows: Rows)
    | ReadProvider(fingerprint: Option<string>)
    | ReadFails                          // a re-read that raises
    | Select(order: seq<string>)
    | Peek(id: string)                   // `--once`: the head of the queue alone
    | Return                             // `--once`: nothing more is selected
    | ClaimHead
    | ThreadEnds(id: string)
    | Join
    | JoinTimesOut

  function Epoch(d: Drain): Option<string>
    requires d.fingerprints != []
  {
    d.fingerprints[0]
  }

  function Queue(setup: Setup, order: seq<string>): seq<Entry> {
    seq(|order|, i requires 0 <= i < |order| => setup.entry(order[i]))
  }

  ghost predicate CanSelect(d: Drain, order: seq<string>) {
    d.phase == Deciding(true) && IsDrainOrder(d.rows, order)
  }

  ghost function Apply(setup: Setup, d: Drain, step: Step): Drain {
    match step
    case Others(rows) => d.(rows := rows)
    case ReadProvider(fingerprint) =>
      if d.phase != Deciding(false) || d.fingerprints == [] then d
      else d.(
        fingerprints := d.fingerprints + [fingerprint],
        phase := if fingerprint == Epoch(d) then Deciding(true) else Stopped(5))
    case ReadFails => if d.phase == Deciding(false) then d.(phase := Stopped(3)) else d
    case Peek(id) =>
      if d.phase != Deciding(true) || setup.limit == 0 || !IsNext(d.rows, id) then d
      else d.(batch := [setup.entry(id)], claimed := [], phase := Claiming(Ids([setup.entry(id)])))
    case Return => if d.phase.Deciding? then d.(phase := Stopped(0)) else d
    case Select(order) =>
      if !CanSelect(d, order) then d
      else
        var batch := Greedy(Queue(setup, order), setup.limit);
        d.(batch := batch, claimed := [], phase := if batch == [] then Stopped(0) else Claiming(Ids(batch)))
    case ClaimHead =>
      if !d.phase.Claiming? || d.fingerprints == [] then d
      else if d.phase.todo == [] then
        if d.claimed == [] then d.(phase := Stopped(0))
        else d.(phase := Working, live := set id | id in d.claimed)
      else
        var id := d.phase.todo[0];
        var next := d.(phase := Claiming(d.phase.todo[1..]));
        if id !in PendingIds(d.rows) then next
        else next.(
          rows := d.rows[id := ClaimedSpecific(d.rows[id], setup.pid, Epoch(d))],
          claimed := d.claimed + [id],
          log := d.log + [(id, Epoch(d))])
    case ThreadEnds(id) => d.(live := d.live - {id})
    case Join => if d.phase == Working && d.live == {} then d.(phase := Deciding(false)) else d
    case JoinTimesOut => if d.phase == Working && d.live != {} then d.(phase := Stopped(3)) else d
  }

  ghost function At(setup: Setup, d: Drain, steps: seq<Step>, n: nat): Drain
    requires n <= |steps|
  {
    if n == 0 then d else Apply(setup, At(setup, d, steps, n - 1), steps[n - 1])
  }

  /** The start of the call: one fingerprint read, which the first batch does not re-check. */
  ghost predicate Start(d: Drain) {
    d.phase == Deciding(true) && d.batch == [] && d.claimed == [] && d.live == {} && d.log == [] && |d.fingerprints| == 1
  }

  ghost predicate Inv(setup: Setup, d: Drain) {
    && Compatible(d.batch, setup.limit)
    && (d.phase.Deciding? ==> d.live == {})
    && (d.phase.Claiming? ==> d.live == {} && forall id | id in d.phase.todo :: id in Ids(d.batch))
    && (forall id | id in d.claimed :: id in Ids(d.batch))
    && (forall id | id in d.live :: id in Ids(d.batch))
    && d.fingerprints != []
    && (forall i | 0 <= i < |d.log| :: d.log[i].1 == Epoch(d))
    && (d.phase != Stopped(5) ==> forall i | 0 <= i < |d.fingerprints| :: d.fingerprints[i] == Epoch(d))
  }

  lemma StepKeepsInv(setup: Setup, d: Drain, step: Step)
    requires Inv(setup, d)
    ensures Inv(setup, Apply(setup, d, step))
  {
    if step.Select? && CanSelect(d, step.order) {
      GreedyCompatible(Queue(setup, step.order), setup.limit);
    }
  }

  lemma {:induction false} InvAt(setup: Setup, d: Drain, steps: seq<Step>, n: nat)
    requires Start(d) && n <= |steps|
    ensures Inv(setup, At(setup, d, steps, n))
  {
    if n > 0 {
      InvAt(setup, d, steps, n - 1);
      StepKeepsInv(setup, At(setup, d, steps, n - 1), steps[n - 1]);
    }
  }

  lemma LiveAtMost(batch: seq<Entry>, live: set<string>)
    requires forall id | id in live :: id in Ids(batch)
    ensures |live| <= |batch|
    decreases |batch|
  {
    if batch != [] {
      var last := batch[|batch| - 1].id;
      var front := batch[..|batch| - 1];
      assert Ids(batch) == Ids(front) + [last];
      LiveAtMost(front, live - {last});
      assert live <= (live - {last}) + {last};
      CardinalityOfUnion(live - {last}, last, live);
    } else {
      assert live == {};
    }
  }

  lemma CardinalityOfUnion(rest: set<string>, last: string, whole: set<string>)
    requires rest == whole - {last}
    ensures |whole| <= |rest| + 1
  {
    if last in whole {
      assert whole == rest + {last};
    } else {
      assert whole == rest;
    }
  }

  /**
   In every reachable state, whatever other actors do: at most `limit` workers are live, their
   scopes are pairwise without conflict, and an exclusive run is alone. Stragglers of a wedged
   batch are included.
   */
  lemma LiveWorkersAreCompatible(setup: Setup, d: Drain, steps: seq<Step>, n: nat, a: string, b: string)
    requires Start(d) && n <= |steps| && (forall id :: setup.entry(id).id == id)
    requires a in At(setup, d, steps, n).live && b in At(setup, d, steps, n).live && a != b
    ensures |At(setup, d, steps, n).live| <= setup.limit
    ensures !PosixPaths.PathsConflict(setup.entry(a).scope, setup.entry(b).scope)
    ensures !setup.entry(a).exclusive
  {
    InvAt(setup, d, steps, n);
    EntriesAt(setup, d, steps, n);
    var now := At(setup, d, steps, n);
    LiveAtMost(now.batch, now.live);
    var i :| 0 <= i < |now.batch| && now.batch[i].id == a;
    var j :| 0 <= j < |now.batch| && now.batch[j].id == b;
    assert now.batch[i] == setup.entry(a) && now.batch[j] == setup.entry(b);
    ConflictSymmetric(setup.entry(a).scope, setup.entry(b).scope);
  }

  ghost predicate OwnEntries(setup: Setup, batch: seq<Entry>) {
    forall e | e in batch :: e == setup.entry(e.id)
  }

  lemma SelectedEntries(setup: Setup, order: seq<string>)
    requires forall id :: setup.entry(id).id == id
    ensures OwnEntries(setup, Greedy(Queue(setup, order), setup.limit))
  {
    var queue := Queue(setup, order);
    GreedyFromQueue(queue, setup.limit);
    assert forall e | e in queue :: e == setup.entry(e.id);
  }

  lemma BatchBySelection(setup: Setup, d: Drain, step: Step)
    ensures Apply(setup, d, step).batch == d.batch
      || (step.Select? && Apply(setup, d, step).batch == Greedy(Queue(setup, step.order), setup.limit))
      || (step.Peek? && Apply(setup, d, step).batch == [setup.entry(step.id)])
  {
  }

  /** The entries of the batch are those of the setup. */
  lemma {:induction false} EntriesAt(setup: Setup, d: Drain, steps: seq<Step>, n: nat)
    requires Start(d) && n <= |steps| && (forall id :: setup.entry(id).id == id)
    ensures OwnEntries(setup, At(setup, d, steps, n).batch)
  {
    if n > 0 {
      EntriesAt(setup, d, steps, n - 1);
      BatchBySelection(setup, At(setup, d, steps, n - 1), steps[n - 1]);
      if steps[n - 1].Select? {
        SelectedEntries(setup, steps[n - 1].order);
      }
    }
  }

  /** Also alone when it is the only live worker: at most `limit` holds of any number of live workers. */
  lemma LiveWorkersBounded(setup: Setup, d: Drain, steps: seq<Step>, n: nat)
    requires Start(d) && n <= |steps|
    ensures |At(setup, d, steps, n).live| <= setup.limit
  {
    InvAt(setup, d, steps, n);
    LiveAtMost(At(setup, d, steps, n).batch, At(setup, d, steps, n).live);
  }

  /** Once stopped, by a wedge, a provider change or an empty selection, nothing more is claimed. */
  lemma {:induction false} StoppedClaimsNothing(setup: Setup, d: Drain, steps: seq<Step>, i: nat, j: nat)
    requires i <= j <= |steps| && At(setup, d, steps, i).phase.Stopped?
    ensures At(setup, d, steps, j).phase == At(setup, d, steps, i).phase
    ensures At(setup, d, steps, j).log == At(setup, d, steps, i).log
    ensures At(setup, d, steps, j).live <= At(setup, d, steps, i).live
  {
    if i < j {
      StoppedClaimsNothing(setup, d, steps, i, j - 1);
    }
  }

  /** All claims of a call carry the fingerprint read at its start; every earlier re-read agreed with it. */
  lemma ClaimsCarryFirstFingerprint(setup: Setup, d: Drain, steps: seq<Step>, n: nat, i: nat)
    requires Start(d) && n <= |steps| && i < |At(setup, d, steps, n).log|
    ensures At(setup, d, steps, n).log[i].1 == d.fingerprints[0]
  {
    InvAt(setup, d, steps, n);
    FirstReadStays(setup, d, steps, n);
  }

  lemma {:induction false} FirstReadStays(setup: Setup, d: Drain, steps: seq<Step>, n: nat)
    requires Start(d) && n <= |steps|
    ensures At(setup, d, steps, n).fingerprints != [] && Epoch(At(setup, d, steps, n)) == Epoch(d)
  {
    if n > 0 {
      FirstReadStays(setup, d, steps, n - 1);
    }
  }

  /** No claim follows a re-read that differed from the first fingerprint. */
  lemma NoClaimAfterChange(setup: Setup, d: Drain, steps: seq<Step>, i: nat, j: nat, k: nat)
    requires Start(d) && i <= j <= |steps|
    requires k < |At(setup, d, steps, i).fingerprints| && At(setup, d, steps, i).fingerprints[k] != d.fingerprints[0]
    ensures At(setup, d, steps, i).phase == Stopped(5)
    ensures At(setup, d, steps, j).log == At(setup, d, steps, i).log
  {
    InvAt(setup, d, steps, i);
    FirstReadStays(setup, d, steps, i);
    StoppedClaimsNothing(setup, d, steps, i, j);
  }

  /** How often the call has claimed the run. */
  function ClaimsOf(log: seq<(string, Option<string>)>, id: string): nat {
    if log == [] then 0
    else ClaimsOf(log[..|log| - 1], id) + if log[|log| - 1].0 == id then 1 else 0
  }

  /** Between steps `i` and `j` no other actor touches the run's row. */
  ghost predicate LeftAlone(setup: Setup, d: Drain, steps: seq<Step>, i: nat, j: nat, id: string)
    requires i <= j <= |steps|
    decreases j
  {
    i == j || (LeftAlone(setup, d, steps, i, j - 1, id)
      && (steps[j - 1].Others? ==>
        var before, after := At(setup, d, steps, j - 1).rows, steps[j - 1].rows;
        id in before && id in after && after[id] == before[id]))
  }

  /** What one step does to the row of a run: nothing, or the one logged claim of a pending row. */
  lemma ClaimStep(setup: Setup, d: Drain, step: Step, id: string)
    requires id in d.rows && d.fingerprints != []
    requires step.Others? ==> id in step.rows && step.rows[id] == d.rows[id]
    ensures var after := Apply(setup, d, step);
      && id in after.rows
      && ((ClaimsOf(after.log, id) == ClaimsOf(d.log, id) && after.rows[id] == d.rows[id])
        || (ClaimsOf(after.log, id) == ClaimsOf(d.log, id) + 1 && d.rows[id].lifecycle == Pending
          && after.rows[id] == ClaimedSpecific(d.rows[id], setup.pid, Epoch(d))))
  {
    if step.ClaimHead? && Apply(setup, d, step).log != d.log {
      assert Apply(setup, d, step).log[..|d.log|] == d.log;
    }
  }

  /**
   Over any stretch of a call in which no other actor touches the row of a run, the call claims the
   run at most once, only while it is pending, with its pid and first fingerprint; a run it does not
   claim keeps its row. So a stop, also with exit code 5, leaves every unclaimed row as it was.
   */
  lemma {:induction false} OwnEffectIsOneClaim(setup: Setup, d: Drain, steps: seq<Step>, i: nat, j: nat, id: string)
    requires Start(d) && i <= j <= |steps| && id in At(setup, d, steps, i).rows && LeftAlone(setup, d, steps, i, j, id)
    ensures var before, after := At(setup, d, steps, i), At(setup, d, steps, j);
      && id in after.rows
      && ClaimsOf(before.log, id) <= ClaimsOf(after.log, id) <= ClaimsOf(before.log, id) + 1
      && (ClaimsOf(after.log, id) == ClaimsOf(before.log, id) ==> after.rows[id] == before.rows[id])
      && (ClaimsOf(after.log, id) > ClaimsOf(before.log, id) ==>
        before.rows[id].lifecycle == Pending
        && after.rows[id] == ClaimedSpecific(before.rows[id], setup.pid, d.fingerprints[0]))
  {
    hide Apply;
    hide Start;
    if i < j {
      OwnEffectIsOneClaim(setup, d, steps, i, j - 1, id);
      FirstReadStays(setup, d, steps, j - 1);
      ClaimStep(setup, At(setup, d, steps, j - 1), steps[j - 1], id);
    }
  }

  // ---------- working off a backlog ----------

  /** One batch of an undisturbed drain: chosen from everything pending, and all of it claimed. */
  ghost predicate IsBatch(setup: Setup, rows: Rows, pending: set<string>, batch: seq<string>) {
    exists order: seq<string> ::
      && multiset(order) == multiset(pending) && (forall id | id in order :: id in rows) && Sorted(rows, order)
      && batch == Ids(Greedy(Queue(setup, order), setup.limit))
  }

  ghost function Members(batch: seq<string>): set<string> {
    set id | id in batch
  }

  /** Successive batches over a shrinking backlog. */
  ghost predicate Batches(setup: Setup, rows: Rows, pending: set<string>, batches: seq<seq<string>>) {
    batches != [] ==>
      && pending != {} && IsBatch(setup, rows, pending, batches[0])
      && Batches(setup, rows, pending - Members(batches[0]), batches[1..])
  }

  /** The pending runs that the queue does not put after `id`: with distinct keys, its rank. */
  ghost function NotAfter(rows: Rows, pending: set<string>, id: string): set<string>
    requires id in rows && pending <= rows.Keys
  {
    set other | other in pending && other != id
      && (rows[other].priority > rows[id].priority
        || (rows[other].priority == rows[id].priority && rows[other].createdAt <= rows[id].createdAt))
  }

  /** Every batch takes a run that is queued no later than any run it leaves behind. */
  lemma BatchTakesFromFront(setup: Setup, rows: Rows, pending: set<string>, batch: seq<string>, id: string)
    requires (forall id :: setup.entry(id).id == id) && setup.limit >= 1 && pending <= rows.Keys
    requires IsBatch(setup, rows, pending, batch) && id in pending && id !in batch
    ensures Members(batch) <= pending
    ensures exists head | head in batch :: head in NotAfter(rows, pending, id)
  {
    var order: seq<string> :|
      && multiset(order) == multiset(pending) && (forall id | id in order :: id in rows) && Sorted(rows, order)
      && batch == Ids(Greedy(Queue(setup, order), setup.limit));
    Enumerates(order, pending);
    var queue := Queue(setup, order);
    HeadIsChosen(queue, setup.limit);
    GreedyFromQueue(queue, setup.limit);
    assert batch[0] == queue[0].id == order[0];
    var k :| 0 <= k < |order| && order[k] == id;
    assert batch[0] in batch && order[0] in pending;
    forall other | other in batch
      ensures other in pending
    {
      var m :| 0 <= m < |batch| && batch[m] == other;
      var e := Greedy(queue, setup.limit)[m];
      assert e in queue;
      var q :| 0 <= q < |queue| && queue[q] == e;
      assert order[q] in order;
    }
  }

  ghost predicate TakenBy(batches: seq<seq<string>>, n: nat, id: string)
    requires n <= |batches|
  {
    exists k | 0 <= k < n :: id in batches[k]
  }

  /**
   Bounded overtaking: without new submissions or competing actors, a run that `r` pending runs
   precede or tie with in the queue is claimed by batch `r + 1`, unless the drain stops before.
   */
  lemma {:induction false} BoundedOvertaking(
    setup: Setup, rows: Rows, pending: set<string>, batches: seq<seq<string>>, id: string)
    requires (forall id :: setup.entry(id).id == id) && setup.limit >= 1 && pending <= rows.Keys
    requires Batches(setup, rows, pending, batches) && id in pending
    requires |NotAfter(rows, pending, id)| < |batches|
    ensures TakenBy(batches, |NotAfter(rows, pending, id)| + 1, id)
    decreases |batches|
  {
    if id in batches[0] {
    } else {
      BatchTakesFromFront(setup, rows, pending, batches[0], id);
      var head :| head in batches[0] && head in NotAfter(rows, pending, id);
      var rest := pending - Members(batches[0]);
      var before, after := NotAfter(rows, pending, id), NotAfter(rows, rest, id);
      assert after <= before - {head};
      SubsetCardinality(after, before - {head});
      BoundedOvertaking(setup, rows, rest, batches[1..], id);
      var k :| 0 <= k < |after| + 1 && id in batches[1..][k];
      assert batches[k + 1] == batches[1..][k];
    }
  }

  lemma SubsetCardinality(small: set<string>, large: set<string>)
    requires small <= large
    ensures |small| <= |large|
  {
    if small != {} {
      var x :| x in small;
      SubsetCardinality(small - {x}, large - {x});
    }
  }

  /** Each batch takes at least one run, so a backlog of `n` runs is worked off in at most `n` batches. */
  lemma {:induction false} BacklogBoundsBatches(setup: Setup, rows: Rows, pending: set<string>, batches: seq<seq<string>>)
    requires (forall id :: setup.entry(id).id == id) && setup.limit >= 1 && pending <= rows.Keys
    requires Batches(setup, rows, pending, batches)
    ensures |batches| <= |pending|
    decreases |batches|
  {
    if batches != [] {
      BatchNotEmpty(setup, rows, pending, batches[0]);
      var rest := pending - Members(batches[0]);
      var head :| head in batches[0] && head in pending;
      SubsetCardinality(rest, pending - {head});
      BacklogBoundsBatches(setup, rows, rest, batches[1..]);
    }
  }

  lemma BatchNotEmpty(setup: Setup, rows: Rows, pending: set<string>, batch: seq<string>)
    requires (forall id :: setup.entry(id).id == id) && setup.limit >= 1
    requires pending != {} && IsBatch(setup, rows, pending, batch)
    ensures exists head | head in batch :: head in pending
  {
    var order: seq<string> :|
      && multiset(order) == multiset(pending) && (forall id | id in order :: id in rows) && Sorted(rows, order)
      && batch == Ids(Greedy(Queue(setup, order), setup.limit));
    Enumerates(order, pending);
    var some :| some in pending;
    assert some in order;
    HeadIsChosen(Queue(setup, order), setup.limit);
    assert batch[0] == order[0] && order[0] in order;
  }
}
