/**
 The drain loops, sequential and batched, as imperative code over the run store. What the
 environment does is an oracle: how each run ends, how long its thread takes, which fingerprints
 are read, which pending or running rows rival actors move before a claim, and which running row
 another actor finishes while its worker runs. `finish` is one guarded step here.
 */
module DrainLoop {
  import opened Wrappers
  import opened Lifecycles
  import opened StateStores
  import opened Scheduler
  import opened DrainProtocol

  /** `execute_task` returns a status, or an exception leaves it. */
  datatype ExecOutcome = Ended(status: Status) | Crashed

  /** A thread joins in time, after its join has timed out, or not before the wedge is handled. */
  datatype Pace = OnTime | Late | Stuck

  datatype StepDoc = StepDoc(id: string, lifecycle: Lifecycle, outcome: Option<string>, external: bool)

  datatype Finish = Finish(lifecycle: Lifecycle, outcome: string)

  /** `read_current_fingerprint`: settings that are no text, or whose URL is malformed, raise past its handler. */
  datatype Reading = Read(fingerprint: Option<string>) | ReadRaised

  datatype Env = Env(
    catalog: Catalog,
    exec: string -> ExecOutcome,
    pace: string -> Pace,
    meanwhile: string -> Option<Finish>,
    beaten: string -> Option<Finish>,
    fingerprint: nat -> Reading,
    alive: int -> bool,
    rivals: nat -> map<string, Row>,
    pid: int)

  ghost predicate NoRivals(env: Env) {
    forall n: nat :: env.rivals(n) == map[]
  }

  ghost predicate NoInterference(env: Env) {
    NoRivals(env) && forall id: string :: env.meanwhile(id) == None && env.beaten(id) == None
  }

  ghost predicate NoWedge(env: Env) {
    forall id: string :: env.pace(id) == OnTime
  }

  /** The fingerprint the drain starts with, if that can be read. */
  function FirstEpoch(env: Env): Option<string> {
    if env.fingerprint(0).Read? then env.fingerprint(0).fingerprint else None
  }

  ghost predicate StableProvider(env: Env) {
    forall n: nat :: env.fingerprint(n) == Read(FirstEpoch(env))
  }

  ghost predicate SafeIds(rows: Rows) {
    forall id | id in rows :: SafeId(id)
  }

  ghost predicate Distinct(ids: seq<string>) {
    forall i, j | 0 <= i < j < |ids| :: ids[i] != ids[j]
  }

  // ---------- what happens to a row ----------

  /**
   What other actors may make of a row this drain has not claimed: a pending or running row in any
   later state, with whatever pid, epoch and outcome their statements wrote.
   */
  predicate RivalMoved(before: Row, after: Row) {
    && before.lifecycle in {Pending, Running} && after.lifecycle != Pending
    && after.repository == before.repository && after.priority == before.priority && after.createdAt == before.createdAt
  }

  /** The moves that are possible happen; a row this drain has settled is neither pending nor running. */
  function AfterRivals(rows: Rows, moves: map<string, Row>): Rows {
    map id | id in rows :: if id in moves && RivalMoved(rows[id], moves[id]) then moves[id] else rows[id]
  }

  lemma RivalsFollowTheTable(before: Row, after: Row)
    requires RivalMoved(before, after)
    ensures Reaches(before.lifecycle, after.lifecycle)
  {
    assert Allowed(Pending, Running) && Allowed(Running, ReadyForReview) && Allowed(ReadyForReview, Integrated);
    assert Allowed(ReadyForReview, Cancelled) && Allowed(Running, Blocked);
  }

  /** The row after another actor has finished it, if one does and may. */
  function Meanwhile(env: Env, id: string, row: Row): Row {
    var other := env.meanwhile(id);
    if other.Some? && Allowed(row.lifecycle, other.value.lifecycle)
    then Finished(row, other.value.lifecycle, other.value.outcome) else row
  }

  /** What the drain itself wants to record. */
  function Verdict(env: Env, id: string, stuck: bool): Finish {
    if stuck then Finish(Blocked, "runner-wedged")
    else match env.exec(id)
      case Ended(status) => Finish(LifecycleOf(status), StatusName(status))
      case Crashed => Finish(Blocked, "runner-crashed")
  }

  /** The row once the drain is done with it: the first finisher has won. */
  function Settled(env: Env, id: string, row: Row, stuck: bool): Row {
    var now, verdict := Meanwhile(env, id, row), Verdict(env, id, stuck);
    if Allowed(now.lifecycle, verdict.lifecycle) then Finished(now, verdict.lifecycle, verdict.outcome) else now
  }

  /** A claimed row never stays running, and another actor's finish is never overwritten. */
  lemma SettledIsClosed(env: Env, id: string, row: Row, stuck: bool)
    requires row.lifecycle == Running
    ensures Settled(env, id, row, stuck).lifecycle in {ReadyForReview, Blocked, Cancelled}
    ensures Meanwhile(env, id, row).lifecycle != Running ==>
      Settled(env, id, row, stuck) == Meanwhile(env, id, row)
    ensures Meanwhile(env, id, row).lifecycle == Running ==>
      var verdict := Verdict(env, id, stuck);
      Settled(env, id, row, stuck).lifecycle == verdict.lifecycle
      && Settled(env, id, row, stuck).outcome == Some(verdict.outcome)
  {
  }

  method RivalsMove(store: StateStore, moves: map<string, Row>)
    modifies store
    ensures store.rows == AfterRivals(old(store.rows), moves)
  {
    store.rows := AfterRivals(store.rows, moves);
  }

  method OtherActorFinishes(store: StateStore, env: Env, id: string)
    requires id in store.rows && SafeId(id)
    modifies store
    ensures store.rows == old(store.rows)[id := Meanwhile(env, id, old(store.rows)[id])]
  {
    var other := env.meanwhile(id);
    if other.Some? {
      var r := store.Finish(id, other.value.lifecycle, other.value.outcome);
    }
  }

  // ---------- what is reported of a row ----------

  /** The step says what the row says. */
  predicate Exact(doc: StepDoc, row: Row) {
    doc.lifecycle == row.lifecycle && doc.outcome == row.outcome
  }

  /** Another actor finished the run first, and its crash or its wedge is reported as blocked all the same. */
  predicate Forestalled(env: Env, doc: StepDoc, row: Row) {
    && env.meanwhile(doc.id).Some? && row.lifecycle == env.meanwhile(doc.id).value.lifecycle
    && row.outcome == Some(env.meanwhile(doc.id).value.outcome) && doc.lifecycle == Blocked
    && ((env.exec(doc.id) == Crashed && doc.outcome == Some("runner-crashed"))
      || (env.pace(doc.id) == Stuck && doc.outcome == Some("runner-wedged")))
  }

  predicate Told(env: Env, doc: StepDoc, row: Row) {
    Exact(doc, row) || Forestalled(env, doc, row)
  }

  ghost predicate AllTold(env: Env, rows: Rows, docs: seq<StepDoc>) {
    forall i | 0 <= i < |docs| :: docs[i].id in rows && Told(env, docs[i], rows[docs[i].id])
  }

  ghost predicate AllExact(rows: Rows, docs: seq<StepDoc>) {
    forall i | 0 <= i < |docs| :: docs[i].id in rows && Exact(docs[i], rows[docs[i].id])
  }

  lemma ToldAppend(env: Env, rows: Rows, docs: seq<StepDoc>, more: seq<StepDoc>)
    ensures AllTold(env, rows, docs) && AllTold(env, rows, more) ==> AllTold(env, rows, docs + more)
    ensures AllExact(rows, docs) && AllExact(rows, more) ==> AllExact(rows, docs + more)
  {
  }

  /** The store holds a blocked row for this step, or the crash it reports was forestalled. */
  predicate EndsBadly(env: Env, rows: Rows, doc: StepDoc) {
    doc.id in rows && (rows[doc.id].lifecycle == Blocked || Forestalled(env, doc, rows[doc.id]))
  }

  /** The exit code counts the blocked rows. */
  lemma ExitCodeTells(env: Env, rows: Rows, docs: seq<StepDoc>)
    requires AllTold(env, rows, docs)
    ensures ExitCode(0, docs) in {0, 3}
    ensures ExitCode(0, docs) == 3 <==> exists i | 0 <= i < |docs| :: EndsBadly(env, rows, docs[i])
    ensures AllExact(rows, docs) ==>
      (ExitCode(0, docs) == 3 <==> exists id | id in DocIds(docs) :: id in rows && rows[id].lifecycle == Blocked)
  {
    assert forall i | 0 <= i < |docs| :: docs[i].lifecycle == Blocked <==> EndsBadly(env, rows, docs[i]);
    assert forall i | 0 <= i < |docs| :: DocIds(docs)[i] == docs[i].id;
    if AllExact(rows, docs) {
      forall i | 0 <= i < |docs|
        ensures docs[i].lifecycle == Blocked <==> rows[docs[i].id].lifecycle == Blocked
        ensures docs[i].id in DocIds(docs)
      {
        assert DocIds(docs)[i] == docs[i].id;
      }
    }
  }

  /** One more step, of a run whose row alone has changed. */
  lemma ToldMore(env: Env, before: Rows, after: Rows, docs: seq<StepDoc>, more: seq<StepDoc>, id: string)
    requires AllTold(env, before, docs) && AllTold(env, after, more) && id !in DocIds(docs)
    requires forall other | other in before && other != id :: other in after && after[other] == before[other]
    ensures AllTold(env, after, docs + more)
  {
    forall i | 0 <= i < |docs|
      ensures docs[i].id in after && Told(env, docs[i], after[docs[i].id])
    {
      assert DocIds(docs)[i] == docs[i].id;
    }
  }

  /**
   `_execute_claim_row` inside `_run_one`: execute, then finish. A finish that another actor
   forestalled is reported from the row, as externally finalized.
   */
  method ExecuteClaimRow(store: StateStore, env: Env, id: string) returns (doc: StepDoc)
    requires id in store.rows && SafeId(id)
    modifies store
    ensures store.rows == old(store.rows)[id := Settled(env, id, old(store.rows)[id], false)]
    ensures doc.id == id
    ensures env.exec(id).Ended? ==>
      && doc.lifecycle == store.rows[id].lifecycle
      && (doc.external <==> !Allowed(Meanwhile(env, id, old(store.rows)[id]).lifecycle, Verdict(env, id, false).lifecycle))
      && (doc.external ==> doc.outcome == store.rows[id].outcome)
    ensures env.exec(id) == Crashed ==> doc == StepDoc(id, Blocked, Some("runner-crashed"), false)
    ensures env.exec(id).Ended? ==> Exact(doc, store.rows[id])
    ensures old(store.rows)[id].lifecycle == Running ==> Told(env, doc, store.rows[id])
  {
    OtherActorFinishes(store, env, id);
    var verdict := Verdict(env, id, false);
    var r := store.Finish(id, verdict.lifecycle, verdict.outcome);
    if env.exec(id).Ended? && r == Err(IllegalTransition) {
      doc := StepDoc(id, store.rows[id].lifecycle, store.rows[id].outcome, true);
    } else {
      doc := StepDoc(id, verdict.lifecycle, Some(verdict.outcome), false);
    }
  }

  // ---------- one batch ----------

  function ClaimedRows(rows: Rows, ids: seq<string>, pid: Option<int>, epoch: Option<string>): Rows {
    map id | id in rows ::
      if id in ids && rows[id].lifecycle == Pending then ClaimedSpecific(rows[id], pid, epoch) else rows[id]
  }

  /** The runs of the list that are still pending, in order. */
  function Won(rows: Rows, ids: seq<string>): (won: seq<string>)
    ensures forall id :: id in won <==> id in ids && id in PendingIds(rows)
  {
    if ids == [] then []
    else
      var front, last := Won(rows, ids[..|ids| - 1]), ids[|ids| - 1];
      assert ids == ids[..|ids| - 1] + [last];
      if last in PendingIds(rows) then front + [last] else front
  }

  lemma ClaimOneMore(rows: Rows, front: seq<string>, id: string, pid: Option<int>, epoch: Option<string>)
    requires id !in front
    ensures var before, after := ClaimedRows(rows, front, pid, epoch), ClaimedRows(rows, front + [id], pid, epoch);
      && (id in PendingIds(before) <==> id in PendingIds(rows))
      && after == (if id in PendingIds(rows) then before[id := ClaimedSpecific(before[id], pid, epoch)] else before)
  {
  }

  /** `_claim_rows`: each selected row is won, or left for whoever took it. */
  method ClaimRows(store: StateStore, ids: seq<string>, pid: Option<int>, epoch: Option<string>) returns (claimed: seq<string>)
    requires Distinct(ids)
    modifies store
    ensures claimed == Won(old(store.rows), ids)
    ensures store.rows == ClaimedRows(old(store.rows), ids, pid, epoch)
  {
    claimed := [];
    for i := 0 to |ids|
      invariant claimed == Won(old(store.rows), ids[..i])
      invariant store.rows == ClaimedRows(old(store.rows), ids[..i], pid, epoch)
    {
      assert ids[..i + 1] == ids[..i] + [ids[i]];
      ClaimOneMore(old(store.rows), ids[..i], ids[i], pid, epoch);
      var won := store.ClaimSpecific(ids[i], pid, epoch);
      if won {
        claimed := claimed + [ids[i]];
      }
    }
    assert ids[..|ids|] == ids;
  }

  /** The rows after every thread of the batch that finishes has finished. */
  function AfterThreads(rows: Rows, env: Env, ids: seq<string>): Rows {
    map id | id in rows ::
      if id in ids && env.pace(id) != Stuck then Settled(env, id, rows[id], false) else rows[id]
  }

  /** The rows after the wedge handler has marked the threads that did not finish. */
  function AfterWedge(rows: Rows, env: Env, ids: seq<string>): Rows {
    map id | id in rows ::
      if id in ids && env.pace(id) == Stuck then Settled(env, id, rows[id], true) else rows[id]
  }

  function DocIds(docs: seq<StepDoc>): seq<string> {
    seq(|docs|, i requires 0 <= i < |docs| => docs[i].id)
  }

  lemma ThreadOneMore(rows: Rows, env: Env, front: seq<string>, id: string)
    requires id !in front && id in rows
    ensures var before, after := AfterThreads(rows, env, front), AfterThreads(rows, env, front + [id]);
      after == if env.pace(id) != Stuck then before[id := Settled(env, id, before[id], false)] else before
  {
  }

  lemma ThreadStep(rows: Rows, env: Env, ids: seq<string>, i: nat)
    requires Distinct(ids) && i < |ids| && ids[i] in rows
    ensures ids[..i + 1] == ids[..i] + [ids[i]] && ids[i] !in ids[..i]
    ensures AllOnTime(env, ids[..i + 1]) <==> AllOnTime(env, ids[..i]) && env.pace(ids[i]) == OnTime
    ensures var before, after := AfterThreads(rows, env, ids[..i]), AfterThreads(rows, env, ids[..i + 1]);
      && ids[i] in before && before[ids[i]] == rows[ids[i]]
      && after == if env.pace(ids[i]) != Stuck then before[ids[i] := Settled(env, ids[i], rows[ids[i]], false)] else before
  {
    assert ids[..i + 1] == ids[..i] + [ids[i]];
    assert ids[..i + 1][..i] == ids[..i];
    ThreadOneMore(rows, env, ids[..i], ids[i]);
  }

  lemma WedgeOneMore(rows: Rows, env: Env, front: seq<string>, id: string)
    requires id !in front && id in rows
    ensures var before, after := AfterWedge(rows, env, front), AfterWedge(rows, env, front + [id]);
      after == if env.pace(id) == Stuck then before[id := Settled(env, id, before[id], true)] else before
  {
  }

  /** Every thread joins within the budget. */
  predicate AllOnTime(env: Env, ids: seq<string>) {
    ids == [] || (AllOnTime(env, ids[..|ids| - 1]) && env.pace(ids[|ids| - 1]) == OnTime)
  }

  lemma OnTimeEach(env: Env, ids: seq<string>)
    ensures AllOnTime(env, ids) <==> forall id | id in ids :: env.pace(id) == OnTime
  {
    if ids != [] {
      OnTimeEach(env, ids[..|ids| - 1]);
    }
  }

  /** One thread: unless it is stuck it executes and finishes its run. */
  method RunOne(store: StateStore, env: Env, id: string) returns (docs: seq<StepDoc>)
    requires id in store.rows && SafeId(id) && store.rows[id].lifecycle == Running
    modifies store
    ensures AllTold(env, store.rows, docs)
    ensures env.pace(id) == Stuck ==> store.rows == old(store.rows)
    ensures env.pace(id) != Stuck ==> store.rows == old(store.rows)[id := Settled(env, id, old(store.rows)[id], false)]
    ensures DocIds(docs) == if env.pace(id) == Stuck then [] else [id]
  {
    docs := [];
    if env.pace(id) != Stuck {
      var doc := ExecuteClaimRow(store, env, id);
      docs := [doc];
    }
  }

  lemma NoThreads(rows: Rows, env: Env)
    ensures AfterThreads(rows, env, []) == rows && AfterWedge(rows, env, []) == rows
  {
  }

  lemma WedgeStep(rows: Rows, env: Env, ids: seq<string>, i: nat)
    requires Distinct(ids) && i < |ids| && ids[i] in rows
    ensures ids[..i + 1] == ids[..i] + [ids[i]] && ids[i] !in ids[..i]
    ensures var before, after := AfterWedge(rows, env, ids[..i]), AfterWedge(rows, env, ids[..i + 1]);
      && ids[i] in before && before[ids[i]] == rows[ids[i]]
      && after == if env.pace(ids[i]) == Stuck then before[ids[i] := Settled(env, ids[i], rows[ids[i]], true)] else before
  {
    assert ids[..i + 1] == ids[..i] + [ids[i]];
    WedgeOneMore(rows, env, ids[..i], ids[i]);
  }

  /** Start the threads and let those that finish do so. */
  method RunThreads(store: StateStore, env: Env, ids: seq<string>) returns (docs: seq<StepDoc>, wedged: bool)
    requires Distinct(ids) && forall id | id in ids :: id in store.rows && SafeId(id) && store.rows[id].lifecycle == Running
    modifies store
    ensures AllTold(env, store.rows, docs)
    ensures store.rows == AfterThreads(old(store.rows), env, ids)
    ensures wedged <==> !AllOnTime(env, ids)
    ensures !wedged ==> DocIds(docs) == ids
  {
    hide AfterThreads;
    hide Settled;
    hide Told;
    NoThreads(store.rows, env);
    docs, wedged := [], false;
    for i := 0 to |ids|
      invariant store.rows == AfterThreads(old(store.rows), env, ids[..i])
      invariant wedged <==> !AllOnTime(env, ids[..i])
      invariant !wedged ==> DocIds(docs) == ids[..i]
      invariant forall id | id in DocIds(docs) :: id in ids[..i]
      invariant AllTold(env, store.rows, docs)
    {
      ThreadStep(old(store.rows), env, ids, i);
      ghost var before := store.rows;
      var step := RunOne(store, env, ids[i]);
      DocIdsAppend(docs, step);
      ToldMore(env, before, store.rows, docs, step, ids[i]);
      docs := docs + step;
      wedged := wedged || env.pace(ids[i]) != OnTime;
    }
    assert ids[..|ids|] == ids;
  }

  /** Record one wedged row, whatever it has become meanwhile; the step is reported as blocked either way. */
  method BlockWedged(store: StateStore, env: Env, id: string) returns (doc: StepDoc)
    requires id in store.rows && SafeId(id) && store.rows[id].lifecycle == Running && env.pace(id) == Stuck
    modifies store
    ensures store.rows == old(store.rows)[id := Settled(env, id, old(store.rows)[id], true)]
    ensures doc == StepDoc(id, Blocked, Some("runner-wedged"), false) && Told(env, doc, store.rows[id])
  {
    OtherActorFinishes(store, env, id);
    var r := store.Finish(id, Blocked, "runner-wedged");
    doc := StepDoc(id, Blocked, Some("runner-wedged"), false);
  }

  /** The runs of a batch whose thread never ended. */
  function StuckOf(env: Env, ids: seq<string>): seq<string> {
    if ids == [] then []
    else StuckOf(env, ids[..|ids| - 1]) + if env.pace(ids[|ids| - 1]) == Stuck then [ids[|ids| - 1]] else []
  }

  lemma StuckAreIn(env: Env, ids: seq<string>)
    ensures forall id :: id in StuckOf(env, ids) <==> id in ids && env.pace(id) == Stuck
  {
    if ids != [] {
      StuckAreIn(env, ids[..|ids| - 1]);
      assert ids == ids[..|ids| - 1] + [ids[|ids| - 1]];
    }
  }

  /** Mark the rows whose thread outlived its budget; only these are reported. */
  method MarkWedged(store: StateStore, env: Env, ids: seq<string>) returns (docs: seq<StepDoc>)
    requires Distinct(ids) && forall id | id in ids :: id in store.rows && SafeId(id)
    requires forall id | id in ids && env.pace(id) == Stuck :: store.rows[id].lifecycle == Running
    modifies store
    ensures AllTold(env, store.rows, docs) && DocIds(docs) == StuckOf(env, ids)
    ensures store.rows == AfterWedge(old(store.rows), env, ids)
    ensures forall i | 0 <= i < |docs| :: docs[i].id in ids && docs[i] == StepDoc(docs[i].id, Blocked, Some("runner-wedged"), false)
  {
    hide AfterWedge;
    hide Settled;
    hide Told;
    NoThreads(store.rows, env);
    docs := [];
    for i := 0 to |ids|
      invariant store.rows == AfterWedge(old(store.rows), env, ids[..i])
      invariant forall k | 0 <= k < |docs| ::
        docs[k].id in ids && docs[k] == StepDoc(docs[k].id, Blocked, Some("runner-wedged"), false)
      invariant DocIds(docs) == StuckOf(env, ids[..i])
      invariant forall id | id in DocIds(docs) :: id in ids[..i]
      invariant AllTold(env, store.rows, docs)
    {
      WedgeStep(old(store.rows), env, ids, i);
      assert ids[..i + 1][..i] == ids[..i];
      if env.pace(ids[i]) == Stuck {
        ghost var before := store.rows;
        var doc := BlockWedged(store, env, ids[i]);
        ToldMore(env, before, store.rows, docs, [doc], ids[i]);
        DocIdsAppend(docs, [doc]);
        docs := docs + [doc];
      }
    }
    assert ids[..|ids|] == ids;
  }

  // ---------- what a drain does to the store ----------

  function Claimed(env: Env, row: Row, epoch: Option<string>, batched: bool): Row {
    if batched then ClaimedSpecific(row, Some(env.pid), epoch) else ClaimedNext(row, Some(env.pid), epoch)
  }

  /** The final row of a run this drain claimed and finished. */
  function FinalRow(env: Env, id: string, row: Row, epoch: Option<string>, batched: bool): Row {
    Settled(env, id, Claimed(env, row, epoch, batched), batched && env.pace(id) == Stuck)
  }

  /**
   From `start` to `now` a drain has claimed `mine`, all pending at the start, and settled every one
   of them, except `crashed`, which an exception left behind; rivals may have moved other pending or
   running rows; nothing else changed.
   */
  ghost predicate Effect(
    env: Env, epoch: Option<string>, batched: bool, start: Rows, now: Rows, mine: set<string>, crashed: set<string>)
  {
    && now.Keys == start.Keys
    && mine + crashed <= PendingIds(start) && mine !! crashed
    && (forall id | id in mine :: now[id] == FinalRow(env, id, start[id], epoch, batched))
    && (forall id | id in crashed :: now[id] == Meanwhile(env, id, Claimed(env, start[id], epoch, batched)))
    && (forall id | id in start && id !in mine && id !in crashed :: now[id] == start[id] || RivalMoved(start[id], now[id]))
    && (NoRivals(env) ==> forall id | id in start && id !in mine && id !in crashed :: now[id] == start[id])
  }

  lemma PendingShrinks(env: Env, epoch: Option<string>, batched: bool, start: Rows, now: Rows, mine: set<string>)
    requires Effect(env, epoch, batched, start, now, mine, {})
    ensures forall id | id in mine :: now[id].lifecycle !in {Pending, Running}
    ensures forall id | id in PendingIds(now) :: id in start && now[id] == start[id] && id !in mine
    ensures NoRivals(env) ==> PendingIds(now) == PendingIds(start) - mine
  {
    forall id | id in mine
      ensures now[id].lifecycle !in {Pending, Running}
    {
      SettledIsClosed(env, id, Claimed(env, start[id], epoch, batched), batched && env.pace(id) == Stuck);
    }
  }

  // ---------- the batched loop ----------

  /** The rows after one batch: rivals, claims, threads, wedge handling. */
  function AfterBatch(env: Env, epoch: Option<string>, rows: Rows, moves: map<string, Row>, ids: seq<string>): Rows {
    var contested := AfterRivals(rows, moves);
    var claimed := Won(contested, ids);
    AfterWedge(AfterThreads(ClaimedRows(contested, ids, Some(env.pid), epoch), env, claimed), env, claimed)
  }

  lemma BatchRow(env: Env, epoch: Option<string>, rows: Rows, moves: map<string, Row>, ids: seq<string>, id: string)
    requires id in rows
    ensures var contested, after := AfterRivals(rows, moves), AfterBatch(env, epoch, rows, moves, ids);
      && after.Keys == rows.Keys
      && (id in Won(contested, ids) ==> rows[id].lifecycle == Pending && after[id] == FinalRow(env, id, rows[id], epoch, true))
      && (id !in Won(contested, ids) ==> after[id] == rows[id] || RivalMoved(rows[id], after[id]))
      && (id !in Won(contested, ids) && id !in moves ==> after[id] == rows[id])
  {
  }

  lemma BatchEffectOnRow(
    env: Env, epoch: Option<string>, start: Rows, rows: Rows, mine: set<string>,
    moves: map<string, Row>, ids: seq<string>, id: string)
    requires Effect(env, epoch, true, start, rows, mine, {}) && id in start
    requires NoRivals(env) ==> moves == map[]
    ensures var won, after := Won(AfterRivals(rows, moves), ids), AfterBatch(env, epoch, rows, moves, ids);
      && after.Keys == start.Keys
      && (id in won ==> id !in mine && id in PendingIds(rows) && id in PendingIds(start))
      && (id in mine || id in won ==> after[id] == FinalRow(env, id, start[id], epoch, true))
      && (id !in mine && id !in won ==> after[id] == start[id] || RivalMoved(start[id], after[id]))
      && (id !in mine && id !in won && NoRivals(env) ==> after[id] == start[id])
  {
    PendingShrinks(env, epoch, true, start, rows, mine);
    BatchRow(env, epoch, rows, moves, ids, id);
    assert id in PendingIds(rows) <==> rows[id].lifecycle == Pending;
    assert id in mine ==> rows[id].lifecycle !in {Pending, Running};
  }

  lemma BatchEffect(
    env: Env, epoch: Option<string>, start: Rows, rows: Rows, mine: set<string>,
    moves: map<string, Row>, ids: seq<string>)
    requires Effect(env, epoch, true, start, rows, mine, {})
    requires NoRivals(env) ==> moves == map[]
    ensures var won := Members(Won(AfterRivals(rows, moves), ids));
      && won !! mine && won <= PendingIds(rows)
      && Effect(env, epoch, true, start, AfterBatch(env, epoch, rows, moves, ids), mine + won, {})
  {
    var claimed := Won(AfterRivals(rows, moves), ids);
    var after := AfterBatch(env, epoch, rows, moves, ids);
    assert after.Keys == rows.Keys;
    forall id | id in start
      ensures id in claimed ==> id !in mine && id in PendingIds(rows) && id in PendingIds(start)
      ensures id in mine || id in claimed ==> after[id] == FinalRow(env, id, start[id], epoch, true)
      ensures id !in mine && id !in claimed ==> after[id] == start[id] || RivalMoved(start[id], after[id])
      ensures id !in mine && id !in claimed && NoRivals(env) ==> after[id] == start[id]
    {
      BatchEffectOnRow(env, epoch, start, rows, mine, moves, ids, id);
    }
  }

  lemma BatchShrinks(env: Env, epoch: Option<string>, rows: Rows, moves: map<string, Row>, ids: seq<string>)
    ensures PendingIds(AfterBatch(env, epoch, rows, moves, ids)) <= PendingIds(rows) - Members(Won(AfterRivals(rows, moves), ids))
  {
    forall id | id in PendingIds(AfterBatch(env, epoch, rows, moves, ids))
      ensures id in PendingIds(rows) && id !in Won(AfterRivals(rows, moves), ids)
    {
      BatchRow(env, epoch, rows, moves, ids, id);
      if id in Won(AfterRivals(rows, moves), ids) {
        SettledIsClosed(env, id, Claimed(env, rows[id], epoch, true), env.pace(id) == Stuck);
      }
    }
  }

  /** Without rivals every selected run is won. */
  lemma {:induction false} AllWon(rows: Rows, ids: seq<string>)
    requires forall id | id in ids :: id in PendingIds(rows)
    ensures Won(rows, ids) == ids
  {
    if ids != [] {
      AllWon(rows, ids[..|ids| - 1]);
    }
  }

  lemma {:induction false} WonDistinct(rows: Rows, ids: seq<string>)
    requires Distinct(ids)
    ensures Distinct(Won(rows, ids))
  {
    if ids != [] {
      var front, last := ids[..|ids| - 1], ids[|ids| - 1];
      WonDistinct(rows, front);
      assert last !in front;
    }
  }

  function Flatten(batches: seq<seq<string>>): seq<string> {
    if batches == [] then [] else Flatten(batches[..|batches| - 1]) + batches[|batches| - 1]
  }

  /** The fixed scopes of a drain: repositories and evidence never change. */
  function SetupOf(env: Env, start: Rows, limit: nat): Setup {
    Setup(
      id => EntryOf(env.catalog, if id in start then start[id].repository else "", id),
      limit,
      Some(env.pid))
  }

  lemma {:induction false} GreedyIds(queue: seq<Entry>, limit: nat)
    requires Distinct(Ids(queue))
    ensures Distinct(Ids(Greedy(queue, limit)))
    ensures forall id | id in Ids(Greedy(queue, limit)) :: id in Ids(queue)
  {
    if queue != [] {
      var front, last := queue[..|queue| - 1], queue[|queue| - 1];
      assert forall k | 0 <= k < |front| :: Ids(front)[k] == Ids(queue)[k];
      assert Ids(queue)[|front|] == last.id;
      GreedyIds(front, limit);
      assert last.id !in Ids(front);
      assert Ids(Greedy(front, limit) + [last]) == Ids(Greedy(front, limit)) + [last.id];
    }
  }

  /** What a selection offers: pending runs, once each, and something whenever anything is pending. */
  lemma SelectionOffers(catalog: Catalog, rows: Rows, order: seq<string>, limit: nat)
    requires IsDrainOrder(rows, order) && limit >= 1
    ensures var ids := Ids(Greedy(Entries(catalog, rows, order), limit));
      && Distinct(ids) && (forall id | id in ids :: id in PendingIds(rows)) && (ids == [] ==> PendingIds(rows) == {})
  {
    var queue := Entries(catalog, rows, order);
    Enumerates(order, PendingIds(rows));
    assert Ids(queue) == order;
    GreedyIds(queue, limit);
    if order != [] {
      HeadIsChosen(queue, limit);
    } else {
      assert PendingIds(rows) == {};
    }
  }

  /** A selection over untouched pending rows is a batch of the backlog. */
  lemma SelectionIsBatch(env: Env, start: Rows, rows: Rows, order: seq<string>, limit: nat)
    requires IsDrainOrder(rows, order)
    requires forall id | id in PendingIds(rows) :: id in start && rows[id] == start[id]
    ensures IsBatch(SetupOf(env, start, limit), start, PendingIds(rows), Ids(Greedy(Entries(env.catalog, rows, order), limit)))
  {
    Enumerates(order, PendingIds(rows));
    assert forall i | 0 <= i < |order| :: order[i] in PendingIds(rows);
    assert forall id | id in order :: id in start;
    assert Sorted(start, order);
    assert Queue(SetupOf(env, start, limit), order) == Entries(env.catalog, rows, order);
  }

  lemma {:induction false} FlattenRest(batches: seq<seq<string>>)
    requires batches != []
    ensures Flatten(batches) == batches[0] + Flatten(batches[1..])
  {
    if |batches| > 1 {
      FlattenRest(batches[..|batches| - 1]);
      assert batches[..|batches| - 1][1..] == batches[1..][..|batches| - 2];
      assert batches[1..][|batches| - 2] == batches[|batches| - 1];
    } else {
      assert batches[1..] == [] && batches[..0] == [];
    }
  }

  lemma RestPending(pending: set<string>, batches: seq<seq<string>>)
    requires batches != []
    ensures pending - Members(batches[0]) - Members(Flatten(batches[1..])) == pending - Members(Flatten(batches))
  {
    FlattenRest(batches);
  }

  lemma {:induction false} BatchesAppend(
    setup: Setup, rows: Rows, pending: set<string>, batches: seq<seq<string>>, next: seq<string>)
    requires Batches(setup, rows, pending, batches)
    requires pending - Members(Flatten(batches)) != {}
    requires IsBatch(setup, rows, pending - Members(Flatten(batches)), next)
    ensures Batches(setup, rows, pending, batches + [next])
    decreases |batches|
  {
    if batches == [] {
      assert pending - Members(Flatten(batches)) == pending;
      assert (batches + [next])[1..] == [];
    } else {
      RestPending(pending, batches);
      var rest := pending - Members(batches[0]);
      BatchesAppend(setup, rows, rest, batches[1..], next);
      assert (batches + [next])[1..] == batches[1..] + [next];
    }
  }

  /**
   `raised` is the run whose execution raised, `unread` says that a re-read of the provider did. An
   exception leaves no exit code; 3 stands in for it.
   */
  datatype Report = Report(raised: Option<string>, unread: bool, code: nat, processed: seq<StepDoc>, batches: seq<seq<string>>)

  /** `_finish`: exit code 3 replaces 0 when a reported step is blocked. */
  function ExitCode(code: nat, processed: seq<StepDoc>): nat {
    if code == 0 && exists i | 0 <= i < |processed| :: processed[i].lifecycle == Blocked then 3 else code
  }

  /** One batch: what was left of a selection was claimed and its threads run. */
  ghost predicate Took(
    env: Env, limit: nat, epoch: Option<string>, before: Rows, after: Rows, n: nat, claimed: seq<string>)
  {
    exists ids: seq<string> ::
      && IsSelection(before, env.catalog, limit, ids)
      && claimed == Won(AfterRivals(before, env.rivals(n)), ids)
      && after == AfterBatch(env, epoch, before, env.rivals(n), ids)
  }

  /** The drain goes on only after a batch whose threads all joined in time. */
  predicate Continues(env: Env, batches: seq<seq<string>>) {
    batches == [] || AllOnTime(env, batches[|batches| - 1])
  }

  /** The batches in order: each was taken from what the one before it left, and only the last may be wedged. */
  ghost predicate Worked(
    env: Env, limit: nat, epoch: Option<string>, start: Rows, now: Rows, batches: seq<seq<string>>)
    decreases |batches|
  {
    if batches == [] then now == start
    else
      var n := |batches| - 1;
      && Continues(env, batches[..n]) && batches[n] != []
      && exists before: Rows ::
        Worked(env, limit, epoch, start, before, batches[..n]) && Took(env, limit, epoch, before, now, n, batches[n])
  }

  /** An iteration adds one batch, or none. */
  ghost predicate TookNext(
    env: Env, limit: nat, epoch: Option<string>, before: Rows, after: Rows, batches: seq<seq<string>>, next: seq<seq<string>>)
  {
    || next == batches
    || (|next| == |batches| + 1 && next[..|batches|] == batches && next[|batches|] != []
      && Took(env, limit, epoch, before, after, |batches|, next[|batches|]))
  }

  lemma TookOne(
    env: Env, limit: nat, epoch: Option<string>, before: Rows, after: Rows, batches: seq<seq<string>>, claimed: seq<string>)
    requires Took(env, limit, epoch, before, after, |batches|, claimed) && claimed != []
    ensures TookNext(env, limit, epoch, before, after, batches, batches + [claimed])
  {
    assert (batches + [claimed])[..|batches|] == batches;
  }

  lemma WorkedStep(
    env: Env, limit: nat, epoch: Option<string>, start: Rows, before: Rows, after: Rows, batches: seq<seq<string>>,
    next: seq<seq<string>>)
    requires Worked(env, limit, epoch, start, before, batches) && Continues(env, batches)
    requires TookNext(env, limit, epoch, before, after, batches, next)
    ensures |next| > |batches| ==> Worked(env, limit, epoch, start, after, next)
    ensures Account(env, limit, epoch, start, next)
  {
  }

  /** The batches reported are those worked. */
  ghost predicate Account(env: Env, limit: nat, epoch: Option<string>, start: Rows, batches: seq<seq<string>>) {
    exists now: Rows :: Worked(env, limit, epoch, start, now, batches)
  }

  /** After these batches the drain re-reads the provider, because all threads of the last joined in time. */
  predicate Rereads(env: Env, once: bool, batches: seq<seq<string>>) {
    !once && batches != [] && Continues(env, batches)
  }

  /** The runs reported: all of every batch, but of a wedged one only those whose thread never ended. */
  function Reported(env: Env, batches: seq<seq<string>>): seq<string> {
    if Continues(env, batches) then Flatten(batches)
    else Flatten(batches[..|batches| - 1]) + StuckOf(env, batches[|batches| - 1])
  }

  /** What holds when the loop ends. */
  ghost predicate BatchedEnd(
    env: Env, limit: nat, once: bool, epoch: Option<string>, start: Rows, now: Rows, r: Report)
  {
    && r.raised == None && r.code in {0, 3, 5}
    && Distinct(Flatten(r.batches))
    && Effect(env, epoch, true, start, now, Members(Flatten(r.batches)), {})
    && (forall id | id in Flatten(r.batches) ::
      id in now && now[id].lifecycle in {ReadyForReview, Blocked, Cancelled} && now[id].epoch == epoch)
    && (forall b | 1 <= b < |r.batches| :: env.fingerprint(b) == Read(epoch))
    && (r.unread <==> Rereads(env, once, r.batches) && env.fingerprint(|r.batches|) == ReadRaised)
    && (r.code == 5 <==> Rereads(env, once, r.batches) && env.fingerprint(|r.batches|) !in {ReadRaised, Read(epoch)})
    && (r.code == 0 ==> forall i | 0 <= i < |r.processed| :: r.processed[i].lifecycle != Blocked)
    && DocIds(r.processed) == Reported(env, r.batches)
    && (NoWedge(env) ==> DocIds(r.processed) == Flatten(r.batches))
    && (once ==> |Flatten(r.batches)| <= 1)
    && (NoRivals(env) && !once ==> Batches(SetupOf(env, start, limit), start, PendingIds(start), r.batches))
    && (NoRivals(env) && NoWedge(env) && !once && r.code != 5 && !r.unread ==> PendingIds(now) == {})
    && AllTold(env, now, r.processed)
    && (NoWedge(env) && r.code != 5 && !r.unread ==>
      (r.code == 3 <==> exists i | 0 <= i < |r.processed| :: EndsBadly(env, now, r.processed[i])))
  }

  /** Every batch may run at once: within the limit, pairwise without conflict, an exclusive run alone. */
  ghost predicate AllCompatible(setup: Setup, batches: seq<seq<string>>) {
    forall b | 0 <= b < |batches| :: Compatible(Queue(setup, batches[b]), setup.limit)
  }

  /** The same in terms of the evidence each run has stored. */
  ghost predicate AllSafe(catalog: Catalog, start: Rows, batches: seq<seq<string>>) {
    forall b | 0 <= b < |batches| :: SafeTogether(catalog, RepositoryIn(start), batches[b])
  }

  /** What every batched drain guarantees, whatever the oracles answer. */
  ghost predicate BatchedPost(
    env: Env, limit: nat, once: bool, epoch: Option<string>, start: Rows, now: Rows, r: Report)
  {
    && BatchedEnd(env, limit, once, epoch, start, now, r)
    && AllCompatible(SetupOf(env, start, limit), r.batches)
    && AllSafe(env.catalog, start, r.batches)
  }

  /** Where a batched drain stands after the batches it has completed. */
  ghost predicate Progress(
    env: Env, limit: nat, once: bool, epoch: Option<string>, start: Rows, now: Rows, batches: seq<seq<string>>)
  {
    && Effect(env, epoch, true, start, now, Members(Flatten(batches)), {})
    && Distinct(Flatten(batches))
    && (forall b | 1 <= b < |batches| :: env.fingerprint(b) == Read(epoch))
    && (once ==> |Flatten(batches)| <= 1)
    && (NoRivals(env) && !once ==> Batches(SetupOf(env, start, limit), start, PendingIds(start), batches))
  }

  /** Adding a batch to the backlog account, when there are no rivals. */
  lemma BacklogStep(
    env: Env, limit: nat, epoch: Option<string>, start: Rows, before: Rows, batches: seq<seq<string>>, ids: seq<string>)
    requires Progress(env, limit, false, epoch, start, before, batches) && NoRivals(env)
    requires ids != [] && ids[0] in PendingIds(before)
    requires IsBatch(SetupOf(env, start, limit), start, PendingIds(before), ids)
    ensures Batches(SetupOf(env, start, limit), start, PendingIds(start), batches + [ids])
  {
    PendingShrinks(env, epoch, true, start, before, Members(Flatten(batches)));
    BatchesAppend(SetupOf(env, start, limit), start, PendingIds(start), batches, ids);
  }

  /** A batch of which nothing was won: only rivals moved rows. */
  lemma ProgressNothing(
    env: Env, limit: nat, once: bool, epoch: Option<string>, start: Rows, before: Rows, batches: seq<seq<string>>,
    ids: seq<string>)
    requires Progress(env, limit, once, epoch, start, before, batches)
    requires Won(AfterRivals(before, env.rivals(|batches|)), ids) == []
    ensures Progress(env, limit, once, epoch, start, AfterBatch(env, epoch, before, env.rivals(|batches|), ids), batches)
  {
    var mine := Members(Flatten(batches));
    BatchEffect(env, epoch, start, before, mine, env.rivals(|batches|), ids);
    assert Members([]) == {};
    assert mine + Members([]) == mine;
  }

  /** The store after a batch of which something was won. */
  lemma BatchAdds(
    env: Env, epoch: Option<string>, start: Rows, before: Rows, batches: seq<seq<string>>,
    moves: map<string, Row>, ids: seq<string>, claimed: seq<string>)
    requires Effect(env, epoch, true, start, before, Members(Flatten(batches)), {}) && Distinct(Flatten(batches))
    requires NoRivals(env) ==> moves == map[]
    requires claimed == Won(AfterRivals(before, moves), ids) && Distinct(claimed) && claimed != []
    ensures Effect(env, epoch, true, start, AfterBatch(env, epoch, before, moves, ids), Members(Flatten(batches + [claimed])), {})
    ensures Distinct(Flatten(batches + [claimed]))
    ensures |PendingIds(AfterBatch(env, epoch, before, moves, ids))| < |PendingIds(before)|
  {
    BatchEffect(env, epoch, start, before, Members(Flatten(batches)), moves, ids);
    FlattenAppend(batches, claimed);
    BatchShrinks(env, epoch, before, moves, ids);
    ShrinksStrictly(before, AfterBatch(env, epoch, before, moves, ids), claimed);
  }

  /** A batch of which something was won is added, and fewer runs are pending. */
  lemma ProgressStep(
    env: Env, limit: nat, once: bool, epoch: Option<string>, start: Rows, before: Rows, batches: seq<seq<string>>,
    ids: seq<string>, claimed: seq<string>)
    requires Progress(env, limit, once, epoch, start, before, batches)
    requires batches != [] ==> env.fingerprint(|batches|) == Read(epoch)
    requires once ==> batches == [] && |ids| <= 1
    requires claimed == Won(AfterRivals(before, env.rivals(|batches|)), ids) && Distinct(claimed) && claimed != []
    requires NoRivals(env) && !once ==> Batches(SetupOf(env, start, limit), start, PendingIds(start), batches + [claimed])
    ensures var after := AfterBatch(env, epoch, before, env.rivals(|batches|), ids);
      && Progress(env, limit, once, epoch, start, after, batches + [claimed])
      && |PendingIds(after)| < |PendingIds(before)|
  {
    BatchAdds(env, epoch, start, before, batches, env.rivals(|batches|), ids, claimed);
    var moves, extended := env.rivals(|batches|), batches + [claimed];
    forall b | 1 <= b < |extended|
      ensures env.fingerprint(b) == Read(epoch)
    {
      assert b < |batches| || b == |batches|;
    }
    if once {
      FirstBatchShort(AfterRivals(before, moves), batches, ids, claimed);
    }
  }

  lemma FirstBatchShort(rows: Rows, batches: seq<seq<string>>, ids: seq<string>, claimed: seq<string>)
    requires batches == [] && |ids| <= 1 && claimed == Won(rows, ids)
    ensures |Flatten(batches + [claimed])| <= 1
  {
    WonShort(rows, ids);
    FlattenAppend(batches, claimed);
  }

  lemma WonShort(rows: Rows, ids: seq<string>)
    ensures |Won(rows, ids)| <= |ids|
  {
    if ids != [] {
      WonShort(rows, ids[..|ids| - 1]);
    }
  }

  lemma StopsWell(
    env: Env, limit: nat, once: bool, epoch: Option<string>, start: Rows, now: Rows, r: Report)
    requires Progress(env, limit, once, epoch, start, now, r.batches)
    requires r.raised == None && r.code in {0, 3, 5}
    requires r.unread <==> Rereads(env, once, r.batches) && env.fingerprint(|r.batches|) == ReadRaised
    requires r.code == 5 <==> Rereads(env, once, r.batches) && env.fingerprint(|r.batches|) !in {ReadRaised, Read(epoch)}
    requires r.code == 0 ==> forall i | 0 <= i < |r.processed| :: r.processed[i].lifecycle != Blocked
    requires NoWedge(env) ==> DocIds(r.processed) == Flatten(r.batches)
    requires DocIds(r.processed) == Reported(env, r.batches)
    requires NoRivals(env) && NoWedge(env) && !once && r.code != 5 && !r.unread ==> PendingIds(now) == {}
    requires AllTold(env, now, r.processed)
    requires NoWedge(env) && r.code != 5 && !r.unread ==> r.code == ExitCode(0, r.processed)
    ensures BatchedEnd(env, limit, once, epoch, start, now, r)
  {
    ExitCodeTells(env, now, r.processed);
    forall id | id in Flatten(r.batches)
      ensures id in now && now[id].lifecycle in {ReadyForReview, Blocked, Cancelled} && now[id].epoch == epoch
    {
      assert id in Members(Flatten(r.batches));
      SettledIsClosed(env, id, Claimed(env, start[id], epoch, true), env.pace(id) == Stuck);
    }
  }

  lemma ProgressPending(
    env: Env, limit: nat, once: bool, epoch: Option<string>, start: Rows, now: Rows, batches: seq<seq<string>>)
    requires Progress(env, limit, once, epoch, start, now, batches) && SafeIds(start)
    ensures forall id | id in PendingIds(now) :: id in start && now[id] == start[id]
    ensures SafeIds(now)
  {
    PendingShrinks(env, epoch, true, start, now, Members(Flatten(batches)));
  }

  /** Why the loop ends. */
  datatype Halt = Exhausted | Wedged | ProviderChanged | ProviderUnread

  /** One iteration; `stop` says why it ends the drain, if it does. */
  method Round(store: StateStore, env: Env, limit: nat, once: bool, epoch: Option<string>, ghost start: Rows, batches: seq<seq<string>>)
    returns (stop: Option<Halt>, claimed: seq<string>, next: seq<seq<string>>, docs: seq<StepDoc>)
    requires limit >= 1 && SafeIds(start) && (once ==> batches == [])
    requires Progress(env, limit, once, epoch, start, store.rows, batches)
    modifies store
    ensures next == if claimed == [] then batches else batches + [claimed]
    ensures Progress(env, limit, once, epoch, start, store.rows, next)
    ensures !once ==> TookNext(env, limit, epoch, old(store.rows), store.rows, batches, next)
    ensures claimed == [] ==> stop.Some? && docs == []
    ensures claimed != [] ==>
      && |PendingIds(store.rows)| < |PendingIds(old(store.rows))|
      && stop == (if AllOnTime(env, claimed) then None else Some(Wedged))
    ensures claimed == [] && batches != [] ==>
      stop == Some(
        if env.fingerprint(|batches|) == ReadRaised then ProviderUnread
        else if env.fingerprint(|batches|) != Read(epoch) then ProviderChanged else Exhausted)
    ensures claimed == [] && batches == [] ==> stop == Some(Exhausted)
    ensures stop == Some(Exhausted) && NoRivals(env) && !once ==> PendingIds(store.rows) == {}
    ensures stop == Some(Wedged) ==> !NoWedge(env)
    ensures DocIds(docs) == if stop == Some(Wedged) then StuckOf(env, claimed) else claimed
    ensures AllTold(env, store.rows, docs)
  {
    stop, claimed, next, docs := None, [], batches, [];
    if batches != [] {
      var current := env.fingerprint(|batches|);
      if current == ReadRaised {
        stop := Some(ProviderUnread);
        return;
      }
      if current != Read(epoch) {
        stop := Some(ProviderChanged);
        return;
      }
    }
    ProgressPending(env, limit, once, epoch, start, store.rows, batches);
    var ids := Offer(store, env, limit, once);
    if ids == [] {
      stop := Some(Exhausted);
      return;
    }
    ghost var before := store.rows;
    stop, claimed, docs := TakeBatch(store, env, limit, once, epoch, start, batches, ids);
    if claimed != [] {
      next := batches + [claimed];
      if !once {
        TookOne(env, limit, epoch, before, store.rows, batches, claimed);
      }
    }
  }

  /** The batch that was offered, from the claims to the wedge handling. */
  method TakeBatch(
    store: StateStore, env: Env, limit: nat, once: bool, epoch: Option<string>, ghost start: Rows, batches: seq<seq<string>>,
    ids: seq<string>)
    returns (stop: Option<Halt>, claimed: seq<string>, docs: seq<StepDoc>)
    requires Progress(env, limit, once, epoch, start, store.rows, batches) && SafeIds(store.rows)
    requires batches != [] ==> env.fingerprint(|batches|) == Read(epoch)
    requires once ==> batches == [] && |ids| <= 1
    requires ids != [] && Distinct(ids) && forall id | id in ids :: id in PendingIds(store.rows)
    requires !once ==> IsSelection(store.rows, env.catalog, limit, ids)
    modifies store
    ensures !once ==> Took(env, limit, epoch, old(store.rows), store.rows, |batches|, claimed)
    ensures claimed == [] ==>
      && stop == Some(Exhausted) && docs == [] && !NoRivals(env)
      && Progress(env, limit, once, epoch, start, store.rows, batches)
    ensures claimed != [] ==>
      && Progress(env, limit, once, epoch, start, store.rows, batches + [claimed])
      && |PendingIds(store.rows)| < |PendingIds(old(store.rows))|
      && stop == (if AllOnTime(env, claimed) then None else Some(Wedged))
    ensures DocIds(docs) == if stop == Some(Wedged) then StuckOf(env, claimed) else claimed
    ensures stop == Some(Wedged) ==> !NoWedge(env)
    ensures AllTold(env, store.rows, docs)
  {
    ghost var before := store.rows;
    var wedged;
    claimed, docs, wedged := RunBatch(store, env, epoch, env.rivals(|batches|), ids);
    if !once {
      SelectionOfProgress(env, limit, epoch, start, before, batches, ids);
    }
    BatchOutcome(env, limit, once, epoch, start, before, batches, ids, claimed);
    stop := if wedged then Some(Wedged) else None;
    if claimed == [] {
      stop, docs := Some(Exhausted), [];
    }
  }

  /** What is selected among untouched pending rows is a batch of the backlog. */
  lemma SelectionOfProgress(
    env: Env, limit: nat, epoch: Option<string>, start: Rows, rows: Rows, batches: seq<seq<string>>, ids: seq<string>)
    requires Effect(env, epoch, true, start, rows, Members(Flatten(batches)), {}) && IsSelection(rows, env.catalog, limit, ids)
    ensures IsBatch(SetupOf(env, start, limit), start, PendingIds(rows), ids)
  {
    PendingShrinks(env, epoch, true, start, rows, Members(Flatten(batches)));
    var order: seq<string> :| IsDrainOrder(rows, order) && ids == Ids(Greedy(Entries(env.catalog, rows, order), limit));
    SelectionIsBatch(env, start, rows, order, limit);
  }

  /** The account after a batch; without rivals everything offered is won. */
  lemma BatchOutcome(
    env: Env, limit: nat, once: bool, epoch: Option<string>, start: Rows, before: Rows, batches: seq<seq<string>>,
    ids: seq<string>, claimed: seq<string>)
    requires Progress(env, limit, once, epoch, start, before, batches)
    requires batches != [] ==> env.fingerprint(|batches|) == Read(epoch)
    requires once ==> batches == [] && |ids| <= 1
    requires ids != [] && forall id | id in ids :: id in PendingIds(before)
    requires !once ==> IsBatch(SetupOf(env, start, limit), start, PendingIds(before), ids)
    requires claimed == Won(AfterRivals(before, env.rivals(|batches|)), ids) && Distinct(claimed)
    ensures var after := AfterBatch(env, epoch, before, env.rivals(|batches|), ids);
      && (claimed == [] ==> !NoRivals(env) && Progress(env, limit, once, epoch, start, after, batches))
      && (claimed != [] ==>
        Progress(env, limit, once, epoch, start, after, batches + [claimed]) && |PendingIds(after)| < |PendingIds(before)|)
  {
    if NoRivals(env) {
      AllWonWithoutRivals(before, env.rivals(|batches|), ids);
    }
    if claimed == [] {
      ProgressNothing(env, limit, once, epoch, start, before, batches, ids);
    } else {
      if NoRivals(env) && !once {
        assert ids[0] in ids;
        BacklogStep(env, limit, epoch, start, before, batches, ids);
      }
      ProgressStep(env, limit, once, epoch, start, before, batches, ids, claimed);
    }
  }

  /** The report of a drain that ends here. */
  function Closing(stop: Option<Halt>, processed: seq<StepDoc>, batches: seq<seq<string>>): Report {
    Report(
      None,
      stop == Some(ProviderUnread),
      match stop {
        case Some(ProviderChanged) => 5
        case Some(Wedged) | Some(ProviderUnread) => 3
        case _ => ExitCode(0, processed)
      },
      processed,
      batches)
  }

  /** One iteration with its bookkeeping; `end` is the report if the drain ends here. */
  method Iterate(
    store: StateStore, env: Env, limit: nat, once: bool, epoch: Option<string>, ghost start: Rows,
    doneBatches: seq<seq<string>>, doneSteps: seq<StepDoc>)
    returns (end: Option<Report>, batches: seq<seq<string>>, processed: seq<StepDoc>)
    requires limit >= 1 && SafeIds(start) && (once ==> doneBatches == []) && Continues(env, doneBatches)
    requires Progress(env, limit, once, epoch, start, store.rows, doneBatches) && DocIds(doneSteps) == Flatten(doneBatches)
    requires AllTold(env, store.rows, doneSteps)
    modifies store
    ensures AllTold(env, store.rows, processed)
    ensures !once ==> TookNext(env, limit, epoch, old(store.rows), store.rows, doneBatches, batches)
    ensures end.None? ==> |batches| > |doneBatches| && Continues(env, batches)
    ensures end.None? ==>
      && !once && DocIds(processed) == Flatten(batches)
      && Progress(env, limit, once, epoch, start, store.rows, batches)
      && |PendingIds(store.rows)| < |PendingIds(old(store.rows))|
    ensures end.Some? ==> end.value.batches == batches && BatchedEnd(env, limit, once, epoch, start, store.rows, end.value)
  {
    hide Progress;
    hide BatchedEnd;
    hide TookNext;
    hide AllTold;
    hide Flatten;
    ghost var before := store.rows;
    var stop, claimed, docs;
    stop, claimed, batches, docs := Round(store, env, limit, once, epoch, start, doneBatches);
    FlattenAppend(doneBatches, claimed);
    DocIdsAppend(doneSteps, docs);
    ToldStays(env, limit, once, epoch, start, before, store.rows, doneBatches, batches, doneSteps);
    ToldAppend(env, store.rows, doneSteps, docs);
    processed := doneSteps + docs;
    end := None;
    if stop.Some? || once {
      end := Some(Closing(stop, processed, batches));
      if claimed == [] {
        ClosesIdle(env, limit, once, epoch, start, store.rows, doneBatches, stop, processed);
      } else {
        ClosesWorked(env, limit, once, epoch, start, store.rows, doneBatches, claimed, stop, processed);
      }
    }
  }

  /** What later batches do leaves the rows of earlier ones, and so what was told of them. */
  lemma ToldStays(
    env: Env, limit: nat, once: bool, epoch: Option<string>, start: Rows, before: Rows, after: Rows,
    batches: seq<seq<string>>, next: seq<seq<string>>, docs: seq<StepDoc>)
    requires Progress(env, limit, once, epoch, start, before, batches)
    requires Progress(env, limit, once, epoch, start, after, next)
    requires DocIds(docs) == Flatten(batches) && Members(Flatten(batches)) <= Members(Flatten(next))
    requires AllTold(env, before, docs)
    ensures AllTold(env, after, docs)
  {
    forall i | 0 <= i < |docs|
      ensures docs[i].id in after && after[docs[i].id] == before[docs[i].id]
    {
      assert DocIds(docs)[i] == docs[i].id && docs[i].id in Members(Flatten(batches)) && docs[i].id in Members(Flatten(next));
    }
  }

  lemma ReportedIs(env: Env, done: seq<seq<string>>, claimed: seq<string>)
    requires Continues(env, done)
    ensures Reported(env, done) == Flatten(done)
    ensures Reported(env, done + [claimed])
         == if AllOnTime(env, claimed) then Flatten(done + [claimed]) else Flatten(done) + StuckOf(env, claimed)
  {
    assert (done + [claimed])[..|done|] == done;
  }

  lemma IdleReport(
    env: Env, once: bool, epoch: Option<string>, now: Rows, done: seq<seq<string>>, stop: Option<Halt>, processed: seq<StepDoc>)
    requires (once ==> done == []) && Continues(env, done) && AllTold(env, now, processed)
    requires stop == Some(
      if done == [] then Exhausted
      else if env.fingerprint(|done|) == ReadRaised then ProviderUnread
      else if env.fingerprint(|done|) != Read(epoch) then ProviderChanged else Exhausted)
    ensures var r := Closing(stop, processed, done);
      && r.raised == None && r.code in {0, 3, 5} && r.batches == done && r.processed == processed
      && (r.unread <==> Rereads(env, once, done) && env.fingerprint(|done|) == ReadRaised)
      && (r.code == 5 <==> Rereads(env, once, done) && env.fingerprint(|done|) !in {ReadRaised, Read(epoch)})
      && (r.code == 0 ==> forall i | 0 <= i < |processed| :: processed[i].lifecycle != Blocked)
      && (r.code != 5 && !r.unread ==> r.code == ExitCode(0, processed) && stop == Some(Exhausted))
  {
    ExitCodeTells(env, now, processed);
  }

  /** The report fits the reason for which the loop ends, when nothing was claimed last. */
  lemma ClosesIdle(
    env: Env, limit: nat, once: bool, epoch: Option<string>, start: Rows, now: Rows, done: seq<seq<string>>,
    stop: Option<Halt>, processed: seq<StepDoc>)
    requires (once ==> done == []) && Continues(env, done)
    requires Progress(env, limit, once, epoch, start, now, done) && DocIds(processed) == Flatten(done)
    requires stop == Some(
      if done == [] then Exhausted
      else if env.fingerprint(|done|) == ReadRaised then ProviderUnread
      else if env.fingerprint(|done|) != Read(epoch) then ProviderChanged else Exhausted)
    requires stop == Some(Exhausted) && NoRivals(env) && !once ==> PendingIds(now) == {}
    requires AllTold(env, now, processed)
    ensures BatchedEnd(env, limit, once, epoch, start, now, Closing(stop, processed, done))
  {
    ReportedIs(env, done, []);
    hide *;
    IdleReport(env, once, epoch, now, done, stop, processed);
    StopsWell(env, limit, once, epoch, start, now, Closing(stop, processed, done));
  }

  /** And when a batch was claimed last, which was wedged or asked for alone. */
  lemma ClosesWorked(
    env: Env, limit: nat, once: bool, epoch: Option<string>, start: Rows, now: Rows, done: seq<seq<string>>,
    claimed: seq<string>, stop: Option<Halt>, processed: seq<StepDoc>)
    requires Continues(env, done) && (stop.Some? || once)
    requires Progress(env, limit, once, epoch, start, now, done + [claimed])
    requires stop == (if AllOnTime(env, claimed) then None else Some(Wedged)) && (stop.Some? ==> !NoWedge(env))
    requires DocIds(processed) == if stop.Some? then Flatten(done) + StuckOf(env, claimed) else Flatten(done + [claimed])
    requires AllTold(env, now, processed)
    ensures BatchedEnd(env, limit, once, epoch, start, now, Closing(stop, processed, done + [claimed]))
  {
    ReportedIs(env, done, claimed);
    ExitCodeTells(env, now, processed);
    hide Reported;
    hide Progress;
    hide BatchedEnd;
    hide AllTold;
    hide AllOnTime;
    hide Flatten;
    hide StuckOf;
    StopsWell(env, limit, once, epoch, start, now, Closing(stop, processed, done + [claimed]));
  }

  lemma DocIdsAppend(a: seq<StepDoc>, b: seq<StepDoc>)
    ensures DocIds(a + b) == DocIds(a) + DocIds(b)
  {
  }

  lemma ProgressStart(env: Env, limit: nat, once: bool, epoch: Option<string>, start: Rows)
    ensures Progress(env, limit, once, epoch, start, start, [])
  {
    assert Members([]) == {};
  }

  /** The batched branch of `drain`. Termination: every iteration returns or claims pending runs. */
  method DrainBatched(store: StateStore, env: Env, limit: nat, once: bool, epoch: Option<string>) returns (r: Report)
    requires limit >= 1 && SafeIds(store.rows)
    modifies store
    ensures BatchedPost(env, limit, once, epoch, old(store.rows), store.rows, r)
    ensures !once ==> Account(env, limit, epoch, old(store.rows), r.batches)
  {
    var processed: seq<StepDoc>, batches: seq<seq<string>> := [], [];
    var end: Option<Report> := None;
    ghost var start := store.rows;
    ProgressStart(env, limit, once, epoch, start);
    while end.None?
      invariant end.None? ==>
        && Progress(env, limit, once, epoch, start, store.rows, batches) && DocIds(processed) == Flatten(batches)
        && (once ==> batches == []) && Continues(env, batches) && AllTold(env, store.rows, processed)
      invariant !once && end.None? ==> Worked(env, limit, epoch, start, store.rows, batches)
      invariant !once && end.Some? ==> Account(env, limit, epoch, start, batches)
      invariant end.Some? ==> end.value.batches == batches && BatchedEnd(env, limit, once, epoch, start, store.rows, end.value)
      decreases end.None?, |PendingIds(store.rows)|
    {
      ghost var before, done := store.rows, batches;
      end, batches, processed := Iterate(store, env, limit, once, epoch, start, batches, processed);
      if !once {
        WorkedStep(env, limit, epoch, start, before, store.rows, done, batches);
      }
    }
    r := end.value;
    BatchesCompatible(env, limit, once, epoch, start, r.batches);
  }

  // ---------- what may run at once ----------

  /** No batch changes what the queue knows of a run's repository. */
  lemma {:induction false} RepositoriesStay(
    env: Env, limit: nat, epoch: Option<string>, start: Rows, now: Rows, batches: seq<seq<string>>)
    requires Worked(env, limit, epoch, start, now, batches)
    ensures now.Keys == start.Keys && forall id | id in start :: now[id].repository == start[id].repository
    decreases |batches|
  {
    if batches != [] {
      var n := |batches| - 1;
      var before: Rows :|
        Worked(env, limit, epoch, start, before, batches[..n]) && Took(env, limit, epoch, before, now, n, batches[n]);
      RepositoriesStay(env, limit, epoch, start, before, batches[..n]);
      TookKeepsRepositories(env, limit, epoch, before, now, n, batches[n]);
    }
  }

  lemma BatchKeepsRepositories(env: Env, epoch: Option<string>, rows: Rows, moves: Rows, ids: seq<string>)
    ensures AfterBatch(env, epoch, rows, moves, ids).Keys == rows.Keys
    ensures forall id | id in rows :: AfterBatch(env, epoch, rows, moves, ids)[id].repository == rows[id].repository
  {
    forall id | id in rows
      ensures AfterBatch(env, epoch, rows, moves, ids)[id].repository == rows[id].repository
    {
      BatchRow(env, epoch, rows, moves, ids, id);
    }
  }

  lemma TookKeepsRepositories(
    env: Env, limit: nat, epoch: Option<string>, before: Rows, after: Rows, n: nat, claimed: seq<string>)
    requires Took(env, limit, epoch, before, after, n, claimed)
    ensures after.Keys == before.Keys && forall id | id in before :: after[id].repository == before[id].repository
  {
    var ids: seq<string> :|
      && IsSelection(before, env.catalog, limit, ids) && claimed == Won(AfterRivals(before, env.rivals(n)), ids)
      && after == AfterBatch(env, epoch, before, env.rivals(n), ids);
    BatchKeepsRepositories(env, epoch, before, env.rivals(n), ids);
  }

  /** Selecting in the store is selecting by the scopes fixed at the start. */
  lemma SameQueue(env: Env, start: Rows, now: Rows, order: seq<string>, limit: nat)
    requires IsDrainOrder(now, order) && now.Keys == start.Keys
    requires forall id | id in start :: now[id].repository == start[id].repository
    ensures Queue(SetupOf(env, start, limit), order) == Entries(env.catalog, now, order)
  {
    assert forall i | 0 <= i < |order| :: order[i] in order;
  }

  /** The entries of a selection are those of its runs. */
  lemma SelectionCompatible(setup: Setup, order: seq<string>)
    requires forall id :: setup.entry(id).id == id
    ensures Compatible(Queue(setup, Ids(Greedy(Queue(setup, order), setup.limit))), setup.limit)
  {
    var queue := Queue(setup, order);
    var chosen := Greedy(queue, setup.limit);
    GreedyCompatible(queue, setup.limit);
    GreedyFromQueue(queue, setup.limit);
    assert forall e | e in queue :: e == setup.entry(e.id);
    assert forall i | 0 <= i < |chosen| :: chosen[i] in chosen && chosen[i] in queue;
    assert Queue(setup, Ids(chosen)) == chosen;
  }

  /** What is left of a selection after rivals took some of it may still run at once. */
  lemma {:induction false} WonCompatible(setup: Setup, rows: Rows, ids: seq<string>)
    requires Compatible(Queue(setup, ids), setup.limit)
    ensures Compatible(Queue(setup, Won(rows, ids)), setup.limit)
    ensures |Won(rows, ids)| <= |ids|
  {
    hide Compatible;
    hide Queue;
    if ids != [] {
      var front, last := ids[..|ids| - 1], ids[|ids| - 1];
      QueueAppend(setup, front, last);
      assert front + [last] == ids;
      CompatibleFront(Queue(setup, front), setup.entry(last), setup.limit);
      WonCompatible(setup, rows, front);
      WonJoins(setup, rows, front, last);
      QueueAppend(setup, Won(rows, front), last);
    }
  }

  lemma QueueAppend(setup: Setup, ids: seq<string>, last: string)
    ensures Queue(setup, ids + [last]) == Queue(setup, ids) + [setup.entry(last)]
  {
  }

  lemma CompatibleFront(front: seq<Entry>, last: Entry, limit: nat)
    requires Compatible(front + [last], limit)
    ensures Compatible(front, limit)
    ensures forall e | e in front :: !PosixPaths.PathsConflict(e.scope, last.scope) && !e.exclusive
    ensures last.exclusive ==> front == []
  {
    var all := front + [last];
    forall i | 0 <= i < |front|
      ensures !PosixPaths.PathsConflict(front[i].scope, last.scope) && !front[i].exclusive
    {
      assert all[i] == front[i] && all[|front|] == last;
    }
    assert all[|front|] == last;
    forall i, j | 0 <= i < j < |front|
      ensures !PosixPaths.PathsConflict(front[i].scope, front[j].scope)
    {
      assert all[i] == front[i] && all[j] == front[j];
    }
  }

  lemma WonJoins(setup: Setup, rows: Rows, front: seq<string>, last: string)
    requires Compatible(Queue(setup, front + [last]), setup.limit)
    requires Compatible(Queue(setup, Won(rows, front)), setup.limit) && |Won(rows, front)| <= |front|
    ensures Compatible(Queue(setup, Won(rows, front)) + [setup.entry(last)], setup.limit)
  {
    var won, all := Won(rows, front), Queue(setup, Won(rows, front)) + [setup.entry(last)];
    QueueAppend(setup, front, last);
    CompatibleFront(Queue(setup, front), setup.entry(last), setup.limit);
    forall i | 0 <= i < |won|
      ensures Queue(setup, won)[i] in Queue(setup, front)
    {
      assert won[i] in front;
      var k :| 0 <= k < |front| && front[k] == won[i];
      assert Queue(setup, front)[k] == setup.entry(won[i]);
    }
  }

  lemma {:induction false} WorkedCompatible(
    env: Env, limit: nat, epoch: Option<string>, start: Rows, now: Rows, batches: seq<seq<string>>)
    requires Worked(env, limit, epoch, start, now, batches)
    ensures AllCompatible(SetupOf(env, start, limit), batches)
    decreases |batches|
  {
    if batches != [] {
      var n := |batches| - 1;
      var before: Rows :|
        Worked(env, limit, epoch, start, before, batches[..n]) && Took(env, limit, epoch, before, now, n, batches[n]);
      WorkedCompatible(env, limit, epoch, start, before, batches[..n]);
      RepositoriesStay(env, limit, epoch, start, before, batches[..n]);
      TookCompatible(env, limit, epoch, start, before, now, n, batches[n]);
      CompatibleAppend(SetupOf(env, start, limit), batches);
    }
  }

  lemma CompatibleAppend(setup: Setup, batches: seq<seq<string>>)
    requires batches != [] && AllCompatible(setup, batches[..|batches| - 1])
    requires Compatible(Queue(setup, batches[|batches| - 1]), setup.limit)
    ensures AllCompatible(setup, batches)
  {
    forall b | 0 <= b < |batches|
      ensures Compatible(Queue(setup, batches[b]), setup.limit)
    {
      assert b < |batches| - 1 ==> batches[b] == batches[..|batches| - 1][b];
    }
  }

  lemma TookCompatible(
    env: Env, limit: nat, epoch: Option<string>, start: Rows, before: Rows, after: Rows, n: nat, claimed: seq<string>)
    requires Took(env, limit, epoch, before, after, n, claimed) && before.Keys == start.Keys
    requires forall id | id in start :: before[id].repository == start[id].repository
    ensures Compatible(Queue(SetupOf(env, start, limit), claimed), limit)
  {
    hide AfterBatch;
    hide AfterRivals;
    var setup := SetupOf(env, start, limit);
    var ids: seq<string> :|
      && IsSelection(before, env.catalog, limit, ids) && claimed == Won(AfterRivals(before, env.rivals(n)), ids)
      && after == AfterBatch(env, epoch, before, env.rivals(n), ids);
    var order: seq<string> :| IsDrainOrder(before, order) && ids == Ids(Greedy(Entries(env.catalog, before, order), limit));
    SameQueue(env, start, before, order, limit);
    SelectionCompatible(setup, order);
    WonCompatible(setup, AfterRivals(before, env.rivals(n)), ids);
  }

  lemma {:induction false} PartOfFlatten(batches: seq<seq<string>>, b: nat)
    requires b < |batches|
    ensures |batches[b]| <= |Flatten(batches)|
  {
    if b < |batches| - 1 {
      PartOfFlatten(batches[..|batches| - 1], b);
    }
  }

  /** Whatever rivals do, what a batched drain starts together may run together, by the evidence of the runs. */
  lemma BatchesCompatible(env: Env, limit: nat, once: bool, epoch: Option<string>, start: Rows, batches: seq<seq<string>>)
    requires limit >= 1 && (once ==> |Flatten(batches)| <= 1)
    requires !once ==> Account(env, limit, epoch, start, batches)
    ensures AllCompatible(SetupOf(env, start, limit), batches)
    ensures AllSafe(env.catalog, start, batches) && forall b | 0 <= b < |batches| :: |batches[b]| <= limit
  {
    EntriesCompatible(env, limit, once, epoch, start, batches);
    forall b | 0 <= b < |batches|
      ensures SafeTogether(env.catalog, RepositoryIn(start), batches[b]) && |batches[b]| <= limit
    {
      var setup := SetupOf(env, start, limit);
      CompatibleIsSafe(env.catalog, RepositoryIn(start), batches[b], Queue(setup, batches[b]), limit);
    }
  }

  lemma EntriesCompatible(env: Env, limit: nat, once: bool, epoch: Option<string>, start: Rows, batches: seq<seq<string>>)
    requires limit >= 1 && (once ==> |Flatten(batches)| <= 1)
    requires !once ==> Account(env, limit, epoch, start, batches)
    ensures AllCompatible(SetupOf(env, start, limit), batches)
  {
    if once {
      forall b | 0 <= b < |batches|
        ensures Compatible(Queue(SetupOf(env, start, limit), batches[b]), limit)
      {
        PartOfFlatten(batches, b);
      }
    } else {
      var now: Rows :| Worked(env, limit, epoch, start, now, batches);
      WorkedCompatible(env, limit, epoch, start, now, batches);
    }
  }

  /** The runs offered to the next batch: the head of the queue for `--once`, a selection otherwise. */
  method Offer(store: StateStore, env: Env, limit: nat, once: bool) returns (ids: seq<string>)
    requires limit >= 1
    ensures Distinct(ids) && forall id | id in ids :: id in PendingIds(store.rows)
    ensures ids == [] ==> PendingIds(store.rows) == {}
    ensures once ==> |ids| <= 1 && forall id | id in ids :: IsNext(store.rows, id)
    ensures !once ==> IsSelection(store.rows, env.catalog, limit, ids)
  {
    if once {
      var head := store.PeekNextPending();
      ids := if head.Some? then [head.value] else [];
    } else {
      ids := SelectBatch(store, env.catalog, limit);
      ghost var order :| IsDrainOrder(store.rows, order) && ids == Ids(Greedy(Entries(env.catalog, store.rows, order), limit));
      SelectionOffers(env.catalog, store.rows, order, limit);
    }
  }

  /** Claim what is left of the selection, run its threads, and handle a wedge. */
  method RunBatch(store: StateStore, env: Env, epoch: Option<string>, moves: map<string, Row>, ids: seq<string>)
    returns (claimed: seq<string>, docs: seq<StepDoc>, wedged: bool)
    requires Distinct(ids) && SafeIds(store.rows)
    modifies store
    ensures store.rows == AfterBatch(env, epoch, old(store.rows), moves, ids)
    ensures claimed == Won(AfterRivals(old(store.rows), moves), ids) && Distinct(claimed)
    ensures wedged <==> !AllOnTime(env, claimed)
    ensures AllTold(env, store.rows, docs) && forall id | id in DocIds(docs) :: id in claimed
    ensures NoWedge(env) ==> !wedged
    ensures DocIds(docs) == if wedged then StuckOf(env, claimed) else claimed
  {
    RivalsMove(store, moves);
    ghost var contested := store.rows;
    claimed := ClaimRows(store, ids, Some(env.pid), epoch);
    WonDistinct(contested, ids);
    assert forall id | id in claimed :: store.rows[id].lifecycle == Running;
    docs, wedged := RunThreads(store, env, claimed);
    OnTimeEach(env, claimed);
    if wedged {
      docs := MarkWedged(store, env, claimed);
      assert forall id | id in DocIds(docs) :: id in claimed;
    } else {
      NothingWedged(store.rows, env, claimed);
    }
  }

  lemma NothingWedged(rows: Rows, env: Env, ids: seq<string>)
    requires forall id | id in ids :: env.pace(id) == OnTime
    ensures AfterWedge(rows, env, ids) == rows
  {
  }

  lemma FlattenAppend(batches: seq<seq<string>>, next: seq<string>)
    ensures Flatten(batches + [next]) == Flatten(batches) + next
    ensures Members(Flatten(batches + [next])) == Members(Flatten(batches)) + Members(next)
    ensures Distinct(Flatten(batches)) && Distinct(next) && Members(next) !! Members(Flatten(batches)) ==>
      Distinct(Flatten(batches + [next]))
  {
    assert (batches + [next])[..|batches|] == batches;
    var all := Flatten(batches) + next;
    if Distinct(Flatten(batches)) && Distinct(next) && Members(next) !! Members(Flatten(batches)) {
      forall i, j | 0 <= i < j < |all|
        ensures all[i] != all[j]
      {
        assert i < |Flatten(batches)| <= j ==>
          all[i] in Members(Flatten(batches)) && next[j - |Flatten(batches)|] in Members(next);
      }
    }
  }

  lemma ShrinksStrictly(before: Rows, after: Rows, claimed: seq<string>)
    requires claimed != [] && (forall id | id in claimed :: id in PendingIds(before))
    requires PendingIds(after) <= PendingIds(before) - Members(claimed)
    ensures |PendingIds(after)| < |PendingIds(before)|
  {
    SubsetCardinality(PendingIds(after), PendingIds(before) - {claimed[0]});
  }

  lemma AllWonWithoutRivals(rows: Rows, moves: map<string, Row>, ids: seq<string>)
    requires forall id | id in ids :: id in PendingIds(rows)
    ensures moves == map[] ==> Won(AfterRivals(rows, moves), ids) == ids
  {
    if moves == map[] {
      assert AfterRivals(rows, moves) == rows;
      AllWon(rows, ids);
    }
  }

  // ---------- the sequential loop ----------

  /** `drain_once`: claim the head of the queue, execute it, finish it. An exception leaves the row as it is. */
  method DrainOnce(store: StateStore, env: Env, epoch: Option<string>)
    returns (claimed: Option<string>, docs: seq<StepDoc>, crashed: bool)
    requires SafeIds(store.rows)
    modifies store
    ensures claimed.None? ==> PendingIds(old(store.rows)) == {} && store.rows == old(store.rows) && docs == [] && !crashed
    ensures claimed.Some? ==>
      && IsNext(old(store.rows), claimed.value) && (crashed <==> env.exec(claimed.value) == Crashed)
      && store.rows == old(store.rows)[claimed.value := OnceRow(env, claimed.value, old(store.rows)[claimed.value], epoch)]
      && DocIds(docs) == if crashed then [] else [claimed.value]
    ensures AllExact(store.rows, docs) && (crashed ==> claimed.Some?)
  {
    docs, crashed := [], false;
    claimed := store.ClaimNext(Some(env.pid), epoch);
    if claimed.Some? {
      if env.exec(claimed.value) == Crashed {
        OtherActorFinishes(store, env, claimed.value);
        crashed := true;
      } else {
        var doc := ExecuteClaimRow(store, env, claimed.value);
        docs := [doc];
      }
    }
  }

  /** The row a sequential step leaves: settled, or still running after an exception. */
  function OnceRow(env: Env, id: string, row: Row, epoch: Option<string>): Row {
    if env.exec(id) == Crashed then Meanwhile(env, id, Claimed(env, row, epoch, false))
    else FinalRow(env, id, row, epoch, false)
  }

  function CrashSet(env: Env, id: string): set<string> {
    if env.exec(id) == Crashed then {id} else {}
  }

  /** The row a sequential step takes was pending all along, so it is accounted for from its start. */
  lemma OnceEffect(
    env: Env, epoch: Option<string>, start: Rows, rows: Rows, mine: set<string>, id: string)
    requires Effect(env, epoch, false, start, rows, mine, {}) && id in PendingIds(rows)
    ensures var after := rows[id := OnceRow(env, id, rows[id], epoch)];
      && id !in mine
      && Effect(env, epoch, false, start, after, mine + ({id} - CrashSet(env, id)), CrashSet(env, id))
  {
    PendingShrinks(env, epoch, false, start, rows, mine);
    assert rows[id] == start[id] && id in PendingIds(start);
  }

  lemma OnceShrinks(env: Env, epoch: Option<string>, rows: Rows, id: string)
    requires id in PendingIds(rows)
    ensures PendingIds(rows[id := OnceRow(env, id, rows[id], epoch)]) <= PendingIds(rows) - {id}
  {
    SettledIsClosed(env, id, Claimed(env, rows[id], epoch, false), false);
  }

  lemma RivalsEffect(
    env: Env, epoch: Option<string>, start: Rows, rows: Rows, mine: set<string>, moves: map<string, Row>)
    requires Effect(env, epoch, false, start, rows, mine, {})
    requires NoRivals(env) ==> moves == map[]
    ensures Effect(env, epoch, false, start, AfterRivals(rows, moves), mine, {})
    ensures PendingIds(AfterRivals(rows, moves)) <= PendingIds(rows)
  {
    PendingShrinks(env, epoch, false, start, rows, mine);
    var contested := AfterRivals(rows, moves);
    forall other | other in rows
      ensures contested[other] == rows[other] || RivalMoved(rows[other], contested[other])
      ensures other in mine ==> contested[other] == rows[other]
    {
      assert other in mine ==> rows[other].lifecycle !in {Pending, Running};
    }
  }

  /** These runs carry the fingerprint. */
  ghost predicate CarryEpoch(rows: Rows, ids: set<string>, epoch: Option<string>) {
    forall id | id in ids :: id in rows && rows[id].epoch == epoch
  }

  /** A claim of a run without an epoch leaves the drain's, whatever becomes of the run afterwards. */
  lemma ClaimedCarryEpoch(env: Env, epoch: Option<string>, start: Rows, now: Rows, mine: set<string>, crashed: set<string>)
    requires Effect(env, epoch, false, start, now, mine, crashed) && PendingWithoutEpoch(start)
    ensures CarryEpoch(now, mine + crashed, epoch)
  {
    forall id | id in mine + crashed
      ensures id in now && now[id].epoch == epoch
    {
      assert id in PendingIds(start) && start[id].epoch.None?;
      FinishKeepsEpoch(env, id, Claimed(env, start[id], epoch, false));
    }
  }

  lemma FinishKeepsEpoch(env: Env, id: string, row: Row)
    ensures Meanwhile(env, id, row).epoch == row.epoch && Settled(env, id, row, false).epoch == row.epoch
  {
  }

  /** After these runs the drain re-reads the provider. */
  predicate SequentialRereads(once: bool, finished: seq<string>) {
    !once && finished != []
  }

  /** What every sequential drain guarantees, whatever the oracles answer. */
  ghost predicate SequentialPost(env: Env, once: bool, epoch: Option<string>, start: Rows, now: Rows, r: Report) {
    var finished := DocIds(r.processed);
    var crashed: set<string> := if r.raised.Some? then {r.raised.value} else {};
    && r.code in {0, 3, 5} && r.batches == []
    && Distinct(finished)
    && Effect(env, epoch, false, start, now, Members(finished), crashed)
    && (forall id | id in finished :: env.exec(id).Ended? && id in now && now[id].lifecycle !in {Pending, Running})
    && (r.raised.Some? ==> env.exec(r.raised.value) == Crashed)
    && (PendingWithoutEpoch(start) ==> CarryEpoch(now, Members(finished) + crashed, epoch))
    && (forall n | 1 <= n < |finished| + |crashed| :: env.fingerprint(n) == Read(epoch))
    && (r.unread <==> r.raised.None? && SequentialRereads(once, finished) && env.fingerprint(|finished|) == ReadRaised)
    && (r.code == 5 <==>
      r.raised.None? && SequentialRereads(once, finished) && env.fingerprint(|finished|) !in {ReadRaised, Read(epoch)})
    && (r.code == 0 ==> forall i | 0 <= i < |r.processed| :: r.processed[i].lifecycle != Blocked)
    && (once ==> |finished| <= 1)
    && (NoRivals(env) && !once && r.raised.None? && r.code != 5 && !r.unread ==> PendingIds(now) == {})
    && AllExact(now, r.processed)
    && (r.raised.None? && r.code != 5 && !r.unread ==>
      (r.code == 3 <==> exists id | id in finished :: id in now && now[id].lifecycle == Blocked))
  }

  ghost predicate SequentialProgress(env: Env, epoch: Option<string>, start: Rows, now: Rows, finished: seq<string>) {
    && Effect(env, epoch, false, start, now, Members(finished), {})
    && Distinct(finished)
    && (forall id | id in finished :: env.exec(id).Ended?)
    && (forall n | 1 <= n < |finished| :: env.fingerprint(n) == Read(epoch))
  }

  lemma SequentialStops(env: Env, once: bool, epoch: Option<string>, start: Rows, now: Rows, r: Report)
    requires SequentialProgress(env, epoch, start, now, DocIds(r.processed))
    requires r.raised == None && r.code in {0, 3, 5} && r.batches == [] && (once ==> |r.processed| <= 1)
    requires r.unread <==> SequentialRereads(once, DocIds(r.processed)) && env.fingerprint(|r.processed|) == ReadRaised
    requires r.code == 5 <==>
      SequentialRereads(once, DocIds(r.processed)) && env.fingerprint(|r.processed|) !in {ReadRaised, Read(epoch)}
    requires r.code == 0 ==> forall i | 0 <= i < |r.processed| :: r.processed[i].lifecycle != Blocked
    requires NoRivals(env) && !once && r.code != 5 && !r.unread ==> PendingIds(now) == {}
    requires AllExact(now, r.processed) && (r.code != 5 && !r.unread ==> r.code == ExitCode(0, r.processed))
    ensures SequentialPost(env, once, epoch, start, now, r)
  {
    ExitCodeTells(env, now, r.processed);
    PendingShrinks(env, epoch, false, start, now, Members(DocIds(r.processed)));
    forall id | id in DocIds(r.processed)
      ensures id in now && now[id].lifecycle !in {Pending, Running}
    {
      assert id in Members(DocIds(r.processed));
    }
    if PendingWithoutEpoch(start) {
      ClaimedCarryEpoch(env, epoch, start, now, Members(DocIds(r.processed)), {});
    }
  }

  lemma MembersAppend(ids: seq<string>, id: string)
    requires Distinct(ids) && id !in ids
    ensures Distinct(ids + [id]) && Members(ids + [id]) == Members(ids) + {id}
  {
  }

  /** One more finished run in the account. */
  lemma SequentialAccount(
    env: Env, epoch: Option<string>, start: Rows, before: Rows, after: Rows, finished: seq<string>, id: string)
    requires SequentialProgress(env, epoch, start, before, finished)
    requires finished != [] ==> env.fingerprint(|finished|) == Read(epoch)
    requires id !in finished
    requires Effect(env, epoch, false, start, after, Members(finished) + ({id} - CrashSet(env, id)), CrashSet(env, id))
    ensures env.exec(id).Ended? ==> SequentialProgress(env, epoch, start, after, finished + [id])
    ensures env.exec(id) == Crashed ==> Effect(env, epoch, false, start, after, Members(finished), {id})
  {
    MembersAppend(finished, id);
    if env.exec(id).Ended? {
      assert Members(finished) + ({id} - CrashSet(env, id)) == Members(finished + [id]);
      forall n | 1 <= n < |finished + [id]|
        ensures env.fingerprint(n) == Read(epoch)
      {
        assert n < |finished| || n == |finished|;
      }
    } else {
      assert Members(finished) + ({id} - CrashSet(env, id)) == Members(finished);
    }
  }

  /** One sequential iteration with its bookkeeping; `stop` is the report if the drain ends here. */
  method SequentialRound(
    store: StateStore, env: Env, once: bool, epoch: Option<string>, ghost start: Rows, processed: seq<StepDoc>)
    returns (stop: Option<Report>, steps: seq<StepDoc>)
    requires SafeIds(start) && SequentialProgress(env, epoch, start, store.rows, DocIds(processed))
    requires (once ==> |processed| <= 1) && AllExact(store.rows, processed)
    modifies store
    ensures stop.None? ==> AllExact(store.rows, steps)
    ensures stop.None? ==>
      && SequentialProgress(env, epoch, start, store.rows, DocIds(steps)) && (once ==> |steps| <= 1)
      && |PendingIds(store.rows)| < |PendingIds(old(store.rows))|
    ensures stop.Some? ==> SequentialPost(env, once, epoch, start, store.rows, stop.value)
  {
    var done := Report(None, false, ExitCode(0, processed), processed, []);
    stop, steps := None, processed;
    if once && processed != [] {
      SequentialStops(env, once, epoch, start, store.rows, done);
      return Some(done), steps;
    }
    if processed != [] && env.fingerprint(|processed|) != Read(epoch) {
      done := if env.fingerprint(|processed|) == ReadRaised then done.(unread := true, code := 3) else done.(code := 5);
      SequentialStops(env, once, epoch, start, store.rows, done);
      return Some(done), steps;
    }
    ghost var before := store.rows;
    var claimed, docs, crashed := SequentialStep(store, env, epoch, start, DocIds(processed));
    ExactStays(env, epoch, start, before, store.rows, processed, docs, if crashed then {claimed.value} else {});
    if claimed.None? {
      SequentialStops(env, once, epoch, start, store.rows, done);
      return Some(done), steps;
    }
    if crashed {
      done := Report(Some(claimed.value), false, 3, processed, []);
      CrashReport(env, once, epoch, start, before, store.rows, done);
      return Some(done), steps;
    }
    DocIdsAppend(processed, docs);
    ToldAppend(env, store.rows, processed, docs);
    steps := processed + docs;
  }

  /** What a later step does leaves the rows of the runs reported before. */
  lemma ExactStays(
    env: Env, epoch: Option<string>, start: Rows, before: Rows, after: Rows, docs: seq<StepDoc>, more: seq<StepDoc>,
    crashed: set<string>)
    requires Effect(env, epoch, false, start, before, Members(DocIds(docs)), {}) && AllExact(before, docs)
    requires Effect(env, epoch, false, start, after, Members(DocIds(docs) + DocIds(more)), crashed)
    ensures AllExact(after, docs)
  {
    forall i | 0 <= i < |docs|
      ensures docs[i].id in after && after[docs[i].id] == before[docs[i].id]
    {
      assert DocIds(docs)[i] == docs[i].id;
      assert docs[i].id in DocIds(docs) + DocIds(more);
      assert docs[i].id in Members(DocIds(docs)) && docs[i].id in Members(DocIds(docs) + DocIds(more));
    }
  }

  /** The rivals' moves and one `drain_once`, with the account of what this drain has finished. */
  method SequentialStep(
    store: StateStore, env: Env, epoch: Option<string>, ghost start: Rows, finished: seq<string>)
    returns (claimed: Option<string>, docs: seq<StepDoc>, crashed: bool)
    requires SafeIds(start) && SequentialProgress(env, epoch, start, store.rows, finished)
    requires finished != [] ==> env.fingerprint(|finished|) == Read(epoch)
    modifies store
    ensures claimed.None? ==>
      && SequentialProgress(env, epoch, start, store.rows, finished) && docs == [] && !crashed
      && PendingIds(store.rows) == {}
    ensures claimed.Some? ==> (crashed <==> env.exec(claimed.value) == Crashed)
    ensures claimed.Some? && crashed ==> Effect(env, epoch, false, start, store.rows, Members(finished), {claimed.value})
    ensures claimed.Some? && !crashed ==>
      && DocIds(docs) == [claimed.value]
      && SequentialProgress(env, epoch, start, store.rows, finished + [claimed.value])
      && |PendingIds(store.rows)| < |PendingIds(old(store.rows))|
    ensures AllExact(store.rows, docs) && (crashed ==> claimed.Some? && docs == [])
    ensures Effect(
      env, epoch, false, start, store.rows, Members(finished + DocIds(docs)), if crashed then {claimed.value} else {})
  {
    ghost var before := store.rows;
    var moves := env.rivals(|finished|);
    RivalsEffect(env, epoch, start, before, Members(finished), moves);
    RivalsMove(store, moves);
    ghost var contested := store.rows;
    claimed, docs, crashed := DrainOnce(store, env, epoch);
    if claimed.Some? {
      OnceOutcome(env, epoch, start, before, contested, finished, claimed.value);
    }
    assert docs == [] ==> finished + DocIds(docs) == finished;
  }

  /** The account after one sequential step over the rows that the rivals left. */
  lemma OnceOutcome(
    env: Env, epoch: Option<string>, start: Rows, before: Rows, contested: Rows, finished: seq<string>, id: string)
    requires SequentialProgress(env, epoch, start, before, finished)
    requires finished != [] ==> env.fingerprint(|finished|) == Read(epoch)
    requires Effect(env, epoch, false, start, contested, Members(finished), {})
    requires PendingIds(contested) <= PendingIds(before) && id in PendingIds(contested)
    ensures var after := contested[id := OnceRow(env, id, contested[id], epoch)];
      && (env.exec(id).Ended? ==> SequentialProgress(env, epoch, start, after, finished + [id]))
      && (env.exec(id) == Crashed ==> Effect(env, epoch, false, start, after, Members(finished), {id}))
      && |PendingIds(after)| < |PendingIds(before)|
  {
    var after := contested[id := OnceRow(env, id, contested[id], epoch)];
    OnceEffect(env, epoch, start, contested, Members(finished), id);
    OnceShrinks(env, epoch, contested, id);
    assert id !in finished by {
      assert id !in Members(finished);
    }
    SequentialAccount(env, epoch, start, before, after, finished, id);
    SubsetCardinality(PendingIds(after), PendingIds(before) - {id});
  }

  /** The report when an exception leaves the drain. */
  lemma CrashReport(env: Env, once: bool, epoch: Option<string>, start: Rows, before: Rows, now: Rows, r: Report)
    requires SequentialProgress(env, epoch, start, before, DocIds(r.processed)) && SafeIds(start)
    requires r.raised.Some? && env.exec(r.raised.value) == Crashed && !r.unread && r.code == 3 && r.batches == []
    requires r.processed != [] ==> env.fingerprint(|r.processed|) == Read(epoch)
    requires once ==> r.processed == []
    requires Effect(env, epoch, false, start, now, Members(DocIds(r.processed)), {r.raised.value})
    requires AllExact(now, r.processed)
    ensures SequentialPost(env, once, epoch, start, now, r)
  {
    forall id | id in DocIds(r.processed)
      ensures id in now && now[id].lifecycle !in {Pending, Running}
    {
      assert id in Members(DocIds(r.processed));
      SettledIsClosed(env, id, Claimed(env, start[id], epoch, false), false);
    }
    forall n | 1 <= n < |DocIds(r.processed)| + 1
      ensures env.fingerprint(n) == Read(epoch)
    {
      assert n < |DocIds(r.processed)| || n == |r.processed|;
    }
    if PendingWithoutEpoch(start) {
      ClaimedCarryEpoch(env, epoch, start, now, Members(DocIds(r.processed)), {r.raised.value});
    }
  }

  /** The sequential branch of `drain`. */
  method DrainSequential(store: StateStore, env: Env, once: bool, epoch: Option<string>) returns (r: Report)
    requires SafeIds(store.rows)
    modifies store
    ensures SequentialPost(env, once, epoch, old(store.rows), store.rows, r)
  {
    var processed: seq<StepDoc> := [];
    var stop: Option<Report> := None;
    ghost var start := store.rows;
    while stop.None?
      invariant stop.None? ==>
        && SequentialProgress(env, epoch, start, store.rows, DocIds(processed)) && (once ==> |processed| <= 1)
        && AllExact(store.rows, processed)
      invariant stop.Some? ==> SequentialPost(env, once, epoch, start, store.rows, stop.value)
      decreases stop.None?, |PendingIds(store.rows)|
    {
      stop, processed := SequentialRound(store, env, once, epoch, start, processed);
    }
    r := stop.value;
  }

  // ---------- drain ----------

  /** The store a drain starts from: runs whose process died are blocked first. */
  function Recovered(rows: Rows, env: Env): Rows {
    Reconciled(rows, env.alive, "runner-interrupted")
  }

  /** Recovery makes no row pending. */
  lemma RecoveryKeepsNoEpoch(rows: Rows, env: Env)
    requires PendingWithoutEpoch(rows)
    ensures PendingWithoutEpoch(Recovered(rows, env))
  {
  }

  lemma BatchedCarryEpoch(env: Env, limit: nat, once: bool, epoch: Option<string>, start: Rows, now: Rows, r: Report)
    requires BatchedPost(env, limit, once, epoch, start, now, r)
    ensures CarryEpoch(now, Members(Flatten(r.batches)), epoch)
  {
  }

  lemma SequentialCarryEpoch(env: Env, once: bool, epoch: Option<string>, start: Rows, now: Rows, r: Report)
    requires SequentialPost(env, once, epoch, start, now, r) && PendingWithoutEpoch(start)
    ensures CarryEpoch(now, Taken(r), epoch)
  {
  }

  /** The runs a sequential drain has claimed. */
  ghost function Taken(r: Report): set<string> {
    Members(DocIds(r.processed)) + if r.raised.Some? then {r.raised.value} else {}
  }

  /** Another actor finishes the found row before the recovery does, so the recovery's finish is refused. */
  predicate Beaten(env: Env, id: string) {
    env.beaten(id).Some? && Allowed(Running, env.beaten(id).value.lifecycle)
  }

  /** What a recovery that was refused may leave of a row. */
  ghost predicate HalfRecovered(env: Env, before: Rows, after: Rows, id: string)
    requires id in before && id in after
  {
    || after[id] == before[id]
    || (id in Interrupted(before, env.alive)
      && (after[id] == Finished(before[id], Blocked, "runner-interrupted")
        || (Beaten(env, id) && after[id] == Finished(before[id], env.beaten(id).value.lifecycle, env.beaten(id).value.outcome))))
  }

  /** One found row: the other actor may come first, then the recovery's finish is refused. */
  method RecoverRow(store: StateStore, env: Env, id: string) returns (refused: bool)
    requires id in store.rows && SafeId(id) && store.rows[id].lifecycle == Running
    modifies store
    ensures refused <==> Beaten(env, id)
    ensures store.rows == old(store.rows)[id :=
      if refused then Finished(old(store.rows)[id], env.beaten(id).value.lifecycle, env.beaten(id).value.outcome)
      else Finished(old(store.rows)[id], Blocked, "runner-interrupted")]
  {
    if env.beaten(id).Some? {
      var other := store.Finish(id, env.beaten(id).value.lifecycle, env.beaten(id).value.outcome);
    }
    var r := store.Finish(id, Blocked, "runner-interrupted");
    refused := r.Err?;
  }

  /**
   `reconcile_before_drain`: the rows found interrupted are blocked one by one. An exception leaves
   exactly when another actor has finished one of them in between.
   */
  method Recover(store: StateStore, env: Env) returns (refused: bool)
    requires SafeIds(store.rows)
    modifies store
    ensures refused <==> exists id | id in Interrupted(old(store.rows), env.alive) :: Beaten(env, id)
    ensures !refused ==> store.rows == Recovered(old(store.rows), env)
    ensures store.rows.Keys == old(store.rows).Keys
    ensures forall id | id in store.rows :: HalfRecovered(env, old(store.rows), store.rows, id)
  {
    var ids := store.FindInterrupted(env.alive);
    ghost var before, dead := store.rows, Interrupted(store.rows, env.alive);
    Enumerates(ids, dead);
    for i := 0 to |ids|
      invariant store.rows.Keys == before.Keys
      invariant forall id | id in store.rows ::
        store.rows[id] == if id in ids[..i] then Finished(before[id], Blocked, "runner-interrupted") else before[id]
      invariant forall k | 0 <= k < i :: !Beaten(env, ids[k])
    {
      assert ids[i] in dead && ids[i] !in ids[..i];
      refused := RecoverRow(store, env, ids[i]);
      if refused {
        forall id | id in store.rows
          ensures HalfRecovered(env, before, store.rows, id)
        {
          assert id in ids[..i] ==> id in dead;
        }
        return;
      }
      assert ids[..i + 1] == ids[..i] + [ids[i]];
    }
    assert ids[..|ids|] == ids;
    refused := false;
  }

  const NOTHING_DONE: Report := Report(None, true, 3, [], [])

  /**
   `drain`: recovery, the first fingerprint, then the branch the configured concurrency selects. An
   exception leaves before any claim when the recovery is refused or the first read raises.
   */
  method Drain(store: StateStore, env: Env, limit: nat, once: bool) returns (r: Report, refused: bool)
    requires limit >= 1 && SafeIds(store.rows)
    modifies store
    ensures refused <==> exists id | id in Interrupted(old(store.rows), env.alive) :: Beaten(env, id)
    ensures refused ==>
      && r == NOTHING_DONE && store.rows.Keys == old(store.rows).Keys
      && forall id | id in store.rows :: HalfRecovered(env, old(store.rows), store.rows, id)
    ensures !refused && env.fingerprint(0) == ReadRaised ==>
      r == NOTHING_DONE && store.rows == Recovered(old(store.rows), env)
    ensures !refused && env.fingerprint(0).Read? ==>
      DrainPost(env, limit, once, Recovered(old(store.rows), env), store.rows, r)
    ensures !refused && env.fingerprint(0).Read? && PendingWithoutEpoch(old(store.rows)) ==>
      CarryEpoch(store.rows, if limit == 1 then Taken(r) else Members(Flatten(r.batches)), FirstEpoch(env))
  {
    refused := Recover(store, env);
    if refused || env.fingerprint(0) == ReadRaised {
      return NOTHING_DONE, refused;
    }
    var epoch := FirstEpoch(env);
    ghost var start := store.rows;
    if limit == 1 {
      r := DrainSequential(store, env, once, epoch);
      if PendingWithoutEpoch(old(store.rows)) {
        RecoveryKeepsNoEpoch(old(store.rows), env);
        SequentialCarryEpoch(env, once, epoch, start, store.rows, r);
      }
    } else {
      r := DrainBatched(store, env, limit, once, epoch);
      BatchedCarryEpoch(env, limit, once, epoch, start, store.rows, r);
    }
  }

  /** What the branch of the configured concurrency guarantees. */
  ghost predicate DrainPost(env: Env, limit: nat, once: bool, start: Rows, now: Rows, r: Report) {
    && (limit == 1 ==> SequentialPost(env, once, FirstEpoch(env), start, now, r))
    && (limit > 1 ==> BatchedPost(env, limit, once, FirstEpoch(env), start, now, r))
    && (limit > 1 && !once ==> Account(env, limit, FirstEpoch(env), start, r.batches))
  }

  // ---------- batched refines sequential ----------

  /** The same runs with the same lifecycle and outcome. */
  ghost predicate SameVerdicts(a: Rows, b: Rows) {
    a.Keys == b.Keys && forall id | id in a :: a[id].lifecycle == b[id].lifecycle && a[id].outcome == b[id].outcome
  }

  ghost predicate AllEnd(env: Env, rows: Rows) {
    forall id | id in PendingIds(rows) :: env.exec(id).Ended?
  }

  lemma DistinctMultiset(ids: seq<string>)
    requires Distinct(ids)
    ensures multiset(ids) == multiset(Members(ids))
  {
    if ids != [] {
      var front, last := ids[..|ids| - 1], ids[|ids| - 1];
      assert ids == front + [last];
      assert last !in front;
      DistinctMultiset(front);
      assert Members(ids) == Members(front) + {last};
    }
  }

  /** The whole backlog was worked off, and each run carries the drain's own verdict. */
  ghost predicate WorkedOff(env: Env, start: Rows, now: Rows, finished: seq<string>) {
    && Distinct(finished) && Members(finished) == PendingIds(start) && PendingIds(now) == {}
    && now.Keys == start.Keys
    && (forall id | id in PendingIds(start) ::
      now[id].lifecycle == Verdict(env, id, false).lifecycle && now[id].outcome == Some(Verdict(env, id, false).outcome))
    && (forall id | id in start && id !in PendingIds(start) :: now[id] == start[id])
  }

  lemma UndisturbedVerdict(env: Env, id: string, row: Row)
    requires row.lifecycle == Running && env.meanwhile(id) == None
    ensures Settled(env, id, row, false).lifecycle == Verdict(env, id, false).lifecycle
    ensures Settled(env, id, row, false).outcome == Some(Verdict(env, id, false).outcome)
  {
  }

  /** Undisturbed and without wedge, a drain that leaves nothing pending has worked off the backlog. */
  lemma NothingPendingIsWorkedOff(
    env: Env, epoch: Option<string>, batched: bool, start: Rows, now: Rows, finished: seq<string>)
    requires Effect(env, epoch, batched, start, now, Members(finished), {}) && Distinct(finished)
    requires NoInterference(env) && NoWedge(env) && PendingIds(now) == {}
    ensures WorkedOff(env, start, now, finished)
  {
    PendingShrinks(env, epoch, batched, start, now, Members(finished));
    forall id | id in PendingIds(start)
      ensures now[id].lifecycle == Verdict(env, id, false).lifecycle && now[id].outcome == Some(Verdict(env, id, false).outcome)
    {
      assert id in Members(finished);
      assert env.meanwhile(id) == None && env.pace(id) == OnTime;
      UndisturbedVerdict(env, id, Claimed(env, start[id], epoch, batched));
    }
  }

  /** An undisturbed batched drain works off the whole backlog. */
  lemma BatchedWorksOff(env: Env, limit: nat, start: Rows, now: Rows, r: Report)
    requires BatchedPost(env, limit, false, FirstEpoch(env), start, now, r)
    requires NoInterference(env) && NoWedge(env) && StableProvider(env)
    ensures WorkedOff(env, start, now, DocIds(r.processed))
  {
    assert env.fingerprint(|r.batches|) == Read(FirstEpoch(env));
    NothingPendingIsWorkedOff(env, FirstEpoch(env), true, start, now, DocIds(r.processed));
  }

  /** So does an undisturbed sequential drain that no exception ends; then no run of the backlog raises. */
  lemma SequentialWorksOff(env: Env, start: Rows, now: Rows, r: Report)
    requires SequentialPost(env, false, FirstEpoch(env), start, now, r) && r.raised == None
    requires NoInterference(env) && NoWedge(env) && StableProvider(env)
    ensures WorkedOff(env, start, now, DocIds(r.processed))
    ensures forall id | id in DocIds(r.processed) :: env.exec(id).Ended?
  {
    assert env.fingerprint(|DocIds(r.processed)|) == Read(FirstEpoch(env));
    NothingPendingIsWorkedOff(env, FirstEpoch(env), false, start, now, DocIds(r.processed));
  }

  /** A sequential drain that an exception ends leaves that run running. */
  lemma SequentialStopsAtCrash(env: Env, start: Rows, now: Rows, r: Report)
    requires SequentialPost(env, false, FirstEpoch(env), start, now, r) && r.raised.Some?
    requires NoInterference(env)
    ensures r.raised.value in PendingIds(start) && env.exec(r.raised.value) == Crashed
    ensures r.raised.value in now && now[r.raised.value].lifecycle == Running
  {
    assert env.meanwhile(r.raised.value) == None;
  }

  /** Two drains that work off one backlog agree on every run and report the same runs. */
  lemma WorkedOffAgree(env: Env, start: Rows, one: Rows, ids1: seq<string>, many: Rows, ids2: seq<string>)
    requires WorkedOff(env, start, one, ids1) && WorkedOff(env, start, many, ids2)
    ensures SameVerdicts(one, many) && multiset(ids1) == multiset(ids2) == multiset(PendingIds(start))
  {
    DistinctMultiset(ids1);
    DistinctMultiset(ids2);
    forall id | id in one
      ensures one[id].lifecycle == many[id].lifecycle && one[id].outcome == many[id].outcome
    {
      assert id in PendingIds(start) || id !in PendingIds(start);
    }
  }

  lemma CrashesDisagree(env: Env, limit: nat, start: Rows, one: Rows, oneReport: Report, many: Rows, manyReport: Report)
    requires SequentialPost(env, false, FirstEpoch(env), start, one, oneReport) && oneReport.raised.Some?
    requires WorkedOff(env, start, many, DocIds(manyReport.processed))
    requires NoInterference(env)
    ensures !AllEnd(env, start) && oneReport.raised.value in one && oneReport.raised.value in many
    ensures one[oneReport.raised.value].lifecycle == Running && many[oneReport.raised.value].lifecycle == Blocked
  {
    SequentialStopsAtCrash(env, start, one, oneReport);
  }

  /**
   Batched drain refines sequential drain. On one backlog, with a stable provider, no competing
   actor, no wedge and a fixed ending per run, both leave the same lifecycle and outcome for every
   run exactly when no pending run's execution raises. Then both leave nothing pending and report
   the same runs. Otherwise the sequential drain stops at such a run and leaves it running, where
   the batched one records it as blocked and goes on.
   */
  method BatchedRefinesSequential(rows: Rows, env: Env, limit: nat)
    returns (one: Rows, oneReport: Report, many: Rows, manyReport: Report)
    requires limit > 1 && SafeIds(rows)
    requires NoInterference(env) && NoWedge(env) && StableProvider(env)
    ensures SameVerdicts(one, many) <==> AllEnd(env, Recovered(rows, env))
    ensures PendingIds(many) == {} && multiset(DocIds(manyReport.processed)) == multiset(PendingIds(Recovered(rows, env)))
    ensures AllEnd(env, Recovered(rows, env)) ==>
      PendingIds(one) == {} && multiset(DocIds(oneReport.processed)) == multiset(DocIds(manyReport.processed))
    ensures !AllEnd(env, Recovered(rows, env)) ==>
      && oneReport.raised.Some? && oneReport.raised.value in one && oneReport.raised.value in many
      && one[oneReport.raised.value].lifecycle == Running && many[oneReport.raised.value].lifecycle == Blocked
  {
    one, oneReport := DrainRows(rows, env, 1);
    many, manyReport := DrainRows(rows, env, limit);
    RefinementCases(env, limit, Recovered(rows, env), one, oneReport, many, manyReport);
  }

  /** Drain a store that holds exactly these rows. */
  method DrainRows(rows: Rows, env: Env, limit: nat) returns (after: Rows, r: Report)
    requires limit >= 1 && SafeIds(rows)
    ensures NoInterference(env) && env.fingerprint(0).Read? ==> DrainPost(env, limit, false, Recovered(rows, env), after, r)
  {
    var store := new StateStore();
    store.rows := rows;
    var refused;
    r, refused := Drain(store, env, limit, false);
    after := store.rows;
  }

  lemma RefinementCases(env: Env, limit: nat, start: Rows, one: Rows, oneReport: Report, many: Rows, manyReport: Report)
    requires NoInterference(env) && NoWedge(env) && StableProvider(env)
    requires SequentialPost(env, false, FirstEpoch(env), start, one, oneReport)
    requires BatchedPost(env, limit, false, FirstEpoch(env), start, many, manyReport)
    ensures PendingIds(many) == {} && multiset(DocIds(manyReport.processed)) == multiset(PendingIds(start))
    ensures oneReport.raised.None? ==>
      && AllEnd(env, start) && SameVerdicts(one, many)
      && PendingIds(one) == {} && multiset(DocIds(oneReport.processed)) == multiset(DocIds(manyReport.processed))
    ensures oneReport.raised.Some? ==>
      && !AllEnd(env, start) && oneReport.raised.value in one && oneReport.raised.value in many
      && one[oneReport.raised.value].lifecycle == Running && many[oneReport.raised.value].lifecycle == Blocked
  {
    BatchedWorksOff(env, limit, start, many, manyReport);
    WorkedOffAgree(env, start, many, DocIds(manyReport.processed), many, DocIds(manyReport.processed));
    if oneReport.raised.None? {
      SequentialWorksOff(env, start, one, oneReport);
      WorkedOffAgree(env, start, one, DocIds(oneReport.processed), many, DocIds(manyReport.processed));
      BacklogEnds(env, start, DocIds(oneReport.processed));
    } else {
      CrashesDisagree(env, limit, start, one, oneReport, many, manyReport);
    }
  }

  lemma BacklogEnds(env: Env, start: Rows, finished: seq<string>)
    requires Members(finished) == PendingIds(start) && forall id | id in finished :: env.exec(id).Ended?
    ensures AllEnd(env, start)
  {
    forall id | id in PendingIds(start)
      ensures env.exec(id).Ended?
    {
      assert id in Members(finished);
    }
  }
}
