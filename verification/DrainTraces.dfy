/**
 The batched drain loop runs the drain protocol. Its batches are the claims of a run of the state
 machine in DrainProtocol in which every step that is not the drain's own is the environment's: the
 rivals' moves before the claims, the finishes of live runs, the fingerprints read. The states in
 which the threads of a batch start are exposed, so what holds in every reachable state there holds
 of the loop's own threads.
 */
module DrainTraces {
  import opened Wrappers
  import opened Lifecycles
  import opened StateStores
  import opened Scheduler
  import PosixPaths
  import P = DrainProtocol
  import D = DrainLoop

  // ---------- running lists of steps ----------

  ghost function Run(setup: P.Setup, d: P.Drain, steps: seq<P.Step>): P.Drain {
    P.At(setup, d, steps, |steps|)
  }

  lemma {:induction false} AtPrefix(setup: P.Setup, d: P.Drain, first: seq<P.Step>, second: seq<P.Step>, n: nat)
    requires n <= |first|
    ensures P.At(setup, d, first + second, n) == P.At(setup, d, first, n)
  {
    if n > 0 {
      AtPrefix(setup, d, first, second, n - 1);
      assert (first + second)[n - 1] == first[n - 1];
    }
  }

  lemma RunOne(setup: P.Setup, d: P.Drain, steps: seq<P.Step>, step: P.Step)
    ensures Run(setup, d, steps + [step]) == P.Apply(setup, Run(setup, d, steps), step)
  {
    AtPrefix(setup, d, steps, [step], |steps|);
  }

  lemma RunSingle(setup: P.Setup, d: P.Drain, step: P.Step)
    ensures Run(setup, d, [step]) == P.Apply(setup, d, step)
  {
    RunOne(setup, d, [], step);
    assert [] + [step] == [step];
  }

  lemma {:induction false} RunTwo(setup: P.Setup, d: P.Drain, first: seq<P.Step>, second: seq<P.Step>)
    ensures Run(setup, d, first + second) == Run(setup, Run(setup, d, first), second)
    decreases |second|
  {
    if second == [] {
      assert first + second == first;
    } else {
      var front, last := second[..|second| - 1], second[|second| - 1];
      RunTwo(setup, d, first, front);
      assert first + second == (first + front) + [last] && second == front + [last];
      RunOne(setup, d, first + front, last);
      RunOne(setup, Run(setup, d, first), front, last);
    }
  }

  // ---------- the environment's steps ----------

  function Selections(steps: seq<P.Step>): nat {
    if steps == [] then 0
    else Selections(steps[..|steps| - 1]) + if steps[|steps| - 1].Select? then 1 else 0
  }

  lemma {:induction false} SelectionsTwo(first: seq<P.Step>, second: seq<P.Step>)
    ensures Selections(first + second) == Selections(first) + Selections(second)
    decreases |second|
  {
    if second == [] {
      assert first + second == first;
    } else {
      SelectionsTwo(first, second[..|second| - 1]);
      assert (first + second)[..|first + second| - 1] == first + second[..|second| - 1];
    }
  }

  /** While the drain joins, the threads that are on time finish; the others after the joins have timed out. */
  predicate Due(env: D.Env, phase: P.Phase, id: string) {
    (phase.Working? || phase.Stopped?) && (phase.Working? <==> env.pace(id) == D.OnTime)
  }

  /** Only rows of live runs change, each as its own thread, or the wedge handler, settles it. */
  ghost predicate Settles(env: D.Env, d: P.Drain, rows: Rows) {
    rows.Keys == d.rows.Keys
    && forall id | id in d.rows ::
      || rows[id] == d.rows[id]
      || (id in d.live && Due(env, d.phase, id)
        && rows[id] == D.Settled(env, id, d.rows[id], env.pace(id) == D.Stuck))
  }

  /** The `n`-th rivals move the rows of the store after the selection and before the first claim. */
  ghost predicate RivalsAct(env: D.Env, d: P.Drain, n: nat, rows: Rows) {
    d.phase == P.Claiming(Ids(d.batch)) && d.claimed == [] && rows == D.AfterRivals(d.rows, env.rivals(n))
  }

  /** A step, after `n` selections, is the drain's own or what the environment answers. */
  ghost predicate HonestStep(env: D.Env, d: P.Drain, n: nat, step: P.Step) {
    match step
    case Others(rows) => (n > 0 && RivalsAct(env, d, n - 1, rows)) || Settles(env, d, rows)
    case ReadProvider(fingerprint) => env.fingerprint(|d.fingerprints|) == D.Read(fingerprint)
    case ReadFails => env.fingerprint(|d.fingerprints|) == D.ReadRaised
    case ThreadEnds(id) =>
      id in d.live && Due(env, d.phase, id) && env.pace(id) != D.Stuck
      && id in d.rows && d.rows[id].lifecycle != Running
    case Peek(_) => false
    case Return => false
    case _ => true
  }

  /** Every step of the list, run from `d` after `n` selections, is honest. */
  ghost predicate Honest(env: D.Env, setup: P.Setup, d: P.Drain, n: nat, steps: seq<P.Step>)
    decreases |steps|
  {
    steps == [] ||
    (var front := steps[..|steps| - 1];
      Honest(env, setup, d, n, front)
      && HonestStep(env, Run(setup, d, front), n + Selections(front), steps[|steps| - 1]))
  }

  lemma HonestOne(env: D.Env, setup: P.Setup, d: P.Drain, n: nat, steps: seq<P.Step>, step: P.Step)
    requires Honest(env, setup, d, n, steps)
    requires HonestStep(env, Run(setup, d, steps), n + Selections(steps), step)
    ensures Honest(env, setup, d, n, steps + [step])
  {
    assert (steps + [step])[..|steps|] == steps;
  }

  lemma HonestSingle(env: D.Env, setup: P.Setup, d: P.Drain, n: nat, step: P.Step)
    requires HonestStep(env, d, n, step)
    ensures Honest(env, setup, d, n, [step])
  {
    HonestOne(env, setup, d, n, [], step);
    assert [] + [step] == [step];
  }

  lemma {:induction false} HonestTwo(
    env: D.Env, setup: P.Setup, d: P.Drain, n: nat, first: seq<P.Step>, second: seq<P.Step>)
    requires Honest(env, setup, d, n, first)
    requires Honest(env, setup, Run(setup, d, first), n + Selections(first), second)
    ensures Honest(env, setup, d, n, first + second)
    decreases |second|
  {
    hide HonestStep;
    hide P.At;
    hide P.Apply;
    if second == [] {
      assert first + second == first;
    } else {
      var front, last := second[..|second| - 1], second[|second| - 1];
      HonestTwo(env, setup, d, n, first, front);
      RunTwo(setup, d, first, front);
      SelectionsTwo(first, front);
      HonestOne(env, setup, d, n, first + front, last);
      assert first + second == (first + front) + [last];
    }
  }

  /** These honest steps, with `k` selections among them, lead from `d` to `end`. */
  ghost predicate Leads(
    env: D.Env, setup: P.Setup, d: P.Drain, n: nat, steps: seq<P.Step>, k: nat, end: P.Drain)
  {
    Run(setup, d, steps) == end && Honest(env, setup, d, n, steps) && Selections(steps) == k
  }

  lemma LeadsSingle(env: D.Env, setup: P.Setup, d: P.Drain, n: nat, step: P.Step)
    requires HonestStep(env, d, n, step)
    ensures Leads(env, setup, d, n, [step], if step.Select? then 1 else 0, P.Apply(setup, d, step))
  {
    HonestSingle(env, setup, d, n, step);
    RunSingle(setup, d, step);
    assert [step][..0] == [];
  }

  lemma LeadsOn(
    env: D.Env, setup: P.Setup, d: P.Drain, n: nat, first: seq<P.Step>, k: nat, middle: P.Drain, second: seq<P.Step>,
    l: nat, end: P.Drain)
    requires Leads(env, setup, d, n, first, k, middle) && Leads(env, setup, middle, n + k, second, l, end)
    ensures Leads(env, setup, d, n, first + second, k + l, end)
  {
    RunTwo(setup, d, first, second);
    SelectionsTwo(first, second);
    HonestTwo(env, setup, d, n, first, second);
  }

  // ---------- the claims of a batch ----------

  function Claims(n: nat): seq<P.Step> {
    if n == 0 then [] else Claims(n - 1) + [P.ClaimHead]
  }

  lemma {:induction false} ClaimsHonest(env: D.Env, setup: P.Setup, d: P.Drain, n: nat, k: nat)
    ensures Honest(env, setup, d, n, Claims(k)) && Selections(Claims(k)) == 0 && |Claims(k)| == k
  {
    hide P.At;
    if k > 0 {
      ClaimsHonest(env, setup, d, n, k - 1);
      HonestOne(env, setup, d, n, Claims(k - 1), P.ClaimHead);
    }
  }

  /** The claims as the protocol logs them. */
  function Log(ids: seq<string>, epoch: Option<string>): seq<(string, Option<string>)> {
    seq(|ids|, i requires 0 <= i < |ids| => (ids[i], epoch))
  }

  lemma LogAppend(a: seq<string>, b: seq<string>, epoch: Option<string>)
    ensures Log(a + b, epoch) == Log(a, epoch) + Log(b, epoch)
  {
  }

  /** The state in which the first `k` runs of the selection have been tried. */
  ghost function AfterClaims(setup: P.Setup, d: P.Drain, ids: seq<string>, k: nat): P.Drain
    requires k <= |ids| && d.fingerprints != []
  {
    d.(
      rows := D.ClaimedRows(d.rows, ids[..k], setup.pid, P.Epoch(d)),
      phase := P.Claiming(ids[k..]),
      claimed := d.claimed + D.Won(d.rows, ids[..k]),
      log := d.log + Log(D.Won(d.rows, ids[..k]), P.Epoch(d)))
  }

  lemma NextClaim(setup: P.Setup, d: P.Drain, ids: seq<string>, k: nat)
    requires d.fingerprints != [] && D.Distinct(ids) && k < |ids|
    ensures P.Apply(setup, AfterClaims(setup, d, ids, k), P.ClaimHead) == AfterClaims(setup, d, ids, k + 1)
  {
    var epoch := P.Epoch(d);
    assert ids[..k + 1] == ids[..k] + [ids[k]] && ids[..k + 1][..k] == ids[..k];
    assert ids[k..][0] == ids[k] && ids[k..][1..] == ids[k + 1..];
    D.ClaimOneMore(d.rows, ids[..k], ids[k], setup.pid, epoch);
    LogAppend(D.Won(d.rows, ids[..k]), [ids[k]], epoch);
    assert Log([ids[k]], epoch) == [(ids[k], epoch)];
  }

  lemma {:induction false} ClaimsRun(setup: P.Setup, d: P.Drain, ids: seq<string>, k: nat)
    requires d.fingerprints != [] && D.Distinct(ids) && k <= |ids| && d.phase == P.Claiming(ids)
    ensures Run(setup, d, Claims(k)) == AfterClaims(setup, d, ids, k)
  {
    if k == 0 {
      assert D.ClaimedRows(d.rows, [], setup.pid, P.Epoch(d)) == d.rows;
    } else {
      ClaimsRun(setup, d, ids, k - 1);
      RunOne(setup, d, Claims(k - 1), P.ClaimHead);
      NextClaim(setup, d, ids, k - 1);
    }
  }

  /** When nothing of the selection is left to claim, the threads of what was won start. */
  lemma ThreadsStart(setup: P.Setup, d: P.Drain)
    requires d.phase == P.Claiming([]) && d.claimed != [] && d.fingerprints != []
    ensures P.Apply(setup, d, P.ClaimHead) == d.(phase := P.Working, live := P.Members(d.claimed))
  {
  }

  lemma AllClaimed(setup: P.Setup, d: P.Drain, ids: seq<string>)
    requires d.fingerprints != []
    ensures var end := AfterClaims(setup, d, ids, |ids|);
      && end.phase == P.Claiming([]) && end.claimed == d.claimed + D.Won(d.rows, ids)
      && end.log == d.log + Log(D.Won(d.rows, ids), P.Epoch(d)) && end.fingerprints == d.fingerprints
      && end.rows == D.ClaimedRows(d.rows, ids, setup.pid, P.Epoch(d))
  {
    assert ids[..|ids|] == ids && ids[|ids|..] == [];
  }

  /** The threads of a batch have just started. */
  ghost predicate Started(
    setup: P.Setup, d: P.Drain, contested: Rows, ids: seq<string>, epoch: Option<string>)
  {
    && d.phase == P.Working && d.live == P.Members(D.Won(contested, ids))
    && d.rows == D.ClaimedRows(contested, ids, setup.pid, epoch)
  }

  lemma ClaimAll(env: D.Env, setup: P.Setup, d: P.Drain, n: nat, ids: seq<string>) returns (end: P.Drain)
    requires d.fingerprints != [] && D.Distinct(ids) && d.phase == P.Claiming(ids) && d.claimed == []
    requires D.Won(d.rows, ids) != []
    ensures Leads(env, setup, d, n, Claims(|ids| + 1), 0, end)
    ensures Started(setup, end, d.rows, ids, P.Epoch(d)) && end.fingerprints == d.fingerprints
    ensures end.log == d.log + Log(D.Won(d.rows, ids), P.Epoch(d))
  {
    hide P.At;
    hide D.ClaimedRows;
    hide D.Won;
    ClaimsRun(setup, d, ids, |ids|);
    AllClaimed(setup, d, ids);
    RunOne(setup, d, Claims(|ids|), P.ClaimHead);
    ThreadsStart(setup, Run(setup, d, Claims(|ids|)));
    ClaimsHonest(env, setup, d, n, |ids| + 1);
    end := Run(setup, d, Claims(|ids| + 1));
  }

  // ---------- the threads of a batch ----------

  function Ends(ids: seq<string>): seq<P.Step> {
    if ids == [] then [] else Ends(ids[..|ids| - 1]) + [P.ThreadEnds(ids[|ids| - 1])]
  }

  lemma {:induction false} EndsRun(setup: P.Setup, d: P.Drain, ids: seq<string>)
    ensures Run(setup, d, Ends(ids)) == d.(live := d.live - P.Members(ids))
  {
    if ids != [] {
      var front, last := ids[..|ids| - 1], ids[|ids| - 1];
      EndsRun(setup, d, front);
      RunOne(setup, d, Ends(front), P.ThreadEnds(last));
      assert P.Members(ids) == P.Members(front) + {last};
    } else {
      assert d.live - P.Members([]) == d.live;
    }
  }

  /** These threads are due, and their rows are no longer running. */
  ghost predicate MayEnd(env: D.Env, d: P.Drain, ids: seq<string>) {
    forall id | id in ids ::
      id in d.live && Due(env, d.phase, id) && env.pace(id) != D.Stuck && id in d.rows && d.rows[id].lifecycle != Running
  }

  lemma {:induction false} EndsHonest(env: D.Env, setup: P.Setup, d: P.Drain, n: nat, ids: seq<string>)
    requires D.Distinct(ids) && MayEnd(env, d, ids)
    ensures Honest(env, setup, d, n, Ends(ids)) && Selections(Ends(ids)) == 0
  {
    if ids != [] {
      var front, last := ids[..|ids| - 1], ids[|ids| - 1];
      EndsHonest(env, setup, d, n, front);
      EndsRun(setup, d, front);
      assert last in ids && last !in front;
      HonestOne(env, setup, d, n, Ends(front), P.ThreadEnds(last));
    }
  }

  /** The runs whose thread ends with this pace. */
  function Paced(env: D.Env, ids: seq<string>, pace: D.Pace): (paced: seq<string>)
    ensures forall id :: id in paced <==> id in ids && env.pace(id) == pace
    ensures D.Distinct(ids) ==> D.Distinct(paced)
  {
    if ids == [] then []
    else
      var front, last := Paced(env, ids[..|ids| - 1], pace), ids[|ids| - 1];
      assert ids == ids[..|ids| - 1] + [last];
      if env.pace(last) == pace then front + [last] else front
  }

  /** The rows once the threads that are on time have finished. */
  function OnTimeRows(env: D.Env, rows: Rows, ids: seq<string>): Rows {
    map id | id in rows :: if id in ids && env.pace(id) == D.OnTime then D.Settled(env, id, rows[id], false) else rows[id]
  }

  function FinalRows(env: D.Env, rows: Rows, ids: seq<string>): Rows {
    D.AfterWedge(D.AfterThreads(rows, env, ids), env, ids)
  }

  /** The claimed rows of a batch are running, and its live threads are theirs. */
  ghost predicate Underway(d: P.Drain, ids: seq<string>) {
    && d.phase == P.Working && d.live == P.Members(ids) && D.Distinct(ids)
    && forall id | id in ids :: id in d.rows && d.rows[id].lifecycle == Running
  }

  lemma OnTimeSettle(env: D.Env, d: P.Drain, ids: seq<string>)
    requires Underway(d, ids)
    ensures Settles(env, d, OnTimeRows(env, d.rows, ids))
    ensures MayEnd(env, d.(rows := OnTimeRows(env, d.rows, ids)), Paced(env, ids, D.OnTime))
  {
    forall id | id in ids
      ensures D.Settled(env, id, d.rows[id], false).lifecycle != Running
    {
      D.SettledIsClosed(env, id, d.rows[id], false);
    }
  }

  lemma LateSettle(env: D.Env, d: P.Drain, late: P.Drain, ids: seq<string>)
    requires Underway(d, ids) && late.phase == P.Stopped(3) && late.rows == OnTimeRows(env, d.rows, ids)
    requires late.live == d.live - P.Members(Paced(env, ids, D.OnTime))
    ensures Settles(env, late, FinalRows(env, d.rows, ids))
    ensures MayEnd(env, late.(rows := FinalRows(env, d.rows, ids)), Paced(env, ids, D.Late))
  {
    forall id | id in ids
      ensures D.Settled(env, id, d.rows[id], false).lifecycle != Running
    {
      D.SettledIsClosed(env, id, d.rows[id], false);
    }
  }

  /** The threads that are on time finish and end. */
  function Joining(env: D.Env, ids: seq<string>, rows: Rows): seq<P.Step> {
    [P.Others(OnTimeRows(env, rows, ids))] + Ends(Paced(env, ids, D.OnTime))
  }

  lemma LeadsWrite(env: D.Env, setup: P.Setup, d: P.Drain, n: nat, rows: Rows)
    requires Settles(env, d, rows)
    ensures Leads(env, setup, d, n, [P.Others(rows)], 0, d.(rows := rows))
  {
    hide Settles;
    LeadsSingle(env, setup, d, n, P.Others(rows));
  }

  lemma LeadsEnds(env: D.Env, setup: P.Setup, d: P.Drain, n: nat, ids: seq<string>)
    requires MayEnd(env, d, ids) && D.Distinct(ids)
    ensures Leads(env, setup, d, n, Ends(ids), 0, d.(live := d.live - P.Members(ids)))
  {
    hide MayEnd;
    EndsHonest(env, setup, d, n, ids);
    EndsRun(setup, d, ids);
  }

  /** Rows are written, then the threads that wrote them end. */
  lemma FinishAndEnd(env: D.Env, setup: P.Setup, d: P.Drain, n: nat, rows: Rows, ids: seq<string>)
    requires Settles(env, d, rows) && MayEnd(env, d.(rows := rows), ids) && D.Distinct(ids)
    ensures Leads(
      env, setup, d, n, [P.Others(rows)] + Ends(ids), 0, d.(rows := rows, live := d.live - P.Members(ids)))
  {
    LeadsWrite(env, setup, d, n, rows);
    LeadsEnds(env, setup, d.(rows := rows), n, ids);
    hide Leads;
    hide Settles;
    hide MayEnd;
    LeadsOn(
      env, setup, d, n, [P.Others(rows)], 0, d.(rows := rows), Ends(ids), 0,
      d.(rows := rows, live := d.live - P.Members(ids)));
  }

  /** The state after the threads that are on time have ended. */
  ghost function Joined(env: D.Env, d: P.Drain, ids: seq<string>): P.Drain {
    d.(rows := OnTimeRows(env, d.rows, ids), live := d.live - P.Members(Paced(env, ids, D.OnTime)))
  }

  lemma JoiningRun(env: D.Env, setup: P.Setup, d: P.Drain, n: nat, ids: seq<string>)
    requires Underway(d, ids)
    ensures Leads(env, setup, d, n, Joining(env, ids, d.rows), 0, Joined(env, d, ids))
  {
    OnTimeSettle(env, d, ids);
    FinishAndEnd(env, setup, d, n, OnTimeRows(env, d.rows, ids), Paced(env, ids, D.OnTime));
  }

  /** The others after the joins have timed out; the wedge handler settles the stuck ones. */
  function Wedging(env: D.Env, ids: seq<string>, rows: Rows): seq<P.Step> {
    [P.JoinTimesOut] + ([P.Others(FinalRows(env, rows, ids))] + Ends(Paced(env, ids, D.Late)))
  }

  /** The state after a wedge: only the stuck threads are live. */
  ghost function Stalled(env: D.Env, d: P.Drain, ids: seq<string>): P.Drain {
    Joined(env, d, ids).(
      rows := FinalRows(env, d.rows, ids), phase := P.Stopped(3),
      live := Joined(env, d, ids).live - P.Members(Paced(env, ids, D.Late)))
  }

  lemma TimesOut(env: D.Env, setup: P.Setup, d: P.Drain, n: nat)
    requires d.phase == P.Working && d.live != {}
    ensures Leads(env, setup, d, n, [P.JoinTimesOut], 0, d.(phase := P.Stopped(3)))
  {
    LeadsSingle(env, setup, d, n, P.JoinTimesOut);
  }

  lemma WedgingRun(env: D.Env, setup: P.Setup, d: P.Drain, n: nat, ids: seq<string>)
    requires Underway(d, ids) && !D.AllOnTime(env, ids)
    ensures Leads(env, setup, Joined(env, d, ids), n, Wedging(env, ids, d.rows), 0, Stalled(env, d, ids))
  {
    hide Leads;
    hide Settles;
    hide MayEnd;
    hide FinalRows;
    hide OnTimeRows;
    SomeoneLate(env, ids);
    var joined := Joined(env, d, ids);
    var stopped := joined.(phase := P.Stopped(3));
    TimesOut(env, setup, joined, n);
    LateSettle(env, d, stopped, ids);
    FinishAndEnd(env, setup, stopped, n, FinalRows(env, d.rows, ids), Paced(env, ids, D.Late));
    LeadsOn(
      env, setup, joined, n, [P.JoinTimesOut], 0, stopped,
      [P.Others(FinalRows(env, d.rows, ids))] + Ends(Paced(env, ids, D.Late)), 0, Stalled(env, d, ids));
  }

  lemma SomeoneLate(env: D.Env, ids: seq<string>)
    requires !D.AllOnTime(env, ids)
    ensures P.Members(ids) - P.Members(Paced(env, ids, D.OnTime)) != {}
  {
    D.OnTimeEach(env, ids);
    var id :| id in ids && env.pace(id) != D.OnTime;
    assert id in P.Members(ids) - P.Members(Paced(env, ids, D.OnTime));
  }

  lemma NobodyLate(env: D.Env, rows: Rows, ids: seq<string>)
    requires D.AllOnTime(env, ids)
    ensures P.Members(ids) - P.Members(Paced(env, ids, D.OnTime)) == {}
    ensures OnTimeRows(env, rows, ids) == FinalRows(env, rows, ids)
  {
    D.OnTimeEach(env, ids);
  }

  /** From the started threads to the end of the batch: all join, or the drain stops for a wedge. */
  function Joins(env: D.Env, ids: seq<string>, rows: Rows): seq<P.Step> {
    Joining(env, ids, rows) + if D.AllOnTime(env, ids) then [P.Join] else Wedging(env, ids, rows)
  }

  lemma JoinsRun(env: D.Env, setup: P.Setup, d: P.Drain, n: nat, ids: seq<string>) returns (end: P.Drain)
    requires Underway(d, ids)
    ensures Leads(env, setup, d, n, Joins(env, ids, d.rows), 0, end)
    ensures end.rows == FinalRows(env, d.rows, ids) && end.log == d.log && end.fingerprints == d.fingerprints
    ensures end.phase == if D.AllOnTime(env, ids) then P.Deciding(false) else P.Stopped(3)
  {
    hide Leads;
    JoiningRun(env, setup, d, n, ids);
    var joined := Joined(env, d, ids);
    if D.AllOnTime(env, ids) {
      NobodyLate(env, d.rows, ids);
      end := joined.(phase := P.Deciding(false));
      LeadsSingle(env, setup, joined, n, P.Join);
      LeadsOn(env, setup, d, n, Joining(env, ids, d.rows), 0, joined, [P.Join], 0, end);
    } else {
      end := Stalled(env, d, ids);
      WedgingRun(env, setup, d, n, ids);
      LeadsOn(env, setup, d, n, Joining(env, ids, d.rows), 0, joined, Wedging(env, ids, d.rows), 0, end);
    }
  }

  // ---------- one batch ----------

  /** The selection, the rivals' moves, and the claims; they end with the threads' start. */
  function Starting(order: seq<string>, ids: seq<string>, contested: Rows): seq<P.Step> {
    [P.Select(order)] + [P.Others(contested)] + Claims(|ids| + 1)
  }

  lemma SelectRun(
    env: D.Env, setup: P.Setup, d: P.Drain, n: nat, order: seq<string>, ids: seq<string>, contested: Rows)
    returns (end: P.Drain)
    requires P.CanSelect(d, order) && ids == Ids(Greedy(P.Queue(setup, order), setup.limit)) && ids != []
    requires contested == D.AfterRivals(d.rows, env.rivals(n))
    ensures Leads(env, setup, d, n, [P.Select(order)] + [P.Others(contested)], 1, end)
    ensures end == d.(
      rows := contested, phase := P.Claiming(ids), claimed := [], batch := Greedy(P.Queue(setup, order), setup.limit))
  {
    var selected := P.Apply(setup, d, P.Select(order));
    LeadsSingle(env, setup, d, n, P.Select(order));
    LeadsSingle(env, setup, selected, n + 1, P.Others(contested));
    end := selected.(rows := contested);
    LeadsOn(env, setup, d, n, [P.Select(order)], 1, selected, [P.Others(contested)], 0, end);
  }

  lemma StartingRun(
    env: D.Env, setup: P.Setup, d: P.Drain, n: nat, order: seq<string>, ids: seq<string>, contested: Rows)
    returns (end: P.Drain)
    requires P.CanSelect(d, order) && ids == Ids(Greedy(P.Queue(setup, order), setup.limit)) && D.Distinct(ids)
    requires contested == D.AfterRivals(d.rows, env.rivals(n)) && d.fingerprints != [] && D.Won(contested, ids) != []
    ensures Leads(env, setup, d, n, Starting(order, ids, contested), 1, end)
    ensures Started(setup, end, contested, ids, P.Epoch(d)) && end.fingerprints == d.fingerprints
    ensures end.log == d.log + Log(D.Won(contested, ids), P.Epoch(d))
  {
    var selected := SelectRun(env, setup, d, n, order, ids, contested);
    end := ClaimAll(env, setup, selected, n + 1, ids);
    LeadsOn(
      env, setup, d, n, [P.Select(order)] + [P.Others(contested)], 1, selected, Claims(|ids| + 1), 0, end);
  }

  lemma StartedRuns(setup: P.Setup, d: P.Drain, contested: Rows, ids: seq<string>, epoch: Option<string>)
    requires Started(setup, d, contested, ids, epoch) && D.Distinct(ids)
    ensures Underway(d, D.Won(contested, ids))
  {
    D.WonDistinct(contested, ids);
  }

  // ---------- the whole drain ----------

  ghost function Initial(start: Rows, epoch: Option<string>): P.Drain {
    P.Drain(start, P.Deciding(true), [], [], {}, [], [epoch])
  }

  /** Where the protocol stands after these batches. */
  ghost predicate StandsAt(env: D.Env, d: P.Drain, now: Rows, batches: seq<seq<string>>, epoch: Option<string>) {
    && d.rows == now && d.log == Log(D.Flatten(batches), epoch) && d.fingerprints != [] && P.Epoch(d) == epoch
    && |d.fingerprints| == (if batches == [] then 1 else |batches|)
    && d.phase == if batches == [] then P.Deciding(true)
      else if D.Continues(env, batches) then P.Deciding(false) else P.Stopped(3)
  }

  /** The threads of a batch start: they are what is left of a selection from the drain's own store. */
  ghost predicate Launches(
    env: D.Env, limit: nat, epoch: Option<string>, start: Rows, before: Rows, after: Rows, d: P.Drain, b: nat,
    batch: seq<string>)
  {
    exists ids: seq<string> ::
      && IsSelection(before, env.catalog, limit, ids) && batch == D.Won(D.AfterRivals(before, env.rivals(b)), ids)
      && Started(D.SetupOf(env, start, limit), d, D.AfterRivals(before, env.rivals(b)), ids, epoch)
      && after == D.AfterBatch(env, epoch, before, env.rivals(b), ids)
  }

  /** One state per batch, in order, in which exactly the threads of that batch start; `trail` is the store between batches. */
  ghost predicate Exposes(
    env: D.Env, limit: nat, epoch: Option<string>, start: Rows, steps: seq<P.Step>, batches: seq<seq<string>>,
    marks: seq<nat>, trail: seq<Rows>)
  {
    && |marks| == |batches| && |trail| == |batches| + 1 && trail[0] == start
    && (forall b | 0 <= b < |batches| :: marks[b] <= |steps|)
    && (forall b | 0 < b < |batches| :: marks[b - 1] < marks[b])
    && (forall b | 0 <= b < |batches| ::
      Launches(
        env, limit, epoch, start, trail[b], trail[b + 1],
        P.At(D.SetupOf(env, start, limit), Initial(start, epoch), steps, marks[b]), b, batches[b]))
  }

  lemma SelectionDistinct(catalog: Catalog, rows: Rows, order: seq<string>, limit: nat)
    requires IsDrainOrder(rows, order)
    ensures D.Distinct(Ids(Greedy(Entries(catalog, rows, order), limit)))
  {
    Enumerates(order, PendingIds(rows));
    assert Ids(Entries(catalog, rows, order)) == order;
    D.GreedyIds(Entries(catalog, rows, order), limit);
  }

  /** The steps of one more batch, from a state that may select: to the start of its threads, and to its end. */
  lemma TookRun(
    env: D.Env, limit: nat, epoch: Option<string>, start: Rows, d: P.Drain, now: Rows, n: nat, claimed: seq<string>)
    returns (starting: seq<P.Step>, middle: P.Drain, joins: seq<P.Step>, end: P.Drain)
    requires d.phase == P.Deciding(true) && d.fingerprints != [] && P.Epoch(d) == epoch && claimed != []
    requires D.Took(env, limit, epoch, d.rows, now, n, claimed)
    requires d.rows.Keys == start.Keys && forall id | id in start :: d.rows[id].repository == start[id].repository
    ensures Leads(env, D.SetupOf(env, start, limit), d, n, starting, 1, middle) && starting != []
    ensures Leads(env, D.SetupOf(env, start, limit), middle, n + 1, joins, 0, end)
    ensures Launches(env, limit, epoch, start, d.rows, now, middle, n, claimed)
    ensures end.rows == now && end.log == d.log + Log(claimed, epoch) && end.fingerprints == d.fingerprints
    ensures end.phase == if D.AllOnTime(env, claimed) then P.Deciding(false) else P.Stopped(3)
  {
    var setup := D.SetupOf(env, start, limit);
    var contested := D.AfterRivals(d.rows, env.rivals(n));
    var ids: seq<string> :|
      && IsSelection(d.rows, env.catalog, limit, ids) && claimed == D.Won(contested, ids)
      && now == D.AfterBatch(env, epoch, d.rows, env.rivals(n), ids);
    var order: seq<string> :| IsDrainOrder(d.rows, order) && ids == Ids(Greedy(Entries(env.catalog, d.rows, order), limit));
    D.SameQueue(env, start, d.rows, order, limit);
    SelectionDistinct(env.catalog, d.rows, order, limit);
    starting := Starting(order, ids, contested);
    middle := StartingRun(env, setup, d, n, order, ids, contested);
    StartedRuns(setup, middle, contested, ids, epoch);
    joins := Joins(env, claimed, middle.rows);
    end := JoinsRun(env, setup, middle, n + 1, claimed);
  }

  /** Re-reading an unchanged provider lets the next batch begin. */
  lemma ReadRun(env: D.Env, setup: P.Setup, d: P.Drain, n: nat, epoch: Option<string>) returns (end: P.Drain)
    requires d.phase == P.Deciding(false) && d.fingerprints != [] && epoch == P.Epoch(d)
    requires env.fingerprint(|d.fingerprints|) == D.Read(epoch)
    ensures Leads(env, setup, d, n, [P.ReadProvider(epoch)], 0, end)
    ensures end == d.(phase := P.Deciding(true), fingerprints := d.fingerprints + [epoch])
  {
    LeadsSingle(env, setup, d, n, P.ReadProvider(epoch));
    end := P.Apply(setup, d, P.ReadProvider(epoch));
  }

  lemma FlattenSnoc(batches: seq<seq<string>>, epoch: Option<string>)
    requires batches != []
    ensures Log(D.Flatten(batches), epoch)
         == Log(D.Flatten(batches[..|batches| - 1]), epoch) + Log(batches[|batches| - 1], epoch)
  {
    LogAppend(D.Flatten(batches[..|batches| - 1]), batches[|batches| - 1], epoch);
  }

  /** More steps, and one more batch that starts at the end of `first + starting`, keep the earlier states exposed. */
  lemma ExposesMore(
    env: D.Env, limit: nat, epoch: Option<string>, start: Rows, first: seq<P.Step>, starting: seq<P.Step>,
    joins: seq<P.Step>, middle: P.Drain, now: Rows, batches: seq<seq<string>>, marks: seq<nat>, trail: seq<Rows>)
    requires batches != [] && starting != []
    requires Exposes(env, limit, epoch, start, first, batches[..|batches| - 1], marks, trail)
    requires Run(D.SetupOf(env, start, limit), Initial(start, epoch), first + starting) == middle
    requires Launches(
      env, limit, epoch, start, trail[|batches| - 1], now, middle, |batches| - 1, batches[|batches| - 1])
    ensures Exposes(
      env, limit, epoch, start, first + starting + joins, batches, marks + [|first + starting|], trail + [now])
    ensures |trail + [now]| == |batches| + 1 && (trail + [now])[|batches|] == now
  {
    hide Launches;
    hide P.Apply;
    var setup, initial, n := D.SetupOf(env, start, limit), Initial(start, epoch), |batches| - 1;
    var steps, more, states := first + starting + joins, marks + [|first + starting|], trail + [now];
    assert steps == first + (starting + joins);
    forall b | 0 <= b < |batches|
      ensures Launches(env, limit, epoch, start, states[b], states[b + 1], P.At(setup, initial, steps, more[b]), b, batches[b])
    {
      if b < n {
        AtPrefix(setup, initial, first, starting + joins, marks[b]);
        assert batches[..n][b] == batches[b];
      } else {
        AtPrefix(setup, initial, first + starting, joins, |first + starting|);
      }
    }
  }

  /** Extending a run of the protocol by one batch. */
  lemma OneBatchMore(
    env: D.Env, limit: nat, epoch: Option<string>, start: Rows, before: Rows, now: Rows, batches: seq<seq<string>>,
    steps: seq<P.Step>, d: P.Drain, marks: seq<nat>, trail: seq<Rows>)
    returns (all: seq<P.Step>, end: P.Drain, more: seq<nat>, states: seq<Rows>)
    requires batches != [] && D.Continues(env, batches[..|batches| - 1]) && batches[|batches| - 1] != []
    requires D.Took(env, limit, epoch, before, now, |batches| - 1, batches[|batches| - 1])
    requires before.Keys == start.Keys && forall id | id in start :: before[id].repository == start[id].repository
    requires |batches| > 1 ==> env.fingerprint(|batches| - 1) == D.Read(epoch)
    requires Leads(env, D.SetupOf(env, start, limit), Initial(start, epoch), 0, steps, |batches| - 1, d)
    requires StandsAt(env, d, before, batches[..|batches| - 1], epoch)
    requires Exposes(env, limit, epoch, start, steps, batches[..|batches| - 1], marks, trail)
    requires trail[|batches| - 1] == before
    ensures Leads(env, D.SetupOf(env, start, limit), Initial(start, epoch), 0, all, |batches|, end)
    ensures StandsAt(env, end, now, batches, epoch)
    ensures Exposes(env, limit, epoch, start, all, batches, more, states) && states[|batches|] == now
  {
    hide Leads;
    hide Exposes;
    hide Launches;
    hide D.Took;
    hide D.AllOnTime;
    hide P.Members;
    var setup, initial, n := D.SetupOf(env, start, limit), Initial(start, epoch), |batches| - 1;
    var ready, first := d, steps;
    if n > 0 {
      ready := ReadRun(env, setup, d, n, epoch);
      LeadsOn(env, setup, initial, 0, steps, n, d, [P.ReadProvider(epoch)], 0, ready);
      first := steps + [P.ReadProvider(epoch)];
      StillExposes(env, limit, epoch, start, steps, [P.ReadProvider(epoch)], batches[..n], marks, trail);
    }
    var starting, middle, joins;
    starting, middle, joins, end := TookRun(env, limit, epoch, start, ready, now, n, batches[n]);
    LeadsOn(env, setup, initial, 0, first, n, ready, starting, 1, middle);
    LeadsOn(env, setup, initial, 0, first + starting, n + 1, middle, joins, 0, end);
    all, more, states := first + starting + joins, marks + [|first + starting|], trail + [now];
    ExposesMore(env, limit, epoch, start, first, starting, joins, middle, now, batches, marks, trail);
    FlattenSnoc(batches, epoch);
  }

  lemma StillExposes(
    env: D.Env, limit: nat, epoch: Option<string>, start: Rows, steps: seq<P.Step>, later: seq<P.Step>,
    batches: seq<seq<string>>, marks: seq<nat>, trail: seq<Rows>)
    requires Exposes(env, limit, epoch, start, steps, batches, marks, trail)
    ensures Exposes(env, limit, epoch, start, steps + later, batches, marks, trail)
  {
    forall b | 0 <= b < |batches|
      ensures P.At(D.SetupOf(env, start, limit), Initial(start, epoch), steps + later, marks[b])
           == P.At(D.SetupOf(env, start, limit), Initial(start, epoch), steps, marks[b])
    {
      AtPrefix(D.SetupOf(env, start, limit), Initial(start, epoch), steps, later, marks[b]);
    }
  }

  /**
   Whatever a batched drain worked is an honest run of the protocol. It ends where the drain ends,
   its log is the drain's batches in order with the first fingerprint, and it passes, in order,
   through one state per batch in which exactly the threads of that batch start on the rows the
   drain claimed for them.
   */
  lemma {:induction false} DrainRunsProtocol(
    env: D.Env, limit: nat, epoch: Option<string>, start: Rows, now: Rows, batches: seq<seq<string>>)
    returns (steps: seq<P.Step>, end: P.Drain, marks: seq<nat>, trail: seq<Rows>)
    requires D.Worked(env, limit, epoch, start, now, batches)
    requires forall b | 1 <= b < |batches| :: env.fingerprint(b) == D.Read(epoch)
    ensures P.Start(Initial(start, epoch))
    ensures Leads(env, D.SetupOf(env, start, limit), Initial(start, epoch), 0, steps, |batches|, end)
    ensures StandsAt(env, end, now, batches, epoch)
    ensures Exposes(env, limit, epoch, start, steps, batches, marks, trail) && trail[|batches|] == now
    decreases |batches|
  {
    if batches == [] {
      steps, end, marks, trail := [], Initial(start, epoch), [], [start];
    } else {
      var n := |batches| - 1;
      var before: Rows :|
        D.Worked(env, limit, epoch, start, before, batches[..n]) && D.Took(env, limit, epoch, before, now, n, batches[n]);
      D.RepositoriesStay(env, limit, epoch, start, before, batches[..n]);
      steps, end, marks, trail := DrainRunsProtocol(env, limit, epoch, start, before, batches[..n]);
      steps, end, marks, trail := OneBatchMore(env, limit, epoch, start, before, now, batches, steps, end, marks, trail);
    }
  }

  /** What holds of live workers in every state of the protocol holds of the threads of every batch of the loop. */
  lemma ThreadsRunTogether(
    env: D.Env, limit: nat, epoch: Option<string>, start: Rows, now: Rows, r: D.Report, b: nat, one: string, other: string)
    requires D.BatchedPost(env, limit, false, epoch, start, now, r) && D.Account(env, limit, epoch, start, r.batches)
    requires b < |r.batches| && one in r.batches[b] && other in r.batches[b] && one != other
    ensures var setup := D.SetupOf(env, start, limit);
      && |P.Members(r.batches[b])| <= limit
      && !PosixPaths.PathsConflict(setup.entry(one).scope, setup.entry(other).scope)
      && !setup.entry(one).exclusive
  {
    var last: Rows :| D.Worked(env, limit, epoch, start, last, r.batches);
    var steps, end, marks, trail := DrainRunsProtocol(env, limit, epoch, start, last, r.batches);
    ExposedLive(env, limit, epoch, start, steps, r.batches, marks, trail, b);
    P.LiveWorkersAreCompatible(D.SetupOf(env, start, limit), Initial(start, epoch), steps, marks[b], one, other);
  }

  lemma ExposedLive(
    env: D.Env, limit: nat, epoch: Option<string>, start: Rows, steps: seq<P.Step>, batches: seq<seq<string>>,
    marks: seq<nat>, trail: seq<Rows>, b: nat)
    requires Exposes(env, limit, epoch, start, steps, batches, marks, trail) && b < |batches|
    ensures marks[b] <= |steps|
    ensures P.At(D.SetupOf(env, start, limit), Initial(start, epoch), steps, marks[b]).live == P.Members(batches[b])
  {
    hide P.At;
    var d := P.At(D.SetupOf(env, start, limit), Initial(start, epoch), steps, marks[b]);
    LaunchedLive(env, limit, epoch, start, trail[b], trail[b + 1], d, b, batches[b]);
  }

  lemma LaunchedLive(
    env: D.Env, limit: nat, epoch: Option<string>, start: Rows, before: Rows, after: Rows, d: P.Drain, b: nat,
    batch: seq<string>)
    requires Launches(env, limit, epoch, start, before, after, d, b, batch)
    ensures d.live == P.Members(batch)
  {
    hide D.AfterBatch;
    hide D.AfterRivals;
  }
}
