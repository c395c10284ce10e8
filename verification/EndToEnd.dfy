/**
 From the stored request of a run to the row a drain leaves: `_execute_claimed` rebuilds the request
 and executes it, its outcome and its duration decide what the drain records. No other actor
 interferes here, and the provider stays as it is.
 */
module EndToEnd {
  import opened Wrappers
  import opened Lifecycles
  import opened StateStores
  import opened TaskRequests
  import X = Executor
  import D = DrainLoop
  import S = Scheduler
  import P = DrainProtocol

  /**
   One queued run: the request rebuilt from its stored form, if that can be read and is accepted;
   what its execution observes; how long that takes, by the number of its timed phases; and how much
   of that is not spent in them.
   */
  datatype Job = Job(request: Option<TaskRequest>, env: X.Env, elapsed: nat -> real, overhead: real)
  {
    predicate Valid() {
      request.Some? ==>
        && Construct(request.value) == Ok(request.value) && Executable(request.value.testCommands)
        && (X.HasProfile(request.value) ==> request.value.testCommands == [])
    }
  }

  predicate ValidConfig(config: X.Config) {
    config.Valid() && forall name | name in config.testProfiles :: Executable(config.testProfiles[name].commands)
  }

  function JobOf(stored: Option<map<string, Json>>, resolve: string -> string, env: X.Env, elapsed: nat -> real, overhead: real): Job {
    if stored.None? then Job(None, env, elapsed, overhead)
    else
      var request := FromDict(stored.value, resolve);
      Job(if request.Ok? then Some(request.value) else None, env, elapsed, overhead)
  }

  /** Whatever is stored, the job is a valid one; for a submitted request it holds the submitted one. */
  lemma JobOfIsValid(stored: Option<map<string, Json>>, resolve: string -> string, env: X.Env, elapsed: nat -> real, overhead: real)
    ensures JobOf(stored, resolve, env, elapsed, overhead).Valid()
  {
    if stored.Some? && FromDict(stored.value, resolve).Ok? {
      AcceptedIsValid(stored.value, resolve);
      ConstructAcceptsValid(FromDict(stored.value, resolve).value, resolve);
    }
  }

  lemma SubmittedJob(data: map<string, Json>, resolve: string -> string, env: X.Env, elapsed: nat -> real, overhead: real)
    requires FromDict(data, resolve).Ok?
    requires forall raw: string :: resolve(raw) != "" && resolve(resolve(raw)) == resolve(raw)
    ensures JobOf(Some(ToDict(FromDict(data, resolve).value)), resolve, env, elapsed, overhead).request
         == Some(FromDict(data, resolve).value)
  {
    StoredRequestRebuildsEqual(data, resolve);
  }

  /** The run deserves review: an edit that passed every gate, or an accepted read-only run. */
  ghost predicate Reviewable(job: Job, config: X.Config) {
    job.request.Some? &&
    (X.AcceptableReadOnly(job.request.value, config, job.env)
      || exists n :: X.Acceptable(job.request.value, config, job.env, n))
  }

  /** An exception leaves `_execute_claimed`. */
  ghost predicate Raises(job: Job, config: X.Config) {
    job.request.None? || X.TaskRaises(job.request.value, config, job.env)
  }

  /** What executing the run comes to, and the outcome the store should hold for it. */
  ghost function Deserves(job: Job, config: X.Config): D.ExecOutcome {
    if Raises(job, config) then D.Crashed
    else if X.AcceptableReadOnly(job.request.value, config, job.env) then D.Ended(StatusReadOnly)
    else if Reviewable(job, config) then D.Ended(StatusReady)
    else D.Ended(StatusEscalated)
  }

  ghost function DeservedName(job: Job, config: X.Config): string {
    if Raises(job, config) then "runner-crashed"
    else if X.AcceptableReadOnly(job.request.value, config, job.env) then "read-only"
    else if Reviewable(job, config) then "ready-for-review"
    else "escalated"
  }

  /** The timeout the run's phases get. */
  function PhaseLimit(job: Job, config: X.Config): real {
    var effective := X.Effective(config, job.env);
    if effective.Ok? then effective.value.timeoutSeconds else config.timeoutSeconds
  }

  /**
   No phase exceeds its timeout, everything else fits the 60 seconds of slack, and if the commands
   come from a profile, the attempts exceed two full timeouts each by no more than what is left of it.
   */
  ghost predicate WithinLimits(job: Job, config: X.Config) {
    && 0.0 <= job.overhead <= 60.0
    && (forall phases: nat :: job.elapsed(phases) <= phases as real * PhaseLimit(job, config) + job.overhead)
    && (job.request.Some? && X.HasProfile(job.request.value) ==>
      ProfileFits(config, ProfileCommands(job, config), PhaseLimit(job, config), 60.0 - job.overhead))
  }

  /** The launched test commands of one attempt. */
  function ProfileCommands(job: Job, config: X.Config): nat {
    if job.request.None? then 0
    else X.Launched(config.allowedTestBinaries, X.Resolved(job.request.value, config).testCommands)
  }

  ghost predicate ProfileFits(config: X.Config, k: nat, limit: real, slack: real) {
    (config.correctionLimit + 1) as real * ((1 + k) as real * limit - 2.0 * config.timeoutSeconds) <= slack
  }

  function MaxPhases(job: Job, config: X.Config): nat {
    if job.request.None? then 0 else X.PhasesOf(config.correctionLimit + 1, ProfileCommands(job, config))
  }

  function Budget(job: Job, config: X.Config): real {
    X.JoinBudget(config, if job.request.Some? then X.RowTestCommandCount(job.request.value) else 1)
  }

  lemma LimitTightens(job: Job, config: X.Config)
    requires config.Valid()
    ensures 0.0 < PhaseLimit(job, config) <= config.timeoutSeconds
  {
    if X.Effective(config, job.env).Ok? {
      X.TimeoutOnlyTightens(config, job.env);
    }
  }

  /** A run within its limits takes no longer than the drain waits for it. */
  lemma WithinBudget(job: Job, config: X.Config, phases: nat)
    requires config.Valid() && job.Valid() && WithinLimits(job, config) && phases <= MaxPhases(job, config)
    ensures job.elapsed(phases) <= Budget(job, config)
  {
    LimitTightens(job, config);
    var limit := PhaseLimit(job, config);
    assert job.elapsed(phases) <= phases as real * limit + job.overhead;
    if job.request.None? {
      X.PhasesFitBudget(config, 1, 0, 0, phases, limit);
    } else if X.HasProfile(job.request.value) {
      ProfileRunFits(config, ProfileCommands(job, config), phases, limit, 60.0 - job.overhead);
    } else {
      InlineFits(config, job.request.value, phases, limit);
    }
  }

  lemma ProfileRunFits(config: X.Config, k: nat, phases: nat, limit: real, slack: real)
    requires config.Valid() && limit > 0.0 && phases <= X.PhasesOf(config.correctionLimit + 1, k)
    requires ProfileFits(config, k, limit, slack)
    ensures phases as real * limit <= X.JoinBudget(config, 1) - 60.0 + slack
  {
    var rounds, most := config.correctionLimit + 1, X.PhasesOf(config.correctionLimit + 1, k);
    X.ScaledBound(phases as real, most as real, limit, limit);
    X.PhasesScaled(rounds, k, limit);
    X.BudgetOfOne(config);
    X.Distribute(rounds as real, (1 + k) as real * limit, 2.0 * config.timeoutSeconds);
  }

  lemma InlineFits(config: X.Config, request: TaskRequest, phases: nat, limit: real)
    requires config.Valid() && 0.0 < limit <= config.timeoutSeconds && !X.HasProfile(request)
    requires phases
      <= X.PhasesOf(config.correctionLimit + 1, X.Launched(config.allowedTestBinaries, X.Resolved(request, config).testCommands))
    ensures phases as real * limit <= X.JoinBudget(config, X.RowTestCommandCount(request)) - 60.0
  {
    X.PhasesFitBudget(
      config, X.RowTestCommandCount(request), X.Launched(config.allowedTestBinaries, request.testCommands),
      config.correctionLimit + 1, phases, limit);
  }

  /** `_execute_claimed`: what executing a claimed run comes to, and its timed phases. */
  method ExecuteClaimed(job: Job, config: X.Config) returns (outcome: D.ExecOutcome, phases: nat)
    requires ValidConfig(config) && job.Valid()
    ensures outcome == D.Crashed <==> Raises(job, config)
    ensures outcome in {D.Ended(StatusReady), D.Ended(StatusReadOnly)} <==> Reviewable(job, config)
    ensures outcome == Deserves(job, config)
    ensures phases <= MaxPhases(job, config)
  {
    if job.request.None? {
      return D.Crashed, 0;
    }
    var out, trace;
    out, trace, phases := X.ExecuteTask(job.request.value, config, job.env);
    outcome := if out.Raised? then D.Crashed else D.Ended(out.result.status);
    X.AcceptedNeverRaises(job.request.value, config, job.env);
  }

  /** The drain's join of the run's thread does not time out. */
  method InTime(job: Job, config: X.Config, phases: nat) returns (onTime: bool)
    requires config.Valid() && job.Valid() && phases <= MaxPhases(job, config)
    ensures !onTime ==> !WithinLimits(job, config)
  {
    onTime := job.elapsed(phases) <= Budget(job, config);
    if WithinLimits(job, config) {
      WithinBudget(job, config, phases);
    }
  }

  method ExecuteAll(jobs: map<string, Job>, config: X.Config)
    returns (outcomes: map<string, D.ExecOutcome>, late: set<string>)
    requires ValidConfig(config) && forall id | id in jobs :: jobs[id].Valid()
    ensures outcomes.Keys == jobs.Keys && forall id | id in jobs :: outcomes[id] == Deserves(jobs[id], config)
    ensures forall id | id in late :: id in jobs && !WithinLimits(jobs[id], config)
  {
    outcomes, late := map[], {};
    var left := jobs.Keys;
    while left != {}
      invariant outcomes.Keys + left == jobs.Keys && outcomes.Keys !! left
      invariant forall id | id in outcomes :: outcomes[id] == Deserves(jobs[id], config)
      invariant forall id | id in late :: id in jobs && !WithinLimits(jobs[id], config)
      decreases left
    {
      hide Deserves;
      hide WithinLimits;
      var id :| id in left;
      var outcome, phases := ExecuteClaimed(jobs[id], config);
      outcomes := outcomes[id := outcome];
      var onTime := InTime(jobs[id], config, phases);
      if !onTime {
        late := late + {id};
      }
      left := left - {id};
    }
  }

  /** What the drain observes of these jobs. */
  function DrainEnv(
    outcomes: map<string, D.ExecOutcome>, late: set<string>, catalog: S.Catalog, epoch: Option<string>, alive: int -> bool,
    pid: int): D.Env
  {
    D.Env(
      catalog,
      (id: string) => if id in outcomes then outcomes[id] else D.Crashed,
      (id: string) => if id in late then D.Stuck else D.OnTime,
      (id: string) => None,
      (id: string) => None,
      (n: nat) => D.Read(epoch),
      alive,
      (n: nat) => map[],
      pid)
  }

  /** The drain's verdict on the run is the one its request deserves. */
  ghost predicate JudgedRow(row: Row, job: Job, config: X.Config) {
    && row.lifecycle == (if Reviewable(job, config) then ReadyForReview else Blocked)
    && (row.outcome == Some("runner-crashed") <==> Raises(job, config))
    && row.outcome == Some(DeservedName(job, config))
  }

  /** The drain's verdict on each pending run is the one its stored request deserves. */
  ghost predicate Judged(start: Rows, after: Rows, jobs: map<string, Job>, config: X.Config) {
    && after.Keys == start.Keys
    && (forall id | id in PendingIds(start) :: id in jobs && JudgedRow(after[id], jobs[id], config))
    && (forall id | id in start && id !in PendingIds(start) :: after[id] == start[id])
  }

  /** The drain's oracle answers for each pending run what its job comes to. */
  ghost predicate Faithful(env: D.Env, pending: set<string>, jobs: map<string, Job>, config: X.Config) {
    forall id | id in pending :: id in jobs && env.exec(id) == Deserves(jobs[id], config)
  }

  lemma WorkedOffIsJudged(
    env: D.Env, start: Rows, after: Rows, finished: seq<string>, jobs: map<string, Job>, config: X.Config)
    requires D.WorkedOff(env, start, after, finished) && Faithful(env, PendingIds(start), jobs, config)
    ensures Judged(start, after, jobs, config)
  {
    forall id | id in PendingIds(start)
      ensures JudgedRow(after[id], jobs[id], config)
    {
      VerdictIsJudged(env, id, after[id], jobs[id], config);
    }
  }

  /** A row that carries the drain's own verdict is judged. */
  lemma VerdictIsJudged(env: D.Env, id: string, row: Row, job: Job, config: X.Config)
    requires row.lifecycle == D.Verdict(env, id, false).lifecycle && row.outcome == Some(D.Verdict(env, id, false).outcome)
    requires env.exec(id) == Deserves(job, config)
    ensures JudgedRow(row, job, config)
  {
    DeservedVerdict(job, config);
    hide Deserves;
    hide Raises;
  }

  /** The verdict that goes with each outcome, and no two of them share a name. */
  lemma DeservedVerdict(job: Job, config: X.Config)
    ensures Deserves(job, config) == D.Crashed <==> Raises(job, config)
    ensures Deserves(job, config).Ended? ==>
      && (LifecycleOf(Deserves(job, config).status) == ReadyForReview <==> Reviewable(job, config))
      && (LifecycleOf(Deserves(job, config).status) == Blocked <==> !Reviewable(job, config))
      && StatusName(Deserves(job, config).status) == DeservedName(job, config)
      && DeservedName(job, config) != "runner-crashed"
    ensures Raises(job, config) ==> !Reviewable(job, config) && DeservedName(job, config) == "runner-crashed"
  {
    if job.request.Some? {
      X.AcceptedNeverRaises(job.request.value, config, job.env);
    }
    assert |"runner-crashed"| == 14 && |"read-only"| == 9 && |"ready-for-review"| == 16 && |"escalated"| == 9;
    hide X.TaskRaises;
    hide X.Acceptable;
    hide X.AcceptableReadOnly;
  }

  /** Undisturbed, with a stable provider and no thread late. */
  ghost predicate Quiet(env: D.Env) {
    D.NoInterference(env) && D.StableProvider(env) && D.NoWedge(env)
  }

  lemma BatchedJudges(
    env: D.Env, limit: nat, start: Rows, after: Rows, report: D.Report, jobs: map<string, Job>, config: X.Config)
    requires D.BatchedPost(env, limit, false, D.FirstEpoch(env), start, after, report)
    requires Quiet(env) && Faithful(env, PendingIds(start), jobs, config)
    ensures Judged(start, after, jobs, config)
  {
    D.BatchedWorksOff(env, limit, start, after, report);
    WorkedOffIsJudged(env, start, after, D.DocIds(report.processed), jobs, config);
  }

  lemma RaisedRunRaises(
    env: D.Env, start: Rows, after: Rows, report: D.Report, jobs: map<string, Job>, config: X.Config)
    requires D.SequentialPost(env, false, D.FirstEpoch(env), start, after, report) && report.raised.Some?
    requires Faithful(env, PendingIds(start), jobs, config)
    ensures report.raised.value in PendingIds(start) && report.raised.value in jobs
    ensures Raises(jobs[report.raised.value], config)
  {
    hide Deserves;
    hide Raises;
    DeservedVerdict(jobs[report.raised.value], config);
  }

  lemma SequentialJudges(
    env: D.Env, start: Rows, after: Rows, report: D.Report, jobs: map<string, Job>, config: X.Config)
    requires D.SequentialPost(env, false, D.FirstEpoch(env), start, after, report)
    requires Quiet(env) && Faithful(env, PendingIds(start), jobs, config)
    requires forall id | id in PendingIds(start) :: !Raises(jobs[id], config)
    ensures Judged(start, after, jobs, config)
  {
    hide Deserves;
    hide Raises;
    hide Judged;
    hide Faithful;
    hide D.SequentialPost;
    if report.raised.Some? {
      RaisedRunRaises(env, start, after, report, jobs, config);
    }
    D.SequentialWorksOff(env, start, after, report);
    WorkedOffIsJudged(env, start, after, D.DocIds(report.processed), jobs, config);
  }

  /**
   A sequential drain that a raising run ended: that run is left running, the runs reported before
   it are judged, and nothing else was touched.
   */
  ghost predicate Halted(start: Rows, after: Rows, report: D.Report, jobs: map<string, Job>, config: X.Config) {
    && report.raised.Some? && report.raised.value in PendingIds(start) && report.raised.value in jobs
    && Raises(jobs[report.raised.value], config)
    && after.Keys == start.Keys && after[report.raised.value].lifecycle == Running
    && (forall id | id in D.DocIds(report.processed) ::
      id in PendingIds(start) && id in jobs && JudgedRow(after[id], jobs[id], config) && !Raises(jobs[id], config))
    && (forall id | id in start && id !in D.DocIds(report.processed) && id != report.raised.value :: after[id] == start[id])
  }

  lemma NothingRaised(
    env: D.Env, start: Rows, after: Rows, report: D.Report, jobs: map<string, Job>, config: X.Config)
    requires D.SequentialPost(env, false, D.FirstEpoch(env), start, after, report) && report.raised.None?
    requires Quiet(env) && Faithful(env, PendingIds(start), jobs, config)
    ensures forall id | id in PendingIds(start) :: !Raises(jobs[id], config)
  {
    hide Deserves;
    hide Raises;
    D.SequentialWorksOff(env, start, after, report);
    forall id | id in PendingIds(start)
      ensures !Raises(jobs[id], config)
    {
      DeservedVerdict(jobs[id], config);
      assert id in P.Members(D.DocIds(report.processed));
    }
  }

  lemma SequentialHalts(
    env: D.Env, start: Rows, after: Rows, report: D.Report, jobs: map<string, Job>, config: X.Config)
    requires D.SequentialPost(env, false, D.FirstEpoch(env), start, after, report)
    requires Quiet(env) && Faithful(env, PendingIds(start), jobs, config)
    requires exists id | id in PendingIds(start) :: Raises(jobs[id], config)
    ensures Halted(start, after, report, jobs, config)
  {
    hide Deserves;
    hide Raises;
    hide JudgedRow;
    if report.raised.None? {
      NothingRaised(env, start, after, report, jobs, config);
    } else {
      RaisedRunRaises(env, start, after, report, jobs, config);
      D.SequentialStopsAtCrash(env, start, after, report);
      forall id | id in D.DocIds(report.processed)
        ensures id in PendingIds(start) && id in jobs && JudgedRow(after[id], jobs[id], config) && !Raises(jobs[id], config)
      {
        ReportedIsJudged(env, start, after, report, jobs, config, id);
      }
    }
  }

  lemma ReportedIsJudged(
    env: D.Env, start: Rows, after: Rows, report: D.Report, jobs: map<string, Job>, config: X.Config, id: string)
    requires D.SequentialPost(env, false, D.FirstEpoch(env), start, after, report) && report.raised.Some?
    requires Quiet(env) && Faithful(env, PendingIds(start), jobs, config) && id in D.DocIds(report.processed)
    ensures id in PendingIds(start) && id in jobs && JudgedRow(after[id], jobs[id], config) && !Raises(jobs[id], config)
  {
    hide Deserves;
    hide Raises;
    hide JudgedRow;
    assert id in P.Members(D.DocIds(report.processed));
    assert env.meanwhile(id) == None;
    DeservedVerdict(jobs[id], config);
    var claimed := D.Claimed(env, start[id], D.FirstEpoch(env), false);
    D.UndisturbedVerdict(env, id, claimed);
    VerdictIsJudged(env, id, after[id], jobs[id], config);
  }

  lemma DrainEnvIsFaithful(
    outcomes: map<string, D.ExecOutcome>, catalog: S.Catalog, epoch: Option<string>, alive: int -> bool, pid: int,
    pending: set<string>, jobs: map<string, Job>, config: X.Config)
    requires pending <= jobs.Keys && outcomes.Keys == jobs.Keys
    requires forall id | id in jobs :: outcomes[id] == Deserves(jobs[id], config)
    ensures Quiet(DrainEnv(outcomes, {}, catalog, epoch, alive, pid))
    ensures Faithful(DrainEnv(outcomes, {}, catalog, epoch, alive, pid), pending, jobs, config)
  {
  }

  lemma RecoveredPending(rows: Rows, env: D.Env)
    ensures PendingIds(D.Recovered(rows, env)) == PendingIds(rows)
  {
  }

  /**
   A drain over runs within their limits: no thread is ever taken for wedged. After a batched drain,
   and after a sequential one if no pending run raises, a run is ready for review exactly when its
   request passes every gate; every other run of the backlog is blocked, as crashed exactly when its
   execution raises. Otherwise the sequential drain halts at a raising run.
   */
  method DrainJobs(
    rows: Rows, jobs: map<string, Job>, config: X.Config, limit: nat, catalog: S.Catalog, epoch: Option<string>,
    alive: int -> bool, pid: int)
    returns (after: Rows, report: D.Report)
    requires limit >= 1 && D.SafeIds(rows) && ValidConfig(config)
    requires forall id | id in PendingIds(rows) :: id in jobs
    requires forall id | id in jobs :: jobs[id].Valid() && WithinLimits(jobs[id], config)
    ensures limit > 1 || (forall id | id in PendingIds(rows) :: !Raises(jobs[id], config)) ==>
      Judged(Reconciled(rows, alive, "runner-interrupted"), after, jobs, config)
    ensures limit == 1 && (exists id | id in PendingIds(rows) :: Raises(jobs[id], config)) ==>
      Halted(Reconciled(rows, alive, "runner-interrupted"), after, report, jobs, config)
  {
    var outcomes, late := ExecuteAll(jobs, config);
    assert late == {};
    var env := DrainEnv(outcomes, {}, catalog, epoch, alive, pid);
    after, report := D.DrainRows(rows, env, limit);
    RecoveredPending(rows, env);
    DrainEnvIsFaithful(outcomes, catalog, epoch, alive, pid, PendingIds(rows), jobs, config);
    hide Judged;
    hide Halted;
    hide Faithful;
    hide Quiet;
    if limit > 1 {
      BatchedJudges(env, limit, D.Recovered(rows, env), after, report, jobs, config);
    } else if forall id | id in PendingIds(rows) :: !Raises(jobs[id], config) {
      SequentialJudges(env, D.Recovered(rows, env), after, report, jobs, config);
    } else {
      SequentialHalts(env, D.Recovered(rows, env), after, report, jobs, config);
    }
  }
}
