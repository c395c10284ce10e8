/**
 One execution of a run: the correction loop and the verdict pipeline. The worker, the tests, Git,
 the provider and the evidence files are oracles with arbitrary answers.
 */
module Executor {
  import opened Wrappers
  import opened Lifecycles
  import PosixPaths
  import opened TaskRequests
  import opened Policies

  // ---------- oracles ----------

  /** A worker call whose output cannot be decoded raises instead of returning an outcome. */
  datatype WorkerOutcome = WorkerOk | WorkerFailed(reason: string) | WorkerRaised

  /** So does a test command. */
  datatype TestResult = TestResult(exitCode: int, timedOut: bool, launchFailed: bool) | TestRaised

  datatype Opening = Opened | OpenFailed | OpenRaised

  /** `read_provider_snapshot`: settings that are not text, or whose URL is malformed, raise past the handler. */
  datatype ProviderRead = Fingerprint(value: string) | ConfigError | ReadRaised

  datatype SymlinkScan = ScanPassed | ScanDenied | ScanFailed | ScanRaised

  datatype WorkspaceOutcome = Created | DirtyCheckout | WorktreeFailed

  datatype BinaryScan = NoBinary | BinaryFound | BinaryScanFailed | BinaryScanRaised

  datatype Measured = Changes(files: seq<string>, diffLines: nat) | MeasureFailed | MeasureRaised

  datatype Commit = Committed(sha: string) | CommitFailed | CommitRaised

  /**
   Everything a run can observe. `worker` and `test` answer per attempt, counted from 1. A policy
   file that cannot be read or decoded is one whose document the policy parser refuses. An answer
   that raises, here or in a `…Raises` flag, is an exception no handler of the step catches.
   */
  datatype Env = Env(
    evidence: Opening,
    workerCommand: Option<string>,
    providerBefore: ProviderRead,
    baseRaises: bool,            // reading the branch, HEAD and whether this is a repository
    isGit: bool,
    symlinks: SymlinkScan,
    globalFile: Option<map<string, Toml>>,
    projectFile: Option<map<string, Toml>>,
    sandboxEnforced: bool,
    prepareRaises: bool,         // preparing the workspace
    isGitAtPrepare: bool,
    workspace: WorkspaceOutcome,
    worker: nat -> WorkerOutcome,
    test: (nat, nat) -> TestResult,
    binaries: BinaryScan,
    changed: Measured,
    patchRaises: bool,           // rendering and storing the patch
    providerAfter: ProviderRead,
    commit: Commit,
    evidenceCloses: bool)

  datatype TestProfile = TestProfile(commands: seq<seq<string>>, exclusive: bool)

  datatype Config = Config(
    maxTurns: real,
    timeoutSeconds: real,
    correctionLimit: nat,
    maxChangedFiles: real,
    maxDiffLines: real,
    allowedTestBinaries: set<string>,
    testProfiles: map<string, TestProfile>)
  {
    predicate Valid() {
      maxTurns > 0.0 && timeoutSeconds > 0.0 && maxChangedFiles > 0.0 && maxDiffLines > 0.0
    }
  }

  // ---------- the correction loop ----------

  datatype Event =
    | WorkerStarted(attempt: nat)
    | WorkerFinished(attempt: nat, outcome: WorkerOutcome)
    | TestsStarted(attempt: nat)
    | TestsFailed(reason: string)
    | TestsPassed
    | CorrectionStarted(attempt: nat)

  /** The result an attempt's test phase yields for one command. */
  function TestOutcome(env: Env, binaries: set<string>, attempt: nat, command: seq<string>, index: nat): TestResult {
    if command == [] || command[0] !in binaries then TestResult(126, false, false) else env.test(attempt, index)
  }

  function TestPhase(env: Env, binaries: set<string>, attempt: nat, commands: seq<seq<string>>): seq<TestResult> {
    seq(|commands|, i requires 0 <= i < |commands| => TestOutcome(env, binaries, attempt, commands[i], i))
  }

  /** Some command of the phase raises; then the phase has no results. */
  predicate AnyRaises(tests: seq<TestResult>) {
    exists i | 0 <= i < |tests| :: tests[i].TestRaised?
  }

  predicate AnyTimeout(tests: seq<TestResult>) {
    exists i | 0 <= i < |tests| :: tests[i].TestResult? && tests[i].timedOut
  }

  predicate AnyLaunchFailure(tests: seq<TestResult>) {
    exists i | 0 <= i < |tests| :: tests[i].TestResult? && tests[i].launchFailed
  }

  /** Tests were run and every one passed. */
  predicate AllPassed(tests: seq<TestResult>) {
    tests != [] && forall i | 0 <= i < |tests| :: tests[i].TestResult? && tests[i].exitCode == 0
  }

  /** A test phase that ends the loop, one way or another. */
  predicate Conclusive(tests: seq<TestResult>) {
    AnyRaises(tests) || AnyTimeout(tests) || AnyLaunchFailure(tests) || AllPassed(tests)
  }

  datatype LoopResult = LoopResult(attempts: nat, tests: seq<TestResult>, escalation: Option<string>)

  /** `_run_all_tests`; also counts the commands that were really launched. The first that raises ends the phase. */
  method RunAllTests(env: Env, binaries: set<string>, attempt: nat, commands: seq<seq<string>>)
    returns (raised: bool, results: seq<TestResult>, launched: nat)
    requires Executable(commands)
    ensures raised <==> AnyRaises(TestPhase(env, binaries, attempt, commands))
    ensures !raised ==> results == TestPhase(env, binaries, attempt, commands)
    ensures launched <= Launched(binaries, commands)
    ensures !raised ==> launched == Launched(binaries, commands)
  {
    raised, results, launched := false, [], 0;
    ghost var phase := TestPhase(env, binaries, attempt, commands);
    for i := 0 to |commands|
      invariant !raised && results == phase[..i] && !AnyRaises(phase[..i])
      invariant launched == Launched(binaries, commands[..i])
    {
      assert commands[..i + 1][..i] == commands[..i];
      LaunchedPrefix(binaries, commands, i + 1);
      if commands[i][0] !in binaries {
        results := results + [TestResult(126, false, false)];
      } else {
        var result := env.test(attempt, i);
        launched := launched + 1;
        if result.TestRaised? {
          assert phase[i].TestRaised?;
          return true, results, launched;
        }
        results := results + [result];
      }
    }
    assert commands[..|commands|] == commands && phase[..|commands|] == phase;
  }

  lemma {:induction false} LaunchedPrefix(binaries: set<string>, commands: seq<seq<string>>, n: nat)
    requires n <= |commands|
    ensures Launched(binaries, commands[..n]) <= Launched(binaries, commands)
    decreases |commands| - n
  {
    if n < |commands| {
      assert commands[..n + 1][..n] == commands[..n];
      LaunchedPrefix(binaries, commands, n + 1);
    } else {
      assert commands[..n] == commands;
    }
  }

  /** Commands whose binary is allowed: the test phases that can take time. */
  function Launched(binaries: set<string>, commands: seq<seq<string>>): (n: nat)
    ensures n <= |commands|
  {
    if commands == [] then 0
    else
      var last := commands[|commands| - 1];
      Launched(binaries, commands[..|commands| - 1]) + (if last != [] && last[0] in binaries then 1 else 0)
  }

  /** Timed phases of `attempts` full attempts: one worker call and `launched` test commands each. */
  function PhasesOf(attempts: nat, launched: nat): nat {
    if attempts == 0 then 0 else PhasesOf(attempts - 1, launched) + 1 + launched
  }

  /** One attempt that ends in ordinary test failures and asks for a correction. */
  function FailedRound(n: nat): seq<Event> {
    [WorkerStarted(n), WorkerFinished(n, WorkerOk), TestsStarted(n), TestsFailed("tests-failing"), CorrectionStarted(n + 1)]
  }

  function FailedRounds(n: nat): seq<Event> {
    if n == 0 then [] else FailedRounds(n - 1) + FailedRound(n)
  }

  /** How the last attempt may end; an exception cuts it short while the worker or the tests run. */
  ghost predicate FinalRound(mode: RunMode, n: nat, events: seq<Event>) {
    || events == [WorkerStarted(n)]
    || (exists reason :: events == [WorkerStarted(n), WorkerFinished(n, WorkerFailed(reason))])
    || (mode == ReadOnly && events == [WorkerStarted(n), WorkerFinished(n, WorkerOk)])
    || (mode == Edit && events == [WorkerStarted(n), WorkerFinished(n, WorkerOk), TestsStarted(n)])
    || (mode == Edit && exists end | TestVerdict(end) ::
      events == [WorkerStarted(n), WorkerFinished(n, WorkerOk), TestsStarted(n), end])
  }

  predicate TestVerdict(end: Event) {
    end == TestsPassed || (end.TestsFailed? && end.reason in {"test-timeout", "test-launch-failed", "tests-failing"})
  }

  /** The trace grammar: failed rounds 1 to n - 1, then the final round n. */
  ghost predicate LoopTrace(mode: RunMode, n: nat, trace: seq<Event>) {
    n >= 1 && FailedRounds(n - 1) <= trace && FinalRound(mode, n, trace[|FailedRounds(n - 1)|..])
  }

  /** What an attempt before the last one must have looked like. */
  predicate AsksForCorrection(env: Env, config: Config, request: TaskRequest, attempt: nat) {
    && request.mode == Edit
    && env.worker(attempt) == WorkerOk
    && !Conclusive(TestPhase(env, config.allowedTestBinaries, attempt, request.testCommands))
  }

  /** An exception leaves attempt `n`, from the worker call or from a test command. */
  predicate AttemptRaises(env: Env, config: Config, request: TaskRequest, n: nat) {
    || env.worker(n) == WorkerRaised
    || (env.worker(n) == WorkerOk && request.mode == Edit
      && AnyRaises(TestPhase(env, config.allowedTestBinaries, n, request.testCommands)))
  }

  /** The verdict of the last attempt `n`, from the oracles alone, when nothing raises. */
  function Verdict(env: Env, config: Config, request: TaskRequest, n: nat): LoopResult {
    var tests := TestPhase(env, config.allowedTestBinaries, n, request.testCommands);
    if env.worker(n).WorkerFailed? then
      // a failed correction keeps the results of the attempt before it
      LoopResult(
        n,
        if n <= 1 then [] else TestPhase(env, config.allowedTestBinaries, n - 1, request.testCommands),
        Some(env.worker(n).reason))
    else if request.mode == ReadOnly then LoopResult(n, [], None)
    else if AnyTimeout(tests) then LoopResult(n, tests, Some("test-timeout"))
    else if AnyLaunchFailure(tests) then LoopResult(n, tests, Some("test-launch-failed"))
    else LoopResult(n, tests, None)
  }

  /** What one pass through the loop body comes to. */
  datatype Attempt = Corrects(tests: seq<TestResult>) | Ends(result: LoopResult) | Raises

  /** One pass through the loop body: an ended run, an exception, or the failed tests a correction is asked for. */
  method RunAttempt(request: TaskRequest, config: Config, env: Env, attempt: nat, before: seq<TestResult>)
    returns (outcome: Attempt, round: seq<Event>, launched: nat)
    requires Executable(request.testCommands) && 1 <= attempt <= config.correctionLimit + 1
    requires before
      == if attempt == 1 then [] else TestPhase(env, config.allowedTestBinaries, attempt - 1, request.testCommands)
    ensures outcome.Corrects? <==> AsksForCorrection(env, config, request, attempt) && attempt <= config.correctionLimit
    ensures outcome.Raises? <==> AttemptRaises(env, config, request, attempt)
    ensures outcome.Corrects? ==> round == FailedRound(attempt)
    ensures outcome.Corrects? ==>
      outcome.tests == TestPhase(env, config.allowedTestBinaries, attempt, request.testCommands)
    ensures outcome.Ends? ==> outcome.result == Verdict(env, config, request, attempt)
    ensures !outcome.Corrects? ==> FinalRound(request.mode, attempt, round)
    ensures launched <= Launched(config.allowedTestBinaries, request.testCommands)
    ensures request.mode == Edit && env.worker(attempt) == WorkerOk && !outcome.Raises? ==>
      launched == Launched(config.allowedTestBinaries, request.testCommands)
  {
    launched := 0;
    round := [WorkerStarted(attempt)];
    var finished := env.worker(attempt);
    if finished.WorkerRaised? {
      return Raises, round, launched;
    }
    round := round + [WorkerFinished(attempt, finished)];
    if finished.WorkerFailed? {
      assert round == [WorkerStarted(attempt), WorkerFinished(attempt, WorkerFailed(finished.reason))];
      return Ends(LoopResult(attempt, before, Some(finished.reason))), round, launched;
    }
    if request.mode == ReadOnly {
      assert round == [WorkerStarted(attempt), WorkerFinished(attempt, WorkerOk)];
      return Ends(LoopResult(attempt, [], None)), round, launched;
    }
    round := round + [TestsStarted(attempt)];
    var raised, tests;
    raised, tests, launched := RunAllTests(env, config.allowedTestBinaries, attempt, request.testCommands);
    if raised {
      return Raises, round, launched;
    }
    var end;
    end, outcome := JudgeTests(config, attempt, tests);
    round := round + [end];
    if outcome.Corrects? {
      round := round + [CorrectionStarted(attempt + 1)];
    } else {
      assert round == [WorkerStarted(attempt), WorkerFinished(attempt, WorkerOk), TestsStarted(attempt), end];
    }
  }

  /** What the results of a test phase come to. */
  method JudgeTests(config: Config, attempt: nat, tests: seq<TestResult>) returns (end: Event, outcome: Attempt)
    requires !AnyRaises(tests)
    ensures TestVerdict(end)
    ensures outcome == if !Conclusive(tests) && attempt <= config.correctionLimit then Corrects(tests)
      else Ends(LoopResult(attempt, tests,
        if AnyTimeout(tests) then Some("test-timeout")
        else if AnyLaunchFailure(tests) then Some("test-launch-failed") else None))
    ensures outcome.Corrects? ==> end == TestsFailed("tests-failing")
  {
    end, outcome := TestsPassed, Ends(LoopResult(attempt, tests, None));
    if AnyTimeout(tests) {
      end, outcome := TestsFailed("test-timeout"), Ends(LoopResult(attempt, tests, Some("test-timeout")));
    } else if AnyLaunchFailure(tests) {
      end, outcome := TestsFailed("test-launch-failed"), Ends(LoopResult(attempt, tests, Some("test-launch-failed")));
    } else if !AllPassed(tests) {
      end := TestsFailed("tests-failing");
      if attempt <= config.correctionLimit {
        outcome := Corrects(tests);
      }
    }
  }

  /** The attempt the loop stops at: every earlier one asked for a correction, this one is the last or does not. */
  predicate StopsAt(request: TaskRequest, config: Config, env: Env, n: nat) {
    && 1 <= n <= config.correctionLimit + 1
    && (forall a | 1 <= a < n :: AsksForCorrection(env, config, request, a))
    && (n <= config.correctionLimit ==> !AsksForCorrection(env, config, request, n))
  }

  /**
   `_run_worker_loop`. `phases` counts the worker calls and test commands, each of which is bounded
   by the timeout. The loop is left only from inside its body; without a result when an exception
   leaves the attempt it stops at.
   */
  method RunWorkerLoop(request: TaskRequest, config: Config, env: Env)
    returns (r: Option<LoopResult>, trace: seq<Event>, calls: nat, phases: nat)
    requires Executable(request.testCommands)
    ensures StopsAt(request, config, env, calls)
    ensures r.None? <==> AttemptRaises(env, config, request, calls)
    ensures r.Some? ==> r.value == Verdict(env, config, request, calls)
    ensures LoopTrace(request.mode, calls, trace)
    ensures phases <= PhasesOf(calls, Launched(config.allowedTestBinaries, request.testCommands))
    ensures request.mode == Edit && env.worker(calls) == WorkerOk && r.Some? ==>
      phases == PhasesOf(calls, Launched(config.allowedTestBinaries, request.testCommands))
  {
    var attempts: nat := 0;
    var tests: seq<TestResult> := [];
    trace, calls, phases := [], 0, 0;
    while attempts <= config.correctionLimit
      invariant attempts <= config.correctionLimit
      invariant forall a | 1 <= a <= attempts :: AsksForCorrection(env, config, request, a)
      invariant tests == if attempts == 0 then [] else TestPhase(env, config.allowedTestBinaries, attempts, request.testCommands)
      invariant trace == FailedRounds(attempts)
      invariant calls == attempts
      invariant phases == PhasesOf(attempts, Launched(config.allowedTestBinaries, request.testCommands))
      decreases config.correctionLimit - attempts
    {
      attempts := attempts + 1;
      var outcome, round, launched := RunAttempt(request, config, env, attempts, tests);
      trace, calls, phases := trace + round, calls + 1, phases + 1 + launched;
      if outcome.Corrects? {
        tests := outcome.tests;
      } else {
        EndsWith(request.mode, attempts, trace, round);
        return if outcome.Ends? then Some(outcome.result) else None, trace, calls, phases;
      }
    }
    assert false;
    r := None;
  }

  /** Every attempt the limit permits asks for a correction. */
  predicate Exhausts(request: TaskRequest, config: Config, env: Env) {
    forall a | 1 <= a <= config.correctionLimit + 1 :: AsksForCorrection(env, config, request, a)
  }

  /** When every attempt asks for a correction the loop stops at the last attempt the limit permits. */
  lemma LongestRun(request: TaskRequest, config: Config, env: Env, stop: nat)
    requires StopsAt(request, config, env, stop)
    requires Exhausts(request, config, env)
    ensures stop == config.correctionLimit + 1 && !AttemptRaises(env, config, request, stop)
    ensures request.mode == Edit && env.worker(stop) == WorkerOk
  {
    assert AsksForCorrection(env, config, request, stop);
  }

  lemma EndsWith(mode: RunMode, n: nat, trace: seq<Event>, last: seq<Event>)
    requires n >= 1 && trace == FailedRounds(n - 1) + last && FinalRound(mode, n, last)
    ensures LoopTrace(mode, n, trace)
  {
    assert trace[|FailedRounds(n - 1)|..] == last;
  }

  // ---------- counting events ----------

  function Corrections(trace: seq<Event>): nat {
    if trace == [] then 0
    else Corrections(trace[..|trace| - 1]) + (if trace[|trace| - 1].CorrectionStarted? then 1 else 0)
  }

  function WorkerCalls(trace: seq<Event>): nat {
    if trace == [] then 0
    else WorkerCalls(trace[..|trace| - 1]) + (if trace[|trace| - 1].WorkerStarted? then 1 else 0)
  }

  /** Appending a round: the worker is started by its first event only, a correction by its last at most. */
  lemma CountsAfter(before: seq<Event>, round: seq<Event>)
    requires |round| > 0 && round[0].WorkerStarted?
    requires forall i | 1 <= i < |round| :: !round[i].WorkerStarted?
    requires forall i | 0 <= i < |round| - 1 :: !round[i].CorrectionStarted?
    ensures WorkerCalls(before + round) == WorkerCalls(before) + 1
    ensures Corrections(before + round) == Corrections(before) + if round[|round| - 1].CorrectionStarted? then 1 else 0
  {
    CountsPrefix(before, round, |round|);
  }

  lemma {:induction false} CountsPrefix(before: seq<Event>, round: seq<Event>, k: nat)
    requires k <= |round|
    requires |round| > 0 && round[0].WorkerStarted?
    requires forall i | 1 <= i < |round| :: !round[i].WorkerStarted?
    requires forall i | 0 <= i < |round| - 1 :: !round[i].CorrectionStarted?
    ensures WorkerCalls(before + round[..k]) == WorkerCalls(before) + if k > 0 then 1 else 0
    ensures Corrections(before + round[..k])
         == Corrections(before) + if k == |round| && round[k - 1].CorrectionStarted? then 1 else 0
    ensures k == |round| ==> before + round[..k] == before + round
  {
    var t := before + round[..k];
    if k == 0 {
      assert t == before;
    } else {
      CountsPrefix(before, round, k - 1);
      assert t[..|t| - 1] == before + round[..k - 1];
    }
  }

  lemma {:induction false} FailedRoundsCount(n: nat)
    ensures Corrections(FailedRounds(n)) == n && WorkerCalls(FailedRounds(n)) == n
  {
    if n > 0 {
      FailedRoundsCount(n - 1);
      CountsAfter(FailedRounds(n - 1), FailedRound(n));
    }
  }

  /** In every trace of the loop there is one worker call per attempt and one correction between attempts. */
  lemma TraceCounts(mode: RunMode, n: nat, trace: seq<Event>)
    requires LoopTrace(mode, n, trace)
    ensures WorkerCalls(trace) == n && Corrections(trace) == n - 1
  {
    var rounds := FailedRounds(n - 1);
    assert trace == rounds + trace[|rounds|..];
    FailedRoundsCount(n - 1);
    CountsAfter(rounds, trace[|rounds|..]);
  }

  // ---------- the join budget ----------

  /** `_row_test_command_count`: the inline commands of the stored request, at least one. */
  function RowTestCommandCount(request: TaskRequest): nat {
    if |request.testCommands| > 1 then |request.testCommands| else 1
  }

  /** `_join_budget` */
  function JoinBudget(config: Config, commands: nat): real {
    (config.correctionLimit + 1) as real * (1 + if commands > 1 then commands else 1) as real * config.timeoutSeconds + 60.0
  }

  lemma {:induction false} PhasesProduct(attempts: nat, launched: nat)
    ensures PhasesOf(attempts, launched) == attempts * (1 + launched)
  {
    if attempts > 0 {
      PhasesProduct(attempts - 1, launched);
    }
  }

  lemma ScaledBound(a: real, b: real, t: real, limit: real)
    requires 0.0 <= a <= b && 0.0 <= t <= limit
    ensures a * t <= b * limit
  {
    assert a * t <= b * t <= b * limit;
  }

  lemma ProductOrder(a: nat, b: nat, c: nat, d: nat)
    requires a <= c && b <= d
    ensures a * b <= c * d
  {
    assert a * b <= c * b <= c * d;
  }

  /** All phases of a run, each bounded by the effective timeout, fit the budget of its inline commands. */
  lemma PhasesFitBudget(config: Config, commands: nat, launched: nat, attempts: nat, phases: nat, timeout: real)
    requires config.Valid() && 0.0 < timeout <= config.timeoutSeconds
    requires attempts <= config.correctionLimit + 1 && launched <= commands && phases <= PhasesOf(attempts, launched)
    ensures phases as real * timeout <= JoinBudget(config, commands) - 60.0
  {
    var rounds, width := config.correctionLimit + 1, 1 + if commands > 1 then commands else 1;
    PhasesProduct(attempts, launched);
    ProductOrder(attempts, 1 + launched, rounds, width);
    RealProduct(rounds, width);
    ScaledBound(phases as real, (rounds * width) as real, timeout, config.timeoutSeconds);
  }

  lemma RealProduct(a: nat, b: nat)
    ensures (a * b) as real == a as real * b as real
  {
  }

  lemma PhasesScaled(rounds: nat, k: nat, timeout: real)
    ensures PhasesOf(rounds, k) as real * timeout == rounds as real * ((1 + k) as real * timeout)
  {
    PhasesProduct(rounds, k);
    RealProduct(rounds, 1 + k);
    Associate(rounds as real, (1 + k) as real, timeout);
  }

  lemma Associate(a: real, b: real, c: real)
    ensures a * b * c == a * (b * c)
  {
  }

  lemma BudgetOfOne(config: Config)
    ensures JoinBudget(config, 1) - 60.0 == (config.correctionLimit + 1) as real * (2.0 * config.timeoutSeconds)
  {
    Associate((config.correctionLimit + 1) as real, 2.0, config.timeoutSeconds);
  }

  lemma Distribute(a: real, b: real, c: real)
    ensures a * (b - c) == a * b - a * c
  {
  }

  /**
   The budget counts inline commands only. For a run whose `k` commands come from a profile, the
   longest run the loop permits fits the budget a drain waits for exactly when the attempts together
   exceed two full timeouts each by no more than the 60 seconds of slack. Without touching the slack
   it fits exactly when one attempt fits two full timeouts; with an untightened timeout, when `k` is
   at most 1.
   */
  lemma ProfileFitsBudgetExactly(config: Config, k: nat, timeout: real)
    requires config.Valid() && timeout > 0.0
    ensures PhasesOf(config.correctionLimit + 1, k) as real * timeout <= JoinBudget(config, 1)
       <==> (config.correctionLimit + 1) as real * ((1 + k) as real * timeout - 2.0 * config.timeoutSeconds) <= 60.0
    ensures PhasesOf(config.correctionLimit + 1, k) as real * timeout <= JoinBudget(config, 1) - 60.0
       <==> (1 + k) as real * timeout <= 2.0 * config.timeoutSeconds
    ensures timeout == config.timeoutSeconds ==> ((1 + k) as real * timeout <= 2.0 * config.timeoutSeconds <==> k <= 1)
  {
    var rounds := config.correctionLimit + 1;
    PhasesScaled(rounds, k, timeout);
    BudgetOfOne(config);
    Distribute(rounds as real, (1 + k) as real * timeout, 2.0 * config.timeoutSeconds);
    ScaleOrder(rounds as real, (1 + k) as real * timeout, 2.0 * config.timeoutSeconds);
    if timeout == config.timeoutSeconds {
      ScaleOrder(timeout, (1 + k) as real, 2.0);
    }
  }

  lemma ScaleOrder(factor: real, a: real, b: real)
    requires factor > 0.0
    ensures factor * a <= factor * b <==> a <= b
  {
    if a <= b {
      assert factor * (b - a) >= 0.0;
    } else {
      assert factor * (a - b) > 0.0;
    }
  }

  // ---------- the verdict pipeline ----------

  datatype RunResult = RunResult(
    status: Status,
    commit: Option<string>,
    changedFiles: seq<string>,
    diffLines: nat,
    tests: seq<TestResult>,
    reason: Option<string>,
    attempts: nat)

  /** `execute_task` returns a result, or an exception leaves it. */
  datatype Execution = Returned(result: RunResult) | Raised

  function Escalate(r: RunResult, reason: string): RunResult {
    r.(status := StatusEscalated, reason := Some(reason))
  }

  /** `_finish_result`: the evidence is written last and may still fail. */
  function FinishResult(env: Env, r: RunResult): RunResult {
    if env.evidenceCloses then r else Escalate(r, "evidence-write-failed")
  }

  function BasePolicy(config: Config): RouterPolicy {
    RouterPolicy(config.maxTurns, config.timeoutSeconds, config.maxChangedFiles, config.maxDiffLines, {}, false)
  }

  function Effective(config: Config, env: Env): Result<RouterPolicy, PolicyError> {
    FoldFiles(BasePolicy(config), PresentFiles(env.globalFile, env.projectFile))
  }

  /** The denied paths that are enforced, whatever the policy files say. */
  function EnforcedDenies(policy: RouterPolicy): set<string> {
    policy.denyPaths + BUILTIN_DENY_PATHS
  }

  predicate BinariesAllowed(config: Config, commands: seq<seq<string>>) {
    forall i | 0 <= i < |commands| :: commands[i] != [] && commands[i][0] in config.allowedTestBinaries
  }

  predicate HasProfile(request: TaskRequest) {
    request.testProfile.Some? && request.testProfile.value != ""
  }

  /** The request after its test profile, if any, has replaced the inline commands. */
  function Resolved(request: TaskRequest, config: Config): TaskRequest {
    if HasProfile(request) && request.testProfile.value in config.testProfiles then
      var profile := config.testProfiles[request.testProfile.value];
      request.(testCommands := profile.commands, exclusiveTests := request.exclusiveTests || profile.exclusive)
    else request
  }

  /** The gates that look at the host: evidence, binaries, worker, provider and symbolic links. */
  predicate HostReady(request: TaskRequest, config: Config, env: Env) {
    && env.evidence == Opened
    && BinariesAllowed(config, request.testCommands)
    && env.workerCommand.Some?
    && env.providerBefore.Fingerprint?
    && !env.baseRaises
    && (env.isGit ==> env.symlinks == ScanPassed)
  }

  /** An exception leaves one of these gates: the first that does not pass raises. */
  predicate HostRaises(request: TaskRequest, config: Config, env: Env) {
    || env.evidence == OpenRaised
    || (env.evidence == Opened && BinariesAllowed(config, request.testCommands) && env.workerCommand.Some?
      && (env.providerBefore == ReadRaised
        || (env.providerBefore.Fingerprint? && (env.baseRaises || (env.isGit && env.symlinks == ScanRaised)))))
  }

  predicate ProfileKnown(request: TaskRequest, config: Config) {
    HasProfile(request) ==>
      request.testProfile.value in config.testProfiles
      && BinariesAllowed(config, config.testProfiles[request.testProfile.value].commands)
  }

  /** Every gate before the test profile replaces the request's commands. */
  predicate ReachesProfile(request: TaskRequest, config: Config, env: Env) {
    HostReady(request, config, env) && Effective(config, env).Ok? && ProfileKnown(request, config)
  }

  /** A read-only request with a non-empty profile: replacing its commands raises. */
  predicate ProfileRaises(request: TaskRequest, config: Config) {
    request.mode == ReadOnly && Resolved(request, config).testCommands != []
  }

  lemma ReplaceRaises(request: TaskRequest, config: Config)
    requires Construct(request) == Ok(request) && HasProfile(request)
    ensures Construct(Resolved(request, config)).Err? <==> ProfileRaises(request, config)
  {
  }

  /** The static gates on the resolved request. */
  predicate ScopeReady(resolved: TaskRequest, policy: RouterPolicy, env: Env) {
    && (policy.sandboxRequired ==> env.sandboxEnforced)
    && (forall scope | scope in resolved.allowedPaths :: !PosixPaths.Denied(scope, EnforcedDenies(policy)))
  }

  /** The place the run will work in. */
  predicate PlaceReady(resolved: TaskRequest, policy: RouterPolicy, env: Env) {
    && ScopeReady(resolved, policy, env) && !env.prepareRaises
    && (resolved.mode == Edit ==> env.isGitAtPrepare && env.workspace == Created)
  }

  /** Every gate before the worker starts. */
  predicate ReachesWorker(request: TaskRequest, config: Config, env: Env) {
    && ReachesProfile(request, config, env)
    && !ProfileRaises(request, config)
    && PlaceReady(request, Effective(config, env).value, env)
  }

  /** An exception leaves the gates before the worker, and which step it may come from. */
  predicate PreflightRaises(request: TaskRequest, config: Config, env: Env) {
    || HostRaises(request, config, env)
    || (ReachesProfile(request, config, env)
      && (ProfileRaises(request, config)
        || (ScopeReady(request, Effective(config, env).value, env) && env.prepareRaises)))
  }

  /** Attempt `n` is the one the loop stops at, and it passed. */
  predicate PassesAt(request: TaskRequest, config: Config, env: Env, n: nat) {
    var tests := TestPhase(env, config.allowedTestBinaries, n, request.testCommands);
    && 1 <= n <= config.correctionLimit + 1
    && (forall a | 1 <= a < n :: AsksForCorrection(env, config, request, a))
    && env.worker(n) == WorkerOk
    && !AnyRaises(tests) && !AnyTimeout(tests) && !AnyLaunchFailure(tests) && AllPassed(tests)
  }

  /** What the worker changed is acceptable under the effective policy. */
  predicate ChangesAccepted(request: TaskRequest, policy: RouterPolicy, env: Env) {
    && env.binaries == NoBinary
    && env.changed.Changes?
    && (forall file | file in env.changed.files ::
      PosixPaths.UnderAny(file, request.allowedPaths) && !PosixPaths.Denied(file, EnforcedDenies(policy)))
    && |env.changed.files| as real <= policy.maxChangedFiles
    && env.changed.diffLines as real <= policy.maxDiffLines
  }

  /** The worker wrote outside the request's scope, and nothing binary. */
  predicate OutOfScope(request: TaskRequest, env: Env) {
    && env.binaries == NoBinary && env.changed.Changes?
    && exists file | file in env.changed.files :: !PosixPaths.UnderAny(file, request.allowedPaths)
  }

  /** The same for an edit whose evidence is written: nothing later masks it. */
  predicate OutOfScopeEdit(request: TaskRequest, env: Env) {
    request.mode == Edit && OutOfScope(request, env) && env.evidenceCloses
  }

  /** The worker stayed in scope and within both budgets, but wrote to a denied path. */
  predicate InScopeButDenied(request: TaskRequest, policy: RouterPolicy, env: Env) {
    && env.binaries == NoBinary && env.changed.Changes? && !OutOfScope(request, env)
    && |env.changed.files| as real <= policy.maxChangedFiles
    && env.changed.diffLines as real <= policy.maxDiffLines
    && exists file | file in env.changed.files :: PosixPaths.Denied(file, EnforcedDenies(policy))
  }

  /** Everything `ready-for-review` stands for. */
  predicate Acceptable(request: TaskRequest, config: Config, env: Env, n: nat) {
    && request.mode == Edit
    && ReachesWorker(request, config, env)
    && PassesAt(Resolved(request, config), config, env, n)
    && ChangesAccepted(request, Effective(config, env).value, env)
    && env.providerAfter == env.providerBefore
    && (env.changed.files != [] ==> env.commit.Committed?)
    && !env.patchRaises && env.evidenceCloses
  }

  /** An accepted read-only run: its one worker call succeeded. */
  predicate AcceptableReadOnly(request: TaskRequest, config: Config, env: Env) {
    && request.mode == ReadOnly
    && ReachesWorker(request, config, env)
    && env.worker(1) == WorkerOk
    && env.providerAfter == env.providerBefore
    && env.evidenceCloses
  }

  /** An exception leaves the gates on what an edit changed. */
  predicate GatesRaise(env: Env) {
    || env.binaries == BinaryScanRaised
    || (env.binaries == NoBinary && env.changed == MeasureRaised)
    || env.patchRaises
  }

  /** The accepted change of an edit is about to be committed. */
  ghost predicate ReachesCommit(request: TaskRequest, config: Config, policy: RouterPolicy, env: Env) {
    && request.mode == Edit && (exists n :: PassesAt(request, config, env, n))
    && ChangesAccepted(request, policy, env)
    && env.providerAfter == env.providerBefore && env.changed.files != []
  }

  /** An exception leaves the run after its worker was started. */
  ghost predicate RunRaises(request: TaskRequest, config: Config, policy: RouterPolicy, env: Env) {
    || (exists n :: StopsAt(request, config, env, n) && AttemptRaises(env, config, request, n))
    || (request.mode == Edit && GatesRaise(env))
    || env.providerAfter == ReadRaised
    || (ReachesCommit(request, config, policy, env) && env.commit == CommitRaised)
  }

  /** An exception leaves `execute_task`. */
  ghost predicate TaskRaises(request: TaskRequest, config: Config, env: Env) {
    || PreflightRaises(request, config, env)
    || (ReachesWorker(request, config, env)
      && RunRaises(Resolved(request, config), config, Effective(config, env).value, env))
  }

  // ---------- the reported reason ----------

  /** The first host gate that refuses; nothing if all pass or one raises. */
  function HostRefusal(request: TaskRequest, config: Config, env: Env): Option<string> {
    if env.evidence == OpenFailed then Some("evidence-write-failed")
    else if env.evidence == OpenRaised then None
    else if !BinariesAllowed(config, request.testCommands) then Some("test-binary-not-allowed")
    else if env.workerCommand.None? then Some("worker-launch-failed")
    else if env.providerBefore == ConfigError then Some("provider-config-error")
    else if env.providerBefore == ReadRaised || env.baseRaises then None
    else if env.isGit && env.symlinks == ScanDenied then Some("external-symlink-denied")
    else if env.isGit && env.symlinks == ScanFailed then Some("symlink-scan-failed")
    else None
  }

  function ProfileRefusal(request: TaskRequest, config: Config): Option<string> {
    if !HasProfile(request) then None
    else if request.testProfile.value !in config.testProfiles then Some("test-profile-unknown")
    else if !BinariesAllowed(config, config.testProfiles[request.testProfile.value].commands) then Some("test-binary-not-allowed")
    else None
  }

  function PlaceRefusal(request: TaskRequest, policy: RouterPolicy, env: Env): Option<string> {
    if policy.sandboxRequired && !env.sandboxEnforced then Some("sandbox-unavailable")
    else if exists scope | scope in request.allowedPaths :: PosixPaths.Denied(scope, EnforcedDenies(policy)) then
      Some("policy-path-denied")
    else if env.prepareRaises || request.mode == ReadOnly then None
    else if !env.isGitAtPrepare then Some("non-git-edit-disabled")
    else if env.workspace == DirtyCheckout then Some("dirty-checkout")
    else if env.workspace == WorktreeFailed then Some("worktree-failed")
    else None
  }

  /** Why the worker is not reached: the first gate that refuses. */
  function Refusal(request: TaskRequest, config: Config, env: Env): Option<string> {
    if !HostReady(request, config, env) then HostRefusal(request, config, env)
    else if Effective(config, env).Err? then
      Some(if Effective(config, env).error.Relaxation? then "policy-relaxation-rejected" else "policy-unreadable")
    else if !ProfileKnown(request, config) then ProfileRefusal(request, config)
    else if ProfileRaises(request, config) then None
    else PlaceRefusal(request, Effective(config, env).value, env)
  }

  /** What the loop ends with at its last attempt. */
  function LoopReason(request: TaskRequest, config: Config, env: Env, n: nat): Option<string> {
    var tests := TestPhase(env, config.allowedTestBinaries, n, request.testCommands);
    if env.worker(n).WorkerFailed? then Some(env.worker(n).reason)
    else if request.mode == ReadOnly then None
    else if AnyTimeout(tests) then Some("test-timeout")
    else if AnyLaunchFailure(tests) then Some("test-launch-failed")
    else if AllPassed(tests) then None
    else Some("tests-failed-after-correction")
  }

  /** The first gate on the changes that refuses them. */
  function GateReason(request: TaskRequest, policy: RouterPolicy, env: Env): Option<string> {
    if env.binaries == BinaryFound then Some("binary-change-denied")
    else if env.binaries == BinaryScanFailed || env.changed.MeasureFailed? then Some("git-measure-failed")
    else if !env.changed.Changes? then None
    else if exists file | file in env.changed.files :: !PosixPaths.UnderAny(file, request.allowedPaths) then
      Some("path-scope-exceeded")
    else if |env.changed.files| as real > policy.maxChangedFiles || env.changed.diffLines as real > policy.maxDiffLines then
      Some("scope-exceeded")
    else if exists file | file in env.changed.files :: PosixPaths.Denied(file, EnforcedDenies(policy)) then
      Some("policy-path-denied")
    else None
  }

  /** The last evidence write may still fail, and then says so. */
  function Closing(env: Env, reason: Option<string>): Option<string> {
    if env.evidenceCloses then reason else Some("evidence-write-failed")
  }

  /** What the provider check, the commit and the last evidence write make of the reason. */
  function EndReason(env: Env, commitDue: bool, before: Option<string>): Option<string> {
    Closing(
      env,
      if env.providerAfter != env.providerBefore then
        if before == Some("path-scope-exceeded") then before
        else if env.providerAfter == ConfigError then Some("provider-config-error")
        else Some("provider-configuration-changed")
      else if commitDue && env.commit == CommitFailed then Some("git-commit-failed")
      else before)
  }

  /** Why a run that reached its worker, at attempt `n`, is not ready; nothing if it is ready or read-only. */
  function FinalReason(request: TaskRequest, config: Config, policy: RouterPolicy, env: Env, n: nat): Option<string> {
    var loop := LoopReason(request, config, env, n);
    var gate := if request.mode == Edit then GateReason(request, policy, env) else None;
    var due := request.mode == Edit && loop.None? && gate.None? && env.changed.Changes? && env.changed.files != [];
    EndReason(env, due, if gate.Some? then gate else loop)
  }

  /** The checks of the edit gates, in order; the first that fails overrides the verdict. */
  method GateChanges(request: TaskRequest, policy: RouterPolicy, env: Env, before: RunResult)
    returns (raised: bool, result: RunResult)
    requires before.changedFiles == [] && before.commit.None?
    ensures raised <==> GatesRaise(env)
    ensures !raised && ChangesAccepted(request, policy, env) ==>
      result == before.(changedFiles := env.changed.files, diffLines := env.changed.diffLines)
    ensures !raised && !ChangesAccepted(request, policy, env) ==>
      exists reason :: result == Escalate(before, reason)
    ensures !raised ==>
      result.reason == (if GateReason(request, policy, env).Some? then GateReason(request, policy, env) else before.reason)
    ensures !raised ==> (GateReason(request, policy, env).None? <==> ChangesAccepted(request, policy, env))
    ensures !raised && env.binaries == BinaryFound ==> result == Escalate(before, "binary-change-denied")
    ensures !raised && OutOfScope(request, env) ==> result == Escalate(before, "path-scope-exceeded")
    ensures !raised && InScopeButDenied(request, policy, env) ==> result == Escalate(before, "policy-path-denied")
  {
    raised, result := true, before;
    if env.binaries == BinaryScanRaised {
      return;
    }
    if env.binaries == BinaryFound {
      result := Escalate(result, "binary-change-denied");
    } else if env.binaries == BinaryScanFailed {
      result := Escalate(result, "git-measure-failed");
    } else if env.changed == MeasureRaised {
      return;
    } else if env.changed.MeasureFailed? {
      result := Escalate(result, "git-measure-failed");
    } else {
      var measure := PosixPaths.MeasureChanges(
        env.changed.files, env.changed.diffLines, policy.maxChangedFiles, policy.maxDiffLines, request.allowedPaths);
      if measure == Err(PosixPaths.PathScopeExceeded) {
        result := Escalate(result, "path-scope-exceeded");
      } else if measure.Err? {
        result := Escalate(result, "scope-exceeded");
      } else if exists file | file in measure.value.files :: PosixPaths.Denied(file, EnforcedDenies(policy)) {
        result := Escalate(result, "policy-path-denied");
      } else {
        result := result.(changedFiles := measure.value.files, diffLines := measure.value.diffLines);
      }
    }
    raised := env.patchRaises;
  }

  method HostGates(request: TaskRequest, config: Config, env: Env) returns (refusal: Option<string>, raised: bool)
    ensures raised <==> HostRaises(request, config, env)
    ensures !raised ==> (refusal.None? <==> HostReady(request, config, env))
    ensures refusal.Some? ==> !raised && refusal.value !in {"policy-relaxation-rejected", "policy-unreadable"}
    ensures !raised && refusal.Some? ==> refusal == HostRefusal(request, config, env)
  {
    refusal, raised := None, false;
    if env.evidence != Opened {
      return if env.evidence == OpenRaised then None else Some("evidence-write-failed"), env.evidence == OpenRaised;
    }
    if !BinariesAllowed(config, request.testCommands) {
      return Some("test-binary-not-allowed"), false;
    }
    if env.workerCommand.None? {
      return Some("worker-launch-failed"), false;
    }
    if env.providerBefore == ConfigError {
      return Some("provider-config-error"), false;
    }
    if env.providerBefore == ReadRaised || env.baseRaises || (env.isGit && env.symlinks == ScanRaised) {
      return None, true;
    }
    if env.isGit && env.symlinks != ScanPassed {
      return Some(if env.symlinks == ScanDenied then "external-symlink-denied" else "symlink-scan-failed"), false;
    }
  }

  method PlaceGates(resolved: TaskRequest, policy: RouterPolicy, env: Env) returns (refusal: Option<string>, raised: bool)
    ensures raised <==> ScopeReady(resolved, policy, env) && env.prepareRaises
    ensures !raised ==> (refusal.None? <==> PlaceReady(resolved, policy, env))
    ensures refusal.Some? ==> !raised && refusal.value !in {"policy-relaxation-rejected", "policy-unreadable"}
    ensures refusal.Some? ==> refusal == PlaceRefusal(resolved, policy, env)
  {
    hide PosixPaths.Denied;
    hide EnforcedDenies;
    refusal, raised := None, false;
    if policy.sandboxRequired && !env.sandboxEnforced {
      return Some("sandbox-unavailable"), false;
    }
    if exists scope | scope in resolved.allowedPaths :: PosixPaths.Denied(scope, EnforcedDenies(policy)) {
      return Some("policy-path-denied"), false;
    }
    if env.prepareRaises {
      return None, true;
    }
    if resolved.mode == Edit {
      if !env.isGitAtPrepare {
        return Some("non-git-edit-disabled"), false;
      }
      if env.workspace != Created {
        return Some(if env.workspace == DirtyCheckout then "dirty-checkout" else "worktree-failed"), false;
      }
    }
  }

  /** Replace the commands by those of the profile; constructing the new request may raise. */
  method ResolveProfile(request: TaskRequest, config: Config)
    returns (refusal: Option<string>, raised: bool, resolved: TaskRequest)
    requires Construct(request) == Ok(request)
    ensures refusal.None? <==> ProfileKnown(request, config)
    ensures refusal.Some? ==> refusal.value !in {"policy-relaxation-rejected", "policy-unreadable"}
    ensures raised <==> ProfileKnown(request, config) && ProfileRaises(request, config)
    ensures refusal.Some? ==> refusal == ProfileRefusal(request, config)
    ensures refusal.None? ==> resolved == Resolved(request, config)
  {
    refusal, raised, resolved := None, false, request;
    if HasProfile(request) {
      if request.testProfile.value !in config.testProfiles {
        return Some("test-profile-unknown"), false, request;
      }
      if !BinariesAllowed(config, config.testProfiles[request.testProfile.value].commands) {
        return Some("test-binary-not-allowed"), false, request;
      }
      resolved := Resolved(request, config);
      raised := Construct(resolved).Err?;
      ReplaceRaises(request, config);
    } else {
      NoProfileNoRaise(request, config);
    }
  }

  lemma NoProfileNoRaise(request: TaskRequest, config: Config)
    requires Construct(request) == Ok(request) && !HasProfile(request)
    ensures !ProfileRaises(request, config)
  {
  }

  lemma SamePlace(request: TaskRequest, config: Config, policy: RouterPolicy, env: Env)
    ensures PlaceReady(Resolved(request, config), policy, env) <==> PlaceReady(request, policy, env)
    ensures ScopeReady(Resolved(request, config), policy, env) <==> ScopeReady(request, policy, env)
    ensures PlaceRefusal(Resolved(request, config), policy, env) == PlaceRefusal(request, policy, env)
  {
  }

  /** The gates before the worker; the reason of the first that refuses, or the policy and request to run with. */
  method Preflight(request: TaskRequest, config: Config, env: Env)
    returns (refusal: Option<string>, raised: bool, policy: RouterPolicy, resolved: TaskRequest)
    requires config.Valid() && Construct(request) == Ok(request)
    ensures raised <==> PreflightRaises(request, config, env)
    ensures !raised ==> (refusal.None? <==> ReachesWorker(request, config, env))
    ensures !raised && refusal.Some? ==> refusal == Refusal(request, config, env)
    ensures refusal == Some("policy-relaxation-rejected") ==>
      Effective(config, env).Err? && Effective(config, env).error.Relaxation?
    ensures refusal == Some("policy-unreadable") ==> Effective(config, env) == Err(Malformed)
    ensures !raised && refusal.None? ==>
      policy == Effective(config, env).value && policy.Positive() && resolved == Resolved(request, config)
  {
    policy, resolved := BasePolicy(config), request;
    refusal, raised := HostGates(request, config, env);
    if raised || refusal.Some? {
      return;
    }
    PositiveBase(config);
    var folded := ResolveEffectivePolicy(BasePolicy(config), env.globalFile, env.projectFile);
    if folded.Err? {
      refusal := Some(if folded.error.Relaxation? then "policy-relaxation-rejected" else "policy-unreadable");
      return;
    }
    policy := folded.value;
    refusal, raised, resolved := ResolveProfile(request, config);
    if raised || refusal.Some? {
      return;
    }
    SamePlace(request, config, policy, env);
    refusal, raised := PlaceGates(resolved, policy, env);
  }

  lemma PositiveBase(config: Config)
    requires config.Valid()
    ensures BasePolicy(config).Positive()
  {
  }

  /** The loop's outcome as a status, before any gate has looked at the changes. */
  method LoopVerdict(request: TaskRequest, looped: LoopResult) returns (result: RunResult)
    ensures result.commit == None && result.changedFiles == [] && result.diffLines == 0
    ensures result.tests == looped.tests && result.attempts == looped.attempts
    ensures result.status == StatusReady <==>
      looped.escalation.None? && request.mode == Edit && AllPassed(looped.tests)
    ensures result.status == StatusReadOnly <==> looped.escalation.None? && request.mode == ReadOnly
    ensures result.status == StatusEscalated <==> result.reason.Some?
    ensures result.reason == (
      if looped.escalation.Some? then looped.escalation
      else if request.mode == ReadOnly || AllPassed(looped.tests) then None
      else Some("tests-failed-after-correction"))
  {
    result := RunResult(StatusEscalated, None, [], 0, looped.tests, None, looped.attempts);
    if looped.escalation.Some? {
      result := Escalate(result, looped.escalation.value);
    } else if request.mode == ReadOnly {
      result := result.(status := StatusReadOnly);
    } else if AllPassed(looped.tests) {
      result := result.(status := StatusReady, reason := None);
    } else {
      result := Escalate(result, "tests-failed-after-correction");
    }
  }

  /** The change is committed, if everything so far accepts it. */
  predicate CommitDue(request: TaskRequest, env: Env, before: RunResult) {
    request.mode == Edit && before.status == StatusReady && before.changedFiles != []
    && env.providerAfter == env.providerBefore
  }

  /** The provider check, the commit and the last evidence write. */
  method Conclude(request: TaskRequest, env: Env, before: RunResult) returns (raised: bool, result: RunResult)
    requires env.providerBefore.Fingerprint?
    requires before.commit.None? && (before.status == StatusEscalated <==> before.reason.Some?)
    ensures raised <==>
      env.providerAfter == ReadRaised || (CommitDue(request, env, before) && env.commit == CommitRaised)
    ensures !raised ==>
      && result.changedFiles == before.changedFiles && result.diffLines == before.diffLines
      && result.tests == before.tests && result.attempts == before.attempts
    ensures !raised ==> (result.status == StatusReady <==>
      && before.status == StatusReady && env.providerAfter == env.providerBefore
      && (request.mode == Edit && before.changedFiles != [] ==> env.commit.Committed?) && env.evidenceCloses)
    ensures !raised ==> (result.status == StatusReadOnly <==>
      && before.status == StatusReadOnly && env.providerAfter == env.providerBefore && env.evidenceCloses)
    ensures !raised ==> (result.status == StatusEscalated <==> result.reason.Some?)
    ensures !raised && result.commit.Some? ==>
      before.changedFiles != [] && (result.status == StatusReady || result.reason == Some("evidence-write-failed"))
    ensures !raised && result.status == StatusReady && request.mode == Edit ==>
      (result.commit.Some? <==> before.changedFiles != [])
    ensures !raised && before.reason == Some("path-scope-exceeded") && env.evidenceCloses ==> result.reason == before.reason
    ensures !raised && result.commit.Some? ==> env.commit == Committed(result.commit.value)
    ensures !raised ==> result.reason == EndReason(env, CommitDue(request, env, before), before.reason)
  {
    raised, result := false, before;
    if env.providerAfter == ReadRaised {
      return true, result;
    }
    if env.providerAfter == ConfigError {
      if result.reason != Some("path-scope-exceeded") {
        result := Escalate(result, "provider-config-error");
      }
      return false, FinishResult(env, result);
    }
    if env.providerAfter != env.providerBefore {
      if result.reason != Some("path-scope-exceeded") {
        result := Escalate(result, "provider-configuration-changed");
      }
      return false, FinishResult(env, result);
    }
    if request.mode == Edit && result.status == StatusReady && result.changedFiles != [] {
      match env.commit {
        case Committed(sha) => result := result.(commit := Some(sha));
        case CommitFailed => result := Escalate(result, "git-commit-failed");
        case CommitRaised => return true, result;
      }
    }
    result := FinishResult(env, result);
  }

  /** The loop stops at one attempt only, and that is the one at which it passes, if it does. */
  lemma PassesWhereItStops(request: TaskRequest, config: Config, env: Env, stop: nat, n: nat)
    requires StopsAt(request, config, env, stop)
    ensures PassesAt(request, config, env, n) ==> n == stop
    ensures StopsAt(request, config, env, n) ==> n == stop
  {
    if PassesAt(request, config, env, n) || StopsAt(request, config, env, n) {
      assert stop < n ==> AsksForCorrection(env, config, request, stop);
      assert n < stop ==> AsksForCorrection(env, config, request, n);
    }
  }

  /** An accepted run raises nowhere. */
  lemma AcceptedNeverRaises(request: TaskRequest, config: Config, env: Env)
    ensures AcceptableReadOnly(request, config, env) || (exists n :: Acceptable(request, config, env, n)) ==>
      !TaskRaises(request, config, env)
  {
    if AcceptableReadOnly(request, config, env) {
      StopSettles(Resolved(request, config), config, env, 1);
    }
    if n :| Acceptable(request, config, env, n) {
      StopSettles(Resolved(request, config), config, env, n);
    }
  }

  /** What the loop's own answers amount to, at the attempt it stops at. */
  lemma StopSettles(request: TaskRequest, config: Config, env: Env, stop: nat)
    requires StopsAt(request, config, env, stop)
    ensures forall n | PassesAt(request, config, env, n) :: n == stop
    ensures (exists n :: StopsAt(request, config, env, n) && AttemptRaises(env, config, request, n))
       <==> AttemptRaises(env, config, request, stop)
    ensures (exists n :: PassesAt(request, config, env, n)) <==> PassesAt(request, config, env, stop)
    ensures request.mode == ReadOnly ==> stop == 1
  {
    forall n | PassesAt(request, config, env, n) || StopsAt(request, config, env, n)
      ensures n == stop
    {
      PassesWhereItStops(request, config, env, stop, n);
    }
    assert stop > 1 ==> AsksForCorrection(env, config, request, 1);
  }

  /** The loop, and its verdict as a status, for a run that passed every preflight gate. */
  method RunLoop(request: TaskRequest, config: Config, env: Env)
    returns (verdict: Option<RunResult>, trace: seq<Event>, stop: nat, phases: nat)
    requires Executable(request.testCommands)
    ensures StopsAt(request, config, env, stop) && trace != []
    ensures phases <= PhasesOf(stop, Launched(config.allowedTestBinaries, request.testCommands))
    ensures request.mode == Edit && env.worker(stop) == WorkerOk && verdict.Some? ==>
      phases == PhasesOf(stop, Launched(config.allowedTestBinaries, request.testCommands))
    ensures verdict.None? <==> AttemptRaises(env, config, request, stop)
    ensures verdict.Some? ==> var result := verdict.value;
      && result.commit.None? && result.changedFiles == [] && result.diffLines == 0 && result.attempts == stop
      && (result.status == StatusReady <==> request.mode == Edit && PassesAt(request, config, env, stop))
      && (result.status == StatusReady ==>
        result.tests == TestPhase(env, config.allowedTestBinaries, stop, request.testCommands))
      && (result.status == StatusReadOnly <==> request.mode == ReadOnly && env.worker(1) == WorkerOk)
      && (result.status == StatusEscalated <==> result.reason.Some?)
      && result.reason == LoopReason(request, config, env, stop)
      && result.tests == Verdict(env, config, request, stop).tests
  {
    var looped;
    looped, trace, stop, phases := RunWorkerLoop(request, config, env);
    StopSettles(request, config, env, stop);
    verdict := None;
    if looped.Some? {
      var result := LoopVerdict(request, looped.value);
      verdict := Some(result);
    }
  }

  /** From the first worker call to the last evidence write, for a run that passed every preflight gate. */
  method RunAndJudge(request: TaskRequest, config: Config, policy: RouterPolicy, env: Env)
    returns (raised: bool, r: RunResult, trace: seq<Event>, stop: nat, phases: nat)
    requires Executable(request.testCommands) && env.providerBefore.Fingerprint?
    ensures StopsAt(request, config, env, stop) && trace != []
    ensures phases <= PhasesOf(stop, Launched(config.allowedTestBinaries, request.testCommands))
    ensures Exhausts(request, config, env) ==>
      phases == PhasesOf(config.correctionLimit + 1, Launched(config.allowedTestBinaries, request.testCommands))
    ensures raised <==> RunRaises(request, config, policy, env)
    ensures forall n | PassesAt(request, config, env, n) :: n == stop
    ensures !raised ==> r.attempts == stop
    ensures !raised ==> (r.status == StatusReady <==>
      && request.mode == Edit && PassesAt(request, config, env, stop) && ChangesAccepted(request, policy, env)
      && env.providerAfter == env.providerBefore && (env.changed.files != [] ==> env.commit.Committed?)
      && env.evidenceCloses)
    ensures !raised && r.status == StatusReady ==>
      && r.tests == TestPhase(env, config.allowedTestBinaries, stop, request.testCommands)
      && r.changedFiles == env.changed.files && r.diffLines == env.changed.diffLines
      && (r.commit.Some? <==> r.changedFiles != [])
    ensures !raised && r.commit.Some? ==>
      r.changedFiles != [] && (r.status == StatusReady || r.reason == Some("evidence-write-failed"))
    ensures !raised ==> (r.status == StatusReadOnly <==>
      && request.mode == ReadOnly && env.worker(1) == WorkerOk
      && env.providerAfter == env.providerBefore && env.evidenceCloses)
    ensures !raised ==> (r.status == StatusEscalated <==> r.reason.Some?)
    ensures !raised && r.commit.Some? ==> env.commit == Committed(r.commit.value)
    ensures !raised ==> r.tests == Verdict(env, config, request, stop).tests
    ensures !raised ==>
      var kept := request.mode == Edit && ChangesAccepted(request, policy, env);
      && r.changedFiles == (if kept then env.changed.files else [])
      && r.diffLines == (if kept then env.changed.diffLines else 0)
    ensures !raised ==> r.reason == FinalReason(request, config, policy, env, stop)
    ensures !raised && OutOfScopeEdit(request, env) ==>
      r.reason == Some("path-scope-exceeded")
  {
    raised := false;
    var verdict;
    verdict, trace, stop, phases := RunLoop(request, config, env);
    StopSettles(request, config, env, stop);
    if Exhausts(request, config, env) {
      LongestRun(request, config, env, stop);
    }
    if verdict.None? {
      return true, NoResult(), trace, stop, phases;
    }
    r := verdict.value;
    if request.mode == Edit {
      raised, r := GateChanges(request, policy, env, r);
      if raised {
        return;
      }
    }
    raised, r := Conclude(request, env, r);
  }

  function NoResult(): RunResult {
    RunResult(StatusEscalated, None, [], 0, [], None, 0)
  }

  /**
   `execute_task`. A run is ready for review exactly when every gate, the loop and every later
   check accept it. `phases` counts the timed phases: worker calls and launched test commands.
   */
  method ExecuteTask(request: TaskRequest, config: Config, env: Env)
    returns (out: Execution, trace: seq<Event>, phases: nat)
    requires config.Valid() && Construct(request) == Ok(request) && Executable(request.testCommands)
    requires forall name | name in config.testProfiles :: Executable(config.testProfiles[name].commands)
    ensures out.Raised? <==> TaskRaises(request, config, env)
    ensures trace != [] <==> ReachesWorker(request, config, env)
    ensures out.Returned? ==> (out.result.status == StatusReady <==> Acceptable(request, config, env, out.result.attempts))
    ensures out.Returned? ==> forall n | Acceptable(request, config, env, n) :: n == out.result.attempts
    ensures out.Returned? && out.result.status == StatusReady ==>
      && out.result.tests
        == TestPhase(env, config.allowedTestBinaries, out.result.attempts, Resolved(request, config).testCommands)
      && out.result.changedFiles == env.changed.files && out.result.diffLines == env.changed.diffLines
      && (out.result.commit.Some? <==> out.result.changedFiles != [])
    ensures out.Returned? && out.result.commit.Some? ==>
      && out.result.changedFiles != []
      && (out.result.status == StatusReady || out.result.reason == Some("evidence-write-failed"))
    ensures out.Returned? ==> (out.result.status == StatusReadOnly <==> AcceptableReadOnly(request, config, env))
    ensures out.Returned? ==> (out.result.status == StatusEscalated <==> out.result.reason.Some?)
    ensures out.Returned? && out.result.commit.Some? ==> env.commit == Committed(out.result.commit.value)
    ensures out.Returned? && ReachesWorker(request, config, env) ==>
      && StopsAt(Resolved(request, config), config, env, out.result.attempts)
      && out.result.tests == Verdict(env, config, Resolved(request, config), out.result.attempts).tests
      && var kept := request.mode == Edit && ChangesAccepted(request, Effective(config, env).value, env);
      && out.result.changedFiles == (if kept then env.changed.files else [])
      && out.result.diffLines == (if kept then env.changed.diffLines else 0)
      && out.result.reason == FinalReason(
        Resolved(request, config), config, Effective(config, env).value, env, out.result.attempts)
    ensures out.Returned? && !ReachesWorker(request, config, env) ==>
      && Refusal(request, config, env).Some?
      && out.result == RunResult(
        StatusEscalated, None, [], 0, [], Closing(env, Refusal(request, config, env)), 0)
    ensures out.Returned? && ReachesWorker(request, config, env) && OutOfScopeEdit(request, env) ==>
      out.result.reason == Some("path-scope-exceeded")
    ensures phases <=
      PhasesOf(config.correctionLimit + 1, Launched(config.allowedTestBinaries, Resolved(request, config).testCommands))
    ensures ReachesWorker(request, config, env) && Exhausts(Resolved(request, config), config, env) ==>
      phases
        == PhasesOf(config.correctionLimit + 1, Launched(config.allowedTestBinaries, Resolved(request, config).testCommands))
  {
    trace, phases := [], 0;
    var refusal, raised, policy, resolved := Preflight(request, config, env);
    if raised {
      return Raised, trace, phases;
    }
    if refusal.Some? {
      var result := Escalate(NoResult(), refusal.value);
      return Returned(if refusal.value == "evidence-write-failed" then result else FinishResult(env, result)), trace, phases;
    }
    var result, stop;
    raised, result, trace, stop, phases := RunAndJudge(resolved, config, policy, env);
    PhasesGrow(stop, config.correctionLimit + 1, Launched(config.allowedTestBinaries, resolved.testCommands));
    out := if raised then Raised else Returned(result);
  }

  lemma {:induction false} PhasesGrow(few: nat, many: nat, launched: nat)
    requires few <= many
    ensures PhasesOf(few, launched) <= PhasesOf(many, launched)
    decreases many
  {
    if few < many {
      PhasesGrow(few, many - 1, launched);
    }
  }

  /** Policy files can only tighten the worker and test timeout. */
  lemma TimeoutOnlyTightens(config: Config, env: Env)
    requires config.Valid() && Effective(config, env).Ok?
    ensures 0.0 < Effective(config, env).value.timeoutSeconds <= config.timeoutSeconds
  {
    PositiveBase(config);
    EffectivePositive(BasePolicy(config), PresentFiles(env.globalFile, env.projectFile));
    assert Effective(config, env).value.Limit(TimeoutSeconds) > 0.0;
    EffectiveBelowFloor(BasePolicy(config), PresentFiles(env.globalFile, env.projectFile));
    assert Effective(config, env).value.Limit(TimeoutSeconds) <= BasePolicy(config).Limit(TimeoutSeconds);
  }

  /** A timeout under which an execution may run: the configured one, tightened by the policy files. */
  predicate RunsWith(config: Config, env: Env, timeout: real) {
    Effective(config, env).Ok? && Effective(config, env).value.timeoutSeconds == timeout
  }

  /**
   For inline test commands the limits of all timed phases of an execution add up to at most the
   join budget less its 60 seconds of slack, also when the policy files have tightened the timeout.
   */
  lemma ExecutionFitsJoinBudget(request: TaskRequest, config: Config, env: Env, phases: nat, timeout: real)
    requires config.Valid() && RunsWith(config, env, timeout)
    requires phases <= PhasesOf(config.correctionLimit + 1, Launched(config.allowedTestBinaries, request.testCommands))
    ensures phases as real * timeout <= JoinBudget(config, RowTestCommandCount(request)) - 60.0
  {
    TimeoutOnlyTightens(config, env);
    PhasesFitBudget(
      config, RowTestCommandCount(request), Launched(config.allowedTestBinaries, request.testCommands),
      config.correctionLimit + 1, phases, timeout);
  }

  // ---------- two runs that go wrong ----------

  /** A read-only request that names a test profile. */
  function ReadOnlyWithProfile(): map<string, Json> {
    map["repository" := JString("r"), "task" := JString("t"), "mode" := JString("read-only"), "test_profile" := JString("p")]
  }

  /** A profile of `commands` allowed commands, a limit of one correction and 100 seconds per phase. */
  function ProfileConfig(commands: seq<seq<string>>): Config {
    Config(10.0, 100.0, 1, 10.0, 10.0, {"pytest"}, map["p" := TestProfile(commands, false)])
  }

  /** Everything passes, except that every test fails. */
  function FailingTests(): Env {
    Env(
      Opened, Some("claude"), Fingerprint("f"), false, true, ScanPassed, None, None, true, false, true, Created,
      (n: nat) => WorkerOk, (n: nat, i: nat) => TestResult(1, false, false),
      NoBinary, Changes([], 0), false, Fingerprint("f"), Committed("c"), true)
  }

  /** Validation accepts the document, every gate passes, and replacing the commands raises. */
  lemma AcceptedRequestRaises() returns (request: TaskRequest, config: Config)
    ensures FromDict(ReadOnlyWithProfile(), path => path) == Ok(request) && config.Valid()
    ensures HostReady(request, config, FailingTests()) && ReachesProfile(request, config, FailingTests())
    ensures ProfileRaises(request, config) && TaskRaises(request, config, FailingTests())
  {
    request, config := TaskRequest("r", "t", [], ReadOnly, [], [], false, Some("p")), ProfileConfig([["pytest"]]);
    DocumentAccepted();
    NoPolicyFiles(config);
  }

  lemma DocumentAccepted()
    ensures FromDict(ReadOnlyWithProfile(), path => path)
         == Ok(TaskRequest("r", "t", [], ReadOnly, [], [], false, Some("p")))
  {
    var data := ReadOnlyWithProfile();
    assert StripRight("t") == "t" && StripLeft("t") == "t";
    assert EncodeStrings([]).items == [];
    StringsRoundTrip([], BadCriteria);
    StringsRoundTrip([], BadAllowedPaths);
    assert Get(data, "test_profile", JNull) == JString("p");
    assert "read-only" != "edit" by {
      assert |"read-only"| != |"edit"|;
    }
  }

  /** An edit whose test commands come from the profile. */
  function EditWithProfile(scope: string): TaskRequest {
    TaskRequest("r", "t", [], Edit, [], [scope], false, Some("p"))
  }

  /** A scope no built-in denial covers. */
  predicate PlainScope(scope: string) {
    PosixPaths.Plain(scope) && scope != ".." && scope !in BUILTIN_DENY_PATHS
  }

  /**
   The budget of an accepted request is too short: both attempts run to the end, each with a worker
   call and two tests, which is six phases of 100 seconds, while the drain waits 460 seconds.
   */
  method ProfileOutlastsBudget(scope: string) returns (config: Config, out: Execution, phases: nat)
    requires PlainScope(scope)
    ensures config.Valid() && FromDict(ToDict(EditWithProfile(scope)), path => path) == Ok(EditWithProfile(scope))
    ensures RunsWith(config, FailingTests(), config.timeoutSeconds)
    ensures phases == 6
    ensures phases as real * config.timeoutSeconds > JoinBudget(config, RowTestCommandCount(EditWithProfile(scope)))
  {
    var trace;
    config := ProfileConfig([["pytest"], ["pytest"]]);
    var request := EditWithProfile(scope);
    EditConstructs(scope);
    EditAccepted(scope, path => path);
    EditReachesWorker(scope, config);
    FailingTestsExhaust(Resolved(request, config), config);
    TwoLaunched(config.allowedTestBinaries, Resolved(request, config).testCommands);
    out, trace, phases := ExecuteTask(request, config, FailingTests());
    assert PhasesOf(2, 2) == PhasesOf(1, 2) + 3 && PhasesOf(1, 2) == 3;
  }

  /** The edit is what validation makes of its own stored form. */
  lemma EditAccepted(scope: string, resolve: string -> string)
    requires PlainScope(scope) && resolve("r") == "r"
    ensures FromDict(ToDict(EditWithProfile(scope)), resolve) == Ok(EditWithProfile(scope))
  {
    PosixPaths.PlainPath(scope);
    EditIsValid(scope, resolve);
    ValidRoundTrips(EditWithProfile(scope), resolve);
  }

  lemma EditIsValid(scope: string, resolve: string -> string)
    requires PlainScope(scope) && resolve("r") == "r" && PosixPaths.Normalize(scope).Ok?
    ensures Valid(EditWithProfile(scope), resolve)
  {
    assert StripLeft("t") == "t" && StripRight("t") == "t";
    assert "r" != "" && EditWithProfile(scope).repository == resolve("r");
  }

  lemma EditConstructs(scope: string)
    requires PlainScope(scope)
    ensures Construct(EditWithProfile(scope)) == Ok(EditWithProfile(scope))
  {
    PosixPaths.PlainPath(scope);
    NormalizeAllIsFilter([scope]);
    assert AllNormal([scope]);
  }

  /** Without policy files the configuration is the policy. */
  lemma NoPolicyFiles(config: Config)
    ensures Effective(config, FailingTests()) == Ok(BasePolicy(config))
    ensures EnforcedDenies(BasePolicy(config)) == BUILTIN_DENY_PATHS
  {
    assert PresentFiles(None, None) == [];
  }

  lemma BuiltinsPlain()
    ensures forall deny | deny in BUILTIN_DENY_PATHS :: PosixPaths.Plain(deny) && deny != ".."
  {
  }

  lemma EditReachesWorker(scope: string, config: Config)
    requires PlainScope(scope) && config == ProfileConfig([["pytest"], ["pytest"]])
    ensures RunsWith(config, FailingTests(), config.timeoutSeconds)
    ensures ReachesWorker(EditWithProfile(scope), config, FailingTests())
  {
    NoPolicyFiles(config);
    BuiltinsPlain();
    PosixPaths.PlainNotDenied(scope, BUILTIN_DENY_PATHS);
    EditReachesProfile(scope, config);
  }

  lemma EditReachesProfile(scope: string, config: Config)
    requires config == ProfileConfig([["pytest"], ["pytest"]]) && Effective(config, FailingTests()).Ok?
    ensures ReachesProfile(EditWithProfile(scope), config, FailingTests())
    ensures !ProfileRaises(EditWithProfile(scope), config)
  {
  }

  lemma TwoLaunched(binaries: set<string>, commands: seq<seq<string>>)
    requires |commands| == 2 && commands[0] != [] && commands[0][0] in binaries && commands[1] != [] && commands[1][0] in binaries
    ensures Launched(binaries, commands) == 2
  {
    assert commands[..1] == [commands[0]];
    assert commands[..1][..0] == [];
  }

  lemma FailingTestsExhaust(request: TaskRequest, config: Config)
    requires request.mode == Edit && request.testCommands != [] && BinariesAllowed(config, request.testCommands)
    ensures Exhausts(request, config, FailingTests())
  {
    forall a | 1 <= a <= config.correctionLimit + 1
      ensures AsksForCorrection(FailingTests(), config, request, a)
    {
      var tests := TestPhase(FailingTests(), config.allowedTestBinaries, a, request.testCommands);
      assert forall i | 0 <= i < |tests| :: tests[i] == TestResult(1, false, false);
      assert tests[0].exitCode != 0;
    }
  }
}
