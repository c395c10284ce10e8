/**
 What acceptance of a run means in terms of the request's own commands and paths, the
 configuration's own numbers and the answers of the worker, the tests, Git and the provider.
 */
module Acceptance {
  import opened Wrappers
  import PosixPaths
  import opened TaskRequests
  import opened Policies
  import PolicyFiles
  import opened Executor

  predicate NamesProfile(request: TaskRequest) {
    request.testProfile.Some? && request.testProfile.value != ""
  }

  /** The commands the run is tested with: those of the profile it names, or its own. */
  function CommandsOf(request: TaskRequest, config: Config): seq<seq<string>> {
    if NamesProfile(request) && request.testProfile.value in config.testProfiles
    then config.testProfiles[request.testProfile.value].commands else request.testCommands
  }

  ghost predicate AllAllowed(config: Config, commands: seq<seq<string>>) {
    forall i | 0 <= i < |commands| :: |commands[i]| > 0 && commands[i][0] in config.allowedTestBinaries
  }

  /** At or under one of the roots, part by part. */
  ghost predicate Beneath(path: string, roots: set<string>) {
    exists root | root in roots :: PosixPaths.Parts(root) <= PosixPaths.Parts(path)
  }

  ghost function DeniedRoots(policy: RouterPolicy): set<string> {
    policy.denyPaths + {".git", ".claude-worker-router"}
  }

  lemma DeniedMeans(path: string, policy: RouterPolicy)
    ensures PosixPaths.Denied(path, EnforcedDenies(policy)) <==> Beneath(path, DeniedRoots(policy))
  {
  }

  lemma UnderAnyMeans(path: string, roots: seq<string>)
    ensures PosixPaths.UnderAny(path, roots) <==> Beneath(path, set root | root in roots)
  {
    if PosixPaths.UnderAny(path, roots) {
      var root :| root in roots && PosixPaths.IsPrefix(path, root);
      assert root in (set r | r in roots);
    }
  }

  // ---------- reaching the worker ----------

  /** When the worker is started, spelled out. */
  lemma WorkerReachedExactly(request: TaskRequest, config: Config, env: Env)
    requires Construct(request) == Ok(request)
    ensures ReachesWorker(request, config, env) <==>
      && env.evidence == Opened && env.workerCommand.Some? && env.providerBefore.Fingerprint? && !env.baseRaises
      && (env.isGit ==> env.symlinks == ScanPassed)
      && AllAllowed(config, request.testCommands)
      && (NamesProfile(request) ==>
        && request.testProfile.value in config.testProfiles
        && AllAllowed(config, config.testProfiles[request.testProfile.value].commands)
        && (request.mode == ReadOnly ==> config.testProfiles[request.testProfile.value].commands == []))
      && Effective(config, env).Ok?
      && (Effective(config, env).value.sandboxRequired ==> env.sandboxEnforced)
      && (forall scope | scope in request.allowedPaths :: !Beneath(scope, DeniedRoots(Effective(config, env).value)))
      && !env.prepareRaises
      && (request.mode == Edit ==> env.isGitAtPrepare && env.workspace == Created)
  {
    if Effective(config, env).Ok? {
      forall scope | scope in request.allowedPaths
        ensures PosixPaths.Denied(scope, EnforcedDenies(Effective(config, env).value))
           <==> Beneath(scope, DeniedRoots(Effective(config, env).value))
      {
        DeniedMeans(scope, Effective(config, env).value);
      }
    }
  }

  // ---------- one attempt ----------

  /** The `i`-th command of attempt `n` is allowed, runs to its end and succeeds. */
  predicate CommandPasses(env: Env, config: Config, commands: seq<seq<string>>, n: nat, i: nat)
    requires i < |commands|
  {
    && |commands[i]| > 0 && commands[i][0] in config.allowedTestBinaries
    && env.test(n, i) == TestResult(0, false, false)
  }

  /** The `i`-th command of attempt `n` fails in the ordinary way, or is not allowed and so not launched. */
  predicate CommandFails(env: Env, config: Config, commands: seq<seq<string>>, n: nat, i: nat)
    requires i < |commands|
  {
    (|commands[i]| > 0 && commands[i][0] in config.allowedTestBinaries) ==>
      && env.test(n, i).TestResult? && env.test(n, i).exitCode != 0
      && !env.test(n, i).timedOut && !env.test(n, i).launchFailed
  }

  /** An attempt that passes: its worker succeeds, and every command of a non-empty list passes. */
  lemma PassingAttempt(env: Env, config: Config, commands: seq<seq<string>>, n: nat)
    ensures var tests := TestPhase(env, config.allowedTestBinaries, n, commands);
      (!AnyRaises(tests) && !AnyTimeout(tests) && !AnyLaunchFailure(tests) && AllPassed(tests))
      <==> (|commands| > 0 && forall i | 0 <= i < |commands| :: CommandPasses(env, config, commands, n, i))
  {
    var tests := TestPhase(env, config.allowedTestBinaries, n, commands);
    assert forall i | 0 <= i < |commands| :: tests[i] == TestOutcome(env, config.allowedTestBinaries, n, commands[i], i);
    if !AnyRaises(tests) && !AnyTimeout(tests) && !AnyLaunchFailure(tests) && AllPassed(tests) {
      forall i | 0 <= i < |commands|
        ensures CommandPasses(env, config, commands, n, i)
      {
        assert tests[i].TestResult? && tests[i].exitCode == 0 && !tests[i].timedOut && !tests[i].launchFailed;
      }
    }
    if |commands| > 0 && forall i | 0 <= i < |commands| :: CommandPasses(env, config, commands, n, i) {
      forall i | 0 <= i < |tests|
        ensures tests[i] == TestResult(0, false, false)
      {
        assert CommandPasses(env, config, commands, n, i);
      }
    }
  }

  /** The commands of an attempt all end, none by timeout or failed launch, and not all of them pass. */
  ghost predicate OrdinaryFailure(env: Env, config: Config, commands: seq<seq<string>>, n: nat) {
    && (forall i | 0 <= i < |commands| :: CommandPasses(env, config, commands, n, i) || CommandFails(env, config, commands, n, i))
    && (commands == [] || exists i | 0 <= i < |commands| :: CommandFails(env, config, commands, n, i))
  }

  /** An attempt asks for a correction exactly when it is an edit whose worker succeeds and whose tests fail ordinarily. */
  lemma FailingAttempt(env: Env, config: Config, request: TaskRequest, n: nat)
    ensures AsksForCorrection(env, config, request, n) <==>
      request.mode == Edit && env.worker(n) == WorkerOk && OrdinaryFailure(env, config, request.testCommands, n)
  {
    var commands := request.testCommands;
    var tests := TestPhase(env, config.allowedTestBinaries, n, commands);
    assert forall i | 0 <= i < |commands| :: tests[i] == TestOutcome(env, config.allowedTestBinaries, n, commands[i], i);
    if !Conclusive(tests) {
      forall i | 0 <= i < |commands|
        ensures CommandPasses(env, config, commands, n, i) || CommandFails(env, config, commands, n, i)
      {
        assert !tests[i].TestRaised? && !tests[i].timedOut && !tests[i].launchFailed;
      }
      if commands != [] {
        var i :| 0 <= i < |tests| && !(tests[i].TestResult? && tests[i].exitCode == 0);
        assert CommandFails(env, config, commands, n, i);
      }
    }
    if OrdinaryFailure(env, config, commands, n) {
      forall i | 0 <= i < |tests|
        ensures tests[i].TestResult? && !tests[i].timedOut && !tests[i].launchFailed
      {
        assert CommandPasses(env, config, commands, n, i) || CommandFails(env, config, commands, n, i);
      }
      if commands != [] {
        var i :| 0 <= i < |commands| && CommandFails(env, config, commands, n, i);
        assert tests[i].exitCode != 0;
      }
    }
  }

  // ---------- acceptance ----------

  /** What an accepted edit changed. */
  ghost predicate GoodChange(request: TaskRequest, policy: RouterPolicy, env: Env) {
    && env.binaries == NoBinary && env.changed.Changes?
    && (forall file | file in env.changed.files ::
      Beneath(file, set root | root in request.allowedPaths) && !Beneath(file, DeniedRoots(policy)))
    && |env.changed.files| as real <= policy.maxChangedFiles && env.changed.diffLines as real <= policy.maxDiffLines
  }

  lemma GoodChangeExactly(request: TaskRequest, policy: RouterPolicy, env: Env)
    ensures ChangesAccepted(request, policy, env) <==> GoodChange(request, policy, env)
  {
    if env.changed.Changes? {
      forall file | file in env.changed.files
        ensures PosixPaths.UnderAny(file, request.allowedPaths) <==> Beneath(file, set root | root in request.allowedPaths)
        ensures PosixPaths.Denied(file, EnforcedDenies(policy)) <==> Beneath(file, DeniedRoots(policy))
      {
        UnderAnyMeans(file, request.allowedPaths);
        DeniedMeans(file, policy);
      }
    }
  }

  /**
   Ready for review at attempt `n`, spelled out: an edit that reaches its worker, whose earlier
   attempts asked for a correction, whose last attempt passes every command of the list it is tested
   with, and whose change, provider, commit and evidence are good.
   */
  lemma AcceptedExactly(request: TaskRequest, config: Config, env: Env, n: nat)
    requires ReachesWorker(request, config, env)
    ensures Acceptable(request, config, env, n) <==>
      && request.mode == Edit && 1 <= n <= config.correctionLimit + 1
      && (forall a | 1 <= a < n :: AsksForCorrection(env, config, request.(testCommands := CommandsOf(request, config)), a))
      && env.worker(n) == WorkerOk && |CommandsOf(request, config)| > 0
      && (forall i | 0 <= i < |CommandsOf(request, config)| :: CommandPasses(env, config, CommandsOf(request, config), n, i))
      && GoodChange(request, Effective(config, env).value, env)
      && env.providerAfter == env.providerBefore
      && (env.changed.files != [] ==> env.commit.Committed?)
      && !env.patchRaises && env.evidenceCloses
  {
    var commands := CommandsOf(request, config);
    var own := request.(testCommands := commands);
    assert Resolved(request, config).testCommands == commands;
    forall a: nat
      ensures AsksForCorrection(env, config, Resolved(request, config), a) <==> AsksForCorrection(env, config, own, a)
    {
    }
    PassingAttempt(env, config, commands, n);
    GoodChangeExactly(request, Effective(config, env).value, env);
  }

  /** No policy file can widen what the configuration allows, and without policy files its own numbers decide. */
  lemma BudgetsOfTheConfiguration(config: Config, env: Env)
    requires Effective(config, env).Ok?
    ensures var policy := Effective(config, env).value;
      && policy.maxTurns <= config.maxTurns && policy.timeoutSeconds <= config.timeoutSeconds
      && policy.maxChangedFiles <= config.maxChangedFiles && policy.maxDiffLines <= config.maxDiffLines
    ensures forall file | env.globalFile == Some(file) || env.projectFile == Some(file) ::
      PolicyFiles.ObeysFile(Effective(config, env).value, file)
    ensures env.globalFile.None? && env.projectFile.None? ==>
      Effective(config, env).value == RouterPolicy(
        maxTurns := config.maxTurns, timeoutSeconds := config.timeoutSeconds, maxChangedFiles := config.maxChangedFiles,
        maxDiffLines := config.maxDiffLines, denyPaths := {}, sandboxRequired := false)
  {
    var files := PresentFiles(env.globalFile, env.projectFile);
    PolicyFiles.EffectiveObeys(BasePolicy(config), files);
    forall file | env.globalFile == Some(file) || env.projectFile == Some(file)
      ensures file in files
    {
    }
  }

  /** The join budget is tight: an inline run that exhausts its corrections takes all of it but the slack. */
  lemma BudgetIsTight(request: TaskRequest, config: Config)
    requires request.testCommands != [] && AllAllowed(config, request.testCommands)
    ensures PhasesOf(config.correctionLimit + 1, Launched(config.allowedTestBinaries, request.testCommands)) as real
        * config.timeoutSeconds
      == JoinBudget(config, RowTestCommandCount(request)) - 60.0
  {
    var rounds, k := config.correctionLimit + 1, |request.testCommands|;
    AllLaunched(config.allowedTestBinaries, request.testCommands);
    PhasesProduct(rounds, k);
    RealProduct(rounds, 1 + k);
    assert RowTestCommandCount(request) == k;
  }

  lemma {:induction false} AllLaunched(binaries: set<string>, commands: seq<seq<string>>)
    requires forall i | 0 <= i < |commands| :: |commands[i]| > 0 && commands[i][0] in binaries
    ensures Launched(binaries, commands) == |commands|
  {
    if commands != [] {
      AllLaunched(binaries, commands[..|commands| - 1]);
    }
  }
}
