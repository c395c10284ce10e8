/**
 Fast-forward integration over a commit graph. Several integrators run at once: each passes the
 lifecycle gate, then the base check, then takes the repository lock, merges with
 `git merge --ff-only` and records HEAD. Runs record their base, create a worktree and commit;
 the operator commits to the target branch; store statements of RunProtocol interleave with all of it.
 */
module Integration {
  import opened Wrappers
  import opened Lifecycles
  import opened StateStores
  import P = RunProtocol

  // ---------- commit graph ----------

  /** Commits in the order they were made; a commit's parents exist before it does. */
  type Graph = seq<set<nat>>

  ghost predicate WellFounded(g: Graph) {
    forall c | 0 <= c < |g| :: forall p | p in g[c] :: p < c
  }

  /** `git merge-base --is-ancestor a b` */
  predicate Ancestor(g: Graph, a: nat, b: nat)
    requires b < |g|
    decreases b
  {
    a == b || exists p | p in g[b] :: p < b && Ancestor(g, a, p)
  }

  lemma {:induction false} AncestorOrder(g: Graph, a: nat, b: nat)
    requires b < |g|
    ensures Ancestor(g, a, b) ==> a <= b
    decreases b
  {
    if Ancestor(g, a, b) && a != b {
      var p :| p in g[b] && p < b && Ancestor(g, a, p);
      AncestorOrder(g, a, p);
    }
  }

  lemma {:induction false} AncestorTransitive(g: Graph, a: nat, b: nat, c: nat)
    requires b < |g| && c < |g|
    ensures Ancestor(g, a, b) && Ancestor(g, b, c) ==> Ancestor(g, a, c)
    decreases c
  {
    if Ancestor(g, a, b) && Ancestor(g, b, c) && b != c {
      var p :| p in g[c] && p < c && Ancestor(g, b, p);
      AncestorTransitive(g, a, b, p);
    }
  }

  lemma {:induction false} AncestorStable(g: Graph, parents: set<nat>, a: nat, b: nat)
    requires b < |g|
    ensures Ancestor(g + [parents], a, b) <==> Ancestor(g, a, b)
    decreases b
  {
    forall p | p in g[b] && p < b
      ensures Ancestor(g + [parents], a, p) <==> Ancestor(g, a, p)
    {
      AncestorStable(g, parents, a, p);
    }
    assert (g + [parents])[b] == g[b];
  }

  lemma AncestorOfChild(g: Graph, a: nat, child: nat, parent: nat)
    requires child < |g| && parent < child && g[child] == {parent}
    ensures Ancestor(g, a, child) <==> a == child || Ancestor(g, a, parent)
  {
  }

  // ---------- the system ----------

  /** `base_sha` as recorded, the commit the worktree was created from, and the worker commit. */
  datatype RunInfo = RunInfo(recorded: nat, base: Option<nat>, commit: Option<nat>)

  datatype Phase = Gated | Based | Locked | Merged

  datatype Integrator = Integrator(id: string, phase: Phase)

  datatype Repo = Repo(
    store: P.System,
    graph: Graph,
    head: nat,
    runs: map<string, RunInfo>,
    integrators: map<nat, Integrator>,
    lock: Option<nat>,
    integrated: set<string>,
    shas: map<string, nat>)

  datatype Step =
    | Store(step: P.Step)
    | UserCommit(others: set<nat>)        // a commit or merge commit on HEAD
    | UserBranch(parents: set<nat>)       // a commit on any other branch
    | UserFastForward(target: nat)        // HEAD moved by hand to a descendant
    | RecordBase(id: string)
    | CreateWorktree(id: string)
    | CommitWorker(id: string)
    | Gate(k: nat, id: string)
    | BaseCheck(k: nat)
    | TakeLock(k: nat)
    | Merge(k: nat)
    | Record(k: nat)
    | Abort(k: nat)

  /** The run has a worker commit. */
  predicate HasCommit(r: Repo, id: string) {
    id in r.runs && r.runs[id].base.Some? && r.runs[id].commit.Some?
  }

  predicate InPhase(r: Repo, k: nat, phase: Phase) {
    k in r.integrators && r.integrators[k].phase == phase && HasCommit(r, r.integrators[k].id)
  }

  /** The lifecycle gate: an untracked run, or one that is ready for review now. */
  predicate GateOpen(r: Repo, id: string) {
    HasCommit(r, id) && (id in r.store.rows ==> r.store.rows[id].lifecycle == ReadyForReview)
  }

  function Move(r: Repo, k: nat, phase: Phase): Repo
    requires k in r.integrators
  {
    r.(integrators := r.integrators[k := r.integrators[k].(phase := phase)])
  }

  /** Leave `integrate_run`, by success, refusal or crash; the lock is freed on every path. */
  function Leave(r: Repo, k: nat): Repo {
    r.(integrators := r.integrators - {k}, lock := if r.lock == Some(k) then None else r.lock)
  }

  /** `git merge --ff-only`: the new HEAD, or nothing when the merge is refused. */
  function FastForward(g: Graph, head: nat, commit: nat): Option<nat>
    requires head < |g| && commit < |g|
  {
    if Ancestor(g, commit, head) then Some(head)
    else if Ancestor(g, head, commit) then Some(commit)
    else None
  }

  predicate InGraph(r: Repo, id: string) {
    r.head < |r.graph| && HasCommit(r, id) && r.runs[id].commit.value < |r.graph|
  }

  function Apply(r: Repo, step: Step): Repo {
    match step
    case Store(s) => r.(store := P.Apply(r.store, s))
    case UserCommit(others) =>
      if exists c | c in others :: c >= |r.graph| then r
      else r.(graph := r.graph + [{r.head} + others], head := |r.graph|)
    case UserBranch(parents) =>
      if exists c | c in parents :: c >= |r.graph| then r else r.(graph := r.graph + [parents])
    case UserFastForward(target) =>
      if r.head < |r.graph| && target < |r.graph| && Ancestor(r.graph, r.head, target) then r.(head := target) else r
    case RecordBase(id) =>
      if id in r.runs then r else r.(runs := r.runs[id := RunInfo(r.head, None, None)])
    case CreateWorktree(id) =>
      if id !in r.runs || r.runs[id].base.Some? then r
      else r.(runs := r.runs[id := r.runs[id].(base := Some(r.head))])
    case CommitWorker(id) =>
      if id !in r.runs || r.runs[id].base.None? || r.runs[id].commit.Some? then r
      else r.(
        graph := r.graph + [{r.runs[id].base.value}],
        runs := r.runs[id := r.runs[id].(commit := Some(|r.graph|))])
    case Gate(k, id) =>
      if k in r.integrators || !GateOpen(r, id) then r
      else r.(integrators := r.integrators[k := Integrator(id, Gated)])
    case BaseCheck(k) =>
      if !InPhase(r, k, Gated) then r
      else if r.head == r.runs[r.integrators[k].id].recorded then Move(r, k, Based)
      else Leave(r, k)
    case TakeLock(k) =>
      if !InPhase(r, k, Based) then r
      else if r.lock.None? then Move(r, k, Locked).(lock := Some(k))
      else Leave(r, k)
    case Merge(k) =>
      if !InPhase(r, k, Locked) || !InGraph(r, r.integrators[k].id) then r
      else
        var id := r.integrators[k].id;
        var merged := FastForward(r.graph, r.head, r.runs[id].commit.value);
        if merged.None? then Leave(r, k)
        else Move(r, k, Merged).(head := merged.value, integrated := r.integrated + {id})
    case Record(k) =>
      if !InPhase(r, k, Merged) then r
      else Leave(r, k).(shas := r.shas[r.integrators[k].id := r.head])
    case Abort(k) => Leave(r, k)
  }

  function At(r: Repo, steps: seq<Step>, n: nat): Repo
    requires n <= |steps|
  {
    if n == 0 then r else Apply(At(r, steps, n - 1), steps[n - 1])
  }

  /** Any repository history and any store content; no run and no integrator has started yet. */
  ghost predicate Start(r: Repo) {
    && P.Start(r.store) && WellFounded(r.graph) && r.head < |r.graph|
    && r.runs == map[] && r.integrators == map[] && r.lock == None && r.integrated == {} && r.shas == map[]
  }

  // ---------- what every interleaving keeps ----------

  /** Where a run stands relative to the graph and HEAD. */
  ghost predicate RunOk(r: Repo, id: string)
    requires id in r.runs && r.head < |r.graph|
  {
    var run := r.runs[id];
    && Ancestor(r.graph, run.recorded, r.head)
    && (run.base.Some? ==>
      run.base.value < |r.graph|
      && Ancestor(r.graph, run.recorded, run.base.value) && Ancestor(r.graph, run.base.value, r.head))
    && (run.commit.Some? ==>
      run.base.Some? && run.commit.value < |r.graph|
      && run.base.value < run.commit.value && r.graph[run.commit.value] == {run.base.value})
  }

  /** Past the base check, the recorded base is the worktree's base; past the lock, the lock is held. */
  ghost predicate IntegratorOk(r: Repo, k: nat)
    requires k in r.integrators
  {
    var i := r.integrators[k];
    && HasCommit(r, i.id)
    && (i.phase != Gated ==> r.runs[i.id].base == Some(r.runs[i.id].recorded))
    && (i.phase in {Locked, Merged} <==> r.lock == Some(k))
    && (i.phase == Merged ==> i.id in r.integrated)
  }

  ghost predicate IntegratedOk(r: Repo, id: string)
    requires r.head < |r.graph|
  {
    HasCommit(r, id) && Ancestor(r.graph, r.runs[id].commit.value, r.head)
  }

  /** The recorded `integrated_sha` contains the worker commit and is part of the target's history. */
  ghost predicate ShaOk(r: Repo, id: string)
    requires id in r.shas && r.head < |r.graph|
  {
    && HasCommit(r, id) && r.shas[id] < |r.graph|
    && Ancestor(r.graph, r.runs[id].commit.value, r.shas[id])
    && Ancestor(r.graph, r.shas[id], r.head)
  }

  ghost predicate Inv(r: Repo) {
    && P.Inv(r.store) && WellFounded(r.graph) && r.head < |r.graph|
    && (forall id | id in r.runs :: RunOk(r, id))
    && (forall k | k in r.integrators :: IntegratorOk(r, k))
    && (r.lock.Some? ==> r.lock.value in r.integrators)
    && (forall id | id in r.integrated :: IntegratedOk(r, id))
    && (forall id | id in r.shas :: ShaOk(r, id))
  }

  /** At most one commit is added and HEAD stays or moves to a descendant. */
  ghost predicate Grows(r: Repo, after: Repo) {
    && WellFounded(r.graph) && r.head < |r.graph| && after.head < |after.graph|
    && (after.graph == r.graph || (|after.graph| == |r.graph| + 1 && after.graph == r.graph + [after.graph[|r.graph|]]))
    && Ancestor(after.graph, r.head, after.head)
  }

  /** Ancestry among old commits is unchanged, and what HEAD contained it still contains. */
  lemma GrowthKeepsAncestry(r: Repo, after: Repo, a: nat, b: nat)
    requires Grows(r, after) && b < |r.graph|
    ensures Ancestor(after.graph, a, b) <==> Ancestor(r.graph, a, b)
    ensures Ancestor(r.graph, a, r.head) ==> Ancestor(after.graph, a, after.head)
  {
    if after.graph != r.graph {
      AncestorStable(r.graph, after.graph[|r.graph|], a, b);
      AncestorStable(r.graph, after.graph[|r.graph|], a, r.head);
    }
    AncestorTransitive(after.graph, a, r.head, after.head);
  }

  /** Growth keeps the standing of every run, integration and recorded SHA it does not touch. */
  lemma GrowthKeepsRun(r: Repo, after: Repo, id: string)
    requires Grows(r, after) && id in r.runs && id in after.runs && after.runs[id] == r.runs[id] && RunOk(r, id)
    ensures RunOk(after, id)
    ensures IntegratedOk(r, id) ==> IntegratedOk(after, id)
    ensures id in r.shas && ShaOk(r, id) && id in after.shas && after.shas[id] == r.shas[id] ==> ShaOk(after, id)
  {
    var run := r.runs[id];
    GrowthKeepsAncestry(r, after, run.recorded, r.head);
    if run.base.Some? {
      GrowthKeepsAncestry(r, after, run.recorded, run.base.value);
      GrowthKeepsAncestry(r, after, run.base.value, r.head);
    }
    if run.commit.Some? {
      GrowthKeepsAncestry(r, after, run.commit.value, r.head);
      if id in r.shas && ShaOk(r, id) {
        GrowthKeepsAncestry(r, after, run.commit.value, r.shas[id]);
        GrowthKeepsAncestry(r, after, r.shas[id], r.head);
      }
    }
  }

  lemma StepGrows(r: Repo, step: Step)
    requires Inv(r)
    ensures Grows(r, Apply(r, step))
  {
    var after := Apply(r, step);
    if step.UserCommit? && after != r {
      AncestorStable(r.graph, {r.head} + step.others, r.head, r.head);
      assert r.head in after.graph[after.head] && Ancestor(after.graph, r.head, r.head);
    }
    if step.CommitWorker? && after != r {
      AncestorStable(r.graph, {r.runs[step.id].base.value}, r.head, r.head);
    }
    if step.UserBranch? && after != r {
      AncestorStable(r.graph, step.parents, r.head, r.head);
    }
  }

  /** What one step does to a run. */
  lemma StepKeepsRun(r: Repo, step: Step, id: string)
    requires Grows(r, Apply(r, step)) && id in Apply(r, step).runs
    requires id in r.runs ==> RunOk(r, id)
    ensures RunOk(Apply(r, step), id)
  {
    var after := Apply(r, step);
    if id in r.runs && after.runs[id] == r.runs[id] {
      GrowthKeepsRun(r, after, id);
    } else if step.RecordBase? {
      assert after.runs[id] == RunInfo(r.head, None, None);
    } else if step.CreateWorktree? {
      assert after.runs[id].base == Some(r.head);
    } else {
      var base := r.runs[id].base.value;
      GrowthKeepsAncestry(r, after, r.runs[id].recorded, base);
      GrowthKeepsAncestry(r, after, base, r.head);
      GrowthKeepsAncestry(r, after, r.runs[id].recorded, r.head);
    }
  }

  /** A run with a commit never changes again. */
  lemma CommittedRunsPersist(r: Repo, step: Step, id: string)
    requires HasCommit(r, id)
    ensures HasCommit(Apply(r, step), id) && Apply(r, step).runs[id] == r.runs[id]
  {
  }

  lemma RecordedShaOk(r: Repo, k: nat)
    requires r.head < |r.graph| && InPhase(r, k, Merged) && IntegratedOk(r, r.integrators[k].id)
    ensures var id := r.integrators[k].id;
      Apply(r, Record(k)).shas == r.shas[id := r.head] && ShaOk(Apply(r, Record(k)), id)
  {
  }

  lemma StepKeepsSha(r: Repo, step: Step, id: string)
    requires Grows(r, Apply(r, step)) && id in Apply(r, step).shas
    requires id in r.shas ==> ShaOk(r, id) && RunOk(r, id)
    requires step.Record? && InPhase(r, step.k, Merged) ==> IntegratedOk(r, r.integrators[step.k].id)
    ensures ShaOk(Apply(r, step), id)
  {
    if step.Record? && InPhase(r, step.k, Merged) && id == r.integrators[step.k].id {
      RecordedShaOk(r, step.k);
    } else {
      CommittedRunsPersist(r, step, id);
      GrowthKeepsRun(r, Apply(r, step), id);
    }
  }

  /** Only a merge adds to what is integrated. */
  lemma OnlyMergeIntegrates(r: Repo, step: Step, id: string)
    requires id in Apply(r, step).integrated && id !in r.integrated
    ensures step.Merge? && InPhase(r, step.k, Locked) && id == r.integrators[step.k].id && InGraph(r, id)
    ensures FastForward(r.graph, r.head, r.runs[id].commit.value) == Some(Apply(r, step).head)
    ensures Apply(r, step).graph == r.graph && Apply(r, step).runs == r.runs
  {
  }

  lemma StepKeepsIntegrated(r: Repo, step: Step, id: string)
    requires Grows(r, Apply(r, step)) && id in Apply(r, step).integrated
    requires id in r.integrated ==> IntegratedOk(r, id) && RunOk(r, id)
    ensures IntegratedOk(Apply(r, step), id)
  {
    if id in r.integrated {
      CommittedRunsPersist(r, step, id);
      GrowthKeepsRun(r, Apply(r, step), id);
    } else {
      OnlyMergeIntegrates(r, step, id);
    }
  }

  /** At the base check HEAD, the recorded base and the worktree's base are one commit. */
  lemma BaseCheckPins(r: Repo, id: string)
    requires r.head < |r.graph| && id in r.runs && RunOk(r, id) && r.runs[id].base.Some?
    requires r.head == r.runs[id].recorded
    ensures r.runs[id].base == Some(r.head)
  {
    AncestorOrder(r.graph, r.head, r.runs[id].base.value);
    AncestorOrder(r.graph, r.runs[id].base.value, r.head);
  }

  predicate Concerns(step: Step, k: nat) {
    (step.Gate? || step.BaseCheck? || step.TakeLock? || step.Merge? || step.Record? || step.Abort?) && step.k == k
  }

  lemma OwnStepKeepsIntegrator(r: Repo, step: Step, k: nat)
    requires r.head < |r.graph| && Concerns(step, k) && k in Apply(r, step).integrators
    requires k in r.integrators ==> IntegratorOk(r, k) && RunOk(r, r.integrators[k].id)
    requires k !in r.integrators ==> r.lock != Some(k)
    ensures IntegratorOk(Apply(r, step), k)
  {
    if step.BaseCheck? && InPhase(r, k, Gated) && r.head == r.runs[r.integrators[k].id].recorded {
      BaseCheckPins(r, r.integrators[k].id);
    }
  }

  /** Another integrator's step leaves `k` where it is, and its hold on the lock with it. */
  lemma OtherStepKeepsIntegrator(r: Repo, step: Step, k: nat)
    requires !Concerns(step, k) && k in r.integrators
    requires step.TakeLock? && step.k in r.integrators ==> IntegratorOk(r, step.k)
    ensures var after := Apply(r, step);
      && k in after.integrators && after.integrators[k] == r.integrators[k]
      && (after.lock == Some(k) <==> r.lock == Some(k))
      && r.integrated <= after.integrated
  {
  }

  lemma StepKeepsIntegrator(r: Repo, step: Step, k: nat)
    requires Inv(r) && k in Apply(r, step).integrators
    ensures IntegratorOk(Apply(r, step), k)
  {
    assert k in r.integrators ==> IntegratorOk(r, k) && RunOk(r, r.integrators[k].id);
    if Concerns(step, k) {
      OwnStepKeepsIntegrator(r, step, k);
    } else {
      InOnlyByOwnGate(r, step, k);
      assert step.TakeLock? && step.k in r.integrators ==> IntegratorOk(r, step.k);
      OtherStepKeepsIntegrator(r, step, k);
      CommittedRunsPersist(r, step, r.integrators[k].id);
    }
  }

  lemma InOnlyByOwnGate(r: Repo, step: Step, k: nat)
    requires !Concerns(step, k) && k in Apply(r, step).integrators
    ensures k in r.integrators
  {
  }

  lemma StepKeepsLock(r: Repo, step: Step)
    requires r.lock.Some? ==> r.lock.value in r.integrators
    ensures Apply(r, step).lock.Some? ==> Apply(r, step).lock.value in Apply(r, step).integrators
  {
  }

  lemma StepKeepsGraph(r: Repo, step: Step)
    requires WellFounded(r.graph) && r.head < |r.graph|
    requires step.CommitWorker? && step.id in r.runs ==> RunOk(r, step.id)
    ensures WellFounded(Apply(r, step).graph)
  {
  }

  lemma StepKeepsRuns(r: Repo, step: Step)
    requires Grows(r, Apply(r, step)) && forall id | id in r.runs :: RunOk(r, id)
    ensures forall id | id in Apply(r, step).runs :: RunOk(Apply(r, step), id)
  {
    forall id | id in Apply(r, step).runs
      ensures RunOk(Apply(r, step), id)
    {
      StepKeepsRun(r, step, id);
    }
  }

  lemma StepKeepsAllIntegrated(r: Repo, step: Step)
    requires Inv(r) && Grows(r, Apply(r, step))
    ensures forall id | id in Apply(r, step).integrated :: IntegratedOk(Apply(r, step), id)
  {
    forall id | id in Apply(r, step).integrated
      ensures IntegratedOk(Apply(r, step), id)
    {
      assert id in r.integrated ==> IntegratedOk(r, id);
      StepKeepsIntegrated(r, step, id);
    }
  }

  lemma StepKeepsShas(r: Repo, step: Step)
    requires Inv(r) && Grows(r, Apply(r, step))
    ensures forall id | id in Apply(r, step).shas :: ShaOk(Apply(r, step), id)
  {
    forall id | id in Apply(r, step).shas
      ensures ShaOk(Apply(r, step), id)
    {
      assert id in r.shas ==> ShaOk(r, id);
      assert step.Record? && step.k in r.integrators ==> IntegratorOk(r, step.k);
      StepKeepsSha(r, step, id);
    }
  }

  lemma StepKeepsIntegrators(r: Repo, step: Step)
    requires Inv(r)
    ensures forall k | k in Apply(r, step).integrators :: IntegratorOk(Apply(r, step), k)
  {
    forall k | k in Apply(r, step).integrators
      ensures IntegratorOk(Apply(r, step), k)
    {
      StepKeepsIntegrator(r, step, k);
    }
  }

  lemma StepKeepsStore(r: Repo, step: Step)
    requires P.Inv(r.store)
    ensures P.Inv(Apply(r, step).store)
  {
    if step.Store? {
      P.StepKeepsInv(r.store, step.step);
    }
  }

  lemma StepKeepsInv(r: Repo, step: Step)
    requires Inv(r)
    ensures Inv(Apply(r, step)) && Grows(r, Apply(r, step))
  {
    StepGrows(r, step);
    StepKeepsStore(r, step);
    StepKeepsRuns(r, step);
    StepKeepsAllIntegrated(r, step);
    StepKeepsShas(r, step);
    StepKeepsIntegrators(r, step);
    StepKeepsLock(r, step);
    StepKeepsGraph(r, step);
    Assembled(Apply(r, step));
  }

  lemma Assembled(r: Repo)
    requires P.Inv(r.store) && WellFounded(r.graph) && r.head < |r.graph|
    requires forall id | id in r.runs :: RunOk(r, id)
    requires forall k | k in r.integrators :: IntegratorOk(r, k)
    requires r.lock.Some? ==> r.lock.value in r.integrators
    requires forall id | id in r.integrated :: IntegratedOk(r, id)
    requires forall id | id in r.shas :: ShaOk(r, id)
    ensures Inv(r)
  {
  }

  lemma {:induction false} InvAt(r: Repo, steps: seq<Step>, n: nat)
    requires Start(r) && n <= |steps|
    ensures Inv(At(r, steps, n))
  {
    if n > 0 {
      InvAt(r, steps, n - 1);
      StepKeepsInv(At(r, steps, n - 1), steps[n - 1]);
    }
  }

  // ---------- the theorems ----------

  lemma HeadInGraph(r: Repo, steps: seq<Step>, n: nat)
    requires Start(r) && n <= |steps|
    ensures At(r, steps, n).head < |At(r, steps, n).graph|
  {
    InvAt(r, steps, n);
  }

  /** HEAD's history contains the commit. */
  ghost predicate Contains(r: Repo, a: nat) {
    r.head < |r.graph| && Ancestor(r.graph, a, r.head)
  }

  lemma HeadStaysAbove(r: Repo, step: Step, a: nat)
    requires Inv(r) && Contains(r, a)
    ensures Contains(Apply(r, step), a)
  {
    StepGrows(r, step);
    GrowthKeepsAncestry(r, Apply(r, step), a, r.head);
  }

  lemma {:induction false} HistoryIsKept(r: Repo, steps: seq<Step>, i: nat, j: nat, a: nat)
    requires Start(r) && i <= j <= |steps| && Contains(At(r, steps, i), a)
    ensures Contains(At(r, steps, j), a)
  {
    if i < j {
      HistoryIsKept(r, steps, i, j - 1, a);
      InvAt(r, steps, j - 1);
      HeadStaysAbove(At(r, steps, j - 1), steps[j - 1], a);
    }
  }

  /** In every interleaving HEAD only ever moves to descendants. */
  lemma HeadOnlyDescends(r: Repo, steps: seq<Step>, i: nat, j: nat)
    requires Start(r) && i <= j <= |steps|
    ensures At(r, steps, j).head < |At(r, steps, j).graph|
    ensures Ancestor(At(r, steps, j).graph, At(r, steps, i).head, At(r, steps, j).head)
  {
    HeadInGraph(r, steps, i);
    HistoryIsKept(r, steps, i, j, At(r, steps, i).head);
  }

  /**
   Although the base check precedes the lock, a merge that moves HEAD moves it from exactly the
   recorded base, which is also the commit the worktree was created from, to its child, the worker
   commit: nothing but the reviewed change lands.
   */
  lemma MergeLandsOnlyTheChange(r: Repo, steps: seq<Step>, n: nat, k: nat)
    requires Start(r) && n <= |steps|
    requires Apply(At(r, steps, n), Merge(k)).head != At(r, steps, n).head
    ensures var before, after := At(r, steps, n), Apply(At(r, steps, n), Merge(k));
      && k in before.integrators && before.integrators[k].id in before.runs
      && before.runs[before.integrators[k].id] == RunInfo(before.head, Some(before.head), Some(after.head))
      && after.head < |after.graph| && after.graph[after.head] == {before.head}
  {
    InvAt(r, steps, n);
    var before, after := At(r, steps, n), Apply(At(r, steps, n), Merge(k));
    var run := before.runs[before.integrators[k].id];
    assert IntegratorOk(before, k) && RunOk(before, before.integrators[k].id);
    AncestorOfChild(before.graph, before.head, run.commit.value, run.base.value);
    AncestorOrder(before.graph, before.head, run.base.value);
    AncestorOrder(before.graph, run.base.value, before.head);
  }

  /** At most one integrator is inside the locked section. */
  lemma LockIsExclusive(r: Repo, steps: seq<Step>, n: nat, k1: nat, k2: nat)
    requires Start(r) && n <= |steps|
    requires k1 in At(r, steps, n).integrators && At(r, steps, n).integrators[k1].phase in {Locked, Merged}
    requires k2 in At(r, steps, n).integrators && At(r, steps, n).integrators[k2].phase in {Locked, Merged}
    ensures k1 == k2
  {
    InvAt(r, steps, n);
    assert IntegratorOk(At(r, steps, n), k1) && IntegratorOk(At(r, steps, n), k2);
  }

  // ---------- siblings ----------

  /** No worker commit in the history of `other` is missing from HEAD's. */
  ghost predicate BringsNoWork(r: Repo, other: nat)
    requires r.head < |r.graph|
  {
    other < |r.graph| ==> forall id | HasCommit(r, id) ::
      Ancestor(r.graph, r.runs[id].commit.value, other) ==> Ancestor(r.graph, r.runs[id].commit.value, r.head)
  }

  /** What the operator commits on HEAD or moves HEAD to brings in no worker commit not yet part of the target. */
  ghost predicate NoHandMerge(r: Repo, step: Step) {
    r.head < |r.graph| ==>
      && (step.UserCommit? ==> forall other | other in step.others :: BringsNoWork(r, other))
      && (step.UserFastForward? ==> BringsNoWork(r, step.target))
  }

  ghost predicate NoHandMerges(r: Repo, steps: seq<Step>, n: nat)
    requires n <= |steps|
  {
    n == 0 || (NoHandMerges(r, steps, n - 1) && NoHandMerge(At(r, steps, n - 1), steps[n - 1]))
  }

  /** HEAD contains only worker commits that were integrated. */
  ghost predicate OnlyIntegrated(r: Repo)
    requires r.head < |r.graph|
  {
    forall id | HasCommit(r, id) && Ancestor(r.graph, r.runs[id].commit.value, r.head) :: id in r.integrated
  }

  ghost predicate SiblingsExclude(r: Repo) {
    forall a, b | a in r.integrated && b in r.integrated && a != b && a in r.runs && b in r.runs ::
      r.runs[a].base != r.runs[b].base
  }

  ghost predicate DistinctCommits(r: Repo) {
    forall a, b | HasCommit(r, a) && HasCommit(r, b) && a != b :: r.runs[a].commit != r.runs[b].commit
  }

  ghost predicate SiblingInv(r: Repo) {
    Inv(r) && OnlyIntegrated(r) && DistinctCommits(r)
  }

  /** What a successful move of HEAD means for the graph. */
  lemma MovingMerge(r: Repo, k: nat)
    requires Inv(r) && Apply(r, Merge(k)).head != r.head
    ensures var after := Apply(r, Merge(k));
      && k in r.integrators && HasCommit(r, r.integrators[k].id)
      && after.graph == r.graph && after.integrated == r.integrated + {r.integrators[k].id}
      && r.runs[r.integrators[k].id] == RunInfo(r.head, Some(r.head), Some(after.head))
      && r.head < after.head < |r.graph| && r.graph[after.head] == {r.head}
  {
    var run := r.runs[r.integrators[k].id];
    assert IntegratorOk(r, k) && RunOk(r, r.integrators[k].id);
    AncestorOfChild(r.graph, r.head, run.commit.value, run.base.value);
    AncestorOrder(r.graph, r.head, run.base.value);
    AncestorOrder(r.graph, run.base.value, r.head);
  }

  /** An operator commit makes nothing but HEAD's and its other parents' history part of the target. */
  lemma UserCommitHistory(r: Repo, others: set<nat>, a: nat)
    requires Inv(r) && a < |r.graph| && Apply(r, UserCommit(others)) != r
    requires Ancestor(Apply(r, UserCommit(others)).graph, a, Apply(r, UserCommit(others)).head)
    ensures Ancestor(r.graph, a, r.head) || exists p | p in others && p < |r.graph| :: Ancestor(r.graph, a, p)
  {
    var g := r.graph + [{r.head} + others];
    var p :| p in g[|r.graph|] && p < |r.graph| && Ancestor(g, a, p);
    AncestorStable(r.graph, {r.head} + others, a, p);
  }

  /** A worker commit that is new in HEAD's history got there by its own merge. */
  lemma NewInHeadIsMerged(r: Repo, step: Step, id: string)
    requires SiblingInv(r) && NoHandMerge(r, step) && HasCommit(r, id)
    requires Grows(r, Apply(r, step))
    requires Ancestor(Apply(r, step).graph, r.runs[id].commit.value, Apply(r, step).head)
    ensures id in Apply(r, step).integrated
  {
    assert RunOk(r, id);
    if step.UserCommit? {
      if Apply(r, step) != r {
        UserCommitHistory(r, step.others, r.runs[id].commit.value);
      }
    } else if step.UserFastForward? {
      assert BringsNoWork(r, step.target);
    } else if step.Merge? && Apply(r, step).head != r.head {
      NewByMerge(r, step.k, id);
    } else {
      GrowthKeepsAncestry(r, Apply(r, step), r.runs[id].commit.value, r.head);
      IntegratedGrows(r, step);
    }
  }

  lemma NewByMerge(r: Repo, k: nat, id: string)
    requires SiblingInv(r) && HasCommit(r, id) && Apply(r, Merge(k)).head != r.head
    requires Apply(r, Merge(k)).head < |r.graph|
    requires Ancestor(r.graph, r.runs[id].commit.value, Apply(r, Merge(k)).head)
    ensures id in Apply(r, Merge(k)).integrated
  {
    MovingMerge(r, k);
    AncestorOfChild(r.graph, r.runs[id].commit.value, Apply(r, Merge(k)).head, r.head);
  }

  lemma IntegratedGrows(r: Repo, step: Step)
    requires !(step.Merge? && Apply(r, step).head != r.head)
    ensures r.integrated <= Apply(r, step).integrated
    ensures !step.UserCommit? && !step.UserFastForward? ==> Apply(r, step).head == r.head
  {
  }

  lemma StepKeepsOnlyIntegrated(r: Repo, step: Step)
    requires SiblingInv(r) && NoHandMerge(r, step)
    ensures Grows(r, Apply(r, step)) && OnlyIntegrated(Apply(r, step))
  {
    var after := Apply(r, step);
    StepGrows(r, step);
    forall id | HasCommit(after, id) && Ancestor(after.graph, after.runs[id].commit.value, after.head)
      ensures id in after.integrated
    {
      AncestorOrder(after.graph, after.runs[id].commit.value, after.head);
      CommittedOrNew(r, step, id);
      NewInHeadIsMerged(r, step, id);
    }
  }

  /** A commit that did not exist before the step is the newest commit, past HEAD. */
  lemma CommittedOrNew(r: Repo, step: Step, id: string)
    requires Inv(r) && HasCommit(Apply(r, step), id)
    ensures HasCommit(r, id) ==> Apply(r, step).runs[id] == r.runs[id]
    ensures !HasCommit(r, id) ==>
      step == CommitWorker(id) && Apply(r, step).runs[id].commit == Some(|r.graph|) && Apply(r, step).head == r.head
  {
  }

  /** The run a moving merge integrates has no sibling among those integrated before. */
  lemma MergedHasNoSibling(r: Repo, k: nat, a: string)
    requires Inv(r) && Apply(r, Merge(k)).head != r.head && a in r.integrated
    ensures k in r.integrators && HasCommit(r, r.integrators[k].id) && HasCommit(r, a)
    ensures r.runs[a].base != r.runs[r.integrators[k].id].base
  {
    MovingMerge(r, k);
    assert IntegratedOk(r, a) && RunOk(r, a);
    AncestorOrder(r.graph, r.runs[a].commit.value, r.head);
  }

  /**
   Git reports the merge as done without moving HEAD, because the commit is in HEAD's history
   already; so far the run is not integrated, but a sibling is.
   */
  predicate IdleSecondMerge(r: Repo, step: Step) {
    && step.Merge? && InPhase(r, step.k, Locked)
    && var id := r.integrators[step.k].id;
    && InGraph(r, id) && Ancestor(r.graph, r.runs[id].commit.value, r.head)
    && id !in r.integrated && HasIntegratedSibling(r, id)
  }

  predicate HasIntegratedSibling(r: Repo, id: string)
    requires id in r.runs
  {
    exists a | a in r.integrated :: a in r.runs && r.runs[a].base == r.runs[id].base
  }

  /** The newly integrated run of a step, if any, has an integrated sibling exactly after an idle second merge. */
  lemma NewRunSiblings(r: Repo, step: Step, id: string)
    requires Inv(r) && id in Apply(r, step).integrated && id !in r.integrated
    ensures id in r.runs && (HasIntegratedSibling(r, id) <==> IdleSecondMerge(r, step))
  {
    OnlyMergeIntegrates(r, step, id);
    if Apply(r, step).head != r.head {
      forall a | a in r.integrated
        ensures a in r.runs && r.runs[a].base != r.runs[id].base
      {
        MergedHasNoSibling(r, step.k, a);
      }
      HeadAbove(r, step.k);
    } else {
      StillMergeIsIdle(r, step.k);
    }
  }

  /** A commit that a merge makes HEAD was not part of HEAD's history. */
  lemma HeadAbove(r: Repo, k: nat)
    requires Inv(r) && Apply(r, Merge(k)).head != r.head
    ensures k in r.integrators && HasCommit(r, r.integrators[k].id)
    ensures r.runs[r.integrators[k].id].commit.value < |r.graph|
    ensures !Ancestor(r.graph, r.runs[r.integrators[k].id].commit.value, r.head)
  {
    MovingMerge(r, k);
    AncestorOrder(r.graph, Apply(r, Merge(k)).head, r.head);
  }

  lemma StillMergeIsIdle(r: Repo, k: nat)
    requires InPhase(r, k, Locked) && InGraph(r, r.integrators[k].id) && Apply(r, Merge(k)).head == r.head
    requires FastForward(r.graph, r.head, r.runs[r.integrators[k].id].commit.value) == Some(r.head)
    ensures Ancestor(r.graph, r.runs[r.integrators[k].id].commit.value, r.head)
  {
  }

  /** A step admits a second sibling exactly when it is an idle second merge. */
  lemma SiblingsStep(r: Repo, step: Step)
    requires Inv(r)
    ensures SiblingsExclude(Apply(r, step)) <==> SiblingsExclude(r) && !IdleSecondMerge(r, step)
  {
    if SiblingsExclude(r) && !IdleSecondMerge(r, step) {
      SiblingsStay(r, step);
    }
    if SiblingsExclude(Apply(r, step)) {
      SiblingsBefore(r, step);
    }
  }

  lemma SiblingsStay(r: Repo, step: Step)
    requires Inv(r) && SiblingsExclude(r) && !IdleSecondMerge(r, step)
    ensures SiblingsExclude(Apply(r, step))
  {
    var after := Apply(r, step);
    forall a, b | a in after.integrated && b in after.integrated && a != b && a in after.runs && b in after.runs
      ensures after.runs[a].base != after.runs[b].base
    {
      IntegratedRun(r, step, a);
      IntegratedRun(r, step, b);
      if a !in r.integrated {
        NewRunSiblings(r, step, a);
        OneNewRun(r, step, a, b);
      } else if b !in r.integrated {
        NewRunSiblings(r, step, b);
      }
    }
  }

  lemma OneNewRun(r: Repo, step: Step, a: string, b: string)
    requires a in Apply(r, step).integrated && a !in r.integrated && b in Apply(r, step).integrated && a != b
    ensures b in r.integrated
  {
    OnlyMergeIntegrates(r, step, a);
    if b !in r.integrated {
      OnlyMergeIntegrates(r, step, b);
    }
  }

  lemma SiblingsBefore(r: Repo, step: Step)
    requires Inv(r) && SiblingsExclude(Apply(r, step))
    ensures SiblingsExclude(r) && !IdleSecondMerge(r, step)
  {
    hide Inv;
    hide Ancestor;
    var after := Apply(r, step);
    IntegratedOnlyGrows(r, step);
    forall a | a in r.integrated
      ensures a in after.runs && a in r.runs && after.runs[a] == r.runs[a]
    {
      IntegratedRun(r, step, a);
    }
    if IdleSecondMerge(r, step) {
      IdleMergeAdds(r, step);
      NewRunSiblings(r, step, r.integrators[step.k].id);
      IntegratedRun(r, step, r.integrators[step.k].id);
    }
  }

  lemma IdleMergeAdds(r: Repo, step: Step)
    requires IdleSecondMerge(r, step)
    ensures r.integrators[step.k].id in Apply(r, step).integrated
  {
  }

  lemma IntegratedOnlyGrows(r: Repo, step: Step)
    ensures r.integrated <= Apply(r, step).integrated
  {
  }

  predicate NoIdleSecondMerge(r: Repo, steps: seq<Step>, n: nat)
    requires n <= |steps|
  {
    n == 0 || (NoIdleSecondMerge(r, steps, n - 1) && !IdleSecondMerge(At(r, steps, n - 1), steps[n - 1]))
  }

  /**
   At most one of several siblings is integrated in exactly the interleavings in which no integrator
   merges a commit that is in HEAD's history already while a sibling of its run is integrated.
   */
  lemma {:induction false} SiblingsExcludeExactly(r: Repo, steps: seq<Step>, n: nat)
    requires Start(r) && n <= |steps|
    ensures SiblingsExclude(At(r, steps, n)) <==> NoIdleSecondMerge(r, steps, n)
  {
    if n > 0 {
      SiblingsExcludeExactly(r, steps, n - 1);
      InvAt(r, steps, n - 1);
      SiblingsStep(At(r, steps, n - 1), steps[n - 1]);
    }
  }

  lemma IntegratedRun(r: Repo, step: Step, a: string)
    requires Inv(r) && a in Apply(r, step).integrated
    ensures HasCommit(r, a) && Apply(r, step).runs[a] == r.runs[a]
  {
    if a in r.integrated {
      assert IntegratedOk(r, a);
    } else {
      OnlyMergeIntegrates(r, step, a);
    }
    CommittedRunsPersist(r, step, a);
  }

  lemma StepKeepsDistinct(r: Repo, step: Step)
    requires SiblingInv(r)
    ensures DistinctCommits(Apply(r, step))
  {
    var after := Apply(r, step);
    forall a, b | HasCommit(after, a) && HasCommit(after, b) && a != b
      ensures after.runs[a].commit != after.runs[b].commit
    {
      CommittedOrNew(r, step, a);
      CommittedOrNew(r, step, b);
      assert HasCommit(r, a) ==> RunOk(r, a);
      assert HasCommit(r, b) ==> RunOk(r, b);
    }
  }

  lemma {:induction false} SiblingInvAt(r: Repo, steps: seq<Step>, n: nat)
    requires Start(r) && n <= |steps| && NoHandMerges(r, steps, n)
    ensures SiblingInv(At(r, steps, n)) && NoIdleSecondMerge(r, steps, n)
  {
    if n > 0 {
      SiblingInvAt(r, steps, n - 1);
      SiblingStep(At(r, steps, n - 1), steps[n - 1]);
    }
  }

  lemma SiblingStep(r: Repo, step: Step)
    requires SiblingInv(r) && NoHandMerge(r, step)
    ensures SiblingInv(Apply(r, step)) && !IdleSecondMerge(r, step)
  {
    StepKeepsInv(r, step);
    StepKeepsOnlyIntegrated(r, step);
    StepKeepsDistinct(r, step);
  }

  /**
   Of all runs whose worker commits share one parent at most one is ever integrated, in every
   interleaving of preflights, merges and commits on the target that brings in no worker commit by hand.
   */
  lemma AtMostOneSiblingIntegrated(r: Repo, steps: seq<Step>, n: nat, a: string, b: string)
    requires Start(r) && n <= |steps| && NoHandMerges(r, steps, n)
    requires a in At(r, steps, n).integrated && b in At(r, steps, n).integrated && a != b
    ensures var end := At(r, steps, n);
      && HasCommit(end, a) && end.runs[a].commit.value < |end.graph|
      && HasCommit(end, b) && end.runs[b].commit.value < |end.graph|
      && end.graph[end.runs[a].commit.value] != end.graph[end.runs[b].commit.value]
  {
    SiblingInvAt(r, steps, n);
    SiblingsExcludeExactly(r, steps, n);
    var end := At(r, steps, n);
    assert IntegratedOk(end, a) && IntegratedOk(end, b) && RunOk(end, a) && RunOk(end, b);
    assert end.runs[a].base.value in end.graph[end.runs[a].commit.value];
  }

  /**
   The merge step exactly: under the lock it succeeds iff HEAD still is the recorded base, or the
   commit is in HEAD's history already (Git then reports success without moving HEAD).
   */
  lemma MergeSucceedsExactly(r: Repo, steps: seq<Step>, n: nat, k: nat)
    requires Start(r) && n <= |steps| && InPhase(At(r, steps, n), k, Locked)
    ensures var before, after := At(r, steps, n), Apply(At(r, steps, n), Merge(k));
      var run := before.runs[before.integrators[k].id];
      && run.commit.value < |before.graph| && before.head < |before.graph|
      && (k in after.integrators <==> before.head == run.recorded || Ancestor(before.graph, run.commit.value, before.head))
      && (k in after.integrators ==> after.integrated == before.integrated + {before.integrators[k].id})
      && (k !in after.integrators ==> after.integrated == before.integrated && after.head == before.head && after.lock == None)
  {
    InvAt(r, steps, n);
    var before := At(r, steps, n);
    var run := before.runs[before.integrators[k].id];
    assert IntegratorOk(before, k) && RunOk(before, before.integrators[k].id);
    AncestorOfChild(before.graph, before.head, run.commit.value, run.base.value);
    AncestorOrder(before.graph, before.head, run.base.value);
    AncestorOrder(before.graph, run.base.value, before.head);
  }

  function Fresh(): Repo {
    Repo(P.System(map[], map[], [], []), [{}], 0, map[], map[], None, {}, map[])
  }

  /**
   Runs `a` and `b` commit on the same base, and their integrators both pass the base check. The
   first is integrated, then the operator merges the second by hand, then its integrator goes on.
   */
  function HandMerge(): seq<Step> {
    [
      RecordBase("a"), CreateWorktree("a"), CommitWorker("a"),
      RecordBase("b"), CreateWorktree("b"), CommitWorker("b"),
      Gate(0, "a"), Gate(1, "b"), BaseCheck(0), BaseCheck(1),
      TakeLock(0), Merge(0), Record(0), UserCommit({2}), TakeLock(1), Merge(1)
    ]
  }

  /** The repository after `2 * n` of these steps; commits 1 and 2 are the branches, commit 3 joins them. */
  function Snapshot(n: nat): Repo {
    var worktree, a, b := RunInfo(0, Some(0), None), RunInfo(0, Some(0), Some(1)), RunInfo(0, Some(0), Some(2));
    var committed := Fresh().(graph := [{}, {0}, {0}], runs := map["a" := a, "b" := b]);
    if n == 0 then Fresh()
    else if n == 1 then Fresh().(runs := map["a" := worktree])
    else if n == 2 then Fresh().(graph := [{}, {0}], runs := map["a" := a, "b" := RunInfo(0, None, None)])
    else if n == 3 then committed
    else if n == 4 then committed.(integrators := map[0 := Integrator("a", Gated), 1 := Integrator("b", Gated)])
    else if n == 5 then committed.(integrators := map[0 := Integrator("a", Based), 1 := Integrator("b", Based)])
    else if n == 6 then
      committed.(
        integrators := map[0 := Integrator("a", Merged), 1 := Integrator("b", Based)],
        lock := Some(0), head := 1, integrated := {"a"})
    else
      var joined := committed.(graph := [{}, {0}, {0}, {1} + {2}], head := 3, shas := map["a" := 1]);
      if n == 7 then joined.(integrators := map[1 := Integrator("b", Based)], integrated := {"a"})
      else joined.(integrators := map[1 := Integrator("b", Merged)], lock := Some(1), integrated := {"a"} + {"b"})
  }

  lemma Setup()
    ensures Apply(Apply(Snapshot(0), RecordBase("a")), CreateWorktree("a")) == Snapshot(1)
    ensures Apply(Apply(Snapshot(1), CommitWorker("a")), RecordBase("b")) == Snapshot(2)
  {
  }

  lemma Branches()
    ensures Apply(Apply(Snapshot(2), CreateWorktree("b")), CommitWorker("b")) == Snapshot(3)
  {
  }

  lemma BothGated()
    ensures Apply(Apply(Snapshot(3), Gate(0, "a")), Gate(1, "b")) == Snapshot(4)
  {
  }

  lemma BothBased()
    ensures Apply(Apply(Snapshot(4), BaseCheck(0)), BaseCheck(1)) == Snapshot(5)
  {
  }

  function FirstLocks(): Repo {
    Snapshot(5).(integrators := map[0 := Integrator("a", Locked), 1 := Integrator("b", Based)], lock := Some(0))
  }

  lemma FirstTakesLock()
    ensures Apply(Snapshot(5), TakeLock(0)) == FirstLocks()
  {
  }

  lemma FirstMerges()
    ensures Apply(FirstLocks(), Merge(0)) == Snapshot(6)
  {
    AncestorOrder(Snapshot(5).graph, 1, 0);
    AncestorOfChild(Snapshot(5).graph, 0, 1, 0);
  }

  lemma HandMerged()
    ensures Apply(Apply(Snapshot(6), Record(0)), UserCommit({2})) == Snapshot(7)
  {
  }

  function SecondWaits(): Repo {
    Snapshot(7).(integrators := map[1 := Integrator("b", Locked)], lock := Some(1))
  }

  lemma SecondLocks()
    ensures Apply(Snapshot(7), TakeLock(1)) == SecondWaits()
  {
  }

  lemma JoinContains(g: Graph)
    requires |g| == 4 && g[3] == {1} + {2}
    ensures FastForward(g, 3, 2) == Some(3)
  {
    assert 2 in g[3] && Ancestor(g, 2, 2);
  }

  lemma SecondMerges()
    ensures Apply(SecondWaits(), Merge(1)) == Snapshot(8)
  {
    JoinContains(Snapshot(7).graph);
  }

  lemma SnapshotsFollow(n: nat)
    requires n < 8
    ensures Apply(Apply(Snapshot(n), HandMerge()[2 * n]), HandMerge()[2 * n + 1]) == Snapshot(n + 1)
  {
    if n < 2 {
      Setup();
    } else if n == 2 {
      Branches();
    } else if n == 3 {
      BothGated();
    } else if n == 4 {
      BothBased();
    } else if n == 5 {
      FirstTakesLock();
      FirstMerges();
    } else if n == 6 {
      HandMerged();
    } else {
      SecondLocks();
      SecondMerges();
    }
  }

  lemma {:induction false} SnapshotsReached(steps: seq<Step>, n: nat)
    requires steps == HandMerge() && n <= 8
    ensures At(Fresh(), steps, 2 * n) == Snapshot(n)
  {
    if n > 0 {
      SnapshotsReached(steps, n - 1);
      SnapshotsFollow(n - 1);
      TwoSteps(Fresh(), steps, 2 * n - 2, Snapshot(n - 1));
    }
  }

  lemma TwoSteps(r: Repo, steps: seq<Step>, n: nat, middle: Repo)
    requires n + 2 <= |steps| && At(r, steps, n) == middle
    ensures At(r, steps, n + 2) == Apply(Apply(middle, steps[n]), steps[n + 1])
  {
    assert At(r, steps, n + 1) == Apply(middle, steps[n]);
  }

  /** The counterexample: a hand merge while an integrator is past the base check lets two siblings in. */
  lemma HandMergeAdmitsSibling(steps: seq<Step>)
    requires steps == HandMerge()
    ensures Start(Fresh())
    ensures At(Fresh(), steps, |steps|).integrated == {"a", "b"}
    ensures !SiblingsExclude(At(Fresh(), steps, |steps|))
  {
    SnapshotsReached(steps, 8);
    assert Snapshot(8).runs["a"].base == Snapshot(8).runs["b"].base;
  }

  // ---------- cancelling binds ----------

  /** Every lifecycle write happens together with its check. */
  predicate Guarded(r: Repo, steps: seq<Step>, n: nat)
    requires n <= |steps|
  {
    n == 0 || (Guarded(r, steps, n - 1)
      && (steps[n - 1].Store? ==> P.FreshWrite(At(r, steps, n - 1).store, steps[n - 1].step)))
  }

  predicate CancelledRow(r: Repo, id: string) {
    id in r.store.rows && r.store.rows[id].lifecycle == Cancelled
  }

  predicate Inside(r: Repo, k: nat, id: string) {
    k in r.integrators && r.integrators[k].id == id
  }

  lemma CancelStep(r: Repo, step: Step, after: Repo, k: nat, id: string)
    requires P.Inv(r.store) && after == Apply(r, step) && (step.Store? ==> P.FreshWrite(r.store, step.step))
    requires CancelledRow(r, id) && !Inside(r, k, id)
    ensures CancelledRow(after, id) && !Inside(after, k, id)
  {
    if step.Store? {
      P.GuardedStep(r.store, step.step, id);
    }
  }

  lemma {:induction false} CancelledStaysOut(r: Repo, steps: seq<Step>, i: nat, j: nat, k: nat, id: string)
    requires Start(r) && i <= j <= |steps| && Guarded(r, steps, j)
    requires CancelledRow(At(r, steps, i), id) && !Inside(At(r, steps, i), k, id)
    ensures CancelledRow(At(r, steps, j), id) && !Inside(At(r, steps, j), k, id)
  {
    if i < j {
      CancelledStaysOut(r, steps, i, j - 1, k, id);
      InvAt(r, steps, j - 1);
      CancelStep(At(r, steps, j - 1), steps[j - 1], At(r, steps, j), k, id);
    }
  }

  /** Guarded: no integration started after a committed cancel ever merges the cancelled run. */
  lemma NoMergeAfterCancel(r: Repo, steps: seq<Step>, i: nat, j: nat, k: nat, id: string)
    requires Start(r) && i <= j <= |steps| && Guarded(r, steps, j)
    requires CancelledRow(At(r, steps, i), id) && !Inside(At(r, steps, i), k, id)
    ensures id in Apply(At(r, steps, j), Merge(k)).integrated ==> id in At(r, steps, j).integrated
    ensures Apply(At(r, steps, j), Merge(k)).head != At(r, steps, j).head ==> At(r, steps, j).integrators[k].id != id
  {
    CancelledStaysOut(r, steps, i, j, k, id);
  }
}
