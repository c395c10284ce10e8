/** Who may integrate: the lifecycle gate in terms of the rows, in every interleaving. */
module Gating {
  import opened Wrappers
  import opened Lifecycles
  import opened Integration
  import P = RunProtocol

  /** The store does not track the run, or has it ready for review. */
  predicate UntrackedOrReady(r: Repo, id: string) {
    id !in r.store.rows || r.store.rows[id].lifecycle == ReadyForReview
  }

  /** A gate that finds its run tracked and not ready for review does not open. */
  lemma GateRefuses(r: Repo, k: nat, id: string)
    requires !UntrackedOrReady(r, id)
    ensures Apply(r, Gate(k, id)) == r
  {
  }

  /** A gate opens for a committed run that is untracked or ready, unless the integrator is busy. */
  lemma GateAdmits(r: Repo, k: nat, id: string)
    requires UntrackedOrReady(r, id) && k !in r.integrators
    requires id in r.runs && r.runs[id].base.Some? && r.runs[id].commit.Some?
    ensures Inside(Apply(r, Gate(k, id)), k, id)
  {
  }

  lemma StepInside(r: Repo, step: Step, k: nat)
    requires k in Apply(r, step).integrators
    ensures k in r.integrators ==> Apply(r, step).integrators[k].id == r.integrators[k].id
    ensures k !in r.integrators ==>
      step == Gate(k, Apply(r, step).integrators[k].id) && UntrackedOrReady(r, Apply(r, step).integrators[k].id)
  {
  }

  /** Whoever is inside entered at an earlier step at which its run was untracked or ready for review, and never left since. */
  lemma {:induction false} EnteredWhenReady(r: Repo, steps: seq<Step>, n: nat, k: nat) returns (m: nat)
    requires Start(r) && n <= |steps| && k in At(r, steps, n).integrators
    ensures m < n && steps[m] == Gate(k, At(r, steps, n).integrators[k].id) && k !in At(r, steps, m).integrators
    ensures UntrackedOrReady(At(r, steps, m), At(r, steps, n).integrators[k].id)
    ensures forall i | m < i <= n :: Inside(At(r, steps, i), k, At(r, steps, n).integrators[k].id)
  {
    StepInside(At(r, steps, n - 1), steps[n - 1], k);
    if k in At(r, steps, n - 1).integrators {
      m := EnteredWhenReady(r, steps, n - 1, k);
    } else {
      m := n - 1;
    }
  }

  /** What a run records of the target: HEAD before the worktree, HEAD again for it, and a commit on that. */
  lemma RunSteps(r: Repo, id: string)
    ensures id !in r.runs ==>
      Apply(r, RecordBase(id)) == r.(runs := r.runs[id := RunInfo(recorded := r.head, base := None, commit := None)])
    ensures id in r.runs && r.runs[id].base.None? ==>
      Apply(r, CreateWorktree(id)) == r.(runs := r.runs[id := r.runs[id].(base := Some(r.head))])
    ensures id in r.runs && r.runs[id].base.Some? && r.runs[id].commit.None? ==>
      var after := Apply(r, CommitWorker(id));
      && after.graph == r.graph + [{r.runs[id].base.value}] && after.head == r.head
      && after.runs == r.runs[id := r.runs[id].(commit := Some(|r.graph|))]
  {
  }

  predicate TerminalRow(r: Repo, id: string, lifecycle: Lifecycle) {
    id in r.store.rows && r.store.rows[id].lifecycle == lifecycle
  }

  lemma TerminalStep(r: Repo, step: Step, k: nat, id: string, lifecycle: Lifecycle)
    requires P.Inv(r.store) && (step.Store? ==> P.FreshWrite(r.store, step.step))
    requires lifecycle in {Blocked, Cancelled, Integrated} && TerminalRow(r, id, lifecycle) && !Inside(r, k, id)
    ensures TerminalRow(Apply(r, step), id, lifecycle) && !Inside(Apply(r, step), k, id)
  {
    if step.Store? {
      P.GuardedStep(r.store, step.step, id);
      AllowedPairs(lifecycle, P.Apply(r.store, step.step).rows[id].lifecycle);
    }
    if k in Apply(r, step).integrators {
      StepInside(r, step, k);
    }
  }

  lemma {:induction false} TerminalStaysOut(r: Repo, steps: seq<Step>, i: nat, j: nat, k: nat, id: string, lifecycle: Lifecycle)
    requires Start(r) && i <= j <= |steps| && Guarded(r, steps, j) && lifecycle in {Blocked, Cancelled, Integrated}
    requires TerminalRow(At(r, steps, i), id, lifecycle) && !Inside(At(r, steps, i), k, id)
    ensures TerminalRow(At(r, steps, j), id, lifecycle) && !Inside(At(r, steps, j), k, id)
  {
    if i < j {
      TerminalStaysOut(r, steps, i, j - 1, k, id, lifecycle);
      InvAt(r, steps, j - 1);
      TerminalStep(At(r, steps, j - 1), steps[j - 1], k, id, lifecycle);
    }
  }

  /**
   Guarded: once a run is blocked, cancelled or integrated, no integrator that is outside then ever
   merges it: none of its merges adds the run or moves HEAD for it.
   */
  lemma NoMergeAfterTerminal(r: Repo, steps: seq<Step>, i: nat, j: nat, k: nat, id: string)
    requires Start(r) && i <= j <= |steps| && Guarded(r, steps, j)
    requires id in At(r, steps, i).store.rows && At(r, steps, i).store.rows[id].lifecycle in {Blocked, Cancelled, Integrated}
    requires !Inside(At(r, steps, i), k, id)
    ensures id in Apply(At(r, steps, j), Merge(k)).integrated ==> id in At(r, steps, j).integrated
    ensures Apply(At(r, steps, j), Merge(k)).head != At(r, steps, j).head ==> At(r, steps, j).integrators[k].id != id
  {
    TerminalStaysOut(r, steps, i, j, k, id, At(r, steps, i).store.rows[id].lifecycle);
    OutsideAddsNothing(At(r, steps, j), k, id);
  }

  lemma OutsideAddsNothing(r: Repo, k: nat, id: string)
    requires !Inside(r, k, id)
    ensures id in Apply(r, Merge(k)).integrated ==> id in r.integrated
    ensures Apply(r, Merge(k)).head != r.head ==> k in r.integrators && r.integrators[k].id != id
  {
  }
}
