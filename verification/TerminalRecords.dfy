/**
 What two racing calls make of a run's record as a whole: lifecycle and outcome together. Also the
 recovery of interrupted runs under concurrency, whose finish is refused when another actor came first.
 */
module TerminalRecords {
  import opened Wrappers
  import opened Lifecycles
  import opened StateStores
  import opened RunProtocol

  // ---------- lifecycle and outcome ----------

  predicate SameRecord(a: Row, b: Row) {
    a.lifecycle == b.lifecycle && a.outcome == b.outcome
  }

  /** Terminal runs keep their lifecycle and their outcome. */
  ghost predicate RecordsStay(s: System, steps: seq<Step>) {
    forall i, j, id | 0 <= i <= j <= |steps| && id in At(s, steps, i).rows ::
      At(s, steps, i).rows[id].lifecycle in TERMINAL ==>
        id in At(s, steps, j).rows && SameRecord(At(s, steps, i).rows[id], At(s, steps, j).rows[id])
  }

  /**
   A call that checked before another call's terminal write to the same run writes after it, and
   what it writes is not what that write left: another state, or another outcome.
   */
  predicate LostRecord(s: System, steps: seq<Step>, m: nat, n: nat, j: nat, k: nat) {
    && Call(s, steps, m, n) && Call(s, steps, j, k) && m < k < n
    && steps[j].id == steps[m].id && steps[j].target in TERMINAL && steps[m].id in At(s, steps, k + 1).rows
    && (steps[m].target != steps[j].target
      || (steps[m].outcome.Some? && steps[m].outcome != At(s, steps, k + 1).rows[steps[m].id].outcome))
  }

  lemma LostRecordOverwrites(s: System, steps: seq<Step>, m: nat, n: nat, j: nat, k: nat)
    requires LostRecord(s, steps, m, n, j, k)
    ensures !RecordsStay(s, steps)
  {
    CallLands(s, steps, m, n);
    CallLands(s, steps, j, k);
    var id := steps[m].id;
    assert At(s, steps, k + 1).rows[id].lifecycle in TERMINAL;
    assert !SameRecord(At(s, steps, k + 1).rows[id], At(s, steps, n + 1).rows[id]);
  }

  /** A step that changes a record, other than a claim, is a call's write. */
  lemma StepRewrites(s: System, step: Step, id: string)
    requires id in s.rows && id in Apply(s, step).rows
    requires !SameRecord(s.rows[id], Apply(s, step).rows[id])
    requires s.rows[id].lifecycle == Pending ==> Apply(s, step).rows[id].lifecycle != Running
    ensures Writes(s, step) && s.checked[step.actor].id == id
    ensures var check := s.checked[step.actor];
      && check.target == Apply(s, step).rows[id].lifecycle
      && Apply(s, step).rows[id].outcome == if check.outcome.Some? then check.outcome else s.rows[id].outcome
  {
  }

  /** A terminal record of a run that was not terminal at `m` was completed by a call's write since. */
  lemma {:induction false} RecordCompleted(s: System, steps: seq<Step>, m: nat, n: nat, id: string) returns (j: nat, k: nat)
    requires Start(s) && m <= n < |steps|
    requires id in At(s, steps, m).rows && At(s, steps, m).rows[id].lifecycle !in TERMINAL
    requires id in At(s, steps, n).rows && At(s, steps, n).rows[id].lifecycle in TERMINAL
    ensures m <= k < n && Call(s, steps, j, k) && steps[j].id == id
    ensures steps[j].target == At(s, steps, n).rows[id].lifecycle
    ensures id in At(s, steps, k + 1).rows && SameRecord(At(s, steps, k + 1).rows[id], At(s, steps, n).rows[id])
  {
    RowsPersist(s, steps, m, n - 1, id);
    if SameRecord(At(s, steps, n - 1).rows[id], At(s, steps, n).rows[id]) {
      j, k := RecordCompleted(s, steps, m, n - 1, id);
    } else {
      k := n - 1;
      StepRewrites(At(s, steps, k), steps[k], id);
      j := LandingWriteIsCall(s, steps, k);
    }
  }

  lemma RewrittenByLostRecord(s: System, steps: seq<Step>, n: nat, id: string) returns (m: nat, j: nat, k: nat)
    requires Start(s) && n < |steps| && id in At(s, steps, n).rows && At(s, steps, n).rows[id].lifecycle in TERMINAL
    requires id in At(s, steps, n + 1).rows
    requires !SameRecord(At(s, steps, n).rows[id], At(s, steps, n + 1).rows[id])
    ensures LostRecord(s, steps, m, n, j, k)
  {
    StepRewrites(At(s, steps, n), steps[n], id);
    m := LandingWriteIsCall(s, steps, n);
    j, k := RecordCompleted(s, steps, m, n, id);
  }

  lemma {:induction false} KeptWithoutLostRecord(s: System, steps: seq<Step>, i: nat, j: nat, id: string)
    requires Start(s) && i <= j <= |steps| && id in At(s, steps, i).rows && At(s, steps, i).rows[id].lifecycle in TERMINAL
    requires !exists m, n, l, k :: LostRecord(s, steps, m, n, l, k)
    ensures id in At(s, steps, j).rows && SameRecord(At(s, steps, i).rows[id], At(s, steps, j).rows[id])
  {
    if i < j {
      KeptWithoutLostRecord(s, steps, i, j - 1, id);
      RowsPersist(s, steps, i, j, id);
      if !SameRecord(At(s, steps, j - 1).rows[id], At(s, steps, j).rows[id]) {
        var m, l, k := RewrittenByLostRecord(s, steps, j - 1, id);
      }
    }
  }

  /** Terminal records, lifecycle and outcome, stay in exactly the interleavings in which no call loses a race on one. */
  lemma RecordsStayExactly(s: System, steps: seq<Step>)
    requires Start(s)
    ensures RecordsStay(s, steps) <==> !exists m, n, j, k :: LostRecord(s, steps, m, n, j, k)
  {
    if !exists m, n, j, k :: LostRecord(s, steps, m, n, j, k) {
      forall i, j, id | 0 <= i <= j <= |steps| && id in At(s, steps, i).rows && At(s, steps, i).rows[id].lifecycle in TERMINAL
        ensures id in At(s, steps, j).rows && SameRecord(At(s, steps, i).rows[id], At(s, steps, j).rows[id])
      {
        KeptWithoutLostRecord(s, steps, i, j, id);
      }
    } else {
      var m, n, j, k :| LostRecord(s, steps, m, n, j, k);
      LostRecordOverwrites(s, steps, m, n, j, k);
    }
  }

  // ---------- recovery under concurrency ----------

  /** A write to this run lands at step `i`. */
  predicate Lands(s: System, steps: seq<Step>, i: nat, id: string) {
    i < |steps| && Writes(At(s, steps, i), steps[i]) && At(s, steps, i).checked[steps[i].actor].id == id
  }

  /** The last write to the run between `f` and `m` is of a call that ends its execution. */
  predicate EndedBetween(s: System, steps: seq<Step>, f: nat, m: nat, id: string, j: nat, k: nat) {
    && f <= k < m && Call(s, steps, j, k) && steps[j].id == id && steps[j].target != Running
    && forall i | k < i < m :: !Lands(s, steps, i, id)
  }

  lemma NotLandingKeeps(s: System, step: Step, id: string)
    requires id in s.rows && s.rows[id].lifecycle != Pending
    requires !(Writes(s, step) && s.checked[step.actor].id == id)
    ensures id in Apply(s, step).rows && Apply(s, step).rows[id].lifecycle == s.rows[id].lifecycle
  {
  }

  lemma CallIsLanding(s: System, steps: seq<Step>, j: nat, k: nat)
    requires Call(s, steps, j, k)
    ensures Lands(s, steps, k, steps[j].id)
  {
    StillChecked(s, steps, j, k, k);
    RowsPersist(s, steps, j, k, steps[j].id);
  }

  /** Whether a run found running is still running later is decided by the last write to it in between. */
  lemma {:induction false} FoundRowMoved(s: System, steps: seq<Step>, f: nat, m: nat, id: string)
    requires Start(s) && f <= m <= |steps|
    requires id in At(s, steps, f).rows && At(s, steps, f).rows[id].lifecycle == Running
    ensures id in At(s, steps, m).rows
    ensures At(s, steps, m).rows[id].lifecycle != Running <==> exists j, k :: EndedBetween(s, steps, f, m, id, j, k)
  {
    hide Apply;
    if f < m {
      hide EndedBetween;
      FoundRowMoved(s, steps, f, m - 1, id);
      NeverPendingAgain(s, steps, f, m - 1, id);
      if Lands(s, steps, m - 1, id) {
        LastWriteDecides(s, steps, f, m, id);
      } else {
        NotLandingKeeps(At(s, steps, m - 1), steps[m - 1], id);
        NothingNewEnded(s, steps, f, m - 1, m, id);
      }
    }
  }

  lemma LastWriteDecides(s: System, steps: seq<Step>, f: nat, m: nat, id: string)
    requires Start(s) && f < m <= |steps| && Lands(s, steps, m - 1, id)
    ensures id in At(s, steps, m).rows
    ensures At(s, steps, m).rows[id].lifecycle != Running <==> exists j, k :: EndedBetween(s, steps, f, m, id, j, k)
  {
    var call := LandingWriteIsCall(s, steps, m - 1);
    CallLands(s, steps, call, m - 1);
    if steps[call].target != Running {
      assert EndedBetween(s, steps, f, m, id, call, m - 1);
    } else {
      forall j, k
        ensures !EndedBetween(s, steps, f, m, id, j, k)
      {
        if EndedBetween(s, steps, f, m, id, j, k) {
          assert k == m - 1;
          CallLands(s, steps, j, k);
        }
      }
    }
  }

  lemma NothingNewEnded(s: System, steps: seq<Step>, f: nat, before: nat, m: nat, id: string)
    requires f <= before < |steps| && m == before + 1 && !Lands(s, steps, before, id)
    ensures (exists j, k :: EndedBetween(s, steps, f, m, id, j, k))
       <==> (exists j, k :: EndedBetween(s, steps, f, before, id, j, k))
  {
    if j, k :| EndedBetween(s, steps, f, m, id, j, k) {
      CallIsLanding(s, steps, j, k);
      assert EndedBetween(s, steps, f, before, id, j, k);
    }
    if j, k :| EndedBetween(s, steps, f, before, id, j, k) {
      assert EndedBetween(s, steps, f, m, id, j, k);
    }
  }

  /** The check of `finish` at step `n` is refused, which raises. */
  predicate Refused(s: System, steps: seq<Step>, n: nat) {
    && n < |steps| && steps[n].CheckTransition?
    && (steps[n].id !in At(s, steps, n).rows || !Allowed(At(s, steps, n).rows[steps[n].id].lifecycle, steps[n].target))
  }

  /** A call has ended the run that is checked at step `n`, since the search. */
  ghost predicate EndedBefore(s: System, steps: seq<Step>, found: nat, n: nat) {
    && n < |steps| && steps[n].CheckTransition?
    && exists j, k :: EndedBetween(s, steps, found, n, steps[n].id, j, k)
  }

  /** One recovery: it finds its rows at step `found` and checks each of them, in order, at the steps `checks`. */
  predicate Recovery(s: System, steps: seq<Step>, found: nat, checks: seq<nat>) {
    && (forall c | 0 <= c < |checks| ::
      && found <= checks[c] < |steps| && steps[checks[c]].CheckTransition? && steps[checks[c]].target == Blocked
      && steps[checks[c]].id in At(s, steps, found).rows
      && At(s, steps, found).rows[steps[checks[c]].id].lifecycle == Running)
  }

  /**
   An exception leaves a recovery, and so `drain` before any claim, exactly when another call
   ended one of the found runs between the search and the check of that run.
   */
  lemma RecoveryRefusedExactly(s: System, steps: seq<Step>, found: nat, checks: seq<nat>)
    requires Start(s) && Recovery(s, steps, found, checks)
    ensures (exists c | 0 <= c < |checks| :: Refused(s, steps, checks[c]))
       <==> (exists c | 0 <= c < |checks| :: EndedBefore(s, steps, found, checks[c]))
  {
    forall c | 0 <= c < |checks|
      ensures Refused(s, steps, checks[c]) <==> EndedBefore(s, steps, found, checks[c])
    {
      FoundRowMoved(s, steps, found, checks[c], steps[checks[c]].id);
      OnlyRunningIsBlocked(At(s, steps, checks[c]).rows[steps[checks[c]].id].lifecycle);
    }
  }

  lemma OnlyRunningIsBlocked(lifecycle: Lifecycle)
    ensures Allowed(lifecycle, Blocked) <==> lifecycle == Running
  {
  }

  /** Two drains start together and both find the same interrupted run: the second one's recovery raises. */
  lemma TwoRecoveriesCollide(s: System, steps: seq<Step>, id: string)
    requires Start(s) && id in s.rows && s.rows[id].lifecycle == Running
    requires steps == [
      CheckTransition(0, id, Blocked, Some("runner-interrupted")), Write(0),
      CheckTransition(1, id, Blocked, Some("runner-interrupted"))]
    ensures Recovery(s, steps, 0, [0]) && !Refused(s, steps, 0)
    ensures Recovery(s, steps, 0, [2]) && Refused(s, steps, 2)
  {
    assert At(s, steps, 0) == s;
    assert At(s, steps, 1) == Apply(s, steps[0]);
    assert At(s, steps, 2) == Apply(At(s, steps, 1), steps[1]);
    assert At(s, steps, 2).rows[id].lifecycle == Blocked;
  }
}
