/** The other actors on the queue, each as one undisturbed call: cancel, integrate, and its lifecycle sync. */
module QueueActors {
  import opened Wrappers
  import opened Lifecycles
  import opened StateStores
  import I = Integration

  // ---------- cancel ----------

  datatype CancelAction = CancelledBeforeStart | TerminatedRunning | DiscardIntentRecorded

  datatype CancelRefusal = UnknownRun | AlreadyTerminal(lifecycle: Lifecycle)

  /** `cancel_run`, without the signals sent to the worker's process group. */
  method CancelRun(store: StateStore, id: string) returns (r: Result<CancelAction, CancelRefusal>)
    modifies store
    ensures r.Ok? <==> SafeId(id) && id in old(store.rows) && old(store.rows)[id].lifecycle !in TERMINAL
    ensures r.Ok? ==> store.rows == old(store.rows)[id := old(store.rows)[id].(
      lifecycle := Cancelled, outcome := Some("cancelled-by-user"), pid := None)]
    ensures r == Ok(CancelledBeforeStart) <==> SafeId(id) && id in old(store.rows) && old(store.rows)[id].lifecycle == Pending
    ensures r == Ok(TerminatedRunning) <==> SafeId(id) && id in old(store.rows) && old(store.rows)[id].lifecycle == Running
    ensures r == Ok(DiscardIntentRecorded) <==> SafeId(id) && id in old(store.rows) && old(store.rows)[id].lifecycle == ReadyForReview
    ensures r.Err? ==> store.rows == old(store.rows)
    ensures r == Err(UnknownRun) <==> !SafeId(id) || id !in old(store.rows)
  {
    var found := store.Get(id);
    if found.Err? || found.value.None? {
      return Err(UnknownRun);
    }
    var row := found.value.value;
    var action;
    match row.lifecycle {
      case Pending => action := CancelledBeforeStart;
      case Running => action := TerminatedRunning;
      case ReadyForReview => action := DiscardIntentRecorded;
      case Integrated | Blocked | Cancelled => return Err(AlreadyTerminal(row.lifecycle));
    }
    var finished := store.Finish(id, Cancelled, "cancelled-by-user");
    r := Ok(action);
  }

  // ---------- integrate ----------

  /** The recorded evidence of a run, as far as `integrate_run` looks at it. */
  datatype RunRecord = RunRecord(
    editMode: bool,
    finalStatus: Status,
    commit: Option<nat>,
    repositoryKnown: bool,
    realpathMatches: bool,
    base: Option<nat>,
    onWorkerBranch: bool,
    testExitCodes: seq<int>,
    escalation: Option<string>)

  /** Which reads and writes of the call succeed, in their order. */
  datatype Host = Host(
    recordLoads: bool,
    storeReads: bool,
    statusReads: bool,
    headReads: bool,
    manifestReads: bool,
    lockOpens: bool,
    startNoted: bool,
    headReadsAgain: bool,
    metadataReads: bool,
    metadataWrites: bool,
    completionNoted: bool,
    manifestSeals: bool)
  {
    /** Everything before the merge. */
    predicate ReadsPass() {
      recordLoads && storeReads && statusReads && headReads && manifestReads && lockOpens && startNoted
    }

    /** The recorded metadata names the new HEAD. */
    predicate RecordPasses() {
      headReadsAgain && metadataReads && metadataWrites
    }

    /** Everything after the merge. */
    predicate LaterStepsPass() {
      RecordPasses() && completionNoted && manifestSeals
    }
  }

  /** `Unexpected` is an exception the call does not translate. */
  datatype Refusal =
    | RunUnavailable | ModeInvalid | StatusInvalid | CommitMissing | RepositoryMissing | RepositoryDiverged
    | GitStatusFailed | DirtyCheckout | GitHeadFailed | BaseMissing | BaseDiverged | BranchMissing
    | EvidenceMismatch | TestsFailed | LockBusy | MergeFailed | Unexpected

  /** What `integrate_run` can change; `sealed` holds the runs whose manifest matches their evidence files. */
  datatype View = View(
    graph: I.Graph, head: nat, dirty: bool, locked: bool, integratedSha: map<string, nat>, sealed: set<string>)

  class Checkout {
    var graph: I.Graph
    var head: nat
    var dirty: bool
    var locked: bool
    var integratedSha: map<string, nat>
    var sealed: set<string>

    predicate Valid()
      reads this
    {
      head < |graph|
    }

    function Current(): View
      reads this
    {
      View(graph, head, dirty, locked, integratedSha, sealed)
    }

    constructor (graph: I.Graph, head: nat, sealed: set<string>)
      requires head < |graph|
      ensures Valid() && Current() == View(graph, head, false, false, map[], sealed)
    {
      this.graph, this.head, dirty, locked, integratedSha, this.sealed := graph, head, false, false, map[], sealed;
    }
  }

  predicate TestsPassed(codes: seq<int>) {
    codes != [] && forall i | 0 <= i < |codes| :: codes[i] == 0
  }

  /** Every guard before the lock. */
  predicate PreflightPasses(id: string, record: RunRecord, row: Option<Row>, at: View) {
    && record.editMode && record.finalStatus == StatusReady
    && (row.Some? ==> row.value.lifecycle == ReadyForReview)
    && record.commit.Some? && record.repositoryKnown && record.realpathMatches && !at.dirty
    && record.base == Some(at.head)
    && record.onWorkerBranch && id in at.sealed && TestsPassed(record.testExitCodes) && record.escalation.None?
  }

  /** The guards before the lock, spelled out over the recorded evidence. */
  lemma PreflightExactly(id: string, record: RunRecord, row: Option<Row>, at: View)
    ensures PreflightPasses(id, record, row, at) <==>
      && record.editMode && record.finalStatus == StatusReady && record.escalation.None?
      && (row.None? || row.value.lifecycle == ReadyForReview)
      && record.commit.Some? && record.repositoryKnown && record.realpathMatches && !at.dirty
      && record.base.Some? && record.base.value == at.head && record.onWorkerBranch && id in at.sealed
      && |record.testExitCodes| > 0 && forall i | 0 <= i < |record.testExitCodes| :: record.testExitCodes[i] == 0
  {
  }

  /** HEAD has left the recorded base, and no guard before the base check refuses. */
  predicate Drifted(record: RunRecord, row: Option<Row>, at: View) {
    && record.editMode && record.finalStatus == StatusReady
    && (row.Some? ==> row.value.lifecycle == ReadyForReview)
    && record.commit.Some? && record.repositoryKnown && record.realpathMatches && !at.dirty
    && record.base.Some? && record.base.value != at.head
  }

  /** The merge is started: every guard passes, the lock is free, and every read before it succeeds. */
  predicate ReachesMerge(id: string, record: RunRecord, row: Option<Row>, host: Host, at: View) {
    PreflightPasses(id, record, row, at) && !at.locked && host.ReadsPass()
  }

  /** Git accepts the fast-forward; it moves HEAD unless HEAD contains the commit already. */
  predicate Mergeable(at: View, commit: nat)
    requires at.head < |at.graph| && commit < |at.graph|
  {
    I.Ancestor(at.graph, at.head, commit) || I.Ancestor(at.graph, commit, at.head)
  }

  predicate MovesHead(at: View, commit: nat)
    requires at.head < |at.graph| && commit < |at.graph|
  {
    at.head != commit && I.Ancestor(at.graph, at.head, commit)
  }

  lemma FastForwardCases(at: View, commit: nat)
    requires at.head < |at.graph| && commit < |at.graph|
    ensures I.FastForward(at.graph, at.head, commit).Some? <==> Mergeable(at, commit)
    ensures I.FastForward(at.graph, at.head, commit) == Some(commit) || I.FastForward(at.graph, at.head, commit) == Some(at.head)
      || I.FastForward(at.graph, at.head, commit).None?
    ensures I.FastForward(at.graph, at.head, commit).Some? ==>
      (I.FastForward(at.graph, at.head, commit).value != at.head <==> MovesHead(at, commit))
    ensures I.FastForward(at.graph, at.head, commit).Some? ==>
      var head := I.FastForward(at.graph, at.head, commit).value;
      I.Ancestor(at.graph, at.head, head) && I.Ancestor(at.graph, commit, head)
  {
    I.AncestorOrder(at.graph, at.head, commit);
    I.AncestorOrder(at.graph, commit, at.head);
  }

  /** The first guard before the lock that refuses. */
  function FirstRefusal(id: string, record: RunRecord, row: Option<Row>, host: Host, at: View): Option<Refusal> {
    if !host.recordLoads then Some(RunUnavailable)
    else if !record.editMode then Some(ModeInvalid)
    else if record.finalStatus != StatusReady then Some(StatusInvalid)
    else if !host.storeReads then Some(Unexpected)
    else if row.Some? && row.value.lifecycle != ReadyForReview then Some(StatusInvalid)
    else if record.commit.None? then Some(CommitMissing)
    else if !record.repositoryKnown then Some(RepositoryMissing)
    else if !record.realpathMatches then Some(RepositoryDiverged)
    else if !host.statusReads then Some(GitStatusFailed)
    else if at.dirty then Some(DirtyCheckout)
    else if !host.headReads then Some(GitHeadFailed)
    else if record.base.None? then Some(BaseMissing)
    else if record.base.value != at.head then Some(BaseDiverged)
    else if !record.onWorkerBranch then Some(BranchMissing)
    else if !host.manifestReads then Some(Unexpected)
    else if id !in at.sealed then Some(EvidenceMismatch)
    else if !TestsPassed(record.testExitCodes) then Some(TestsFailed)
    else if record.escalation.Some? then Some(StatusInvalid)
    else None
  }

  /** The guards before the lock, in order. */
  method Preflight(checkout: Checkout, id: string, record: RunRecord, row: Option<Row>, host: Host)
    returns (refusal: Option<Refusal>)
    ensures refusal.None? <==>
      && PreflightPasses(id, record, row, checkout.Current())
      && host.recordLoads && host.storeReads && host.statusReads && host.headReads && host.manifestReads
    ensures refusal == FirstRefusal(id, record, row, host, checkout.Current())
    ensures refusal.Some? ==> refusal.value !in {LockBusy, MergeFailed}
    ensures row.Some? && row.value.lifecycle == Cancelled ==>
      refusal.Some? && refusal.value in {RunUnavailable, ModeInvalid, StatusInvalid, Unexpected}
    ensures host.ReadsPass() && Drifted(record, row, checkout.Current()) ==> refusal == Some(BaseDiverged)
  {
    if !host.recordLoads {
      return Some(RunUnavailable);
    }
    if !record.editMode {
      return Some(ModeInvalid);
    }
    if record.finalStatus != StatusReady {
      return Some(StatusInvalid);
    }
    if !host.storeReads {
      return Some(Unexpected);
    }
    if row.Some? && row.value.lifecycle != ReadyForReview {
      return Some(StatusInvalid);
    }
    if record.commit.None? {
      return Some(CommitMissing);
    }
    if !record.repositoryKnown {
      return Some(RepositoryMissing);
    }
    if !record.realpathMatches {
      return Some(RepositoryDiverged);
    }
    if !host.statusReads {
      return Some(GitStatusFailed);
    }
    if checkout.dirty {
      return Some(DirtyCheckout);
    }
    if !host.headReads {
      return Some(GitHeadFailed);
    }
    if record.base.None? {
      return Some(BaseMissing);
    }
    if checkout.head != record.base.value {
      return Some(BaseDiverged);
    }
    if !record.onWorkerBranch {
      return Some(BranchMissing);
    }
    if !host.manifestReads {
      return Some(Unexpected);
    }
    if id !in checkout.sealed {
      return Some(EvidenceMismatch);
    }
    if !TestsPassed(record.testExitCodes) {
      return Some(TestsFailed);
    }
    if record.escalation.Some? {
      return Some(StatusInvalid);
    }
    refusal := None;
  }

  /** After the merge: read HEAD, record it, note the event and seal the evidence again. */
  method RecordMerge(checkout: Checkout, id: string, host: Host) returns (r: Result<nat, Refusal>)
    modifies checkout
    ensures checkout.Current() == old(checkout.Current()).(
      integratedSha := if host.RecordPasses() then old(checkout.integratedSha)[id := old(checkout.head)] else old(checkout.integratedSha),
      sealed := if host.LaterStepsPass() then old(checkout.sealed) + {id} else old(checkout.sealed))
    ensures r == if host.LaterStepsPass() then Ok(old(checkout.head))
      else if !host.headReadsAgain then Err(GitHeadFailed) else Err(Unexpected)
  {
    if !host.headReadsAgain {
      return Err(GitHeadFailed);
    }
    if !host.metadataReads || !host.metadataWrites {
      return Err(Unexpected);
    }
    checkout.integratedSha := checkout.integratedSha[id := checkout.head];
    if !host.completionNoted || !host.manifestSeals {
      return Err(Unexpected);
    }
    checkout.sealed := checkout.sealed + {id};
    r := Ok(checkout.head);
  }

  /**
   `integrate_run`: ordered guards, then the lock, the fast-forward and the record of what HEAD
   became. A failing call leaves HEAD where it was, except in one case: the merge moved it and a
   later step failed. The lock is free again on every path on which this call took it. Once the
   start is noted the evidence is sealed again only by success.
   */
  method IntegrateRun(checkout: Checkout, id: string, record: RunRecord, row: Option<Row>, host: Host)
    returns (r: Result<nat, Refusal>)
    requires checkout.Valid() && (record.commit.Some? ==> record.commit.value < |checkout.graph|)
    modifies checkout
    ensures checkout.Valid() && checkout.graph == old(checkout.graph) && checkout.dirty == old(checkout.dirty)
    ensures checkout.locked == old(checkout.locked)
    ensures var at := old(checkout.Current()); r.Ok? <==>
      ReachesMerge(id, record, row, host, at) && Mergeable(at, record.commit.value) && host.LaterStepsPass()
    ensures var at := old(checkout.Current()); checkout.head != at.head <==>
      ReachesMerge(id, record, row, host, at) && MovesHead(at, record.commit.value)
    ensures var at := old(checkout.Current()); r.Err? ==> (checkout.head != at.head <==>
      ReachesMerge(id, record, row, host, at) && MovesHead(at, record.commit.value) && !host.LaterStepsPass())
    ensures checkout.head != old(checkout.head) ==> checkout.head == record.commit.value
    ensures r.Ok? || checkout.head != old(checkout.head) ==>
      && record.editMode && record.finalStatus == StatusReady && record.escalation.None?
      && (row.None? || row.value.lifecycle == ReadyForReview) && record.base == Some(old(checkout.head))
      && |record.testExitCodes| > 0 && forall i | 0 <= i < |record.testExitCodes| :: record.testExitCodes[i] == 0
    ensures r.Ok? ==>
      && checkout.head == r.value
      && I.Ancestor(checkout.graph, old(checkout.head), checkout.head)
      && I.Ancestor(checkout.graph, record.commit.value, checkout.head)
    ensures var at := old(checkout.Current());
      checkout.integratedSha ==
        if ReachesMerge(id, record, row, host, at) && Mergeable(at, record.commit.value) && host.RecordPasses()
        then at.integratedSha[id := checkout.head] else at.integratedSha
    ensures var at := old(checkout.Current());
      checkout.sealed == if ReachesMerge(id, record, row, host, at) && r.Err? then at.sealed - {id} else at.sealed
    ensures r == Err(LockBusy) ==> PreflightPasses(id, record, row, old(checkout.Current())) && old(checkout.locked)
    ensures FirstRefusal(id, record, row, host, old(checkout.Current())).Some? ==>
      r == Err(FirstRefusal(id, record, row, host, old(checkout.Current())).value)
    ensures row.Some? && row.value.lifecycle == Cancelled ==>
      r in {Err(RunUnavailable), Err(ModeInvalid), Err(StatusInvalid), Err(Unexpected)}
    ensures host.ReadsPass() && Drifted(record, row, old(checkout.Current())) ==> r == Err(BaseDiverged)
    ensures var at := old(checkout.Current());
      ReachesMerge(id, record, row, host, at) && Mergeable(at, record.commit.value) && !host.headReadsAgain ==>
        r == Err(GitHeadFailed)
  {
    var refusal := Preflight(checkout, id, record, row, host);
    if refusal.Some? {
      return Err(refusal.value);
    }
    if !host.lockOpens {
      return Err(Unexpected);
    }
    if checkout.locked {
      return Err(LockBusy);
    }
    if !host.startNoted {
      return Err(Unexpected);
    }
    r := LockedMerge(checkout, id, record.commit.value, host);
  }

  /** The section under the lock, from the noted start on. */
  method LockedMerge(checkout: Checkout, id: string, commit: nat, host: Host) returns (r: Result<nat, Refusal>)
    requires checkout.Valid() && commit < |checkout.graph| && !checkout.locked && id in checkout.sealed
    modifies checkout
    ensures var at := old(checkout.Current());
      var head := if MovesHead(at, commit) then commit else at.head;
      && r == (if !Mergeable(at, commit) then Err(MergeFailed)
        else if host.LaterStepsPass() then Ok(head)
        else if !host.headReadsAgain then Err(GitHeadFailed) else Err(Unexpected))
      && checkout.Current() == at.(
        head := head,
        integratedSha := if Mergeable(at, commit) && host.RecordPasses() then at.integratedSha[id := head] else at.integratedSha,
        sealed := if r.Ok? then at.sealed else at.sealed - {id})
    ensures r.Ok? ==>
      I.Ancestor(checkout.graph, old(checkout.head), checkout.head) && I.Ancestor(checkout.graph, commit, checkout.head)
  {
    FastForwardCases(checkout.Current(), commit);
    ghost var at := checkout.Current();
    checkout.locked := true;
    checkout.sealed := checkout.sealed - {id};
    var merged := I.FastForward(checkout.graph, checkout.head, commit);
    if merged.None? {
      r := Err(MergeFailed);
    } else {
      checkout.head := merged.value;
      r := RecordMerge(checkout, id, host);
      assert at.sealed - {id} + {id} == at.sealed;
    }
    checkout.locked := false;
  }

  /** Which statements of the sync succeed; an exception of any of them is swallowed. */
  datatype Sync = Sync(recordLoads: bool, rowReads: bool, rowReadsBack: bool, rowUpdates: bool)
  {
    /** Everything the sync of a row that is already tracked needs. */
    predicate Passes() {
      recordLoads && rowReads && rowUpdates
    }
  }

  /**
   `mark_integrated_sync`: after a successful integration the row says so, also for a run the store
   had never seen; a run in any other state is left alone and the call reports that. It reports the
   same when a read or a statement fails. Then nothing has changed, except that a run the store had
   not seen may be tracked already.
   */
  method MarkIntegratedSync(store: StateStore, id: string, repository: string, now: int, sync: Sync)
    returns (synced: bool)
    modifies store
    ensures synced <==>
      && sync.recordLoads && sync.rowReads && SafeId(id)
      && (id !in old(store.rows) ==> sync.rowReadsBack && sync.rowUpdates)
      && (id in old(store.rows) ==>
        old(store.rows)[id].lifecycle == Integrated
        || (old(store.rows)[id].lifecycle == ReadyForReview && sync.rowUpdates))
    ensures synced ==> id in store.rows && store.rows[id].lifecycle == Integrated
    ensures forall other | other != id :: other in store.rows <==> other in old(store.rows)
    ensures forall other | other != id && other in store.rows :: store.rows[other] == old(store.rows)[other]
    ensures synced && id in old(store.rows) ==> store.rows[id] == old(store.rows)[id].(lifecycle := Integrated)
    ensures !synced ==>
      || store.rows == old(store.rows)
      || (id !in old(store.rows) && sync.recordLoads && sync.rowReads && SafeId(id)
        && store.rows == old(store.rows)[id := TrackedRow(repository, StatusReady, now)])
  {
    if !sync.recordLoads || !sync.rowReads {
      return false;
    }
    var known := id in store.rows;
    var row := store.EnsureRow(id, repository, StatusReady, now);
    if row.Err? || (!known && !sync.rowReadsBack) {
      return false;
    }
    if row.value.lifecycle == Integrated {
      return true;
    }
    if !sync.rowUpdates {
      return false;
    }
    var updated := store.UpdateLifecycle(id, Integrated, None);
    synced := updated.Ok?;
  }

  // ---------- the integrate command ----------

  function RowOf(rows: Rows, id: string): Option<Row> {
    if id in rows then Some(rows[id]) else None
  }

  /**
   The integrate command: integrate, and sync the row if that succeeds. For a tracked run, HEAD and
   the row part ways exactly when the merge moves HEAD and a later step or a statement of the sync fails:
   then the change has landed and the row does not say so.
   */
  method IntegrateCommand(
    checkout: Checkout, store: StateStore, id: string, record: RunRecord, host: Host, sync: Sync, now: int)
    returns (r: Result<nat, Refusal>)
    requires checkout.Valid() && (record.commit.Some? ==> record.commit.value < |checkout.graph|) && SafeId(id)
    modifies checkout, store
    ensures checkout.Valid() && checkout.graph == old(checkout.graph)
    ensures var at, row := old(checkout.Current()), RowOf(old(store.rows), id); checkout.head != at.head <==>
      ReachesMerge(id, record, row, host, at) && MovesHead(at, record.commit.value)
    ensures id in old(store.rows) ==> id in store.rows
    ensures var at, row := old(checkout.Current()), RowOf(old(store.rows), id);
      row.Some? ==> ((checkout.head != at.head && store.rows[id].lifecycle != Integrated)
        <==> (ReachesMerge(id, record, row, host, at) && MovesHead(at, record.commit.value)
          && !(host.LaterStepsPass() && sync.Passes())))
    ensures r.Err? ==> store.rows == old(store.rows)
    ensures var at, row := old(checkout.Current()), RowOf(old(store.rows), id);
      ReachesMerge(id, record, row, host, at) && MovesHead(at, record.commit.value) && !host.headReadsAgain ==>
        r == Err(GitHeadFailed) && checkout.head == record.commit.value
    ensures checkout.dirty == old(checkout.dirty)
    ensures host.ReadsPass() && Drifted(record, RowOf(old(store.rows), id), old(checkout.Current())) ==>
      r == Err(BaseDiverged)
  {
    r := IntegrateRun(checkout, id, record, RowOf(store.rows, id), host);
    if r.Ok? {
      var synced := MarkIntegratedSync(store, id, "?", now, sync);
    }
  }

  /** One reviewed run on commit 0, whose change is commit 1. */
  function ReviewedRecord(): RunRecord {
    RunRecord(true, StatusReady, Some(1), true, true, Some(0), true, [0], None)
  }

  /** Every read and write succeeds, except possibly the one of HEAD after the merge. */
  function HostWith(headReadsAgain: bool): Host {
    Host(true, true, true, true, true, true, true, headReadsAgain, true, true, true, true)
  }

  /**
   The counterexample to "on failure the repository is untouched": HEAD cannot be read again after
   the merge. The call fails with HEAD moved, a retry is refused by the base check, and the run, which
   is still ready for review, can be cancelled as discarded although its change has landed.
   */
  method LandedThenDiscarded(id: string, row: Row)
    returns (first: Result<nat, Refusal>, retry: Result<nat, Refusal>, cancelled: Result<CancelAction, CancelRefusal>,
      head: nat, rows: Rows)
    requires SafeId(id) && row.lifecycle == ReadyForReview
    ensures first == Err(GitHeadFailed) && retry == Err(BaseDiverged) && cancelled == Ok(DiscardIntentRecorded)
    ensures head == 1 && id in rows && rows[id].lifecycle == Cancelled
  {
    var store := new StateStore();
    store.rows := map[id := row];
    var checkout := new Checkout([{}, {0}], 0, {id});
    ghost var at := checkout.Current();
    I.AncestorOfChild(at.graph, 0, 1, 0);
    first := IntegrateCommand(checkout, store, id, ReviewedRecord(), HostWith(false), Sync(true, true, true, true), 0);
    retry := IntegrateCommand(checkout, store, id, ReviewedRecord(), HostWith(true), Sync(true, true, true, true), 0);
    assert store.rows == map[id := row];
    cancelled := CancelRun(store, id);
    head, rows := checkout.head, store.rows;
  }
}
