/** The lifecycle of a run: its states, the transition table and the mapping from outcomes. */
module Lifecycles {

  datatype Lifecycle = Pending | Running | ReadyForReview | Integrated | Blocked | Cancelled

  /** `_LIFECYCLE_TRANSITIONS` */
  function Transitions(current: Lifecycle): set<Lifecycle> {
    match current
    case Pending => {Running, Cancelled}
    case Running => {ReadyForReview, Blocked, Cancelled}
    case ReadyForReview => {Integrated, Cancelled}
    case Integrated => {}
    case Blocked => {}
    case Cancelled => {}
  }

  const TERMINAL: set<Lifecycle> := {Integrated, Blocked, Cancelled}

  /** `assert_lifecycle_transition` does not raise. */
  predicate Allowed(current: Lifecycle, target: Lifecycle) {
    target in Transitions(current)
  }

  /** The table, pair by pair. */
  lemma AllowedPairs(current: Lifecycle, target: Lifecycle)
    ensures Allowed(current, target) <==> (current, target) in {
      (Pending, Running), (Pending, Cancelled),
      (Running, ReadyForReview), (Running, Blocked), (Running, Cancelled),
      (ReadyForReview, Integrated), (ReadyForReview, Cancelled)
    }
  {
  }

  /** Zero or more steps along the table. */
  predicate Reaches(current: Lifecycle, target: Lifecycle) {
    || current == target
    || Allowed(current, target)
    || (exists mid :: Allowed(current, mid) && Allowed(mid, target))
    || (current == Pending && target == Integrated)
  }

  /** `Reaches` is the reflexive and transitive closure of the table, and terminal states absorb. */
  lemma ReachesIsClosure(a: Lifecycle, b: Lifecycle, c: Lifecycle)
    ensures Reaches(a, b) && Allowed(b, c) ==> Reaches(a, c)
    ensures Reaches(a, b) && a in TERMINAL ==> a == b
    ensures Reaches(a, b) && b == Pending ==> a == Pending
    ensures Reaches(a, b) && b == Running ==> a in {Pending, Running}
    ensures a in TERMINAL <==> forall target :: !Allowed(a, target)
  {
    assert Allowed(Pending, Running) && Allowed(Running, ReadyForReview) && Allowed(ReadyForReview, Integrated);
    assert Allowed(ReadyForReview, Cancelled) && Allowed(Running, Blocked);
  }

  /** The execution outcomes `execute_task` reports. */
  datatype Status = StatusReady | StatusReadOnly | StatusEscalated

  function StatusName(status: Status): string {
    match status
    case StatusReady => "ready-for-review"
    case StatusReadOnly => "read-only"
    case StatusEscalated => "escalated"
  }

  /** `lifecycle_from_outcome`, on the outcomes that exist. */
  function LifecycleOf(status: Status): Lifecycle {
    match status
    case StatusReady => ReadyForReview
    case StatusReadOnly => ReadyForReview
    case StatusEscalated => Blocked
  }
}
