/** Job states, their allowed transitions, and their stored names. */
module JobStates {
  import opened Collections

  datatype JobState = Queued | Received | Accepted | Running | Uploading | Completed | Failed | Cancelled {

    predicate IsTerminal() { Completed? || Failed? || Cancelled? }

    predicate CanTransitionTo(next: JobState) {
      || this == next
      || match this
         case Queued => next.Received? || next.Cancelled?
         case Received => next.Accepted? || next.Failed? || next.Cancelled?
         case Accepted => next.Running? || next.Failed? || next.Cancelled?
         case Running => next.Uploading? || next.Failed? || next.Cancelled?
         case Uploading => next.Completed? || next.Failed?
         case _ => false
    }
  }

  /** How far a job has come; every transition that changes the state advances it. */
  function Rank(state: JobState): nat {
    match state
    case Queued => 0
    case Received => 1
    case Accepted => 2
    case Running => 3
    case Uploading => 4
    case _ => 5
  }

  /** A walk along allowed transitions. */
  ghost predicate Walk(states: seq<JobState>) {
    forall i :: 0 < i < |states| ==> states[i - 1].CanTransitionTo(states[i])
  }

  /**
   Along every walk of allowed transitions the rank never falls, two equal
   states have nothing else between them, and a terminal state is never left.
   */
  lemma {:induction false} WalksOnlyAdvance(states: seq<JobState>, i: nat, j: nat)
    requires Walk(states) && i <= j < |states|
    ensures Rank(states[i]) <= Rank(states[j])
    ensures Rank(states[i]) == Rank(states[j]) ==> states[i] == states[j]
    ensures states[i].IsTerminal() ==> states[j] == states[i]
    decreases j
  {
    if i < j {
      WalksOnlyAdvance(states, i, j - 1);
      assert states[j - 1].CanTransitionTo(states[j]);
    }
  }

  /**
   Every change is one step forward, or gives up: a failure from any state a
   worker holds the job in, a cancellation before its results are on their way.
   */
  lemma {:induction false} ChangesAreSingleSteps(state: JobState, next: JobState)
    requires state != next
    ensures state.CanTransitionTo(next) <==>
            || (!next.Failed? && !next.Cancelled? && Rank(next) == Rank(state) + 1)
            || (next.Failed? && 1 <= Rank(state) <= 4)
            || (next.Cancelled? && Rank(state) <= 3)
  {
  }

  /** A state is terminal exactly if nothing follows it. */
  lemma {:induction false} TerminalIsTheEnd(state: JobState)
    ensures state.IsTerminal() <==> forall next: JobState :: state.CanTransitionTo(next) ==> next == state
  {
    if !state.IsTerminal() {
      var next := if state.Uploading? then Completed else Cancelled;
      assert state.CanTransitionTo(next) && next != state;
    }
  }

  function StateStr(state: JobState): string {
    match state
    case Queued => "queued"
    case Received => "received"
    case Accepted => "accepted"
    case Running => "running"
    case Uploading => "uploading"
    case Completed => "completed"
    case Failed => "failed"
    case Cancelled => "cancelled"
  }

  /** The inverse of `StateStr`; every other text is refused. */
  function ParseState(value: string): (r: Option<JobState>)
    ensures r.Some? ==> StateStr(r.value) == value
  {
    if value == "queued" then Some(Queued)
    else if value == "received" then Some(Received)
    else if value == "accepted" then Some(Accepted)
    else if value == "running" then Some(Running)
    else if value == "uploading" then Some(Uploading)
    else if value == "completed" then Some(Completed)
    else if value == "failed" then Some(Failed)
    else if value == "cancelled" then Some(Cancelled)
    else None
  }

  lemma {:induction false} StateNamesRoundTrip(state: JobState)
    ensures ParseState(StateStr(state)) == Some(state)
  {
    assert "received"[0] == 'r' && "running"[0] == 'r' && |"received"| != |"running"|;
  }
}
