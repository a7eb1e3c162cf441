/** The incident state machine: thirteen states and the transitions an unforced change may take. */
module IncidentStates {
  import opened Results

  datatype Environment = Local | Staging | Production

  datatype IncidentState =
    | Detected
    | CollectingEvidence
    | Classifying
    | Diagnosing
    | ActionProposed
    | PolicyEvaluation
    | AwaitingApproval
    | Executing
    | Verifying
    | Rollback
    | Resolved
    | Blocked
    | Escalated

  /** The states that end an incident. */
  predicate Terminal(s: IncidentState) {
    s == Resolved || s == Blocked || s == Escalated
  }

  /** The table of allowed targets. */
  function AllowedTransitions(s: IncidentState): set<IncidentState> {
    match s
    case Detected => {CollectingEvidence, Blocked, Escalated}
    case CollectingEvidence => {Classifying, Blocked, Escalated}
    case Classifying => {Diagnosing, ActionProposed, Blocked, Escalated}
    case Diagnosing => {ActionProposed, Blocked, Escalated}
    case ActionProposed => {PolicyEvaluation, Blocked, Escalated}
    case PolicyEvaluation => {AwaitingApproval, Executing, Blocked, Escalated}
    case AwaitingApproval => {PolicyEvaluation, Executing, Blocked, Escalated}
    case Executing => {Verifying, Rollback, Escalated}
    case Verifying => {Executing, Rollback, Resolved, Escalated}
    case Rollback => {Verifying, Resolved, Escalated}
    case Resolved => {}
    case Blocked => {}
    case Escalated => {}
  }

  predicate Allowed(current: IncidentState, target: IncidentState) {
    target in AllowedTransitions(current)
  }

  function TransitionIncident(current: IncidentState, target: IncidentState): (r: Result<IncidentState>) {
    if Allowed(current, target) then Ok(target) else Err(InvalidIncidentTransition)
  }

  /** A walk over incident states in which every step is allowed. */
  ghost predicate LawfulWalk(walk: seq<IncidentState>) {
    forall i :: 0 < i < |walk| ==> Allowed(walk[i - 1], walk[i])
  }

  /** How far a state is from the start of the approval-and-execution part of the machine. */
  function Stage(s: IncidentState): nat {
    match s
    case Detected => 0
    case CollectingEvidence => 1
    case Classifying => 2
    case Diagnosing => 3
    case ActionProposed => 4
    case PolicyEvaluation => 5
    case AwaitingApproval => 5
    case Executing => 6
    case Verifying => 6
    case Rollback => 6
    case Resolved => 7
    case Blocked => 7
    case Escalated => 7
  }

  /** Lawful walks never move back to an earlier stage. */
  lemma {:induction false} StagesNeverFall(walk: seq<IncidentState>, i: nat, j: nat)
    requires LawfulWalk(walk)
    requires i <= j < |walk|
    ensures Stage(walk[i]) <= Stage(walk[j])
    decreases j - i
  {
    if i < j {
      StagesNeverFall(walk, i, j - 1);
      assert Allowed(walk[j - 1], walk[j]);
    }
  }

  /** A terminal state has no successor in a lawful walk, so it can only come last. */
  lemma TerminalOnlyLast(walk: seq<IncidentState>, i: nat)
    requires LawfulWalk(walk)
    requires i + 1 < |walk|
    ensures !Terminal(walk[i])
  {
    assert Allowed(walk[i], walk[i + 1]);
  }

  /**
   An incident that resolves by unforced changes was proposed an action, had it evaluated by policy and
   executed it, in that order, and was in no terminal state before.
   */
  lemma {:induction false} ResolutionPassesEveryGate(walk: seq<IncidentState>)
    requires LawfulWalk(walk) && |walk| > 0
    requires walk[0] == Detected && walk[|walk| - 1] == Resolved
    ensures exists p, x, e ::
              0 < p < x < e < |walk| - 1 && walk[p] == ActionProposed
              && walk[x] == PolicyEvaluation && walk[e] == Executing
    ensures forall i :: 0 <= i < |walk| - 1 ==> !Terminal(walk[i])
  {
    forall i | 0 <= i < |walk| - 1 ensures !Terminal(walk[i]) { TerminalOnlyLast(walk, i); }
    var e := ReachedExecution(walk, |walk| - 2);
    var x := FirstPolicyEvaluation(walk, e - 1);
    assert Allowed(walk[x - 1], walk[x]);
    assert walk[x - 1] == ActionProposed;
  }

  lemma {:induction false} ReachedExecution(walk: seq<IncidentState>, i: nat) returns (e: nat)
    requires LawfulWalk(walk) && i + 1 < |walk| && walk[0] == Detected
    requires walk[i + 1] in {Resolved, Verifying, Rollback}
    ensures 0 < e <= i && walk[e] == Executing && walk[e - 1] in {PolicyEvaluation, AwaitingApproval}
    decreases i
  {
    assert Allowed(walk[i], walk[i + 1]);
    e := ExecutionEntry(walk, i);
  }

  lemma {:induction false} ExecutionEntry(walk: seq<IncidentState>, i: nat) returns (e: nat)
    requires LawfulWalk(walk) && i < |walk| && walk[0] == Detected
    requires walk[i] in {Executing, Verifying, Rollback}
    ensures 0 < e <= i && walk[e] == Executing && walk[e - 1] in {PolicyEvaluation, AwaitingApproval}
    decreases i
  {
    assert Allowed(walk[i - 1], walk[i]);
    if walk[i - 1] in {PolicyEvaluation, AwaitingApproval} {
      e := i;
    } else {
      e := ExecutionEntry(walk, i - 1);
    }
  }

  /** The first policy evaluation of a walk directly follows the proposal. */
  lemma {:induction false} FirstPolicyEvaluation(walk: seq<IncidentState>, i: nat) returns (x: nat)
    requires LawfulWalk(walk) && i < |walk| && walk[0] == Detected
    requires walk[i] in {PolicyEvaluation, AwaitingApproval}
    ensures 0 < x <= i && walk[x] == PolicyEvaluation && walk[x - 1] == ActionProposed
    ensures x >= 2
    decreases i
  {
    assert Allowed(walk[i - 1], walk[i]);
    if walk[i - 1] == ActionProposed {
      x := i;
      assert i >= 2;
    } else {
      x := FirstPolicyEvaluation(walk, i - 1);
    }
  }
}
