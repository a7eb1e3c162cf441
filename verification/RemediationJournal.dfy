/**
 What a journal of an unhealthy-pod remediation run says: what the run waits for next, which rows it has
 committed, when it is over, and what that means for its deletions, attempts and rows.

 Kubernetes, the policy engine, the runbook loader and the verifier are arbitrary functions of the time of the
 call, so every behaviour of theirs, an error at any call included, is some `World`. The journal holds what they
 answered and what was asked of Kubernetes; no rollback undoes it.
 */
module RemediationJournal {
  import opened Results
  import opened IncidentStates

  datatype Pod = Pod(name: string, ready: bool, controllerManaged: bool)

  datatype Policy = Policy(allowed: bool, requiresApproval: bool)

  datatype Runbook = Runbook(maxTargetPods: nat, controllerManagedOnly: bool)

  datatype World = World(
    pods: nat -> Result<seq<Pod>>,
    serviceHealth: nat -> Result<()>,
    runbook: nat -> Result<Runbook>,
    registry: nat -> Result<()>,
    policy: (nat, string) -> Result<Policy>,
    deletePod: (nat, string) -> Result<()>,
    verify: nat -> Result<bool>,
    meanwhile: nat -> seq<IncidentState>)

  datatype RecordStatus = Pending | Running | Succeeded | Failed | Rejected

  datatype Decision = Decision(pod: string, allowed: bool)

  /** An action execution row; `pod` is the deletion result it stores. */
  datatype Execution = Execution(attempt: nat, status: RecordStatus, pod: Option<string>)

  datatype Proposal = Proposal(pod: string, status: RecordStatus)

  /** The states an incident is given one after the other, from its creation in DETECTED on. */
  datatype Walk = Created | Then(before: Walk, state: IncidentState)

  /** One incident's rows as the run's session holds them; `walk` is what the run itself made of its state. */
  datatype Database = Database(
    walk: Walk,
    retryCount: nat,
    proposal: Option<Proposal>,
    runbookStatus: Option<RecordStatus>,
    decisions: seq<Decision>,
    executions: seq<Execution>,
    escalationCode: Option<ErrorCode>)

  /** An answer of the outside, or a request for a deletion. */
  datatype External =
    | PodsSeen(pods: seq<Pod>)
    | HealthSeen
    | RunbookMatched(runbook: Runbook)
    | ActionRegistered
    | Decided(pod: string, policy: Policy)
    | DeleteRequested(pod: string)
    | DeleteAccepted(pod: string)
    | Verified(success: bool)
    | CallRaised(call: Call, error: ErrorCode)

  /** What has happened outside, the last of it first. */
  datatype Journal = Nothing | Noted(before: Journal, event: External)

  datatype Outcome = Outcome(state: IncidentState, attempts: nat)

  /** One call to the outside. */
  datatype Call =
    | GetPods(n: nat)
    | GetServiceHealth(n: nat)
    | MatchRunbook(n: nat)
    | RequireAction(n: nat)
    | EvaluatePolicy(n: nat, pod: string)
    | DeletePod(n: nat, pod: string)
    | VerifyRecovery(n: nat)

  predicate Raises(world: World, call: Call, e: ErrorCode) {
    match call
    case GetPods(n) => world.pods(n) == Err(e)
    case GetServiceHealth(n) => world.serviceHealth(n) == Err(e)
    case MatchRunbook(n) => world.runbook(n) == Err(e)
    case RequireAction(n) => world.registry(n) == Err(e)
    case EvaluatePolicy(n, pod) => world.policy(n, pod) == Err(e)
    case DeletePod(n, pod) => world.deletePod(n, pod) == Err(e)
    case VerifyRecovery(n) => world.verify(n) == Err(e)
  }

  /** An error that some outside call raises, or that the run itself raises about its target. */
  ghost predicate Raised(world: World, e: ErrorCode) {
    || e == UnsafeTargetCount || e == RunbookPreconditionFailed || e == RetryPolicyDenied
    || exists call :: Raises(world, call, e)
  }

  function UnhealthyPods(pods: seq<Pod>): seq<Pod> {
    if pods == [] then [] else (if pods[0].ready then [] else [pods[0]]) + UnhealthyPods(pods[1..])
  }

  function WithName(pods: seq<Pod>, name: string): seq<Pod> {
    if pods == [] then [] else (if pods[0].name == name then [pods[0]] else []) + WithName(pods[1..], name)
  }

  function SelectUnhealthyPod(pods: seq<Pod>, requested: Option<string>): Result<Pod> {
    var unhealthy := UnhealthyPods(pods);
    var candidates := if requested.Some? then WithName(unhealthy, requested.value) else unhealthy;
    if |candidates| == 1 then Ok(candidates[0]) else Err(UnsafeTargetCount)
  }

  function ValidatePreconditions(runbook: Runbook, pods: seq<Pod>, pod: Pod): Result<()> {
    if |UnhealthyPods(pods)| > runbook.maxTargetPods then Err(RunbookPreconditionFailed)
    else if runbook.controllerManagedOnly && !pod.controllerManaged then Err(RunbookPreconditionFailed)
    else Ok(())
  }

  lemma {:induction false} UnhealthyAre(pods: seq<Pod>, p: Pod)
    ensures p in UnhealthyPods(pods) <==> p in pods && !p.ready
  {
    if pods != [] { UnhealthyAre(pods[1..], p); }
  }

  lemma {:induction false} NamedAre(pods: seq<Pod>, name: string, p: Pod)
    ensures p in WithName(pods, name) <==> p in pods && p.name == name
  {
    if pods != [] { NamedAre(pods[1..], name, p); }
  }

  predicate Candidate(p: Pod, requested: Option<string>) {
    !p.ready && (requested.Some? ==> p.name == requested.value)
  }

  /** How many pods are candidates. */
  function Candidates(pods: seq<Pod>, requested: Option<string>): nat {
    if pods == [] then 0 else Candidates(pods[1..], requested) + if Candidate(pods[0], requested) then 1 else 0
  }

  /** The unhealthy pods, of the requested name if one was given. */
  function Narrowed(pods: seq<Pod>, requested: Option<string>): seq<Pod> {
    if requested.Some? then WithName(UnhealthyPods(pods), requested.value) else UnhealthyPods(pods)
  }

  lemma {:induction false} SelectionCounts(pods: seq<Pod>, requested: Option<string>)
    ensures |Narrowed(pods, requested)| == Candidates(pods, requested)
  {
    if pods != [] {
      SelectionCounts(pods[1..], requested);
      assert [] + UnhealthyPods(pods[1..]) == UnhealthyPods(pods[1..]);
      if requested.Some? && !pods[0].ready { NamedCons(pods[0], UnhealthyPods(pods[1..]), requested.value); }
    }
  }

  lemma NamedCons(p: Pod, rest: seq<Pod>, name: string)
    ensures WithName([p] + rest, name) == (if p.name == name then [p] else []) + WithName(rest, name)
  {
    assert ([p] + rest)[1..] == rest;
  }

  lemma NarrowedAre(pods: seq<Pod>, requested: Option<string>, q: Pod)
    ensures q in Narrowed(pods, requested) <==> q in pods && Candidate(q, requested)
  {
    UnhealthyAre(pods, q);
    if requested.Some? { NamedAre(UnhealthyPods(pods), requested.value, q); }
  }

  /**
   A pod is selected exactly when one of the pods is unhealthy, among those of the requested name if one was
   given, and then it is that one.
   */
  lemma SelectedIsTheOnlyCandidate(pods: seq<Pod>, requested: Option<string>)
    ensures var r := SelectUnhealthyPod(pods, requested);
            && (r.Ok? <==> Candidates(pods, requested) == 1)
            && (r.Err? ==> r.error == UnsafeTargetCount)
            && (r.Ok? ==> forall q :: q in pods && Candidate(q, requested) <==> q == r.value)
  {
    SelectionCounts(pods, requested);
    var r := SelectUnhealthyPod(pods, requested);
    if r.Ok? {
      assert Narrowed(pods, requested) == [r.value];
      forall q ensures q in pods && Candidate(q, requested) <==> q == r.value {
        NarrowedAre(pods, requested, q);
        assert q in [r.value] <==> q == r.value;
      }
    }
  }

  // ---------- what comes next ----------

  /** The requested pod, if any, and how often a deletion may be attempted. */
  datatype Setup = Setup(requested: Option<string>, maxAttempts: nat)

  datatype End = Ended(state: IncidentState) | Broke(code: ErrorCode)

  /** What a run waits for. Attempts count from one. */
  datatype Phase =
    | AwaitsPods
    | AwaitsHealth(pods: seq<Pod>)
    | AwaitsRunbook(pods: seq<Pod>, target: Pod)
    | AwaitsAction(pod: string)
    | AwaitsPolicy(pod: string)
    | AwaitsRequest(pod: string, attempt: nat)
    | AwaitsDeletion(pod: string, attempt: nat)
    | AwaitsVerdict(attempt: nat)
    | AwaitsRetarget(attempt: nat)
    | AwaitsRetryPolicy(pod: string, attempt: nat)
    | Over(end: End)

  /** The calls that may raise now. */
  predicate Calling(phase: Phase, call: Call) {
    match phase
    case AwaitsPods => call.GetPods?
    case AwaitsHealth(_) => call.GetServiceHealth?
    case AwaitsRunbook(_, _) => call.MatchRunbook?
    case AwaitsAction(_) => call.RequireAction?
    case AwaitsPolicy(pod) => call.EvaluatePolicy? && call.pod == pod
    case AwaitsRequest(_, _) => false
    case AwaitsDeletion(pod, _) => call.DeletePod? && call.pod == pod
    case AwaitsVerdict(_) => call.VerifyRecovery?
    case AwaitsRetarget(_) => call.GetPods?
    case AwaitsRetryPolicy(pod, _) => call.EvaluatePolicy? && call.pod == pod
    case Over(_) => false
  }

  predicate Expects(phase: Phase, e: External) {
    if e.CallRaised? then Calling(phase, e.call) else
    match phase
    case AwaitsPods => e.PodsSeen?
    case AwaitsHealth(_) => e.HealthSeen?
    case AwaitsRunbook(_, _) => e.RunbookMatched?
    case AwaitsAction(_) => e.ActionRegistered?
    case AwaitsPolicy(pod) => e.Decided? && e.pod == pod
    case AwaitsRequest(pod, _) => e == DeleteRequested(pod)
    case AwaitsDeletion(pod, _) => e == DeleteAccepted(pod)
    case AwaitsVerdict(_) => e.Verified?
    case AwaitsRetarget(_) => e.PodsSeen?
    case AwaitsRetryPolicy(pod, _) => e.Decided? && e.pod == pod
    case Over(_) => false
  }

  /** The phase after an event that was expected. */
  function After(setup: Setup, phase: Phase, e: External): Phase {
    match e
    case CallRaised(_, error) => Over(Broke(error))
    case PodsSeen(pods) => if phase.AwaitsRetarget? then Retarget(pods, phase.attempt) else AwaitsHealth(pods)
    case HealthSeen => if phase.AwaitsHealth? then Select(setup, phase.pods) else phase
    case RunbookMatched(runbook) => if phase.AwaitsRunbook? then Match(runbook, phase.pods, phase.target) else phase
    case ActionRegistered => if phase.AwaitsAction? then AwaitsPolicy(phase.pod) else phase
    case Decided(pod, policy) =>
      if phase.AwaitsRetryPolicy?
      then if policy.allowed then AwaitsRequest(pod, phase.attempt + 1) else Over(Broke(RetryPolicyDenied))
      else Open(setup, pod, policy)
    case DeleteRequested(pod) => if phase.AwaitsRequest? then AwaitsDeletion(pod, phase.attempt) else phase
    case DeleteAccepted(pod) => if phase.AwaitsDeletion? then AwaitsVerdict(phase.attempt) else phase
    case Verified(success) => if phase.AwaitsVerdict? then Judge(setup, phase.attempt, success) else phase
  }

  function Select(setup: Setup, pods: seq<Pod>): Phase {
    match SelectUnhealthyPod(pods, setup.requested)
    case Ok(pod) => AwaitsRunbook(pods, pod)
    case Err(e) => Over(Broke(e))
  }

  function Match(runbook: Runbook, pods: seq<Pod>, pod: Pod): Phase {
    match ValidatePreconditions(runbook, pods, pod)
    case Ok(_) => AwaitsAction(pod.name)
    case Err(e) => Over(Broke(e))
  }

  function Open(setup: Setup, pod: string, policy: Policy): Phase {
    if !policy.allowed then Over(Ended(if policy.requiresApproval then AwaitingApproval else Blocked))
    else if setup.maxAttempts == 0 then Over(Ended(Escalated))
    else AwaitsRequest(pod, 1)
  }

  function Judge(setup: Setup, attempt: nat, success: bool): Phase {
    if success then Over(Ended(Resolved))
    else if attempt < setup.maxAttempts then AwaitsRetarget(attempt)
    else Over(Ended(Escalated))
  }

  function Retarget(pods: seq<Pod>, attempt: nat): Phase {
    var unhealthy := UnhealthyPods(pods);
    if |unhealthy| == 1 then AwaitsRetryPolicy(unhealthy[0].name, attempt) else AwaitsVerdict(attempt + 1)
  }

  function Length(j: Journal): nat {
    match j
    case Nothing => 0
    case Noted(before, _) => Length(before) + 1
  }

  /** The event is what the world answers at that time. */
  predicate Answered(world: World, n: nat, e: External) {
    match e
    case PodsSeen(pods) => world.pods(n) == Ok(pods)
    case HealthSeen => world.serviceHealth(n).Ok?
    case RunbookMatched(runbook) => world.runbook(n) == Ok(runbook)
    case ActionRegistered => world.registry(n).Ok?
    case Decided(pod, policy) => world.policy(n, pod) == Ok(policy)
    case DeleteRequested(_) => true
    case DeleteAccepted(pod) => world.deletePod(n, pod).Ok?
    case Verified(success) => world.verify(n) == Ok(success)
    case CallRaised(call, error) => call.n == n && Raises(world, call, error)
  }

  predicate Faithful(world: World, j: Journal) {
    j.Noted? ==> Faithful(world, j.before) && Answered(world, Length(j.before), j.event)
  }

  // ---------- what is stored ----------

  function StateOf(walk: Walk): IncidentState {
    match walk
    case Created => Detected
    case Then(_, state) => state
  }

  function Current(db: Database): IncidentState {
    StateOf(db.walk)
  }

  /** Every step of the walk is allowed. */
  predicate Lawful(walk: Walk) {
    walk.Then? ==> Lawful(walk.before) && Allowed(StateOf(walk.before), walk.state)
  }

  function States(walk: Walk): seq<IncidentState> {
    match walk
    case Created => [Detected]
    case Then(before, state) => States(before) + [state]
  }

  lemma {:induction false} LawfulIsLawful(walk: Walk)
    ensures var states := States(walk);
            states != [] && states[0] == Detected && states[|states| - 1] == StateOf(walk)
    ensures Lawful(walk) <==> LawfulWalk(States(walk))
  {
    if walk.Then? {
      LawfulIsLawful(walk.before);
      var shorter, states := States(walk.before), States(walk);
      assert states == shorter + [walk.state];
      assert forall i :: 0 <= i < |shorter| ==> states[i] == shorter[i];
      if LawfulWalk(states) {
        assert Allowed(states[|shorter| - 1], states[|shorter|]);
      }
    }
  }

  predicate Walked(db: Database) {
    Lawful(db.walk)
  }

  function Enter(db: Database, state: IncidentState): Database {
    db.(walk := Then(db.walk, state))
  }

  /** The proposal and the runbook execution with a status. */
  function WithStatus(db: Database, status: RecordStatus): Database {
    db.(proposal := (match db.proposal case Some(p) => Some(p.(status := status)) case None => None),
        runbookStatus := Some(status))
  }

  function Closed(db: Database, state: IncidentState, status: RecordStatus): Database {
    Enter(WithStatus(db, status), state)
  }

  /** The rows of an attempt that was carried out and now is to be verified. */
  function Tried(db: Database, attempt: nat, status: RecordStatus, pod: Option<string>): Database {
    Enter(db, Verifying).(retryCount := attempt, executions := db.executions + [Execution(attempt, status, pod)])
  }

  /** The working rows when policy is asked about the first action. */
  function Asked(db: Database, pod: string): Database {
    Enter(Enter(Enter(db, Classifying), ActionProposed), PolicyEvaluation)
    .(proposal := Some(Proposal(pod, Pending)), runbookStatus := Some(Running))
  }

  function WithDecision(db: Database, d: Decision): Database {
    db.(decisions := db.decisions + [d])
  }

  /** The rows when policy has allowed the first action. */
  function Opened(db: Database, pod: string): Database {
    Enter(WithStatus(WithDecision(Asked(db, pod), Decision(pod, true)), Running), Executing)
  }

  /** The rows when it has not: waiting for an approval, or blocked. */
  function Stopped(db: Database, pod: string, policy: Policy): Database {
    var asked := WithDecision(Asked(db, pod), Decision(pod, false));
    if policy.requiresApproval then Enter(WithStatus(asked, Pending), AwaitingApproval)
    else Enter(WithStatus(asked, Rejected), Blocked)
  }

  /** The evidence is committed and nothing is chosen yet. */
  predicate Gathered(db: Database) {
    Current(db) == CollectingEvidence && db.retryCount == 0
  }

  const CREATED := Database(Created, 0, None, None, [], [], None)

  /** The rows after a verification: closed if it ended the run. */
  function Judged(db: Database, next: Phase): Database {
    if next == Over(Ended(Resolved)) then Closed(db, Resolved, Succeeded)
    else if next.Over? then Closed(db, Escalated, Failed)
    else db
  }

  /** The rows committed once everything that follows from an event has been done. */
  function Committed(db: Database, phase: Phase, e: External, next: Phase): Database {
    match e
    case HealthSeen => Enter(db, CollectingEvidence)
    case Decided(pod, policy) =>
      if phase.AwaitsRetryPolicy?
      then if policy.allowed then Enter(WithDecision(db, Decision(pod, true)), Executing) else db
      else if !policy.allowed then Stopped(db, pod, policy)
      else if next.Over? then Closed(Opened(db, pod), Escalated, Failed)
      else Opened(db, pod)
    case DeleteAccepted(pod) => if phase.AwaitsDeletion? then Tried(db, phase.attempt, Succeeded, Some(pod)) else db
    case PodsSeen(_) =>
      if phase.AwaitsRetarget? && next.AwaitsVerdict?
      then Tried(Enter(db, Executing), phase.attempt + 1, Failed, None) else db
    case Verified(_) => Judged(db, next)
    case _ => db
  }

  /** What a run waits for, and the rows it has committed. */
  datatype Course = Course(phase: Phase, rows: Database)

  function Step(setup: Setup, c: Course, e: External): Course {
    var next := After(setup, c.phase, e);
    Course(next, Committed(c.rows, c.phase, e, next))
  }

  function CourseOf(setup: Setup, j: Journal): Course {
    match j
    case Nothing => Course(AwaitsPods, CREATED)
    case Noted(before, e) => Step(setup, CourseOf(setup, before), e)
  }

  function PhaseOf(setup: Setup, j: Journal): Phase {
    CourseOf(setup, j).phase
  }

  function Rows(setup: Setup, j: Journal): Database {
    CourseOf(setup, j).rows
  }

  /** Every event was expected when it happened. */
  predicate Orderly(setup: Setup, j: Journal) {
    j.Noted? ==> Orderly(setup, j.before) && Expects(CourseOf(setup, j.before).phase, j.event)
  }

  function EscalatedWith(db: Database, code: ErrorCode): Database {
    Enter(db, Escalated).(escalationCode := Some(code))
  }

  // ---------- reading a journal ----------

  function Decisions(j: Journal): seq<Decision> {
    match j
    case Nothing => []
    case Noted(before, e) =>
      Decisions(before) + match e case Decided(pod, policy) => [Decision(pod, policy.allowed)] case _ => []
  }

  /** How many decisions allowed their pod. */
  function Allowing(j: Journal): nat {
    match j
    case Nothing => 0
    case Noted(before, e) => Allowing(before) + if Allows(e) then 1 else 0
  }

  predicate Allows(e: External) {
    e.Decided? && e.policy.allowed
  }

  function Requests(j: Journal): nat {
    match j
    case Nothing => 0
    case Noted(before, e) => Requests(before) + if e.DeleteRequested? then 1 else 0
  }

  function Accepted(j: Journal): seq<string> {
    match j
    case Nothing => []
    case Noted(before, e) => Accepted(before) + match e case DeleteAccepted(pod) => [pod] case _ => []
  }

  function Verdicts(j: Journal): nat {
    match j
    case Nothing => 0
    case Noted(before, e) => Verdicts(before) + if e.Verified? then 1 else 0
  }

  /**
   The executions that happened: each accepted deletion is one, and so is each look for a next target, after a
   failed verification, that did not find a single unhealthy pod.
   */
  function Tries(j: Journal): seq<Execution> {
    match j
    case Nothing => []
    case Noted(before, e) =>
      var earlier := Tries(before);
      match e
      case DeleteAccepted(pod) => earlier + [Execution(|earlier| + 1, Succeeded, Some(pod))]
      case PodsSeen(pods) =>
        if before.Noted? && before.event.Verified? && Candidates(pods, None) != 1
        then earlier + [Execution(|earlier| + 1, Failed, None)] else earlier
      case _ => earlier
  }

  /** The last thing that happened is a policy decision allowing this pod. */
  predicate Cleared(j: Journal, pod: string) {
    j.Noted? && Allows(j.event) && j.event.pod == pod
  }

  /** Every requested deletion directly follows a decision that allowed exactly its pod. */
  predicate Guarded(j: Journal) {
    j.Noted? ==> Guarded(j.before) && (j.event.DeleteRequested? ==> Cleared(j.before, j.event.pod))
  }

  /**
   Nothing comes between an allowing decision and the request for its pod, nor between a request and its
   acceptance, unless the deletion raises, nor between an acceptance and the verification. Nothing follows a
   denial, a successful verification or an error.
   */
  predicate Prompt(j: Journal) {
    j.Noted? && j.before.Noted? ==>
      Prompt(j.before) && Demands(j.before.event, j.event)
  }

  predicate Demands(e: External, next: External) {
    match e
    case Decided(pod, policy) => policy.allowed && next == DeleteRequested(pod)
    case DeleteRequested(pod) => next == DeleteAccepted(pod) || Raising(next, pod)
    case DeleteAccepted(_) => next.Verified? || (next.CallRaised? && next.call.VerifyRecovery?)
    case Verified(success) => !success && (next.PodsSeen? || next.CallRaised?)
    case CallRaised(_, _) => false
    case _ => true
  }

  predicate Raising(e: External, pod: string) {
    e.CallRaised? && e.call.DeletePod? && e.call.pod == pod
  }

  /** The only candidate among some pods has this name. */
  ghost predicate OnlyOne(pods: seq<Pod>, requested: Option<string>, name: string) {
    Candidates(pods, requested) == 1 && exists p :: p in pods && Candidate(p, requested) && p.name == name
  }

  /** Each decision is about the only candidate of the pods last seen; the request narrows the first one. */
  ghost predicate Aimed(setup: Setup, j: Journal) {
    j.Noted? ==>
      && Aimed(setup, j.before)
      && (j.event.Decided? ==>
            if Decisions(j.before) == [] then OnlyOne(FirstPods(j.before), setup.requested, j.event.pod)
            else j.before.Noted? && j.before.event.PodsSeen? && OnlyOne(j.before.event.pods, None, j.event.pod))
  }

  /** The pods seen first. */
  function FirstPods(j: Journal): seq<Pod> {
    match j
    case Nothing => []
    case Noted(before, e) => if before == Nothing && e.PodsSeen? then e.pods else FirstPods(before)
  }

  predicate EndsVerified(j: Journal) {
    j.Noted? && j.event == Verified(true)
  }

  /** Each deletion has a decision of its own, so there are at least as many allowing decisions as deletions. */
  lemma {:induction false} DeletionsHaveOwnDecisions(j: Journal)
    requires Guarded(j)
    ensures Requests(j) <= Allowing(j) <= |Decisions(j)|
    ensures (exists p :: Cleared(j, p)) ==> Requests(j) < Allowing(j)
  {
    if j.Noted? { DeletionsHaveOwnDecisions(j.before); }
  }

  /** The pods of the executions stored as succeeded. */
  function SucceededPods(executions: seq<Execution>): seq<string> {
    if executions == [] then [] else
    SucceededPods(executions[..|executions| - 1])
    + var e := executions[|executions| - 1];
      if e.status == Succeeded && e.pod.Some? then [e.pod.value] else []
  }

  lemma SucceededAppend(executions: seq<Execution>, e: Execution)
    ensures SucceededPods(executions + [e])
         == SucceededPods(executions) + if e.status == Succeeded && e.pod.Some? then [e.pod.value] else []
  {
    assert (executions + [e])[..|executions|] == executions;
  }

  ghost predicate Numbered(executions: seq<Execution>) {
    forall i :: 0 <= i < |executions| ==> executions[i].attempt == i + 1
  }

  /** A succeeded execution names the pod it deleted; one without a target is stored as failed. */
  ghost predicate Truthful(executions: seq<Execution>) {
    forall i :: 0 <= i < |executions| ==>
      executions[i].status == if executions[i].pod.Some? then Succeeded else Failed
  }

  lemma {:induction false} TriesNumbered(j: Journal)
    ensures Numbered(Tries(j)) && Truthful(Tries(j))
  {
    if j.Noted? { TriesNumbered(j.before); }
  }

  lemma {:induction false} TriesSucceeded(j: Journal)
    ensures SucceededPods(Tries(j)) == Accepted(j)
  {
    if j.Noted? {
      var earlier := Tries(j.before);
      TriesSucceeded(j.before);
      if j.event.DeleteAccepted? {
        SucceededAppend(earlier, Execution(|earlier| + 1, Succeeded, Some(j.event.pod)));
      } else if Tries(j) != earlier {
        SucceededAppend(earlier, Execution(|earlier| + 1, Failed, None));
      }
    }
  }

  ghost predicate AllAllowed(decisions: seq<Decision>) {
    forall i :: 0 <= i < |decisions| ==> decisions[i].allowed
  }

  /** The states in which rows are committed while a run is under way. */
  predicate Recoverable(s: IncidentState) {
    s == Detected || s == CollectingEvidence || s == Executing || s == Verifying
  }

  /** The states a run may end in. */
  predicate Final(s: IncidentState) {
    s == Resolved || s == Blocked || s == Escalated || s == AwaitingApproval
  }

  ghost predicate RowsMatch(db: Database, j: Journal) {
    && Guarded(j) && Prompt(j)
    && db.executions == Tries(j) && db.retryCount == |db.executions|
  }

  /** What holds of the committed rows and the journal when an error cuts a run. */
  ghost predicate Cut(db: Database, j: Journal, maxAttempts: nat) {
    && RowsMatch(db, j)
    && Recoverable(Current(db))
    && |db.executions| <= maxAttempts && Requests(j) <= maxAttempts && Requests(j) <= Allowing(j)
    && AllAllowed(db.decisions)
    && (Decisions(j) == db.decisions || DeniedRetry(j, db.decisions))
    && !EndsVerified(j)
    && (db.proposal.Some? ==> db.proposal.value.status == Running)
    && (db.decisions == [] ==> Decisions(j) == [] && Requests(j) == 0 && db.executions == [])
  }

  /** The journal ends with a denied retry decision that the rows do not hold. */
  ghost predicate DeniedRetry(j: Journal, stored: seq<Decision>) {
    var d := Decisions(j);
    d != [] && !d[|d| - 1].allowed && stored == d[..|d| - 1] && stored != []
  }

  /** What a finished run leaves behind. */
  ghost predicate Finished(db: Database, j: Journal, maxAttempts: nat) {
    && RowsMatch(db, j)
    && Final(Current(db))
    && (Current(db) == Resolved <==> EndsVerified(j))
    && |db.executions| <= maxAttempts && Requests(j) <= maxAttempts
    && (Current(db) == Blocked || Current(db) == AwaitingApproval ==>
          Requests(j) == 0 && db.executions == []
          && |db.decisions| == 1 && !db.decisions[0].allowed && Decisions(j) == db.decisions)
    && (Current(db) == Resolved || Current(db) == Escalated ==>
          AllAllowed(db.decisions)
          && (Decisions(j) == db.decisions || (Current(db) == Escalated && DeniedRetry(j, db.decisions))))
    && (db.proposal.Some? ==>
          match Current(db)
          case Resolved => db.proposal.value.status == Succeeded
          case Blocked => db.proposal.value.status == Rejected
          case AwaitingApproval => db.proposal.value.status == Pending
          case _ => db.proposal.value.status == Failed || db.proposal.value.status == Running)
  }

  /** Every attempt was made, each was verified, and the proposal is stored as failed. */
  ghost predicate GaveUp(db: Database, maxAttempts: nat) {
    |db.executions| == maxAttempts && db.proposal.Some? && db.proposal.value.status == Failed
    && db.escalationCode.None?
  }

  // ---------- what every journal keeps ----------

  /** Nothing has been decided yet, in the rows or outside. */
  ghost predicate Undecided(db: Database, j: Journal) {
    && db.proposal.None? && db.decisions == Decisions(j) == [] && db.executions == [] && Requests(j) == Allowing(j) == 0
    && Verdicts(j) == 0 && Accepted(j) == []
  }

  /** The decisions are stored, all allowed; so many attempts are stored and so many verified. */
  ghost predicate UnderWay(db: Database, j: Journal, stored: nat, verified: nat) {
    && db.decisions == Decisions(j) && db.decisions != [] && AllAllowed(db.decisions)
    && db.proposal.Some? && db.proposal.value.status == Running
    && |db.executions| == stored && Verdicts(j) == verified
  }

  ghost predicate Fits(setup: Setup, phase: Phase, db: Database, j: Journal) {
    && db.executions == Tries(j) && db.retryCount == |db.executions| && db.escalationCode.None?
    && Guarded(j) && Prompt(j) && Aimed(setup, j)
    && match phase
       case AwaitsPods => j == Nothing && Current(db) == Detected && Undecided(db, j)
       case AwaitsHealth(pods) =>
         j.Noted? && j.event.PodsSeen? && FirstPods(j) == pods && Current(db) == Detected && Undecided(db, j)
       case AwaitsRunbook(pods, target) =>
         j.Noted? && j.event.HealthSeen? && FirstPods(j) == pods
           && SelectUnhealthyPod(pods, setup.requested) == Ok(target)
         && Current(db) == CollectingEvidence && Undecided(db, j)
       case AwaitsAction(pod) =>
         Current(db) == CollectingEvidence && Undecided(db, j) && OnlyOne(FirstPods(j), setup.requested, pod)
         && Quiet(j)
       case AwaitsPolicy(pod) =>
         Current(db) == CollectingEvidence && Undecided(db, j) && OnlyOne(FirstPods(j), setup.requested, pod)
         && Quiet(j)
       case AwaitsRequest(pod, a) =>
         1 <= a <= setup.maxAttempts && Current(db) == Executing && UnderWay(db, j, a - 1, a - 1)
         && Cleared(j, pod) && Allowing(j) == Requests(j) + 1 <= a && |Accepted(j)| == Requests(j)
       case AwaitsDeletion(pod, a) =>
         1 <= a <= setup.maxAttempts && Current(db) == Executing && UnderWay(db, j, a - 1, a - 1)
         && j.Noted? && j.event == DeleteRequested(pod) && Allowing(j) == Requests(j) == |Accepted(j)| + 1 <= a
       case AwaitsVerdict(a) =>
         1 <= a <= setup.maxAttempts && Current(db) == Verifying && UnderWay(db, j, a, a - 1)
         && j.Noted? && (j.event.DeleteAccepted? || Quiet(j)) && Allowing(j) == Requests(j) == |Accepted(j)| <= a
       case AwaitsRetarget(a) =>
         1 <= a < setup.maxAttempts && Current(db) == Verifying && UnderWay(db, j, a, a)
         && j.Noted? && j.event == Verified(false) && Allowing(j) == Requests(j) == |Accepted(j)| <= a
       case AwaitsRetryPolicy(pod, a) =>
         1 <= a < setup.maxAttempts && Current(db) == Verifying && UnderWay(db, j, a, a)
         && j.Noted? && j.event.PodsSeen? && OnlyOne(j.event.pods, None, pod)
         && Allowing(j) == Requests(j) == |Accepted(j)| <= a
       case Over(end) => FitsEnd(setup, end, db, j)
  }

  /** The last event is none that demands a certain next one. */
  predicate Quiet(j: Journal) {
    j.Noted? && (j.event.PodsSeen? || j.event.HealthSeen? || j.event.RunbookMatched? || j.event.ActionRegistered?)
  }

  ghost predicate FitsEnd(setup: Setup, end: End, db: Database, j: Journal) {
    match end
    case Ended(state) =>
      && Current(db) == state && Finished(db, j, setup.maxAttempts) && Decisions(j) == db.decisions
      && (setup.maxAttempts > 0 ==> Allowing(j) == Requests(j) == |Accepted(j)|)
      && Verdicts(j) == |db.executions|
      && (state == Escalated ==> GaveUp(db, setup.maxAttempts))
    case Broke(_) => Cut(db, j, setup.maxAttempts)
  }

  lemma FitsRaised(setup: Setup, phase: Phase, db: Database, j: Journal, e: External)
    requires Fits(setup, phase, db, j) && Expects(phase, e) && e.CallRaised?
    ensures Fits(setup, Over(Broke(e.error)), db, Noted(j, e))
  {
  }

  lemma FitsEvidence(setup: Setup, phase: Phase, db: Database, j: Journal, e: External)
    requires Fits(setup, phase, db, j) && Expects(phase, e) && !e.CallRaised?
    requires phase.AwaitsPods? || phase.AwaitsHealth?
    ensures var next := After(setup, phase, e);
            Fits(setup, next, Committed(db, phase, e, next), Noted(j, e))
  {
  }

  lemma FitsRunbook(setup: Setup, phase: Phase, db: Database, j: Journal, e: External)
    requires Fits(setup, phase, db, j) && Expects(phase, e) && !e.CallRaised?
    requires phase.AwaitsRunbook? || phase.AwaitsAction?
    ensures var next := After(setup, phase, e);
            Fits(setup, next, Committed(db, phase, e, next), Noted(j, e))
  {
    if phase.AwaitsRunbook? {
      SelectedIsTheOnlyCandidate(phase.pods, setup.requested);
      assert phase.target in phase.pods && Candidate(phase.target, setup.requested);
      assert OnlyOne(phase.pods, setup.requested, phase.target.name);
    }
  }

  /** `after` are the rows `db` with the first decision and what it leads to. */
  ghost predicate FirstDecided(db: Database, after: Database, d: Decision, state: IncidentState, status: RecordStatus) {
    && Current(after) == state && after.decisions == [d] && after.executions == db.executions
    && after.retryCount == db.retryCount && after.escalationCode == db.escalationCode
    && after.proposal == Some(Proposal(d.pod, status))
  }

  lemma StoppedRows(db: Database, pod: string, policy: Policy)
    requires Current(db) == CollectingEvidence && db.decisions == [] && !policy.allowed
    ensures var waits := policy.requiresApproval;
            FirstDecided(db, Stopped(db, pod, policy), Decision(pod, false),
                         if waits then AwaitingApproval else Blocked, if waits then Pending else Rejected)
  {
  }

  lemma OpenedRows(db: Database, pod: string)
    requires Current(db) == CollectingEvidence && db.decisions == []
    ensures FirstDecided(db, Opened(db, pod), Decision(pod, true), Executing, Running)
  {
  }

  lemma FitsDenied(setup: Setup, db: Database, after: Database, j: Journal, pod: string, policy: Policy)
    requires Fits(setup, AwaitsPolicy(pod), db, j) && !policy.allowed
    requires var waits := policy.requiresApproval;
             FirstDecided(db, after, Decision(pod, false), if waits then AwaitingApproval else Blocked,
                          if waits then Pending else Rejected)
    ensures Fits(setup, Over(Ended(Current(after))), after, Noted(j, Decided(pod, policy)))
  {
  }

  lemma FitsAllowed(setup: Setup, db: Database, after: Database, j: Journal, pod: string, policy: Policy)
    requires Fits(setup, AwaitsPolicy(pod), db, j) && policy.allowed && setup.maxAttempts > 0
    requires FirstDecided(db, after, Decision(pod, true), Executing, Running)
    ensures Fits(setup, AwaitsRequest(pod, 1), after, Noted(j, Decided(pod, policy)))
  {
  }

  lemma FitsNoAttempt(setup: Setup, db: Database, after: Database, j: Journal, pod: string, policy: Policy)
    requires Fits(setup, AwaitsPolicy(pod), db, j) && policy.allowed && setup.maxAttempts == 0
    requires FirstDecided(db, after, Decision(pod, true), Executing, Running)
    ensures Fits(setup, Over(Ended(Escalated)), Closed(after, Escalated, Failed), Noted(j, Decided(pod, policy)))
  {
  }

  lemma FitsPolicy(setup: Setup, phase: Phase, db: Database, j: Journal, e: External)
    requires Fits(setup, phase, db, j) && Expects(phase, e) && !e.CallRaised? && phase.AwaitsPolicy?
    ensures var next := After(setup, phase, e);
            Fits(setup, next, Committed(db, phase, e, next), Noted(j, e))
  {
    OpenedRows(db, e.pod);
    if !e.policy.allowed {
      StoppedRows(db, e.pod, e.policy);
      FitsDenied(setup, db, Stopped(db, e.pod, e.policy), j, e.pod, e.policy);
    } else if setup.maxAttempts > 0 {
      FitsAllowed(setup, db, Opened(db, e.pod), j, e.pod, e.policy);
    } else {
      FitsNoAttempt(setup, db, Opened(db, e.pod), j, e.pod, e.policy);
    }
  }

  lemma FitsDeletion(setup: Setup, phase: Phase, db: Database, j: Journal, e: External)
    requires Fits(setup, phase, db, j) && Expects(phase, e) && !e.CallRaised?
    requires phase.AwaitsRequest? || phase.AwaitsDeletion?
    ensures var next := After(setup, phase, e);
            Fits(setup, next, Committed(db, phase, e, next), Noted(j, e))
  {
  }

  lemma FitsClosed(setup: Setup, a: nat, db: Database, j: Journal, success: bool)
    requires Fits(setup, AwaitsVerdict(a), db, j) && (success || a == setup.maxAttempts)
    ensures var state, status := if success then Resolved else Escalated, if success then Succeeded else Failed;
            Fits(setup, Over(Ended(state)), Closed(db, state, status), Noted(j, Verified(success)))
  {
  }

  lemma FitsFailed(setup: Setup, a: nat, db: Database, j: Journal)
    requires Fits(setup, AwaitsVerdict(a), db, j) && a < setup.maxAttempts
    ensures Fits(setup, AwaitsRetarget(a), db, Noted(j, Verified(false)))
  {
  }

  lemma FitsVerdict(setup: Setup, phase: Phase, db: Database, j: Journal, e: External)
    requires Fits(setup, phase, db, j) && Expects(phase, e) && !e.CallRaised? && phase.AwaitsVerdict?
    ensures var next := After(setup, phase, e);
            Fits(setup, next, Committed(db, phase, e, next), Noted(j, e))
  {
    assert phase.attempt <= setup.maxAttempts;
    if e.success || phase.attempt == setup.maxAttempts {
      FitsClosed(setup, phase.attempt, db, j, e.success);
    } else {
      FitsFailed(setup, phase.attempt, db, j);
    }
  }

  lemma FitsTarget(setup: Setup, a: nat, db: Database, j: Journal, pods: seq<Pod>, pod: string)
    requires Fits(setup, AwaitsRetarget(a), db, j) && OnlyOne(pods, None, pod)
    ensures Fits(setup, AwaitsRetryPolicy(pod, a), db, Noted(j, PodsSeen(pods)))
  {
  }

  lemma FitsNoTarget(setup: Setup, a: nat, db: Database, j: Journal, pods: seq<Pod>)
    requires Fits(setup, AwaitsRetarget(a), db, j) && Candidates(pods, None) != 1
    ensures Fits(setup, AwaitsVerdict(a + 1), Tried(Enter(db, Executing), a + 1, Failed, None),
                 Noted(j, PodsSeen(pods)))
  {
  }

  lemma FitsRetarget(setup: Setup, phase: Phase, db: Database, j: Journal, e: External)
    requires Fits(setup, phase, db, j) && Expects(phase, e) && !e.CallRaised? && phase.AwaitsRetarget?
    ensures var next := After(setup, phase, e);
            Fits(setup, next, Committed(db, phase, e, next), Noted(j, e))
  {
    Retargets(e.pods, phase.attempt);
    FitsRetargeted(setup, phase.attempt, db, j, e.pods, Retarget(e.pods, phase.attempt));
  }

  lemma FitsRetargeted(setup: Setup, a: nat, db: Database, j: Journal, pods: seq<Pod>, next: Phase)
    requires Fits(setup, AwaitsRetarget(a), db, j) && Retargeted(pods, a, next)
    ensures Fits(setup, next, Committed(db, AwaitsRetarget(a), PodsSeen(pods), next), Noted(j, PodsSeen(pods)))
  {
    if next.AwaitsVerdict? {
      FitsNoTarget(setup, a, db, j, pods);
    } else {
      FitsTarget(setup, a, db, j, pods, next.pod);
    }
  }

  /** The only candidate is the next target, otherwise there is none. */
  ghost predicate Retargeted(pods: seq<Pod>, a: nat, next: Phase) {
    || (next == AwaitsVerdict(a + 1) && Candidates(pods, None) != 1)
    || (next.AwaitsRetryPolicy? && next.attempt == a && OnlyOne(pods, None, next.pod))
  }

  lemma Retargets(pods: seq<Pod>, a: nat)
    ensures Retargeted(pods, a, Retarget(pods, a))
  {
    SelectionCounts(pods, None);
    if |UnhealthyPods(pods)| == 1 {
      UnhealthyAre(pods, UnhealthyPods(pods)[0]);
      assert Candidate(UnhealthyPods(pods)[0], None);
    }
  }

  lemma FitsRetryPolicy(setup: Setup, phase: Phase, db: Database, j: Journal, e: External)
    requires Fits(setup, phase, db, j) && Expects(phase, e) && !e.CallRaised? && phase.AwaitsRetryPolicy?
    ensures var next := After(setup, phase, e);
            Fits(setup, next, Committed(db, phase, e, next), Noted(j, e))
  {
  }

  /** Rows and journal of every orderly course fit the phase it is in. */
  lemma {:induction false} OrderlyFits(setup: Setup, j: Journal)
    requires Orderly(setup, j)
    ensures Fits(setup, PhaseOf(setup, j), Rows(setup, j), j)
  {
    if j.Noted? {
      OrderlyFits(setup, j.before);
      FitsStep(setup, PhaseOf(setup, j.before), Rows(setup, j.before), j.before, j.event);
    }
  }

  lemma FitsStep(setup: Setup, phase: Phase, db: Database, j: Journal, e: External)
    requires Fits(setup, phase, db, j) && Expects(phase, e)
    ensures var next := After(setup, phase, e);
            Fits(setup, next, Committed(db, phase, e, next), Noted(j, e))
  {
    if e.CallRaised? {
      FitsRaised(setup, phase, db, j, e);
    } else if Opening(phase) {
      FitsOpening(setup, phase, db, j, e);
    } else {
      match phase
      case AwaitsRequest(_, _) => FitsDeletion(setup, phase, db, j, e);
      case AwaitsDeletion(_, _) => FitsDeletion(setup, phase, db, j, e);
      case AwaitsVerdict(_) => FitsVerdict(setup, phase, db, j, e);
      case AwaitsRetarget(_) => FitsRetarget(setup, phase, db, j, e);
      case AwaitsRetryPolicy(_, _) => FitsRetryPolicy(setup, phase, db, j, e);
    }
  }

  predicate Opening(phase: Phase) {
    phase.AwaitsPods? || phase.AwaitsHealth? || phase.AwaitsRunbook? || phase.AwaitsAction? || phase.AwaitsPolicy?
  }

  lemma FitsOpening(setup: Setup, phase: Phase, db: Database, j: Journal, e: External)
    requires Fits(setup, phase, db, j) && Expects(phase, e) && !e.CallRaised? && Opening(phase)
    ensures var next := After(setup, phase, e);
            Fits(setup, next, Committed(db, phase, e, next), Noted(j, e))
  {
    if phase.AwaitsPods? || phase.AwaitsHealth? { FitsEvidence(setup, phase, db, j, e); }
    else if phase.AwaitsPolicy? { FitsPolicy(setup, phase, db, j, e); }
    else { FitsRunbook(setup, phase, db, j, e); }
  }

  lemma Enters(db: Database, state: IncidentState)
    requires Walked(db) && Allowed(Current(db), state)
    ensures Walked(Enter(db, state)) && Current(Enter(db, state)) == state
  {
  }

  lemma EscalatesLawfully(db: Database, code: ErrorCode)
    requires Walked(db) && Recoverable(Current(db))
    ensures Walked(EscalatedWith(db, code))
  {
  }

  /** The states of an incident's rows are entered by allowed steps. */
  lemma {:induction false} OrderlyWalks(setup: Setup, j: Journal)
    requires Orderly(setup, j)
    ensures Walked(Rows(setup, j))
  {
    if j.Noted? {
      OrderlyWalks(setup, j.before);
      OrderlyFits(setup, j.before);
      var c := CourseOf(setup, j.before);
      StateOfPhase(setup, c.phase, c.rows, j.before);
      CommittedWalks(setup, c.phase, c.rows, j.event);
    }
  }

  /** The state of the rows in each phase, as far as a run is not over. */
  predicate StateFits(phase: Phase, db: Database) {
    match phase
    case AwaitsPods => Current(db) == Detected
    case AwaitsHealth(_) => Current(db) == Detected
    case AwaitsRunbook(_, _) => Current(db) == CollectingEvidence
    case AwaitsAction(_) => Current(db) == CollectingEvidence
    case AwaitsPolicy(_) => Current(db) == CollectingEvidence
    case AwaitsRequest(_, _) => Current(db) == Executing
    case AwaitsDeletion(_, _) => Current(db) == Executing
    case AwaitsVerdict(_) => Current(db) == Verifying
    case AwaitsRetarget(_) => Current(db) == Verifying
    case AwaitsRetryPolicy(_, _) => Current(db) == Verifying
    case Over(_) => true
  }

  lemma StateOfPhase(setup: Setup, phase: Phase, db: Database, j: Journal)
    requires Fits(setup, phase, db, j)
    ensures StateFits(phase, db)
  {
  }

  lemma CommittedWalks(setup: Setup, phase: Phase, db: Database, e: External)
    requires Walked(db) && StateFits(phase, db) && Expects(phase, e)
    ensures Walked(Committed(db, phase, e, After(setup, phase, e)))
  {
    match e
    case HealthSeen => Enters(db, CollectingEvidence);
    case Decided(pod, policy) =>
      if phase.AwaitsRetryPolicy? { Enters(db, Executing); } else { DecisionWalks(db, pod, policy); }
    case DeleteAccepted(_) => Enters(db, Verifying);
    case PodsSeen(_) => if phase.AwaitsRetarget? {
      Enters(db, Executing);
      Enters(Enter(db, Executing), Verifying);
    }
    case Verified(success) =>
      Enters(db, Resolved);
      Enters(db, Escalated);
    case _ =>
  }

  lemma DecisionWalks(db: Database, pod: string, policy: Policy)
    requires Walked(db) && Current(db) == CollectingEvidence
    ensures Walked(Opened(db, pod)) && Walked(Closed(Opened(db, pod), Escalated, Failed))
    ensures Walked(Stopped(db, pod, policy))
  {
    Enters(db, Classifying);
    Enters(Enter(db, Classifying), ActionProposed);
    Enters(Enter(Enter(db, Classifying), ActionProposed), PolicyEvaluation);
    Enters(Asked(db, pod), Executing);
    Enters(Opened(db, pod), Escalated);
    Enters(Asked(db, pod), AwaitingApproval);
    Enters(Asked(db, pod), Blocked);
  }

  // ---------- what a course comes to ----------

  /** The end that the last event means. */
  function EndRead(j: Journal): End
    requires j.Noted?
  {
    match j.event
    case CallRaised(_, error) => Broke(error)
    case Verified(success) => Ended(if success then Resolved else Escalated)
    case Decided(_, policy) =>
      if policy.allowed then Ended(Escalated)
      else if Decisions(j.before) != [] then Broke(RetryPolicyDenied)
      else Ended(if policy.requiresApproval then AwaitingApproval else Blocked)
    case HealthSeen => Broke(UnsafeTargetCount)
    case _ => Broke(RunbookPreconditionFailed)
  }

  /** The event is the last one of its run. */
  ghost predicate IsLast(setup: Setup, j: Journal) {
    j.Noted? &&
    match j.event
    case CallRaised(_, _) => true
    case Verified(success) => success || Verdicts(j) == setup.maxAttempts
    case Decided(_, policy) => !policy.allowed || setup.maxAttempts == 0
    case HealthSeen => Candidates(FirstPods(j), setup.requested) != 1
    case RunbookMatched(runbook) =>
      Candidates(FirstPods(j), None) > runbook.maxTargetPods
      || (runbook.controllerManagedOnly
          && exists p :: p in FirstPods(j) && Candidate(p, setup.requested) && !p.controllerManaged)
    case _ => false
  }

  /** Exactly when a course is over, and what it came to, by its last event and the counts before it. */
  lemma EndIsRead(setup: Setup, j: Journal)
    requires Orderly(setup, j)
    ensures PhaseOf(setup, j).Over? <==> IsLast(setup, j)
    ensures PhaseOf(setup, j).Over? ==> PhaseOf(setup, j).end == EndRead(j)
  {
    if j.Noted? {
      OrderlyFits(setup, j.before);
      PhaseKnows(setup, PhaseOf(setup, j.before), Rows(setup, j.before), j.before);
      EndsHere(setup, PhaseOf(setup, j.before), j.before, j.event);
    }
  }

  /** What a phase tells of the journal. */
  predicate Knows(setup: Setup, phase: Phase, j: Journal) {
    match phase
    case AwaitsHealth(pods) => FirstPods(j) == pods && j.Noted?
    case AwaitsRunbook(pods, target) =>
      FirstPods(j) == pods && j.Noted? && SelectUnhealthyPod(pods, setup.requested) == Ok(target)
    case AwaitsPolicy(_) => Decisions(j) == []
    case AwaitsRetryPolicy(_, a) => Decisions(j) != [] && a < setup.maxAttempts
    case AwaitsVerdict(a) => Verdicts(j) == a - 1 && a <= setup.maxAttempts
    case _ => true
  }

  lemma PhaseKnows(setup: Setup, phase: Phase, db: Database, j: Journal)
    requires Fits(setup, phase, db, j)
    ensures Knows(setup, phase, j)
  {
  }

  lemma EndsHere(setup: Setup, phase: Phase, before: Journal, e: External)
    requires Knows(setup, phase, before) && Expects(phase, e)
    ensures var next := After(setup, phase, e);
            (next.Over? <==> IsLast(setup, Noted(before, e))) && (next.Over? ==> next.end == EndRead(Noted(before, e)))
  {
    if phase.AwaitsHealth? { SelectedIsTheOnlyCandidate(phase.pods, setup.requested); }
    if phase.AwaitsRunbook? && e.RunbookMatched? { MatchedExactly(setup, e.runbook, phase.pods, phase.target); }
  }

  lemma MatchedExactly(setup: Setup, runbook: Runbook, pods: seq<Pod>, target: Pod)
    requires SelectUnhealthyPod(pods, setup.requested) == Ok(target)
    ensures Match(runbook, pods, target).Over? <==>
            || Candidates(pods, None) > runbook.maxTargetPods
            || (runbook.controllerManagedOnly
                && exists p :: p in pods && Candidate(p, setup.requested) && !p.controllerManaged)
    ensures Match(runbook, pods, target).Over? ==> Match(runbook, pods, target).end == Broke(RunbookPreconditionFailed)
  {
    SelectionCounts(pods, None);
    SelectedIsTheOnlyCandidate(pods, setup.requested);
    assert target in pods && Candidate(target, setup.requested);
  }

  /** The events of a journal, the first of them first. */
  function Events(j: Journal): seq<External> {
    match j
    case Nothing => []
    case Noted(before, e) => Events(before) + [e]
  }

  /**
   When no error ended a run, each decision that allowed a pod is followed by the request to delete that pod,
   its acceptance and a verification. So there are as many requests as allowing decisions.
   */
  lemma {:induction false} AllowedIsDeleted(setup: Setup, j: Journal, i: nat)
    requires Orderly(setup, j) && PhaseOf(setup, j).Over? && PhaseOf(setup, j).end.Ended? && setup.maxAttempts > 0
    requires i < |Events(j)| && Allows(Events(j)[i])
    ensures Requests(j) == Allowing(j) && |Accepted(j)| == Requests(j)
    ensures i + 3 < |Events(j)|
    ensures var pod := Events(j)[i].pod;
            Events(j)[i + 1] == DeleteRequested(pod) && Events(j)[i + 2] == DeleteAccepted(pod)
              && Events(j)[i + 3].Verified?
  {
    OrderlyFits(setup, j);
    EndsNeatly(setup, j);
    CarriedOut(j, i);
  }

  /** A run that ends without an error does not end in the middle of an attempt. */
  predicate EndsBetweenAttempts(j: Journal) {
    j.Noted? && !Allows(j.event) && !j.event.DeleteRequested? && !j.event.DeleteAccepted? && !j.event.CallRaised?
  }

  lemma EndsNeatly(setup: Setup, j: Journal)
    requires Orderly(setup, j) && PhaseOf(setup, j).Over? && PhaseOf(setup, j).end.Ended? && setup.maxAttempts > 0
    ensures EndsBetweenAttempts(j)
  {
    EndIsRead(setup, j);
  }

  lemma CarriedOut(j: Journal, i: nat)
    requires Prompt(j) && EndsBetweenAttempts(j) && i < |Events(j)| && Allows(Events(j)[i])
    ensures i + 3 < |Events(j)|
    ensures var pod := Events(j)[i].pod;
            Events(j)[i + 1] == DeleteRequested(pod) && Events(j)[i + 2] == DeleteAccepted(pod)
              && Events(j)[i + 3].Verified?
  {
    LastEvent(j);
    PromptAt(j, i);
    PromptAt(j, i + 1);
    if i + 3 < |Events(j)| { PromptAt(j, i + 2); }
    if i + 4 < |Events(j)| { PromptAt(j, i + 3); }
  }

  lemma LastEvent(j: Journal)
    requires j.Noted?
    ensures Events(j)[|Events(j)| - 1] == j.event
  {
  }

  /** What `Prompt` says of one event and the next. */
  lemma {:induction false} PromptAt(j: Journal, i: nat)
    requires Prompt(j) && i + 1 < |Events(j)|
    ensures Demands(Events(j)[i], Events(j)[i + 1])
  {
    if i + 2 < |Events(j)| { PromptAt(j.before, i); }
  }

  // ---------- what a run leaves behind ----------

  /**
   What a journal, the state the error handler met, if it was reached, the rows and the incident's state are
   when a run is over.
   */
  ghost predicate Ran(world: World, setup: Setup, j: Journal, met: Option<IncidentState>, rows: Database,
                      state: IncidentState) {
    && Orderly(setup, j) && Faithful(world, j) && PhaseOf(setup, j).Over?
    && (match PhaseOf(setup, j).end
        case Ended(end) => met.None? && state == end && rows == Rows(setup, j)
        case Broke(code) =>
          met.Some? && if Terminal(met.value) then state == met.value && rows == Rows(setup, j)
                       else state == Escalated && rows == EscalatedWith(Rows(setup, j), code))
    && Walked(rows) && Final(state)
    && (met.None? || !Terminal(met.value) ==> state == Current(rows) && Finished(rows, j, setup.maxAttempts))
    && (met.Some? ==> !EndsVerified(j))
    && (met.Some? && Terminal(met.value) ==> Cut(rows, j, setup.maxAttempts))
    && ((state == Resolved ==> EndsVerified(j)) <==> met != Some(Resolved))
    && Numbered(rows.executions) && Truthful(rows.executions) && Accepted(j) == SucceededPods(rows.executions)
    && rows.retryCount == |rows.executions|
    && (Current(rows) == Escalated ==>
          GaveUp(rows, setup.maxAttempts) || (rows.escalationCode.Some? && Raised(world, rows.escalationCode.value)))
  }

  lemma RanToEnd(world: World, setup: Setup, j: Journal, state: IncidentState)
    requires Orderly(setup, j) && Faithful(world, j) && PhaseOf(setup, j) == Over(Ended(state))
    ensures Ran(world, setup, j, None, Rows(setup, j), state)
  {
    OrderlyFits(setup, j);
    OrderlyWalks(setup, j);
    TriesNumbered(j);
    TriesSucceeded(j);
  }

  lemma RanIntoError(world: World, setup: Setup, j: Journal, code: ErrorCode, met: IncidentState)
    requires Orderly(setup, j) && Faithful(world, j) && PhaseOf(setup, j) == Over(Broke(code))
    ensures var rows := if Terminal(met) then Rows(setup, j) else EscalatedWith(Rows(setup, j), code);
            Ran(world, setup, j, Some(met), rows, if Terminal(met) then met else Escalated)
    ensures Recoverable(Current(Rows(setup, j)))
  {
    RowsWhenBroken(setup, j, code);
    OrderlyWalks(setup, j);
    EscalatesLawfully(Rows(setup, j), code);
    TriesNumbered(j);
    TriesSucceeded(j);
    RaisedBySome(world, setup, j, code);
    EscalatedFinishes(Rows(setup, j), j, setup.maxAttempts, code);
  }

  lemma RowsWhenBroken(setup: Setup, j: Journal, code: ErrorCode)
    requires Orderly(setup, j) && PhaseOf(setup, j) == Over(Broke(code))
    ensures Cut(Rows(setup, j), j, setup.maxAttempts) && Rows(setup, j).escalationCode.None?
  {
    OrderlyFits(setup, j);
  }

  /** Escalating the rows an error left finishes the run. */
  lemma EscalatedFinishes(db: Database, j: Journal, maxAttempts: nat, code: ErrorCode)
    requires Cut(db, j, maxAttempts)
    ensures Finished(EscalatedWith(db, code), j, maxAttempts)
  {
  }

  lemma RaisedBySome(world: World, setup: Setup, j: Journal, code: ErrorCode)
    requires Orderly(setup, j) && Faithful(world, j) && PhaseOf(setup, j) == Over(Broke(code))
    ensures Raised(world, code)
  {
    EndIsRead(setup, j);
    if j.event.CallRaised? { assert Raises(world, j.event.call, code); }
  }

  // ---------- a run as it is told ----------

  function EventAt(j: Journal, k: nat): External
    requires k < Length(j)
  {
    if k == Length(j.before) then j.event else EventAt(j.before, k)
  }

  /** Event `k` was due when it happened, is what the world answered then, and led from one course to the next. */
  ghost predicate Due(world: World, setup: Setup, j: Journal, courses: seq<Course>, k: nat)
    requires k < Length(j) && |courses| == Length(j) + 1
  {
    && Expects(courses[k].phase, EventAt(j, k)) && Answered(world, k, EventAt(j, k))
    && courses[k + 1] == Step(setup, courses[k], EventAt(j, k))
  }

  ghost predicate Tells(world: World, setup: Setup, j: Journal, courses: seq<Course>) {
    && |courses| == Length(j) + 1 && courses[0] == Course(AwaitsPods, CREATED)
    && forall k: nat {:trigger Due(world, setup, j, courses, k)} :: k < Length(j) ==> Due(world, setup, j, courses, k)
  }

  lemma TellMore(world: World, setup: Setup, j: Journal, courses: seq<Course>, e: External)
    requires Tells(world, setup, j, courses)
    requires Expects(courses[|courses| - 1].phase, e) && Answered(world, Length(j), e)
    ensures Tells(world, setup, Noted(j, e), courses + [Step(setup, courses[|courses| - 1], e)])
  {
    var all := courses + [Step(setup, courses[|courses| - 1], e)];
    forall k: nat | k < Length(j) + 1 ensures Due(world, setup, Noted(j, e), all, k) {
      if k < Length(j) { assert Due(world, setup, j, courses, k); }
    }
  }

  lemma {:induction false} TellsCourse(world: World, setup: Setup, j: Journal, courses: seq<Course>)
    requires Tells(world, setup, j, courses)
    ensures Orderly(setup, j) && Faithful(world, j) && courses[|courses| - 1] == CourseOf(setup, j)
  {
    if j.Noted? {
      var earlier := courses[..|courses| - 1];
      forall k: nat | k < Length(j.before) ensures Due(world, setup, j.before, earlier, k) {
        assert Due(world, setup, j, courses, k);
      }
      TellsCourse(world, setup, j.before, earlier);
      assert Due(world, setup, j, courses, Length(j.before));
    }
  }
}
