/**
 Approvals bound to proposals, execution claims, bounded scaling and replica rollback, over one store
 of rows and the live replica counts. Each operation is one transaction: when it fails, no row has
 changed, and a replica count only if the failure came after the cluster had accepted it. Rows are never
 deleted, so the index of an execution is its identifier.
 */
module Remediation {
  import opened Results
  import opened IncidentStates

  datatype Action =
    | DeleteUnhealthyPod | RestartPod | ScaleStagingDeployment | ScaleWorkload | RevertImage | RollbackDeployment
    | ApplyQuarantine | QuarantineWorkload | RemoveQuarantine | CreateGitopsPr | CreateTerraformPr
    | CreateGithubIssue | RequestApproval | NoAction

  datatype Role = Viewer | Operator | Admin

  datatype Permission = PlatformRead | DemoTrigger | ApproveStandard | ApproveHigherRisk

  function RequiredPermission(action: Action): Permission {
    match action
    case DeleteUnhealthyPod => DemoTrigger
    case RestartPod => DemoTrigger
    case ScaleStagingDeployment => ApproveStandard
    case ScaleWorkload => ApproveStandard
    case RevertImage => ApproveHigherRisk
    case RollbackDeployment => ApproveHigherRisk
    case ApplyQuarantine => ApproveHigherRisk
    case QuarantineWorkload => ApproveHigherRisk
    case RemoveQuarantine => ApproveHigherRisk
    case CreateGitopsPr => ApproveStandard
    case CreateTerraformPr => ApproveHigherRisk
    case CreateGithubIssue => ApproveStandard
    case RequestApproval => ApproveStandard
    case NoAction => PlatformRead
  }

  predicate HasPermission(role: Role, permission: Permission) {
    match role
    case Viewer => permission == PlatformRead
    case Operator => permission != ApproveHigherRisk
    case Admin => true
  }

  datatype RecordStatus = Pending | Running | Succeeded | Failed | Rejected | Cancelled

  /** The parameters an approval is bound to; `rest` stands for the ones no code reads. */
  datatype Parameters = Parameters(
    namespace: Option<string>,
    deployment: Option<string>,
    observedReplicas: Option<int>,
    expectedTag: Option<string>,
    pod: Option<string>,
    rest: nat)

  datatype Proposal = Proposal(incident: nat, action: Action, parameters: Parameters, risk: nat, status: RecordStatus)

  /** What the digest of an approval covers. The digest is injective, so it is modelled by its input. */
  datatype Context = Context(incident: nat, proposal: nat, action: Action, risk: nat, parameters: Parameters)

  datatype Verdict = AwaitingVerdict | Approved | Refused | Expired | Invalidated

  datatype Approval = Approval(
    incident: nat,
    verdict: Verdict,
    context: Context,
    expiresAt: int,
    decidedAt: Option<int>,
    decidedBy: Option<Role>,
    claim: Option<nat>)

  datatype ScaleResult = ScaleResult(namespace: string, deployment: string, previous: nat, requested: nat)

  /** Idempotency keys are digests of these, hence injective. */
  datatype Key =
    | ClaimKey(incident: nat, runbook: string, action: Action, attempt: int, target: Parameters)
    | RollbackKey(execution: nat, previous: nat)

  datatype Execution = Execution(
    incident: nat,
    proposal: nat,
    attempt: int,
    key: Key,
    status: RecordStatus,
    result: Option<ScaleResult>,
    rollbackOf: Option<nat>,
    rolledBack: bool)

  /** A live deployment of the staging namespace. */
  datatype Deployment = Deployment(replicas: nat, demoTarget: bool)

  datatype Row = Row(environment: Environment, state: IncidentState)

  datatype Store = Store(
    now: int,
    incidents: map<nat, Row>,
    proposals: map<nat, Proposal>,
    approvals: map<nat, Approval>,
    executions: seq<Execution>,
    cluster: map<string, Deployment>)

  // ---------- approvals ----------

  function CurrentContext(s: Store, p: nat): Context
    requires p in s.proposals
  {
    var q := s.proposals[p];
    Context(q.incident, p, q.action, q.risk, q.parameters)
  }

  /** The approval of a proposal is created once; asking again returns the one that exists. */
  function EnsureApproval(s: Store, p: nat, ttl: nat): Store
    requires p in s.proposals
  {
    if p in s.approvals then s
    else s.(approvals := s.approvals[p := Approval(s.proposals[p].incident, AwaitingVerdict, CurrentContext(s, p),
                                                   s.now + ttl, None, None, None)])
  }

  /**
   What the cluster and the policy engine answer while an approval is being decided, and how long all of
   that takes before the clock is read again for the decision's own time.
   */
  datatype Outside = Outside(
    waited: nat,
    clusterError: Option<ErrorCode>,
    tagPresent: bool,
    demoPodsExist: bool,
    policyStillRequires: bool,
    riskFactorsValid: bool,
    policyAllows: bool)

  /** The live target, or that it no longer is what the proposal was made for. */
  function LiveTargetStale(s: Store, parameters: Parameters, outside: Outside): Result<bool> {
    if parameters.namespace.None? then Ok(true)
    else if parameters.deployment.Some? then
      if outside.clusterError.Some? then Err(outside.clusterError.value)
      else if parameters.deployment.value !in s.cluster then Err(KubernetesActionFailed)
      else
        Ok((parameters.observedReplicas.Some?
            && s.cluster[parameters.deployment.value].replicas != parameters.observedReplicas.value)
           || (parameters.expectedTag.Some? && !outside.tagPresent)
           || !outside.demoPodsExist)
    else if parameters.pod.Some? then
      if outside.clusterError.Some? then Err(outside.clusterError.value) else Ok(false)
    else Ok(true)
  }

  function Stale(s: Store, p: nat, outside: Outside): Result<bool>
    requires p in s.approvals && p in s.proposals && s.proposals[p].incident in s.incidents
  {
    var approval := s.approvals[p];
    if approval.expiresAt <= s.now then Ok(true)
    else if s.incidents[s.proposals[p].incident].state != AwaitingApproval then Ok(true)
    else if s.proposals[p].status != Pending then Ok(true)
    else if exists i | 0 <= i < |s.executions| :: s.executions[i].proposal == p then Ok(true)
    else if CurrentContext(s, p) != approval.context then Ok(true)
    else
      var target :- LiveTargetStale(s, s.proposals[p].parameters, outside);
      Ok(target || !outside.policyStillRequires || !outside.riskFactorsValid || !outside.policyAllows)
  }

  /** An unforced change of an incident's state. */
  function MoveIncident(s: Store, incident: nat, target: IncidentState): Result<Store>
    requires incident in s.incidents
  {
    var row := s.incidents[incident];
    if row.state == target then Ok(s)
    else
      var _ :- TransitionIncident(row.state, target);
      Ok(s.(incidents := s.incidents[incident := row.(state := target)]))
  }

  function Decided(a: Approval, verdict: Verdict, now: int, who: Option<Role>): Approval {
    a.(verdict := verdict, decidedAt := Some(now), decidedBy := who)
  }

  function WithStatus(s: Store, p: nat, status: RecordStatus): Store
    requires p in s.proposals
  {
    s.(proposals := s.proposals[p := s.proposals[p].(status := status)])
  }

  function Decide(s: Store, p: nat, approve: bool, role: Role, outside: Outside): Result<Store> {
    if p !in s.approvals then Err(ApprovalNotFound)
    else if s.approvals[p].verdict != AwaitingVerdict then Err(ApprovalAlreadyDecided)
    else if p !in s.proposals || s.proposals[p].incident !in s.incidents then Err(ProposalNotFound)
    else if !approve then Refuse(s, p, role, s.now + outside.waited)
    else Grant(s, p, role, outside)
  }

  /** The approving side of a decision. */
  function Grant(s: Store, p: nat, role: Role, outside: Outside): Result<Store>
    requires p in s.approvals && p in s.proposals && s.proposals[p].incident in s.incidents
  {
    if !HasPermission(role, RequiredPermission(s.proposals[p].action)) then Err(ApprovalRoleInsufficient)
    else if s.proposals[p].risk >= 70 then Err(HighRiskActionBlocked)
    else
      var stale :- Stale(s, p, outside);
      if stale then Invalidate(s, p, s.now + outside.waited) else Approve(s, p, role, s.now + outside.waited)
  }

  function Refuse(s: Store, p: nat, role: Role, at: int): Result<Store>
    requires p in s.approvals && p in s.proposals && s.proposals[p].incident in s.incidents
  {
    MoveIncident(
      WithStatus(s.(approvals := s.approvals[p := Decided(s.approvals[p], Refused, at, Some(role))]), p, Rejected),
      s.proposals[p].incident, Blocked)
  }

  /** Whether a stale approval expired or was invalidated is decided by the second reading of the clock. */
  function Invalidate(s: Store, p: nat, at: int): Result<Store>
    requires p in s.approvals && p in s.proposals && s.proposals[p].incident in s.incidents
  {
    var verdict := if s.approvals[p].expiresAt <= at then Expired else Invalidated;
    var t := WithStatus(s.(approvals := s.approvals[p := Decided(s.approvals[p], verdict, at, None)]), p, Rejected);
    if s.incidents[s.proposals[p].incident].state == AwaitingApproval
    then MoveIncident(t, s.proposals[p].incident, Blocked)
    else Ok(t)
  }

  function Approve(s: Store, p: nat, role: Role, at: int): Result<Store>
    requires p in s.approvals && p in s.proposals && s.proposals[p].incident in s.incidents
  {
    MoveIncident(
      WithStatus(s.(approvals := s.approvals[p := Decided(s.approvals[p], Approved, at, Some(role))]), p, Pending),
      s.proposals[p].incident, PolicyEvaluation)
  }

  // ---------- executions ----------

  predicate Collides(executions: seq<Execution>, e: Execution) {
    exists i | 0 <= i < |executions| ::
      executions[i].key == e.key || (executions[i].incident == e.incident && executions[i].attempt == e.attempt)
  }

  /** Inserting an execution row, subject to the table's constraints. */
  function Insert(s: Store, e: Execution): Result<Store> {
    if e.attempt < 1 || e.attempt > 3 || Collides(s.executions, e) then Err(DuplicateRow)
    else Ok(s.(executions := s.executions + [e]))
  }

  predicate HasKey(executions: seq<Execution>, key: Key) {
    exists i | 0 <= i < |executions| :: executions[i].key == key
  }

  /** A claim; `claimed` is false when the same claim was made before. */
  datatype Claim = Claim(store: Store, claimed: bool)

  function ClaimRow(s: Store, p: nat, runbook: string, attempt: int): Execution
    requires p in s.proposals
  {
    var q := s.proposals[p];
    Execution(q.incident, p, attempt, ClaimKey(q.incident, runbook, q.action, attempt, q.parameters),
              Running, None, None, false)
  }

  function ClaimExecution(s: Store, p: nat, runbook: string, attempt: int): Result<Claim>
    requires p in s.proposals
  {
    var row := ClaimRow(s, p, runbook, attempt);
    if attempt < 1 || attempt > 3 then Err(RemediationAttemptLimit)
    else if HasKey(s.executions, row.key) then Ok(Claim(s, false))
    else if p in s.approvals && s.approvals[p].verdict != Approved then Err(ActionApprovalRequired)
    else if p in s.approvals && s.approvals[p].claim.Some? then Err(ApprovedActionAlreadyClaimed)
    else
      var inserted :- Insert(s, row);
      Ok(Claim(
          if p in s.approvals
          then inserted.(approvals := s.approvals[p := s.approvals[p].(claim := Some(|s.executions|))])
          else inserted,
          true))
  }

  /** The bounded, compare-and-set scale of one staging deployment. */
  function ScaleDeployment(cluster: map<string, Deployment>, namespace: string, name: string,
                           replicas: int, maximum: int, expected: int, rejected: bool)
    : Result<map<string, Deployment>>
  {
    if namespace != "cloudward-staging" then Err(TargetDenied)
    else if replicas < 1 || maximum < 1 || replicas > maximum then Err(ScaleBoundExceeded)
    else if name !in cluster then Err(KubernetesActionFailed)
    else if !cluster[name].demoTarget then Err(TargetDenied)
    else if cluster[name].replicas != expected then Err(StaleActionTarget)
    else if rejected then Err(KubernetesActionFailed)
    else Ok(cluster[name := cluster[name].(replicas := replicas)])
  }

  function Min(a: int, b: int): int {
    if a < b then a else b
  }

  /** Claim, scale up by one replica within the bound, and store the result. */
  function ScaleUp(s: Store, p: nat, runbook: string, attempt: int, namespace: string, name: string,
                   observed: nat, maximum: nat, rejected: bool): Result<Store>
    requires p in s.proposals
  {
    var claim :- ClaimExecution(s, p, runbook, attempt);
    if !claim.claimed then Ok(s) else
    var desired := Min(observed + 1, maximum);
    var cluster :- ScaleDeployment(s.cluster, namespace, name, desired, maximum, observed, rejected);
    var i := |s.executions|;
    var done := ClaimRow(s, p, runbook, attempt).(status := Succeeded,
                                                  result := Some(ScaleResult(namespace, name, observed, desired)));
    Ok(claim.store.(executions := claim.store.executions[i := done], cluster := cluster))
  }

  /** A transaction whose rows are rolled back after the cluster has accepted its patch. */
  function Lost(s: Store, patched: Result<Store>): Store {
    if patched.Ok? then s.(cluster := patched.value.cluster) else s
  }

  predicate Scalable(environment: Environment) {
    environment == Local || environment == Staging
  }

  /** Undo one recorded scale execution. */
  function RollbackScale(s: Store, id: nat, maximum: nat, rejected: bool): Result<Store>
    requires id < |s.executions|
  {
    var failed := s.executions[id];
    if failed.incident !in s.incidents then Err(IncidentNotFound)
    else if !Scalable(s.incidents[failed.incident].environment) then Err(TargetDenied)
    else if failed.result.None? || failed.result.value.previous < 1 || failed.result.value.requested < 1
    then Err(RollbackStateUnavailable)
    else if failed.proposal !in s.proposals then Err(ProposalNotFound)
    else if failed.attempt >= 3 then Err(RemediationAttemptLimit)
    else
      var r := failed.result.value;
      var row := RollbackRow(failed, id);
      var inserted :- Insert(s, row);
      var cluster :- ScaleDeployment(s.cluster, r.namespace, r.deployment, r.previous, maximum, r.requested, rejected);
      Ok(inserted.(executions := s.executions[id := failed.(rolledBack := true)] + [row], cluster := cluster))
  }

  function RollbackRow(failed: Execution, id: nat): Execution
    requires failed.result.Some?
  {
    var r := failed.result.value;
    Execution(failed.incident, failed.proposal, failed.attempt + 1, RollbackKey(id, r.previous), Succeeded,
              Some(ScaleResult(r.namespace, r.deployment, r.requested, r.previous)), Some(id), false)
  }

  // ---------- the store as the services update it ----------

  class RemediationStore {
    var now: int
    var incidents: map<nat, Row>
    var proposals: map<nat, Proposal>
    var approvals: map<nat, Approval>
    var executions: seq<Execution>
    var cluster: map<string, Deployment>

    ghost function Snapshot(): Store
      reads this
    {
      Store(now, incidents, proposals, approvals, executions, cluster)
    }

    method EnsureRuntimeApproval(p: nat, ttl: nat)
      requires p in proposals
      modifies this`approvals
      ensures Snapshot() == EnsureApproval(old(Snapshot()), p, ttl)
    {
      if p in approvals { return; }
      var q := proposals[p];
      var context := Context(q.incident, p, q.action, q.risk, q.parameters);
      approvals := approvals[p := Approval(q.incident, AwaitingVerdict, context, now + ttl, None, None, None)];
    }

    /** Unforced change; on an error nothing has changed. */
    method ChangeIncidentState(incident: nat, target: IncidentState) returns (r: Result<()>)
      requires incident in incidents
      modifies this`incidents
      ensures r.Ok? ==> MoveIncident(old(Snapshot()), incident, target) == Ok(Snapshot())
      ensures r.Err? ==> MoveIncident(old(Snapshot()), incident, target) == Err(r.error) && incidents == old(incidents)
    {
      if incidents[incident].state == target { return Ok(()); }
      var _ :- TransitionIncident(incidents[incident].state, target);
      incidents := incidents[incident := incidents[incident].(state := target)];
      return Ok(());
    }

    /** A refusal closes proposal and approval, and blocks the incident; if it cannot, nothing is committed. */
    method RefuseApproval(p: nat, role: Role, at: int) returns (r: Result<Verdict>)
      requires p in approvals && p in proposals && proposals[p].incident in incidents
      modifies this`approvals, this`proposals, this`incidents
      ensures r.Ok? ==> Refuse(old(Snapshot()), p, role, at) == Ok(Snapshot())
                        && p in approvals && approvals[p].verdict == r.value == Refused
      ensures r.Err? ==> Refuse(old(Snapshot()), p, role, at) == Err(r.error) && Snapshot() == old(Snapshot())
    {
      var savedProposals, savedApprovals := proposals, approvals;
      var incident := proposals[p].incident;
      proposals := proposals[p := proposals[p].(status := Rejected)];
      approvals := approvals[p := Decided(approvals[p], Refused, at, Some(role))];
      var moved := ChangeIncidentState(incident, Blocked);
      if moved.Err? {
        proposals, approvals := savedProposals, savedApprovals;
        return Err(moved.error);
      }
      return Ok(Refused);
    }

    method InvalidateApproval(p: nat, at: int) returns (verdict: Verdict)
      requires p in approvals && p in proposals && proposals[p].incident in incidents
      modifies this`approvals, this`proposals, this`incidents
      ensures Invalidate(old(Snapshot()), p, at) == Ok(Snapshot())
      ensures p in approvals && approvals[p].verdict == verdict != AwaitingVerdict
    {
      var incident := proposals[p].incident;
      verdict := if approvals[p].expiresAt <= at then Expired else Invalidated;
      proposals := proposals[p := proposals[p].(status := Rejected)];
      approvals := approvals[p := Decided(approvals[p], verdict, at, None)];
      if incidents[incident].state == AwaitingApproval {
        var moved := ChangeIncidentState(incident, Blocked);
        assert moved.Ok?;
      }
    }

    method AcceptApproval(p: nat, role: Role, at: int)
      requires p in approvals && p in proposals && proposals[p].incident in incidents
      requires incidents[proposals[p].incident].state == AwaitingApproval
      modifies this`approvals, this`proposals, this`incidents
      ensures Approve(old(Snapshot()), p, role, at) == Ok(Snapshot())
      ensures p in approvals && approvals[p].verdict == Approved
    {
      var incident := proposals[p].incident;
      proposals := proposals[p := proposals[p].(status := Pending)];
      approvals := approvals[p := Decided(approvals[p], Approved, at, Some(role))];
      var moved := ChangeIncidentState(incident, PolicyEvaluation);
      assert moved.Ok?;
    }

    /** A decision that raises is not committed: the caller's session is closed without a commit. */
    method DecideApproval(p: nat, approve: bool, role: Role, outside: Outside) returns (r: Result<Verdict>)
      modifies this`approvals, this`proposals, this`incidents
      ensures r.Ok? ==> Decide(old(Snapshot()), p, approve, role, outside) == Ok(Snapshot())
                        && p in approvals && approvals[p].verdict == r.value != AwaitingVerdict
      ensures r.Err? ==> Decide(old(Snapshot()), p, approve, role, outside) == Err(r.error)
                         && Snapshot() == old(Snapshot())
    {
      if p !in approvals { return Err(ApprovalNotFound); }
      if approvals[p].verdict != AwaitingVerdict { return Err(ApprovalAlreadyDecided); }
      if p !in proposals || proposals[p].incident !in incidents { return Err(ProposalNotFound); }
      if approve {
        r := GrantApproval(p, role, outside);
      } else {
        r := RefuseApproval(p, role, now + outside.waited);
      }
    }

    method GrantApproval(p: nat, role: Role, outside: Outside) returns (r: Result<Verdict>)
      requires p in approvals && p in proposals && proposals[p].incident in incidents
      modifies this`approvals, this`proposals, this`incidents
      ensures r.Ok? ==> Grant(old(Snapshot()), p, role, outside) == Ok(Snapshot())
                        && p in approvals && approvals[p].verdict == r.value != AwaitingVerdict
      ensures r.Err? ==> Grant(old(Snapshot()), p, role, outside) == Err(r.error)
                         && Snapshot() == old(Snapshot())
    {
      if !HasPermission(role, RequiredPermission(proposals[p].action)) { return Err(ApprovalRoleInsufficient); }
      if proposals[p].risk >= 70 { return Err(HighRiskActionBlocked); }
      var stale :- Stale(Store(now, incidents, proposals, approvals, executions, cluster), p, outside);
      if stale {
        var verdict := InvalidateApproval(p, now + outside.waited);
        return Ok(verdict);
      }
      AcceptApproval(p, role, now + outside.waited);
      return Ok(Approved);
    }

    method ClaimActionExecution(p: nat, runbook: string, attempt: int) returns (r: Result<bool>)
      requires p in proposals
      modifies this`approvals, this`executions
      ensures r.Ok? ==> ClaimExecution(old(Snapshot()), p, runbook, attempt) == Ok(Claim(Snapshot(), r.value))
      ensures r.Err? ==> ClaimExecution(old(Snapshot()), p, runbook, attempt) == Err(r.error)
                         && Snapshot() == old(Snapshot())
    {
      if attempt < 1 || attempt > 3 { return Err(RemediationAttemptLimit); }
      var q := proposals[p];
      var key := ClaimKey(q.incident, runbook, q.action, attempt, q.parameters);
      if HasKey(executions, key) { return Ok(false); }
      if p in approvals {
        if approvals[p].verdict != Approved { return Err(ActionApprovalRequired); }
        if approvals[p].claim.Some? { return Err(ApprovedActionAlreadyClaimed); }
      }
      var execution := Execution(q.incident, p, attempt, key, Running, None, None, false);
      if Collides(executions, execution) { return Err(DuplicateRow); }
      executions := executions + [execution];
      if p in approvals {
        approvals := approvals[p := approvals[p].(claim := Some(|executions| - 1))];
      }
      return Ok(true);
    }

    method ScaleStagingDeployment(namespace: string, name: string, replicas: int, maximum: int,
                                  expected: int, rejected: bool) returns (r: Result<()>)
      modifies this`cluster
      ensures r.Ok? ==>
              ScaleDeployment(old(cluster), namespace, name, replicas, maximum, expected, rejected) == Ok(cluster)
      ensures r.Err? ==> cluster == old(cluster)
                         && ScaleDeployment(cluster, namespace, name, replicas, maximum, expected, rejected)
                           == Err(r.error)
    {
      if namespace != "cloudward-staging" { return Err(TargetDenied); }
      if replicas < 1 || maximum < 1 || replicas > maximum { return Err(ScaleBoundExceeded); }
      if name !in cluster { return Err(KubernetesActionFailed); }
      var deployment := cluster[name];
      if !deployment.demoTarget { return Err(TargetDenied); }
      if deployment.replicas != expected { return Err(StaleActionTarget); }
      if rejected { return Err(KubernetesActionFailed); }
      cluster := cluster[name := deployment.(replicas := replicas)];
      return Ok(());
    }

    /**
     The scale branch of alert processing: claim, scale, finish. A refused scale undoes the claim; a failure
     after an accepted one undoes the rows and leaves the cluster scaled.
     */
    method ProcessScaleUp(p: nat, runbook: string, attempt: int, namespace: string, name: string,
                          observed: nat, maximum: nat, rejected: bool, lost: bool) returns (r: Result<bool>)
      requires p in proposals
      modifies this`approvals, this`executions, this`cluster
      ensures var t := ScaleUp(old(Snapshot()), p, runbook, attempt, namespace, name, observed, maximum, rejected);
              && (r.Ok? ==> t == Ok(Snapshot()))
              && (r.Err? ==> Snapshot() == if lost then Lost(old(Snapshot()), t) else old(Snapshot()))
              && (r.Err? && !lost ==> t == Err(r.error))
    {
      var savedApprovals, savedExecutions := approvals, executions;
      var claimed :- ClaimActionExecution(p, runbook, attempt);
      if !claimed { return Ok(false); }
      var desired := Min(observed + 1, maximum);
      var scaled := ScaleStagingDeployment(namespace, name, desired, maximum, observed, rejected);
      if scaled.Err? || lost {
        approvals, executions := savedApprovals, savedExecutions;
        return Err(if scaled.Err? then scaled.error else ExternalFailure(0));
      }
      var i := |executions| - 1;
      executions := executions[i := executions[i].(status := Succeeded,
                                                  result := Some(ScaleResult(namespace, name, observed, desired)))];
      return Ok(true);
    }

    method RollbackScaleExecution(id: nat, maximum: nat, rejected: bool, lost: bool) returns (r: Result<nat>)
      requires id < |executions|
      modifies this`executions, this`cluster
      ensures var t := RollbackScale(old(Snapshot()), id, maximum, rejected);
              && (r.Ok? ==> t == Ok(Snapshot()) && r.value == old(|executions|))
              && (r.Err? ==> Snapshot() == if lost then Lost(old(Snapshot()), t) else old(Snapshot()))
              && (r.Err? && !lost ==> t == Err(r.error))
    {
      var failed := executions[id];
      if failed.incident !in incidents { return Err(IncidentNotFound); }
      if !Scalable(incidents[failed.incident].environment) { return Err(TargetDenied); }
      if failed.result.None? || failed.result.value.previous < 1 || failed.result.value.requested < 1 {
        return Err(RollbackStateUnavailable);
      }
      if failed.proposal !in proposals { return Err(ProposalNotFound); }
      if failed.attempt >= 3 { return Err(RemediationAttemptLimit); }
      var recorded := failed.result.value;
      var rollback := Execution(failed.incident, failed.proposal, failed.attempt + 1,
                                RollbackKey(id, recorded.previous),
                                Running, None, Some(id), false);
      if rollback.attempt < 1 || Collides(executions, rollback) { return Err(DuplicateRow); }
      var _ :- ScaleStagingDeployment(recorded.namespace, recorded.deployment, recorded.previous, maximum,
                                      recorded.requested, rejected);
      if lost { return Err(ExternalFailure(0)); }
      var result := ScaleResult(recorded.namespace, recorded.deployment, recorded.requested, recorded.previous);
      executions := executions[id := failed.(rolledBack := true)]
                    + [rollback.(status := Succeeded, result := Some(result))];
      return Ok(|executions| - 1);
    }
  }
}
