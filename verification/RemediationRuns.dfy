/** What every interleaving of request, decision, claim, scale and rollback transactions keeps. */
module RemediationRuns {
  import opened Results
  import opened IncidentStates
  import opened Remediation

  /**
   One committed transaction, or anything other actors do: `Elsewhere` lets the clock, the incidents,
   the proposals and the live replica counts become anything at all between two transactions.
   */
  datatype Step =
    | Request(p: nat, ttl: nat)
    | Verdict(p: nat, approve: bool, role: Role, outside: Outside)
    | Claiming(p: nat, runbook: string, attempt: int)
    | Finishing(id: nat, status: RecordStatus, result: Option<ScaleResult>)
    | ScalingUp(p: nat, runbook: string, attempt: int, namespace: string, name: string,
                observed: nat, maximum: nat, rejected: bool, lost: bool)
    | RollingBack(id: nat, maximum: nat, rejected: bool, lost: bool)
    | Elsewhere(now: int, incidents: map<nat, Row>, proposals: map<nat, Proposal>, cluster: map<string, Deployment>)

  /** A scaling transaction commits, fails, or fails after the cluster was patched. */
  function Settled(s: Store, r: Result<Store>, lost: bool): Store {
    if lost then Lost(s, r) else if r.Ok? then r.value else s
  }

  function Apply(s: Store, step: Step): Store {
    match step
    case Request(p, ttl) => if p in s.proposals then EnsureApproval(s, p, ttl) else s
    case Verdict(p, approve, role, outside) =>
      (match Decide(s, p, approve, role, outside) case Ok(t) => t case Err(_) => s)
    case Claiming(p, runbook, attempt) =>
      if p !in s.proposals then s
      else (match ClaimExecution(s, p, runbook, attempt) case Ok(c) => c.store case Err(_) => s)
    case Finishing(id, status, result) =>
      if id < |s.executions|
      then s.(executions := s.executions[id := s.executions[id].(status := status, result := result)])
      else s
    case ScalingUp(p, runbook, attempt, namespace, name, observed, maximum, rejected, lost) =>
      if p !in s.proposals then s
      else Settled(s, ScaleUp(s, p, runbook, attempt, namespace, name, observed, maximum, rejected), lost)
    case RollingBack(id, maximum, rejected, lost) =>
      if id >= |s.executions| then s else Settled(s, RollbackScale(s, id, maximum, rejected), lost)
    case Elsewhere(now, incidents, proposals, cluster) =>
      s.(now := now, incidents := incidents, proposals := proposals, cluster := cluster)
  }

  function Run(s: Store, steps: seq<Step>): Store {
    if steps == [] then s else Apply(Run(s, steps[..|steps| - 1]), steps[|steps| - 1])
  }

  predicate Initial(s: Store) {
    s.approvals == map[] && s.executions == []
  }

  // ---------- the invariant ----------

  /** Attempts are one to three and differ within an incident, keys differ, rollbacks follow what they undo. */
  ghost predicate Distinct(x: seq<Execution>) {
    && (forall i :: 0 <= i < |x| ==> 1 <= x[i].attempt <= 3)
    && (forall i, j :: 0 <= i < j < |x| ==> x[i].key != x[j].key)
    && (forall i, j :: 0 <= i < j < |x| && x[i].incident == x[j].incident ==> x[i].attempt != x[j].attempt)
  }

  ghost predicate Undoes(x: seq<Execution>, i: nat, j: nat)
    requires i < |x| && j < |x|
  {
    x[j].rollbackOf == Some(i)
  }

  ghost predicate RollbacksLinked(x: seq<Execution>) {
    && (forall j :: 0 <= j < |x| && x[j].rollbackOf.Some? ==>
          var i := x[j].rollbackOf.value;
          i < j && x[i].incident == x[j].incident && x[i].proposal == x[j].proposal
          && x[j].attempt == x[i].attempt + 1 && x[i].rolledBack)
    && (forall j :: 0 <= j < |x| && x[j].key.RollbackKey? ==> x[j].rollbackOf == Some(x[j].key.execution))
    && (forall i: nat :: i < |x| && x[i].rolledBack ==> exists j: nat :: j < |x| && Undoes(x, i, j))
  }

  /** The first-class execution of a proposal, as opposed to a rollback carrying its identifier. */
  ghost predicate Claims(x: seq<Execution>, i: int, p: nat) {
    0 <= i < |x| && x[i].proposal == p && x[i].rollbackOf.None?
  }

  /** What the executions say about the approval of proposal `p`. */
  ghost predicate ApprovalSound(a: Approval, x: seq<Execution>, p: nat) {
    if a.verdict == Approved then
      && a.decidedAt.Some?
      && a.context.proposal == p && a.context.risk < 70
      && a.decidedBy.Some? && HasPermission(a.decidedBy.value, RequiredPermission(a.context.action))
      && (match a.claim
          case None => forall i :: 0 <= i < |x| ==> x[i].proposal != p
          case Some(k) => Claims(x, k, p) && forall i :: Claims(x, i, p) ==> i == k)
    else a.claim.None? && a.context.proposal == p
  }

  ghost predicate AllSound(approvals: map<nat, Approval>, x: seq<Execution>) {
    forall p :: p in approvals ==> ApprovalSound(approvals[p], x, p)
  }

  ghost predicate Inv(s: Store) {
    Distinct(s.executions) && RollbacksLinked(s.executions) && AllSound(s.approvals, s.executions)
  }

  // ---------- one step ----------

  lemma InsertDistinct(x: seq<Execution>, e: Execution)
    requires Distinct(x) && 1 <= e.attempt <= 3 && !Collides(x, e)
    ensures Distinct(x + [e])
  {
    forall i | 0 <= i < |x| ensures x[i].key != e.key && (x[i].incident == e.incident ==> x[i].attempt != e.attempt) {
      assert !(x[i].key == e.key || (x[i].incident == e.incident && x[i].attempt == e.attempt));
    }
  }

  lemma DistinctReport(x: seq<Execution>, id: nat, e: Execution)
    requires Distinct(x) && id < |x|
    requires e.key == x[id].key && e.incident == x[id].incident && e.attempt == x[id].attempt
    ensures Distinct(x[id := e])
  {
  }

  lemma InsertLinked(x: seq<Execution>, e: Execution)
    requires RollbacksLinked(x) && e.rollbackOf.None? && !e.rolledBack && e.key.ClaimKey?
    ensures RollbacksLinked(x + [e])
  {
    forall i: nat | i < |x| && x[i].rolledBack ensures exists j: nat :: j < |x + [e]| && Undoes(x + [e], i, j) {
      var j: nat :| j < |x| && Undoes(x, i, j);
      assert Undoes(x + [e], i, j);
    }
  }

  lemma InsertRollbackLinked(x: seq<Execution>, id: nat, e: Execution)
    requires RollbacksLinked(x) && id < |x| && e.rollbackOf == Some(id) && !e.rolledBack
    requires e.incident == x[id].incident && e.proposal == x[id].proposal && e.attempt == x[id].attempt + 1
    requires e.key.RollbackKey? ==> e.key.execution == id
    ensures RollbacksLinked(x[id := x[id].(rolledBack := true)] + [e])
  {
    var y := x[id := x[id].(rolledBack := true)] + [e];
    forall i: nat | i < |y| && y[i].rolledBack ensures exists j: nat :: j < |y| && Undoes(y, i, j) {
      if i == id {
        assert Undoes(y, id, |x|);
      } else {
        var j: nat :| j < |x| && Undoes(x, i, j);
        assert Undoes(y, i, j);
      }
    }
  }

  /** Changing what an execution reports, and nothing that identifies it, keeps the links. */
  lemma ReportLinked(x: seq<Execution>, id: nat, e: Execution)
    requires RollbacksLinked(x) && id < |x|
    requires e.incident == x[id].incident && e.proposal == x[id].proposal && e.attempt == x[id].attempt
    requires e.rollbackOf == x[id].rollbackOf && e.rolledBack == x[id].rolledBack && e.key == x[id].key
    ensures RollbacksLinked(x[id := e])
  {
    var y := x[id := e];
    forall i: nat | i < |y| && y[i].rolledBack ensures exists j: nat :: j < |y| && Undoes(y, i, j) {
      var j: nat :| j < |x| && Undoes(x, i, j);
      assert Undoes(y, i, j);
    }
  }

  /** More executions, none of them a first-class execution of `q`, leave the approval of `q` sound. */
  lemma SoundFrame(a: Approval, x: seq<Execution>, y: seq<Execution>, q: nat)
    requires ApprovalSound(a, x, q) && |x| <= |y|
    requires forall i :: 0 <= i < |x| ==> y[i].proposal == x[i].proposal && y[i].rollbackOf == x[i].rollbackOf
    requires forall i :: |x| <= i < |y| && y[i].proposal == q ==>
               y[i].rollbackOf.Some? && exists j :: 0 <= j < |x| && x[j].proposal == q
    ensures ApprovalSound(a, y, q)
  {
    if a.verdict == Approved && a.claim.Some? {
      assert Claims(y, a.claim.value, q);
      forall i | Claims(y, i, q) ensures i == a.claim.value {
        assert Claims(x, i, q);
      }
    }
  }

  lemma RequestKeeps(s: Store, p: nat, ttl: nat)
    requires Inv(s) && p in s.proposals
    ensures Inv(EnsureApproval(s, p, ttl))
  {
    var t := EnsureApproval(s, p, ttl);
    forall q | q in t.approvals ensures ApprovalSound(t.approvals[q], t.executions, q) {
      if q in s.approvals { assert ApprovalSound(s.approvals[q], s.executions, q); }
    }
  }

  /** `t` holds the decision on proposal `p`, and changes otherwise one proposal status and one incident state. */
  ghost predicate Decides(s: Store, t: Store, p: nat, at: int) {
    && p in s.approvals && s.approvals[p].verdict == AwaitingVerdict
    && p in s.proposals && p in t.approvals
    && t.executions == s.executions && t.cluster == s.cluster && t.now == s.now
    && t.approvals == s.approvals[p := t.approvals[p]]
    && t.approvals[p].verdict != AwaitingVerdict
    && t.approvals[p] == Decided(s.approvals[p], t.approvals[p].verdict, at, t.approvals[p].decidedBy)
  }

  lemma DecideShape(s: Store, p: nat, approve: bool, role: Role, outside: Outside)
    requires Decide(s, p, approve, role, outside).Ok?
    ensures var t := Decide(s, p, approve, role, outside).value;
            && Decides(s, t, p, s.now + outside.waited)
            && (t.approvals[p].verdict == Approved ==>
                  approve && t.approvals[p].decidedBy == Some(role)
                  && HasPermission(role, RequiredPermission(s.proposals[p].action)) && s.proposals[p].risk < 70
                  && s.proposals[p].incident in s.incidents && Stale(s, p, outside) == Ok(false))
  {
    var at := s.now + outside.waited;
    if approve { GrantShape(s, p, role, outside); } else { RefuseShape(s, p, role, at); }
  }

  lemma RefuseShape(s: Store, p: nat, role: Role, at: int)
    requires p in s.approvals && p in s.proposals && s.proposals[p].incident in s.incidents
    requires s.approvals[p].verdict == AwaitingVerdict
    ensures var r := Refuse(s, p, role, at);
            r.Ok? ==> Decides(s, r.value, p, at) && r.value.approvals[p].verdict == Refused
  {
  }

  lemma InvalidateShape(s: Store, p: nat, at: int)
    requires p in s.approvals && p in s.proposals && s.proposals[p].incident in s.incidents
    requires s.approvals[p].verdict == AwaitingVerdict
    ensures var r := Invalidate(s, p, at);
            r.Ok? ==> Decides(s, r.value, p, at) && r.value.approvals[p].verdict != Approved
  {
  }

  lemma ApproveShape(s: Store, p: nat, role: Role, at: int)
    requires p in s.approvals && p in s.proposals && s.proposals[p].incident in s.incidents
    requires s.approvals[p].verdict == AwaitingVerdict
    ensures var r := Approve(s, p, role, at);
            r.Ok? ==> Decides(s, r.value, p, at) && r.value.approvals[p].decidedBy == Some(role)
  {
  }

  lemma GrantShape(s: Store, p: nat, role: Role, outside: Outside)
    requires p in s.approvals && p in s.proposals && s.proposals[p].incident in s.incidents
    requires s.approvals[p].verdict == AwaitingVerdict && Grant(s, p, role, outside).Ok?
    ensures var t := Grant(s, p, role, outside).value;
            && Decides(s, t, p, s.now + outside.waited)
            && (t.approvals[p].verdict == Approved ==>
                  t.approvals[p].decidedBy == Some(role)
                  && HasPermission(role, RequiredPermission(s.proposals[p].action)) && s.proposals[p].risk < 70
                  && Stale(s, p, outside) == Ok(false))
  {
    var stale, at := Stale(s, p, outside), s.now + outside.waited;
    if stale == Ok(false) { ApproveShape(s, p, role, at); } else { InvalidateShape(s, p, at); }
  }

  lemma DecideKeeps(s: Store, p: nat, approve: bool, role: Role, outside: Outside)
    requires Inv(s) && Decide(s, p, approve, role, outside).Ok?
    ensures Inv(Decide(s, p, approve, role, outside).value)
  {
    DecideShape(s, p, approve, role, outside);
    var t := Decide(s, p, approve, role, outside).value;
    forall q | q in t.approvals ensures ApprovalSound(t.approvals[q], t.executions, q) {
      assert ApprovalSound(s.approvals[q], s.executions, q);
      if q == p && t.approvals[p].verdict == Approved { FreshWhenApproved(s, p, outside); }
    }
  }

  /** An approval that is not stale has nothing changed since it was requested, and nothing executed. */
  lemma FreshWhenApproved(s: Store, p: nat, outside: Outside)
    requires p in s.approvals && p in s.proposals && s.proposals[p].incident in s.incidents
    requires Stale(s, p, outside) == Ok(false)
    ensures s.now < s.approvals[p].expiresAt
    ensures s.incidents[s.proposals[p].incident].state == AwaitingApproval
    ensures CurrentContext(s, p) == s.approvals[p].context
    ensures forall i :: 0 <= i < |s.executions| ==> s.executions[i].proposal != p
    ensures LiveTargetStale(s, s.proposals[p].parameters, outside) == Ok(false)
    ensures outside.policyStillRequires && outside.riskFactorsValid && outside.policyAllows
  {
  }

  lemma ClaimShape(s: Store, p: nat, runbook: string, attempt: int)
    requires p in s.proposals && ClaimExecution(s, p, runbook, attempt).Ok?
    ensures var c := ClaimExecution(s, p, runbook, attempt).value;
            if !c.claimed then c.store == s else
            var row := ClaimRow(s, p, runbook, attempt);
            && 1 <= attempt <= 3 && !Collides(s.executions, row)
            && c.store.executions == s.executions + [row]
            && (p in s.approvals ==> s.approvals[p].verdict == Approved && s.approvals[p].claim.None?)
            && c.store.approvals == (if p in s.approvals
                                     then s.approvals[p := s.approvals[p].(claim := Some(|s.executions|))]
                                     else s.approvals)
            && c.store == s.(approvals := c.store.approvals, executions := c.store.executions)
  {
  }

  /** A claim, or a claim whose row already reports its result. */
  lemma ClaimKeeps(s: Store, t: Store, p: nat, row: Execution)
    requires Inv(s) && row.proposal == p && row.rollbackOf.None? && !row.rolledBack && row.key.ClaimKey?
    requires 1 <= row.attempt <= 3 && !Collides(s.executions, row)
    requires p in s.approvals ==> s.approvals[p].verdict == Approved && s.approvals[p].claim.None?
    requires t.executions == s.executions + [row]
    requires t.approvals == if p in s.approvals
                            then s.approvals[p := s.approvals[p].(claim := Some(|s.executions|))]
                            else s.approvals
    ensures Inv(t)
  {
    InsertDistinct(s.executions, row);
    InsertLinked(s.executions, row);
    forall q | q in t.approvals ensures ApprovalSound(t.approvals[q], t.executions, q) {
      ClaimSound(s.approvals[q], s.executions, row, p, q);
    }
  }

  /** What the row of a claim does to the approval of proposal `q`. */
  lemma ClaimSound(a: Approval, x: seq<Execution>, row: Execution, p: nat, q: nat)
    requires ApprovalSound(a, x, q) && row.proposal == p && row.rollbackOf.None?
    requires q == p ==> a.verdict == Approved && a.claim.None?
    ensures ApprovalSound(if q == p then a.(claim := Some(|x|)) else a, x + [row], q)
  {
    if q == p {
      assert Claims(x + [row], |x|, p);
    } else {
      SoundFrame(a, x, x + [row], q);
    }
  }

  lemma RollbackShape(s: Store, id: nat, maximum: nat, rejected: bool)
    requires id < |s.executions| && RollbackScale(s, id, maximum, rejected).Ok?
    ensures var t := RollbackScale(s, id, maximum, rejected).value;
            && s.executions[id].result.Some?
            && var row := RollbackRow(s.executions[id], id);
               && 1 <= row.attempt <= 3 && !Collides(s.executions, row)
               && t.executions == s.executions[id := s.executions[id].(rolledBack := true)] + [row]
               && t.approvals == s.approvals
  {
  }

  lemma RollbackSound(approvals: map<nat, Approval>, x: seq<Execution>, id: nat, row: Execution)
    requires AllSound(approvals, x) && id < |x| && row.rollbackOf.Some? && row.proposal == x[id].proposal
    ensures AllSound(approvals, x[id := x[id].(rolledBack := true)] + [row])
  {
    var y := x[id := x[id].(rolledBack := true)] + [row];
    forall q | q in approvals ensures ApprovalSound(approvals[q], y, q) {
      SoundFrame(approvals[q], x, y, q);
    }
  }

  lemma RollbackKeeps(s: Store, id: nat, maximum: nat, rejected: bool)
    requires Inv(s) && id < |s.executions| && RollbackScale(s, id, maximum, rejected).Ok?
    ensures Inv(RollbackScale(s, id, maximum, rejected).value)
  {
    RollbackShape(s, id, maximum, rejected);
    var t := RollbackScale(s, id, maximum, rejected).value;
    var row := RollbackRow(s.executions[id], id);
    InsertDistinct(s.executions, row);
    DistinctReport(s.executions + [row], id, s.executions[id].(rolledBack := true));
    assert t.executions == (s.executions + [row])[id := s.executions[id].(rolledBack := true)];
    InsertRollbackLinked(s.executions, id, row);
    RollbackSound(s.approvals, s.executions, id, row);
  }

  lemma FinishKeeps(s: Store, id: nat, status: RecordStatus, result: Option<ScaleResult>)
    requires Inv(s) && id < |s.executions|
    ensures Inv(s.(executions := s.executions[id := s.executions[id].(status := status, result := result)]))
  {
    var x, e := s.executions, s.executions[id].(status := status, result := result);
    DistinctReport(x, id, e);
    ReportLinked(x, id, e);
    forall q | q in s.approvals ensures ApprovalSound(s.approvals[q], x[id := e], q) {
      SoundFrame(s.approvals[q], x, x[id := e], q);
    }
  }

  lemma ClaimingKeeps(s: Store, p: nat, runbook: string, attempt: int)
    requires Inv(s) && p in s.proposals && ClaimExecution(s, p, runbook, attempt).Ok?
    ensures Inv(ClaimExecution(s, p, runbook, attempt).value.store)
  {
    ClaimShape(s, p, runbook, attempt);
    var c := ClaimExecution(s, p, runbook, attempt).value;
    if c.claimed { ClaimKeeps(s, c.store, p, ClaimRow(s, p, runbook, attempt)); }
  }

  lemma ScalingKeeps(s: Store, p: nat, runbook: string, attempt: int, namespace: string, name: string,
                     observed: nat, maximum: nat, rejected: bool)
    requires Inv(s) && p in s.proposals
    requires ScaleUp(s, p, runbook, attempt, namespace, name, observed, maximum, rejected).Ok?
    ensures Inv(ScaleUp(s, p, runbook, attempt, namespace, name, observed, maximum, rejected).value)
  {
    ClaimShape(s, p, runbook, attempt);
    var t := ScaleUp(s, p, runbook, attempt, namespace, name, observed, maximum, rejected).value;
    if t != s { ClaimKeeps(s, t, p, t.executions[|s.executions|]); }
  }

  /** A step keeps the invariant; one that fails after its patch changes neither approvals nor executions. */
  lemma StepKeeps(s: Store, step: Step)
    requires Inv(s)
    ensures Inv(Apply(s, step))
  {
    match step
    case Request(p, ttl) => if p in s.proposals { RequestKeeps(s, p, ttl); }
    case Verdict(p, approve, role, outside) =>
      if Decide(s, p, approve, role, outside).Ok? { DecideKeeps(s, p, approve, role, outside); }
    case Claiming(p, runbook, attempt) =>
      if p in s.proposals && ClaimExecution(s, p, runbook, attempt).Ok? { ClaimingKeeps(s, p, runbook, attempt); }
    case Finishing(id, status, result) => if id < |s.executions| { FinishKeeps(s, id, status, result); }
    case ScalingUp(p, runbook, attempt, namespace, name, observed, maximum, rejected, lost) =>
      if p in s.proposals && ScaleUp(s, p, runbook, attempt, namespace, name, observed, maximum, rejected).Ok? {
        ScalingKeeps(s, p, runbook, attempt, namespace, name, observed, maximum, rejected);
      }
    case RollingBack(id, maximum, rejected, lost) =>
      if id < |s.executions| && RollbackScale(s, id, maximum, rejected).Ok? { RollbackKeeps(s, id, maximum, rejected); }
    case Elsewhere(now, incidents, proposals, cluster) =>
  }

  // ---------- every run ----------

  lemma {:induction false} EveryRunKeeps(s: Store, steps: seq<Step>)
    requires Initial(s)
    ensures Inv(Run(s, steps))
  {
    if steps != [] {
      EveryRunKeeps(s, steps[..|steps| - 1]);
      StepKeeps(Run(s, steps[..|steps| - 1]), steps[|steps| - 1]);
    }
  }

  /**
   Whatever the interleaving: an approved decision was taken by a role entitled to the action, on a risk
   below 70, and the proposal has at most one first-class execution, ever.
   */
  lemma ApprovedExecutesOnce(s: Store, steps: seq<Step>, p: nat)
    requires Initial(s)
    ensures var t := Run(s, steps);
            p in t.approvals && t.approvals[p].verdict == Approved ==>
              && t.approvals[p].decidedAt.Some?
              && t.approvals[p].context.risk < 70
              && t.approvals[p].decidedBy.Some?
              && HasPermission(t.approvals[p].decidedBy.value, RequiredPermission(t.approvals[p].context.action))
              && (forall i, j :: Claims(t.executions, i, p) && Claims(t.executions, j, p) ==> i == j)
  {
    EveryRunKeeps(s, steps);
    var t := Run(s, steps);
    if p in t.approvals { assert ApprovalSound(t.approvals[p], t.executions, p); }
  }

  lemma DecisionStep(s: Store, step: Step, p: nat)
    requires p in s.approvals && s.approvals[p].verdict != AwaitingVerdict
    ensures var t := Apply(s, step);
            p in t.approvals && t.approvals[p] == s.approvals[p].(claim := t.approvals[p].claim)
            && (s.approvals[p].claim.Some? ==> t.approvals[p] == s.approvals[p])
  {
    match step
    case Verdict(q, approve, role, outside) =>
      if Decide(s, q, approve, role, outside).Ok? { DecideShape(s, q, approve, role, outside); }
    case Claiming(q, runbook, attempt) =>
      if q in s.proposals && ClaimExecution(s, q, runbook, attempt).Ok? { ClaimShape(s, q, runbook, attempt); }
    case ScalingUp(q, runbook, attempt, namespace, name, observed, maximum, rejected, lost) =>
      if q in s.proposals && ClaimExecution(s, q, runbook, attempt).Ok? { ClaimShape(s, q, runbook, attempt); }
    case _ =>
  }

  /** A decision that has left the pending state is frozen: only its claim is still filled in, once. */
  lemma {:induction false} DecisionsAreFinal(s: Store, steps: seq<Step>, p: nat)
    requires p in s.approvals && s.approvals[p].verdict != AwaitingVerdict
    ensures var t := Run(s, steps);
            p in t.approvals && t.approvals[p] == s.approvals[p].(claim := t.approvals[p].claim)
            && (s.approvals[p].claim.Some? ==> t.approvals[p] == s.approvals[p])
  {
    if steps != [] {
      DecisionsAreFinal(s, steps[..|steps| - 1], p);
      DecisionStep(Run(s, steps[..|steps| - 1]), steps[|steps| - 1], p);
    }
  }

  lemma GrantStep(s: Store, step: Step, p: nat)
    requires p !in s.approvals || s.approvals[p].verdict == AwaitingVerdict
    requires p in Apply(s, step).approvals && Apply(s, step).approvals[p].verdict == Approved
    ensures step.Verdict? && step.p == p && step.approve && p in s.approvals
            && s.approvals[p].verdict == AwaitingVerdict
    ensures Decide(s, p, true, step.role, step.outside) == Ok(Apply(s, step))
    ensures s.now < s.approvals[p].expiresAt
    ensures Apply(s, step).approvals[p].expiresAt == s.approvals[p].expiresAt
    ensures Apply(s, step).approvals[p].decidedAt == Some(s.now + step.outside.waited)
  {
    match step
    case Verdict(q, approve, role, outside) =>
      if Decide(s, q, approve, role, outside).Ok? {
        DecideShape(s, q, approve, role, outside);
        if q == p { FreshWhenApproved(s, p, outside); }
      }
    case _ => OnlyVerdictsGrant(s, step, p);
  }

  /** No other step approves anything. */
  lemma OnlyVerdictsGrant(s: Store, step: Step, p: nat)
    requires !step.Verdict? && (p !in s.approvals || s.approvals[p].verdict == AwaitingVerdict)
    ensures p in Apply(s, step).approvals ==> Apply(s, step).approvals[p].verdict == AwaitingVerdict
  {
    match step
    case Claiming(q, runbook, attempt) =>
      if q in s.proposals && ClaimExecution(s, q, runbook, attempt).Ok? { ClaimShape(s, q, runbook, attempt); }
    case ScalingUp(q, runbook, attempt, namespace, name, observed, maximum, rejected, lost) =>
      if q in s.proposals && ClaimExecution(s, q, runbook, attempt).Ok? { ClaimShape(s, q, runbook, attempt); }
    case _ =>
  }

  /** A decision on `p` approved it, having checked the expiry against `before.now` and stamped the answers' arrival. */
  ghost predicate Granted(before: Store, step: Step, after: Store, p: nat) {
    && step.Verdict? && step.p == p && step.approve
    && p in before.approvals && before.approvals[p].verdict == AwaitingVerdict
    && p in after.approvals && after.approvals[p].verdict == Approved
    && before.now < after.approvals[p].expiresAt
    && after.approvals[p].decidedAt == Some(before.now + step.outside.waited)
  }

  /** What a step may do to the approval of `p`: nothing to a decided one, and approve it only by a decision. */
  ghost predicate GrantRule(before: Store, step: Step, after: Store, p: nat) {
    if p in before.approvals && before.approvals[p].verdict != AwaitingVerdict
    then p in after.approvals && after.approvals[p] == before.approvals[p].(claim := after.approvals[p].claim)
    else p in after.approvals && after.approvals[p].verdict == Approved ==> Granted(before, step, after, p)
  }

  lemma EveryStepFollowsRule(s: Store, step: Step, p: nat)
    ensures GrantRule(s, step, Apply(s, step), p)
  {
    var t := Apply(s, step);
    if p in s.approvals && s.approvals[p].verdict != AwaitingVerdict {
      DecisionStep(s, step, p);
    } else if p in t.approvals && t.approvals[p].verdict == Approved {
      GrantStep(s, step, p);
    }
  }

  lemma RuleInRun(s: Store, steps: seq<Step>, i: nat, p: nat)
    requires i < |steps|
    ensures GrantRule(Run(s, steps[..i]), steps[i], Run(s, steps[..i + 1]), p)
  {
    assert steps[..i + 1][..i] == steps[..i];
    EveryStepFollowsRule(Run(s, steps[..i]), steps[i], p);
  }

  /**
   The granting step checked the expiry at `checkedAt` and stamped the approval when the answers were there,
   which is before the expiry exactly when they took less than the approval had left to live.
   */
  ghost predicate StampedBy(a: Approval, checkedAt: int, step: Step) {
    && step.Verdict? && checkedAt < a.expiresAt && a.decidedAt == Some(checkedAt + step.outside.waited)
    && (a.decidedAt.value < a.expiresAt <==> step.outside.waited < a.expiresAt - checkedAt)
  }

  lemma {:induction false} FindGrant(stores: seq<Store>, steps: seq<Step>, p: nat) returns (k: nat)
    requires |stores| == |steps| + 1 && p !in stores[0].approvals
    requires forall i :: 0 <= i < |steps| ==> GrantRule(stores[i], steps[i], stores[i + 1], p)
    requires p in stores[|steps|].approvals && stores[|steps|].approvals[p].verdict == Approved
    ensures k < |steps| && Granted(stores[k], steps[k], stores[k + 1], p)
    ensures StampedBy(stores[|steps|].approvals[p], stores[k].now, steps[k])
  {
    var last := |steps| - 1;
    assert GrantRule(stores[last], steps[last], stores[last + 1], p);
    if Granted(stores[last], steps[last], stores[last + 1], p) {
      k := last;
    } else {
      k := FindGrant(stores[..last + 1], steps[..last], p);
    }
  }

  ghost predicate StoresOf(s: Store, steps: seq<Step>, stores: seq<Store>) {
    |stores| == |steps| + 1 && forall i :: 0 <= i <= |steps| ==> stores[i] == Run(s, steps[..i])
  }

  /** The stores between the steps of a run. */
  lemma RuledStores(s: Store, steps: seq<Step>, p: nat) returns (stores: seq<Store>)
    ensures StoresOf(s, steps, stores)
    ensures forall i :: 0 <= i < |steps| ==> GrantRule(stores[i], steps[i], stores[i + 1], p)
  {
    stores := seq(|steps| + 1, i requires 0 <= i <= |steps| => Run(s, steps[..i]));
    forall i | 0 <= i < |steps| ensures GrantRule(stores[i], steps[i], stores[i + 1], p) {
      RuleInRun(s, steps, i, p);
    }
  }

  /**
   Every approval of a run was granted by one decision whose staleness check read the clock before the
   expiry. The time stored is read later, so it precedes the expiry exactly when that second reading does.
   */
  lemma GrantedWhileUnexpired(s: Store, steps: seq<Step>, p: nat) returns (k: nat, before: Store, after: Store)
    requires Initial(s)
    requires p in Run(s, steps).approvals && Run(s, steps).approvals[p].verdict == Approved
    ensures k < |steps| && before == Run(s, steps[..k]) && after == Run(s, steps[..k + 1])
    ensures Granted(before, steps[k], after, p)
    ensures StampedBy(Run(s, steps).approvals[p], before.now, steps[k])
  {
    var stores := RuledStores(s, steps, p);
    assert steps[..|steps|] == steps && steps[..0] == [];
    k := FindGrant(stores, steps, p);
    before, after := stores[k], stores[k + 1];
  }

  /** However long the answers take, an approval that is granted is granted, stamped late or not. */
  lemma StampMayBeLate(s: Store, p: nat, role: Role, outside: Outside, waited: nat)
    requires Decide(s, p, true, role, outside).Ok?
    requires Decide(s, p, true, role, outside).value.approvals[p].verdict == Approved
    ensures var slow := Decide(s, p, true, role, outside.(waited := waited));
            && slow.Ok? && p in slow.value.approvals && slow.value.approvals[p].verdict == Approved
            && slow.value.approvals[p].decidedAt == Some(s.now + waited)
            && (waited >= s.approvals[p].expiresAt - s.now ==>
                  slow.value.approvals[p].decidedAt.value >= slow.value.approvals[p].expiresAt)
  {
    DecideShape(s, p, true, role, outside);
    FreshWhenApproved(s, p, outside);
    FreshWhenApproved(s, p, outside.(waited := waited));
  }

  /** A store with one incident awaiting approval and one pending proposal, to restart a pod. */
  function AskedStore(): Store {
    var restart := Parameters(Some("ns"), None, None, None, Some("pod"), 0);
    var proposal := Proposal(0, RestartPod, restart, 0, Pending);
    Store(0, map[0 := Row(Staging, AwaitingApproval)], map[0 := proposal], map[], [], map[])
  }

  /** Late stamps are reached: request, and a decision whose answers take as long as the approval lives. */
  lemma LateStampIsReached(ttl: nat, waited: nat)
    requires 0 < ttl <= waited
    ensures Initial(AskedStore())
    ensures var outside := Outside(waited, None, true, true, true, true, true);
            var t := Run(AskedStore(), [Request(0, ttl), Verdict(0, true, Operator, outside)]);
            0 in t.approvals && t.approvals[0].verdict == Approved
            && t.approvals[0].decidedAt == Some(waited) && t.approvals[0].expiresAt == ttl <= waited
  {
    var outside := Outside(waited, None, true, true, true, true, true);
    RunTwo(AskedStore(), Request(0, ttl), Verdict(0, true, Operator, outside));
    LateGrant(EnsureApproval(AskedStore(), 0, ttl), ttl, outside);
  }

  lemma LateGrant(asked: Store, ttl: nat, outside: Outside)
    requires 0 < ttl && asked == EnsureApproval(AskedStore(), 0, ttl)
    requires outside == Outside(outside.waited, None, true, true, true, true, true)
    ensures var r := Decide(asked, 0, true, Operator, outside);
            r.Ok? && 0 in r.value.approvals && r.value.approvals[0].verdict == Approved
            && r.value.approvals[0].decidedAt == Some(outside.waited) && r.value.approvals[0].expiresAt == ttl
  {
    assert Stale(asked, 0, outside) == Ok(false);
    assert Decide(asked, 0, true, Operator, outside) == Approve(asked, 0, Operator, outside.waited);
    ApproveShape(asked, 0, Operator, outside.waited);
  }

  lemma RunTwo(s: Store, first: Step, second: Step)
    ensures Run(s, [first, second]) == Apply(Apply(s, first), second)
  {
    var steps := [first, second];
    assert steps[..1] == [first] && [first][..0] == [];
    assert Run(s, [first]) == Apply(Run(s, []), first);
    assert Run(s, steps) == Apply(Run(s, steps[..1]), second);
  }

  /** A step that starts a first-class execution of a proposal finds no approval, or an approved unclaimed one. */
  lemma ExecutionNeedsApproval(s: Store, step: Step, p: nat)
    requires |Apply(s, step).executions| > |s.executions|
    requires Claims(Apply(s, step).executions, |s.executions|, p)
    ensures p in s.approvals ==> s.approvals[p].verdict == Approved && s.approvals[p].claim.None?
    ensures |Apply(s, step).executions| == |s.executions| + 1
  {
    match step
    case Verdict(q, approve, role, outside) =>
      if Decide(s, q, approve, role, outside).Ok? { DecideShape(s, q, approve, role, outside); }
    case Claiming(q, runbook, attempt) => ClaimShape(s, q, runbook, attempt);
    case ScalingUp(q, runbook, attempt, namespace, name, observed, maximum, rejected, lost) =>
      ClaimShape(s, q, runbook, attempt);
    case _ =>
  }

  /** The executions of one incident. */
  function OfIncident(x: seq<Execution>, incident: nat): set<int> {
    set i | 0 <= i < |x| && x[i].incident == incident
  }

  /** Claims and rollbacks together: an incident never has more than three executions. */
  lemma AtMostThreePerIncident(s: Store, steps: seq<Step>, incident: nat)
    requires Initial(s)
    ensures |OfIncident(Run(s, steps).executions, incident)| <= 3
  {
    EveryRunKeeps(s, steps);
    var x := Run(s, steps).executions;
    var first, second, third := WithAttempt(x, incident, 1), WithAttempt(x, incident, 2), WithAttempt(x, incident, 3);
    OnePerAttempt(x, incident, 1);
    OnePerAttempt(x, incident, 2);
    OnePerAttempt(x, incident, 3);
    assert OfIncident(x, incident) <= first + second + third;
    SmallerSet(OfIncident(x, incident), first + second + third);
  }

  lemma OnePerAttempt(x: seq<Execution>, incident: nat, attempt: int)
    requires Distinct(x)
    ensures |WithAttempt(x, incident, attempt)| <= 1
  {
    AtMostOne(WithAttempt(x, incident, attempt));
  }

  lemma SmallerSet<T>(a: set<T>, b: set<T>)
    requires a <= b
    ensures |a| <= |b|
  {
    assert b == a + (b - a);
  }

  function WithAttempt(x: seq<Execution>, incident: nat, attempt: int): set<int> {
    set i | 0 <= i < |x| && x[i].incident == incident && x[i].attempt == attempt
  }

  lemma AtMostOne<T>(a: set<T>)
    requires forall i, j :: i in a && j in a ==> i == j
    ensures |a| <= 1
  {
    if a != {} {
      var i :| i in a;
      assert a == {i};
    }
  }

  /** Each execution is rolled back at most once, and is marked so exactly when a rollback of it exists. */
  lemma RolledBackAtMostOnce(s: Store, steps: seq<Step>, i: nat, j: nat, k: nat)
    requires Initial(s)
    requires i < |Run(s, steps).executions| && j < |Run(s, steps).executions| && k < |Run(s, steps).executions|
    ensures var x := Run(s, steps).executions;
            && (Undoes(x, i, j) && Undoes(x, i, k) ==> j == k)
            && (x[i].rolledBack <==> exists m: nat :: m < |x| && Undoes(x, i, m))
  {
    EveryRunKeeps(s, steps);
  }

  // ---------- decisions ----------

  /** The target a proposal was made for can be read and still is what it was. */
  predicate TargetLives(s: Store, q: Parameters, outside: Outside) {
    && q.namespace.Some? && (q.deployment.Some? || q.pod.Some?) && outside.clusterError.None?
    && (q.deployment.Some? ==>
          && q.deployment.value in s.cluster
          && (q.observedReplicas.Some? ==> s.cluster[q.deployment.value].replicas == q.observedReplicas.value)
          && (q.expectedTag.Some? ==> outside.tagPresent) && outside.demoPodsExist)
  }

  /** The target cannot be read. */
  predicate TargetUnreadable(s: Store, q: Parameters, outside: Outside) {
    && q.namespace.Some? && (q.deployment.Some? || q.pod.Some?)
    && (outside.clusterError.Some? || (q.deployment.Some? && q.deployment.value !in s.cluster))
  }

  /** The rows are those an approval was asked for, it has not expired, and nothing was executed. */
  ghost predicate RowsStillAsked(s: Store, p: nat)
    requires p in s.approvals && p in s.proposals && s.proposals[p].incident in s.incidents
  {
    var a, q := s.approvals[p], s.proposals[p];
    && s.now < a.expiresAt && s.incidents[q.incident].state == AwaitingApproval && q.status == Pending
    && (forall i :: 0 <= i < |s.executions| ==> s.executions[i].proposal != p)
    && a.context.incident == q.incident && a.context.proposal == p && a.context.action == q.action
    && a.context.risk == q.risk && a.context.parameters == q.parameters
  }

  /** Nothing that an approval was asked for has changed, and policy would decide as it did. */
  ghost predicate StillAsked(s: Store, p: nat, outside: Outside)
    requires p in s.approvals && p in s.proposals && s.proposals[p].incident in s.incidents
  {
    && RowsStillAsked(s, p) && TargetLives(s, s.proposals[p].parameters, outside)
    && outside.policyStillRequires && outside.riskFactorsValid && outside.policyAllows
  }

  /** The decision is up to `role`. */
  predicate Entitled(s: Store, p: nat, role: Role)
    requires p in s.proposals
  {
    HasPermission(role, RequiredPermission(s.proposals[p].action)) && s.proposals[p].risk < 70
  }

  /** `t` is `s` with these new rows of one approval, its proposal and its incident, and nothing else. */
  ghost predicate Wrote(s: Store, t: Store, p: nat, verdict: Verdict, at: int, who: Option<Role>,
                        status: RecordStatus, state: IncidentState)
    requires p in s.approvals && p in s.proposals && s.proposals[p].incident in s.incidents
  {
    var q := s.proposals[p];
    && t.now == s.now && t.executions == s.executions && t.cluster == s.cluster
    && t.approvals == s.approvals[p := s.approvals[p].(verdict := verdict, decidedAt := Some(at), decidedBy := who)]
    && t.proposals == s.proposals[p := q.(status := status)]
    && t.incidents == s.incidents[q.incident := s.incidents[q.incident].(state := state)]
  }

  lemma StaleExactly(s: Store, p: nat, outside: Outside)
    requires p in s.approvals && p in s.proposals && s.proposals[p].incident in s.incidents
    ensures Stale(s, p, outside) == Ok(false) <==> StillAsked(s, p, outside)
    ensures Stale(s, p, outside).Err? <==>
            RowsStillAsked(s, p) && TargetUnreadable(s, s.proposals[p].parameters, outside)
  {
  }

  /** What becomes of the rows when a pending approval is to be granted. */
  lemma GrantWrites(s: Store, p: nat, role: Role, outside: Outside)
    requires p in s.approvals && p in s.proposals && s.proposals[p].incident in s.incidents
    requires s.approvals[p].verdict == AwaitingVerdict
    ensures var r, at := Grant(s, p, role, outside), s.now + outside.waited;
            var state := s.incidents[s.proposals[p].incident].state;
            && (r.Ok? && p in r.value.approvals && r.value.approvals[p].verdict == Approved <==>
                  Entitled(s, p, role) && StillAsked(s, p, outside))
            && (Entitled(s, p, role) && StillAsked(s, p, outside) ==>
                  Wrote(s, r.value, p, Approved, at, Some(role), Pending, PolicyEvaluation))
            && (r.Ok? && !StillAsked(s, p, outside) ==>
                  Wrote(s, r.value, p, if s.approvals[p].expiresAt <= at then Expired else Invalidated, at, None,
                        Rejected, if state == AwaitingApproval then Blocked else state))
            && (r.Err? <==>
                  !Entitled(s, p, role)
                  || (RowsStillAsked(s, p) && TargetUnreadable(s, s.proposals[p].parameters, outside)))
  {
    var at := s.now + outside.waited;
    StaleExactly(s, p, outside);
    if StillAsked(s, p, outside) { ApproveWrites(s, p, role, at); }
    InvalidateWrites(s, p, at);
  }

  lemma ApproveWrites(s: Store, p: nat, role: Role, at: int)
    requires p in s.approvals && p in s.proposals && s.proposals[p].incident in s.incidents
    requires s.incidents[s.proposals[p].incident].state == AwaitingApproval
    ensures var r := Approve(s, p, role, at);
            r.Ok? && Wrote(s, r.value, p, Approved, at, Some(role), Pending, PolicyEvaluation)
  {
  }

  lemma InvalidateWrites(s: Store, p: nat, at: int)
    requires p in s.approvals && p in s.proposals && s.proposals[p].incident in s.incidents
    ensures var r, state := Invalidate(s, p, at), s.incidents[s.proposals[p].incident].state;
            r.Ok? && Wrote(s, r.value, p, if s.approvals[p].expiresAt <= at then Expired else Invalidated, at, None,
                           Rejected, if state == AwaitingApproval then Blocked else state)
  {
  }

  /**
   The rows after any decision of a pending approval. It is approved if and only if it is to be approved, by an
   entitled role, and everything still is as it was asked: then the incident goes to POLICY_EVALUATION. An
   entitled role that finds it changed closes it, expired or invalidated by the second reading of the clock, and
   blocks the incident exactly if that still waits. Only an unreadable target of unchanged rows, or a role that
   is not entitled, makes granting fail. A refusal blocks an incident that may still be blocked.
   */
  lemma DecisionWrites(s: Store, p: nat, approve: bool, role: Role, outside: Outside)
    requires p in s.approvals && p in s.proposals && s.proposals[p].incident in s.incidents
    requires s.approvals[p].verdict == AwaitingVerdict
    ensures var r, at := Decide(s, p, approve, role, outside), s.now + outside.waited;
            var state := s.incidents[s.proposals[p].incident].state;
            && (r.Ok? && p in r.value.approvals && r.value.approvals[p].verdict == Approved <==>
                  approve && Entitled(s, p, role) && StillAsked(s, p, outside))
            && (approve && Entitled(s, p, role) && StillAsked(s, p, outside) ==>
                  Wrote(s, r.value, p, Approved, at, Some(role), Pending, PolicyEvaluation))
            && (approve && r.Ok? && !StillAsked(s, p, outside) ==>
                  Wrote(s, r.value, p, if s.approvals[p].expiresAt <= at then Expired else Invalidated, at, None,
                        Rejected, if state == AwaitingApproval then Blocked else state))
            && (!approve && r.Ok? ==> Wrote(s, r.value, p, Refused, at, Some(role), Rejected, Blocked))
            && (approve ==>
                  (r.Err? <==>
                     !Entitled(s, p, role)
                     || (RowsStillAsked(s, p) && TargetUnreadable(s, s.proposals[p].parameters, outside))))
  {
    if approve { GrantWrites(s, p, role, outside); } else { RefuseWrites(s, p, role, s.now + outside.waited); }
  }

  lemma RefuseWrites(s: Store, p: nat, role: Role, at: int)
    requires p in s.approvals && p in s.proposals && s.proposals[p].incident in s.incidents
    ensures var r := Refuse(s, p, role, at);
            r.Ok? ==> Wrote(s, r.value, p, Refused, at, Some(role), Rejected, Blocked)
  {
  }

  /**
   Approving means that, at that moment, nothing the approval was asked for has changed: action, risk
   and parameters are those of the request, nothing was executed for the proposal, and a recorded
   replica count is the live one.
   */
  lemma ApprovingMeansUnchanged(s: Store, p: nat, role: Role, outside: Outside)
    requires Decide(s, p, true, role, outside).Ok?
    requires Decide(s, p, true, role, outside).value.approvals[p].verdict == Approved
    ensures p in s.proposals && p in s.approvals && s.approvals[p].verdict == AwaitingVerdict
    ensures s.proposals[p].action == s.approvals[p].context.action
    ensures s.proposals[p].risk == s.approvals[p].context.risk < 70
    ensures s.proposals[p].parameters == s.approvals[p].context.parameters
    ensures s.now < s.approvals[p].expiresAt
    ensures forall i :: 0 <= i < |s.executions| ==> s.executions[i].proposal != p
    ensures var q := s.proposals[p].parameters;
            q.deployment.Some? && q.observedReplicas.Some? ==>
              q.deployment.value in s.cluster && s.cluster[q.deployment.value].replicas == q.observedReplicas.value
    ensures outside.policyAllows
  {
    DecideShape(s, p, true, role, outside);
    FreshWhenApproved(s, p, outside);
  }

  /**
   A pending approval can be refused exactly while its incident can still be blocked. Once the
   incident executes, verifies, rolls back, is resolved or is escalated, refusing fails and the
   approval stays pending.
   */
  lemma RefusingWorksExactlyWhileBlockable(s: Store, p: nat, role: Role, outside: Outside)
    requires p in s.approvals && s.approvals[p].verdict == AwaitingVerdict
    requires p in s.proposals && s.proposals[p].incident in s.incidents
    ensures var state := s.incidents[s.proposals[p].incident].state;
            var late := state == Executing || state == Verifying || state == Rollback || state == Resolved
              || state == Escalated;
            && (Decide(s, p, false, role, outside).Ok? <==> !late)
            && (late ==> Apply(s, Verdict(p, false, role, outside)) == s)
            && (!late ==> var t := Apply(s, Verdict(p, false, role, outside));
                          t.approvals[p].verdict == Refused
                          && t.incidents[s.proposals[p].incident].state == Blocked
                          && t.proposals[p].status == Rejected)
  {
    var state := s.incidents[s.proposals[p].incident].state;
    assert Blocked in AllowedTransitions(state) <==>
             !(state == Executing || state == Verifying || state == Rollback || Terminal(state));
  }

  /** The first request for an approval binds it to the proposal as it is, until the time to live is over. */
  lemma RequestComesTo(s: Store, p: nat, ttl: nat)
    requires p in s.proposals
    ensures var t, q := EnsureApproval(s, p, ttl), s.proposals[p];
            && (p in s.approvals ==> t == s)
            && (p !in s.approvals ==>
                  && t == s.(approvals := t.approvals) && p in t.approvals
                  && t.approvals == s.approvals[p := t.approvals[p]]
                  && var a := t.approvals[p];
                     && a.verdict == AwaitingVerdict && a.incident == q.incident && a.expiresAt == s.now + ttl
                     && a.context.incident == q.incident && a.context.proposal == p && a.context.action == q.action
                     && a.context.risk == q.risk && a.context.parameters == q.parameters
                     && a.decidedAt.None? && a.decidedBy.None? && a.claim.None?)
  {
  }

  // ---------- claims ----------

  /** The execution was claimed before, by the same key. */
  ghost predicate ClaimedBefore(x: seq<Execution>, key: Key) {
    exists i :: 0 <= i < |x| && x[i].key == key
  }

  /** Another execution of the incident has this attempt number. */
  ghost predicate AttemptTaken(x: seq<Execution>, incident: nat, attempt: int) {
    exists i :: 0 <= i < |x| && x[i].incident == incident && x[i].attempt == attempt
  }

  /**
   Exactly what a claim comes to. It is made if and only if the attempt is one to three and free, the key is new,
   and the proposal has no approval or an approved unclaimed one; the checks come in this order.
   */
  lemma ClaimComesTo(s: Store, p: nat, runbook: string, attempt: int)
    requires p in s.proposals
    ensures var r, q := ClaimExecution(s, p, runbook, attempt), s.proposals[p];
            var key := ClaimKey(q.incident, runbook, q.action, attempt, q.parameters);
            if !(1 <= attempt <= 3) then r == Err(RemediationAttemptLimit)
            else if ClaimedBefore(s.executions, key) then r == Ok(Claim(s, false))
            else if p in s.approvals && s.approvals[p].verdict != Approved then r == Err(ActionApprovalRequired)
            else if p in s.approvals && s.approvals[p].claim.Some? then r == Err(ApprovedActionAlreadyClaimed)
            else if AttemptTaken(s.executions, q.incident, attempt) then r == Err(DuplicateRow)
            else
              && r.Ok? && r.value.claimed
              && var t := r.value.store;
                 && t.executions == s.executions + [Execution(q.incident, p, attempt, key, Running, None, None, false)]
                 && t.approvals == (if p in s.approvals
                                    then s.approvals[p := s.approvals[p].(claim := Some(|s.executions|))]
                                    else s.approvals)
                 && t == s.(executions := t.executions, approvals := t.approvals)
  {
    var row := ClaimRow(s, p, runbook, attempt);
    assert HasKey(s.executions, row.key) <==> ClaimedBefore(s.executions, row.key);
    assert Collides(s.executions, row) <==>
           ClaimedBefore(s.executions, row.key) || AttemptTaken(s.executions, row.incident, attempt);
  }

  /** A deployment that may be scaled from this count. */
  predicate Scales(s: Store, namespace: string, name: string, expected: int) {
    namespace == "cloudward-staging" && name in s.cluster && s.cluster[name].demoTarget
    && s.cluster[name].replicas == expected
  }

  /** A claimed scale-up asks for one replica more, as far as the bound allows, and records both counts. */
  lemma ScaleUpComesTo(s: Store, p: nat, runbook: string, attempt: int, namespace: string, name: string,
                       observed: nat, maximum: nat, rejected: bool)
    requires p in s.proposals
    requires ClaimExecution(s, p, runbook, attempt).Ok? && ClaimExecution(s, p, runbook, attempt).value.claimed
    ensures var r := ScaleUp(s, p, runbook, attempt, namespace, name, observed, maximum, rejected);
            var desired := if observed < maximum then observed + 1 else maximum;
            && (r.Ok? <==> Scales(s, namespace, name, observed) && maximum >= 1 && !rejected)
            && (r.Ok? ==>
                  && r.value.cluster == s.cluster[name := s.cluster[name].(replicas := desired)]
                  && |r.value.executions| == |s.executions| + 1
                  && var e := r.value.executions[|s.executions|];
                     e.status == Succeeded && e.result == Some(ScaleResult(namespace, name, observed, desired)))
  {
    ClaimShape(s, p, runbook, attempt);
  }

  /** Exactly when an execution can be rolled back. */
  lemma RollbackComesTo(s: Store, id: nat, maximum: nat)
    requires id < |s.executions|
    ensures var r, e := RollbackScale(s, id, maximum, false), s.executions[id];
            r.Ok? <==>
              && e.incident in s.incidents && Scalable(s.incidents[e.incident].environment)
              && e.proposal in s.proposals && e.attempt < 3 && 1 <= e.attempt + 1
              && e.result.Some? && e.result.value.requested >= 1 && 1 <= e.result.value.previous <= maximum
              && !ClaimedBefore(s.executions, RollbackKey(id, e.result.value.previous))
              && !AttemptTaken(s.executions, e.incident, e.attempt + 1)
              && Scales(s, e.result.value.namespace, e.result.value.deployment, e.result.value.requested)
  {
    var e := s.executions[id];
    if e.result.Some? {
      var row := RollbackRow(e, id);
      assert Collides(s.executions, row) <==>
             ClaimedBefore(s.executions, row.key) || AttemptTaken(s.executions, row.incident, row.attempt);
    }
  }

  // ---------- replica rollback ----------

  /**
   With any disturbance since the scale, a rollback writes the recorded previous count only if the live
   count still is the one the action asked for; otherwise nothing at all changes. If it fails after that
   write, the count stays written and no row says so.
   */
  lemma RollbackIsCompareAndSet(s: Store, id: nat, maximum: nat, rejected: bool, lost: bool)
    requires id < |s.executions|
    ensures var t := Apply(s, RollingBack(id, maximum, rejected, lost));
            t != s ==>
              && s.executions[id].result.Some?
              && var r := s.executions[id].result.value;
                 && r.deployment in s.cluster && s.cluster[r.deployment].replicas == r.requested
                 && t.cluster == s.cluster[r.deployment := s.cluster[r.deployment].(replicas := r.previous)]
                 && 1 <= r.previous <= maximum
                 && (if lost then t == s.(cluster := t.cluster)
                     else t.executions[id].rolledBack && t.executions[|s.executions|].rollbackOf == Some(id))
  {
  }

  /**
   A rollback that failed after its write cannot be repeated: exactly if it changed the count, the next one
   finds another count than the action asked for and is refused as stale.
   */
  lemma LostRollbackIsStale(s: Store, id: nat, maximum: nat)
    requires id < |s.executions| && RollbackScale(s, id, maximum, false).Ok?
    ensures var t := Apply(s, RollingBack(id, maximum, false, true));
            var r := s.executions[id].result.value;
            && (RollbackScale(t, id, maximum, false) == Err(StaleActionTarget) <==> r.previous != r.requested)
            && (RollbackScale(t, id, maximum, false).Ok? <==> r.previous == r.requested)
  {
    RollbackShape(s, id, maximum, false);
  }

  /**
   An undisturbed scale-up followed by its rollback restores every replica count exactly when the
   count before was between one and the bound. From zero, or from above the bound (where scaling
   "up" in fact scales down), the rollback is refused and the scaled count stays.
   */
  lemma ScaleThenRollback(s: Store, p: nat, runbook: string, name: string, observed: nat, maximum: nat)
    requires Inv(s) && p in s.proposals && s.proposals[p].incident in s.incidents
    requires Scalable(s.incidents[s.proposals[p].incident].environment)
    requires OfIncident(s.executions, s.proposals[p].incident) == {}
             && !HasKey(s.executions, ClaimRow(s, p, runbook, 1).key)
    requires var scaled := ScaleUp(s, p, runbook, 1, "cloudward-staging", name, observed, maximum, false); scaled.Ok?
    ensures var scaled := ScaleUp(s, p, runbook, 1, "cloudward-staging", name, observed, maximum, false).value;
            var undone := RollbackScale(scaled, |s.executions|, maximum, false);
            && (undone.Ok? <==> 1 <= observed <= maximum)
            && (undone.Ok? ==> undone.value.cluster == s.cluster)
            && (observed > maximum ==> scaled.cluster[name].replicas == maximum < observed)
            && (observed == 0 ==> scaled.cluster[name].replicas == 1)
  {
    ClaimShape(s, p, runbook, 1);
    var scaled := ScaleUp(s, p, runbook, 1, "cloudward-staging", name, observed, maximum, false).value;
    var id := |s.executions|;
    var failed := scaled.executions[id];
    assert s.cluster[name].replicas == observed;
    if 1 <= observed <= maximum {
      var row := RollbackRow(failed, id);
      forall i | 0 <= i < |scaled.executions|
        ensures scaled.executions[i].key != row.key
                && !(scaled.executions[i].incident == row.incident && scaled.executions[i].attempt == row.attempt)
      {
        if i < id { assert i !in OfIncident(s.executions, s.proposals[p].incident); }
      }
      assert !Collides(scaled.executions, row);
      assert s.cluster[name := s.cluster[name].(replicas := observed + 1)] == scaled.cluster || observed == maximum;
    }
  }
}
