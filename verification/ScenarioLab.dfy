/**
 The life of one scenario execution: reconciliation by workers, stopping by operators, and the FinOps
 jobs. Calls that quarantine commit in the middle, so another call may run before they finish.
 */
module ScenarioLab {
  import opened Results
  import opened IncidentStates

  datatype Kind = Reliability | Security | FinOps

  datatype Status = Pending | Running | Stopping | Succeeded | Failed | TimedOut | Cancelled

  predicate Over(s: Status) {
    s == Succeeded || s == Failed || s == TimedOut || s == Cancelled
  }

  /** The containment status of the event a security execution waits for. */
  datatype Containment =
    | NotProposed
    | Proposed
    | ApprovalPending
    | Applying
    | Contained
    | VerificationFailed
    | Removing
    | Removed

  /** A call into the quarantine service: whether it commits inside, and whether it raises. */
  datatype Quarantining = Quarantining(commits: bool, raises: bool)

  /**
   What a reconciliation finds: the correlated incident and the event (for a security execution) before
   and after a removal, whether it must keep waiting for a rollout or a metric window, and how its calls go.
   */
  datatype Sight = Sight(incident: Option<IncidentState>, waits: bool, raises: bool, cleanupRaises: bool,
                         event: Option<Containment>, call: Quarantining, eventAfter: Containment,
                         incidentAfter: Option<IncidentState>, cleanup: Quarantining)

  /** How a call goes: whether it commits inside, and the status it then writes, or that it raises. */
  datatype Plan = Plan(commits: bool, raises: bool, write: Option<Status>)

  const NOTHING := Plan(false, false, None)

  predicate Ended(s: Option<IncidentState>) {
    s == Some(Blocked) || s == Some(Escalated)
  }

  /** Containment that has not begun, or is over, needs no removal. */
  predicate NeedsRemoval(c: Containment) {
    !(c == NotProposed || c == Proposed || c == ApprovalPending || c == Removed)
  }

  // ---------- reconciliation ----------

  function PlanWithCleanup(raises: bool, write: Status): Plan {
    if raises then Plan(false, true, None) else Plan(false, false, Some(write))
  }

  function ReconcileIncident(deadline: int, now: int, s: Sight): Plan {
    if now >= deadline then PlanWithCleanup(s.cleanupRaises, TimedOut)
    else if s.incident.None? || s.waits then NOTHING
    else if s.raises then Plan(false, true, None)
    else if s.incident == Some(Resolved) then PlanWithCleanup(s.cleanupRaises, Succeeded)
    else if Ended(s.incident) then PlanWithCleanup(s.cleanupRaises, Failed)
    else NOTHING
  }

  /** The end of a security reconciliation, once containment and incident have been looked at again. */
  function Conclude(committed: bool, c: Containment, incident: Option<IncidentState>, cleanup: Quarantining): Plan {
    if c == Removed && incident == Some(Resolved) then Plan(committed, false, Some(Succeeded))
    else if c == VerificationFailed || Ended(incident)
    then Plan(committed || (NeedsRemoval(c) && cleanup.commits), false, Some(Failed))
    else Plan(committed, false, None)
  }

  function ReconcileSecurity(deadline: int, now: int, s: Sight): Plan {
    match s.event
    case None => if now >= deadline then Plan(false, false, Some(TimedOut)) else NOTHING
    case Some(c) =>
      if now >= deadline then Plan(NeedsRemoval(c) && s.cleanup.commits, false, Some(TimedOut))
      else if c == Proposed || c == ApprovalPending then Plan(s.call.commits, s.call.raises, None)
      else if c == Contained then
        if s.call.raises then Plan(s.call.commits, true, None)
        else Conclude(s.call.commits, s.eventAfter, s.incidentAfter, s.cleanup)
      else Conclude(false, c, s.incident, s.cleanup)
  }

  function Reconcile(e: Execution, now: int, s: Sight): Plan {
    if Over(e.status) then NOTHING
    else if e.kind == Security then ReconcileSecurity(e.deadline, now, s)
    else ReconcileIncident(e.deadline, now, s)
  }

  // ---------- stopping ----------

  /** What an operator's stop finds: how its cleanup goes, and the tracked event with its removal. */
  datatype StopSight = StopSight(cleanupRaises: bool, event: Option<Containment>, call: Quarantining)

  function Stop(e: Execution, s: StopSight): Plan {
    if Over(e.status) then NOTHING
    else if s.cleanupRaises then Plan(false, true, None)
    else if e.kind == Security && s.event.Some? && NeedsRemoval(s.event.value)
    then if s.call.raises then Plan(s.call.commits, true, None) else Plan(s.call.commits, false, Some(Cancelled))
    else Plan(false, false, Some(Cancelled))
  }

  // ---------- the execution ----------

  datatype Execution = Execution(kind: Kind, status: Status, deadline: int)

  /** The stored execution, and the statuses that calls which committed inside are still going to write. */
  datatype Lab = Lab(execution: Execution, inFlight: seq<Status>)

  datatype Step =
    | ReconcileCall(now: int, sight: Sight)
    | StopCall(stop: StopSight)
    | FinOpsRun(succeeds: bool)
    | FinOpsFail
    | Resume(i: nat)

  /** A call up to its end, or to the commit inside it; a stop has by then marked the execution. */
  function Begin(lab: Lab, p: Plan, stop: bool): Lab {
    var marked := if stop && !Over(lab.execution.status) then Stopping else lab.execution.status;
    if p.commits then
      Lab(lab.execution.(status := marked),
          if !p.raises && p.write.Some? then lab.inFlight + [p.write.value] else lab.inFlight)
    else if p.raises || p.write.None? then lab
    else lab.(execution := lab.execution.(status := p.write.value))
  }

  function Apply(lab: Lab, s: Step): Lab {
    var e := lab.execution;
    match s
    case ReconcileCall(now, sight) => Begin(lab, Reconcile(e, now, sight), false)
    case StopCall(stop) => Begin(lab, Stop(e, stop), true)
    case FinOpsRun(succeeds) =>
      if e.kind == FinOps && (e.status == Pending || e.status == Running) && succeeds
      then lab.(execution := e.(status := Succeeded)) else lab
    case FinOpsFail =>
      if e.kind == FinOps && (e.status == Pending || e.status == Running)
      then lab.(execution := e.(status := Failed)) else lab
    case Resume(i) =>
      if i < |lab.inFlight|
      then Lab(e.(status := lab.inFlight[i]), lab.inFlight[..i] + lab.inFlight[i + 1..]) else lab
  }

  function Run(lab: Lab, steps: seq<Step>): Lab {
    if steps == [] then lab else Apply(Run(lab, steps[..|steps| - 1]), steps[|steps| - 1])
  }

  // ---------- terminal statuses ----------

  /** The one way a terminal status is overwritten: by a call that committed inside and now writes another status. */
  lemma TerminalChangesOnlyOnResume(lab: Lab, s: Step)
    requires Over(lab.execution.status)
    ensures Apply(lab, s).execution.status != lab.execution.status
       <==> s.Resume? && s.i < |lab.inFlight| && lab.inFlight[s.i] != lab.execution.status
  {
  }

  /** Once the execution is over and no call is in flight, no run changes it again. */
  lemma {:induction false} TerminalIsFinal(lab: Lab, steps: seq<Step>)
    requires Over(lab.execution.status) && lab.inFlight == []
    ensures Run(lab, steps) == lab
  {
    if steps != [] { TerminalIsFinal(lab, steps[..|steps| - 1]); }
  }

  /** No call in flight is going to write another status than the stored one. */
  ghost predicate Agreed(lab: Lab) {
    forall i :: 0 <= i < |lab.inFlight| ==> lab.inFlight[i] == lab.execution.status
  }

  predicate KeepsStatus(lab: Lab, steps: seq<Step>) {
    Run(lab, steps).execution.status == lab.execution.status
  }

  lemma {:induction false} AgreedStays(lab: Lab, steps: seq<Step>)
    requires Over(lab.execution.status) && Agreed(lab)
    ensures Run(lab, steps).execution == lab.execution && Agreed(Run(lab, steps))
  {
    if steps != [] { AgreedStays(lab, steps[..|steps| - 1]); }
  }

  /** Exactly when a terminal status is final: when every call in flight is going to write that very status. */
  lemma FinalExactlyWhenAgreed(lab: Lab)
    requires Over(lab.execution.status)
    ensures (forall steps :: KeepsStatus(lab, steps)) <==> Agreed(lab)
  {
    if Agreed(lab) {
      forall steps ensures KeepsStatus(lab, steps) { AgreedStays(lab, steps); }
    } else {
      var i: nat :| i < |lab.inFlight| && lab.inFlight[i] != lab.execution.status;
      var steps: seq<Step> := [Resume(i)];
      assert steps[..|steps| - 1] == [];
      assert Run(lab, steps) == Apply(lab, steps[0]);
      assert !KeepsStatus(lab, steps);
    }
  }

  ghost predicate Quiet(lab: Lab) {
    && (lab.execution.kind != Security ==> lab.inFlight == [])
    && (forall i :: 0 <= i < |lab.inFlight| ==> Over(lab.inFlight[i]))
  }

  lemma QuietStep(lab: Lab, s: Step)
    requires Quiet(lab)
    ensures Quiet(Apply(lab, s)) && Apply(lab, s).execution.kind == lab.execution.kind
    ensures Over(lab.execution.status) ==> Over(Apply(lab, s).execution.status)
  {
  }

  /**
   In every run a terminal execution stays terminal, and one that does not quarantine keeps its very
   status.
   */
  lemma {:induction false} TerminalStaysTerminal(lab: Lab, steps: seq<Step>)
    requires Quiet(lab)
    ensures Quiet(Run(lab, steps)) && Run(lab, steps).execution.kind == lab.execution.kind
    ensures Over(lab.execution.status) ==> Over(Run(lab, steps).execution.status)
    ensures Over(lab.execution.status) && lab.execution.kind != Security ==> Run(lab, steps) == lab
  {
    if steps != [] {
      TerminalStaysTerminal(lab, steps[..|steps| - 1]);
      QuietStep(Run(lab, steps[..|steps| - 1]), steps[|steps| - 1]);
    }
    if Over(lab.execution.status) && lab.execution.kind != Security { TerminalIsFinal(lab, steps); }
  }

  /** Which does happen to a security execution: a stop slips in while a reconciliation removes the quarantine. */
  lemma StopIsOvertaken(deadline: int, now: int)
    requires now < deadline
    ensures var start := Lab(Execution(Security, Running, deadline), []);
            var sight := Sight(Some(Verifying), false, false, false, Some(Contained), Quarantining(true, false),
                               Removed, Some(Resolved), Quarantining(false, false));
            var stop := StopSight(false, Some(Removed), Quarantining(false, false));
            && Run(start, [ReconcileCall(now, sight), StopCall(stop)]).execution.status == Cancelled
            && Run(start, [ReconcileCall(now, sight), StopCall(stop), Resume(0)]).execution.status == Succeeded
  {
    var start := Lab(Execution(Security, Running, deadline), []);
    var sight := Sight(Some(Verifying), false, false, false, Some(Contained), Quarantining(true, false),
                       Removed, Some(Resolved), Quarantining(false, false));
    var stop := StopSight(false, Some(Removed), Quarantining(false, false));
    var a, b, c := ReconcileCall(now, sight), StopCall(stop), Resume(0);
    assert [a][..0] == [];
    assert [a, b][..1] == [a];
    assert [a, b, c][..2] == [a, b];
    assert Run(start, [a]) == Lab(start.execution, [Succeeded]);
    assert Run(start, [a, b]) == Lab(start.execution.(status := Cancelled), [Succeeded]);
  }

  // ---------- success and deadlines ----------

  /** A reconciliation that has seen the incident resolved, and the containment of a security event removed. */
  predicate SawItThrough(kind: Kind, s: Step) {
    s.ReconcileCall? &&
    if kind == Security
    then (s.sight.event == Some(Removed) && s.sight.incident == Some(Resolved))
         || (s.sight.event == Some(Contained) && s.sight.eventAfter == Removed
             && s.sight.incidentAfter == Some(Resolved))
    else s.sight.incident == Some(Resolved)
  }

  lemma SuccessNeedsSight(lab: Lab, s: Step)
    requires lab.execution.kind != FinOps
    ensures var after := Apply(lab, s);
            && (after.execution.status == Succeeded ==>
                  lab.execution.status == Succeeded || Succeeded in lab.inFlight || SawItThrough(lab.execution.kind, s))
            && (Succeeded in after.inFlight ==> Succeeded in lab.inFlight || SawItThrough(lab.execution.kind, s))
  {
  }

  /** A reliability or security execution that has succeeded did so over a reconciliation that saw it through. */
  lemma {:induction false} SuccessWasSeen(lab: Lab, steps: seq<Step>)
    requires lab.execution.kind != FinOps && Quiet(lab)
    requires lab.execution.status != Succeeded && lab.inFlight == []
    ensures var after := Run(lab, steps);
            after.execution.status == Succeeded || Succeeded in after.inFlight ==>
              exists i :: 0 <= i < |steps| && SawItThrough(lab.execution.kind, steps[i])
  {
    if steps != [] {
      var earlier, s := steps[..|steps| - 1], steps[|steps| - 1];
      SuccessWasSeen(lab, earlier);
      TerminalStaysTerminal(lab, earlier);
      SuccessNeedsSight(Run(lab, earlier), s);
      if i :| 0 <= i < |earlier| && SawItThrough(lab.execution.kind, earlier[i]) {
        assert steps[i] == earlier[i];
      }
    }
  }

  /**
   A reconciliation that returns at or after the deadline has ended the execution: at once, or by the
   write it makes after committing inside. It raises only where the cleanup of a reliability resource does.
   */
  lemma DeadlineEnds(lab: Lab, now: int, s: Sight)
    requires now >= lab.execution.deadline
    ensures var p := Reconcile(lab.execution, now, s);
            var after := Apply(lab, ReconcileCall(now, s));
            && (p.raises <==> !Over(lab.execution.status) && lab.execution.kind != Security && s.cleanupRaises)
            && (!p.raises ==> Over(after.execution.status)
                              || (p.commits && after.inFlight == lab.inFlight + [TimedOut]
                                  && Apply(after, Resume(|lab.inFlight|)).execution.status == TimedOut))
  {
  }

  // ---------- what one call comes to ----------

  /** The call writes a status at once, or leaves it to be written because it has committed inside. */
  predicate Writes(lab: Lab, after: Lab, committed: bool, status: Status) {
    if committed then after == lab.(inFlight := lab.inFlight + [status])
    else after == lab.(execution := lab.execution.(status := status))
  }

  /** The reconciliation of a reliability or FinOps execution neither waits nor raises. */
  predicate GoesThrough(s: Sight) {
    !s.waits && !s.raises && !s.cleanupRaises
  }

  /**
   A reconciliation of an execution that is not over, and not a security one: before the deadline it succeeds
   exactly if it sees the incident resolved, and fails exactly if it sees it blocked or escalated, as long as
   nothing waits or raises; from the deadline on it times out unless cleanup raises. Otherwise nothing changes.
   */
  lemma ReliabilityComesTo(lab: Lab, now: int, s: Sight)
    requires !Over(lab.execution.status) && lab.execution.kind != Security
    ensures var after, e := Apply(lab, ReconcileCall(now, s)), lab.execution;
            var sees := now < e.deadline && GoesThrough(s);
            && (after.execution.status == Succeeded <==> sees && s.incident == Some(Resolved))
            && (after.execution.status == Failed <==>
                sees && (s.incident == Some(Blocked) || s.incident == Some(Escalated)))
            && (after.execution.status == TimedOut <==> now >= e.deadline && !s.cleanupRaises)
            && (after.execution.status !in {Succeeded, Failed, TimedOut} ==> after == lab)
            && after == lab.(execution := e.(status := after.execution.status))
  {
  }

  /**
   What a security reconciliation before the deadline goes by: the event and the incident, looked at again
   after a removal.
   */
  function Looked(s: Sight): (Option<Containment>, Option<IncidentState>) {
    if s.event == Some(Contained) then (Some(s.eventAfter), s.incidentAfter) else (s.event, s.incident)
  }

  /** It makes a call that raises, or one that only applies the quarantine. */
  predicate OnlyCalls(s: Sight) {
    (s.event == Some(Contained) && s.call.raises) || s.event == Some(Proposed) || s.event == Some(ApprovalPending)
  }

  /**
   The same for a security execution. It succeeds exactly if it saw it through, and fails exactly if the
   verification failed or the incident was blocked or escalated; a write is left in flight if the call has
   committed inside, for a failure also if removing what is left did. From the deadline on it times out.
   */
  lemma SecurityComesTo(lab: Lab, now: int, s: Sight)
    requires !Over(lab.execution.status) && lab.execution.kind == Security
    ensures var after, (c, incident) := Apply(lab, ReconcileCall(now, s)), Looked(s);
            var removed := s.event == Some(Contained) && s.call.commits;
            var cleaned := s.cleanup.commits && c.Some? && NeedsRemoval(c.value);
            var fails := c == Some(VerificationFailed)
              || (c.Some? && (incident == Some(Blocked) || incident == Some(Escalated)));
            if now >= lab.execution.deadline
            then Writes(lab, after, s.event.Some? && NeedsRemoval(s.event.value) && s.cleanup.commits, TimedOut)
            else if OnlyCalls(s) then after == lab
            else if SawItThrough(Security, ReconcileCall(now, s)) then Writes(lab, after, removed, Succeeded)
            else if fails then Writes(lab, after, removed || cleaned, Failed)
            else after == lab
  {
  }

  /**
   A stop of an execution that is not over cancels it, at once or after a removal that commits inside, unless
   something raises.
   */
  lemma StopComesTo(lab: Lab, s: StopSight)
    requires !Over(lab.execution.status)
    ensures var after := Apply(lab, StopCall(s));
            var removes := lab.execution.kind == Security && s.event.Some? && NeedsRemoval(s.event.value);
            var stopping := lab.(execution := lab.execution.(status := Stopping));
            if s.cleanupRaises then after == lab
            else if !removes then Writes(lab, after, false, Cancelled)
            else if s.call.raises then after == if s.call.commits then stopping else lab
            else if s.call.commits then Writes(stopping, after, true, Cancelled)
            else Writes(lab, after, false, Cancelled)
  {
  }

  /** What the FinOps jobs write. */
  lemma FinOpsComesTo(lab: Lab, succeeds: bool)
    ensures var waits := lab.execution.kind == FinOps
            && (lab.execution.status == Pending || lab.execution.status == Running);
            && (if waits && succeeds then Writes(lab, Apply(lab, FinOpsRun(succeeds)), false, Succeeded)
                else Apply(lab, FinOpsRun(succeeds)) == lab)
            && (if waits then Writes(lab, Apply(lab, FinOpsFail), false, Failed) else Apply(lab, FinOpsFail) == lab)
  {
  }

  // ---------- the endpoints ----------

  class ScenarioExecution {
    const kind: Kind
    const deadline: int
    var status: Status
    /** The writes of calls that have committed inside and not yet finished. */
    ghost var inFlight: seq<Status>

    constructor (kind: Kind, deadline: int)
      ensures Snapshot() == Lab(Execution(kind, Pending, deadline), [])
    {
      this.kind, this.deadline, status, inFlight := kind, deadline, Pending, [];
    }

    ghost function Snapshot(): Lab
      reads this
    {
      Lab(Execution(kind, status, deadline), inFlight)
    }

    /** A stop up to its end or the commit inside it. It answers what it still has to write. */
    method StopExecution(s: StopSight) returns (later: Option<Status>)
      modifies this
      ensures Snapshot() == Apply(old(Snapshot()), StopCall(s))
      ensures later.Some? ==> inFlight == old(inFlight) + [later.value]
    {
      later := None;
      if Over(status) { return; }
      if s.cleanupRaises { return; }
      if kind == Security && s.event.Some? && NeedsRemoval(s.event.value) {
        if s.call.commits {
          status := Stopping;
          if !s.call.raises {
            later := Some(Cancelled);
            inFlight := inFlight + [Cancelled];
          }
          return;
        }
        if s.call.raises { return; }
      }
      status := Cancelled;
    }

    /** A reconciliation up to its end or the commit inside it. */
    method ReconcileExecution(now: int, s: Sight) returns (later: Option<Status>)
      modifies this
      ensures Snapshot() == Apply(old(Snapshot()), ReconcileCall(now, s))
      ensures later.Some? ==> inFlight == old(inFlight) + [later.value]
    {
      later := None;
      if Over(status) { return; }
      if kind == Security {
        later := ReconcileEvent(now, s);
        return;
      }
      if now >= deadline {
        if !s.cleanupRaises { status := TimedOut; }
        return;
      }
      if s.incident.None? || s.waits || s.raises { return; }
      if s.incident.value == Resolved {
        if !s.cleanupRaises { status := Succeeded; }
      } else if s.incident.value == Blocked || s.incident.value == Escalated {
        if !s.cleanupRaises { status := Failed; }
      }
    }

    /** The reconciliation of a security execution. */
    method ReconcileEvent(now: int, s: Sight) returns (later: Option<Status>)
      requires kind == Security && !Over(status)
      modifies this
      ensures Snapshot() == Apply(old(Snapshot()), ReconcileCall(now, s))
      ensures later.Some? ==> inFlight == old(inFlight) + [later.value]
    {
      later := None;
      if s.event.None? {
        if now >= deadline { status := TimedOut; }
        return;
      }
      var containment, incident, committed := s.event.value, s.incident, false;
      if now >= deadline {
        later := Write(NeedsRemoval(containment) && s.cleanup.commits, TimedOut);
        return;
      }
      if containment == Proposed || containment == ApprovalPending { return; }
      if containment == Contained {
        if s.call.raises { return; }
        containment, incident, committed := s.eventAfter, s.incidentAfter, s.call.commits;
      }
      if containment == Removed && incident == Some(Resolved) {
        later := Write(committed, Succeeded);
      } else if containment == VerificationFailed || incident == Some(Blocked) || incident == Some(Escalated) {
        later := Write(committed || (NeedsRemoval(containment) && s.cleanup.commits), Failed);
      }
    }

    /** Writes a status, or leaves it to be written when the call has committed inside. */
    method Write(committed: bool, target: Status) returns (later: Option<Status>)
      modifies this
      ensures later == if committed then Some(target) else None
      ensures status == if committed then old(status) else target
      ensures inFlight == if committed then old(inFlight) + [target] else old(inFlight)
    {
      if committed {
        inFlight := inFlight + [target];
        return Some(target);
      }
      status := target;
      return None;
    }

    method RunFinOps(succeeds: bool)
      modifies this
      ensures Snapshot() == Apply(old(Snapshot()), FinOpsRun(succeeds))
    {
      if kind == FinOps && (status == Pending || status == Running) && succeeds { status := Succeeded; }
    }

    method FailFinOps()
      modifies this
      ensures Snapshot() == Apply(old(Snapshot()), FinOpsFail)
    {
      if kind == FinOps && (status == Pending || status == Running) { status := Failed; }
    }

    /** The rest of a call that committed inside. */
    method Finish(i: nat, write: Status)
      requires i < |inFlight| && inFlight[i] == write
      modifies this
      ensures Snapshot() == Apply(old(Snapshot()), Resume(i))
    {
      status := write;
      inFlight := inFlight[..i] + inFlight[i + 1..];
    }
  }
}
