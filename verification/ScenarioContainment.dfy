/**
 A security scenario together with the containment of its event: what reconciling and stopping see and do
 is what the quarantine service holds and does, while operators use that service too.
 */
module ScenarioContainment {
  import opened Results
  import opened IncidentStates
  import ScenarioLab
  import QuarantineService

  datatype Joint = Joint(lab: ScenarioLab.Lab, db: QuarantineService.Db)

  /** The status the event shows: its newest record's, or where ingestion left it before there was any. */
  function EventStatus(db: QuarantineService.Db, ingested: ScenarioLab.Containment): ScenarioLab.Containment {
    match QuarantineService.Latest(db)
    case None =>
      if ingested == ScenarioLab.Proposed || ingested == ScenarioLab.ApprovalPending then ingested
      else ScenarioLab.NotProposed
    case Some(r) =>
      match r.status
      case Applying => ScenarioLab.Applying
      case Contained => ScenarioLab.Contained
      case VerificationFailed => ScenarioLab.VerificationFailed
      case Removing => ScenarioLab.Removing
      case Removed => ScenarioLab.Removed
  }

  /**
   One call of a worker or an operator: the time, whether the event has arrived and where ingestion left it,
   what the outside answers to its first and second call of the service, whether those commit inside, whether
   what they leave uncommitted on an error is kept, and what others do at the service between the commit inside
   a removal and the second look at event and incident.
   */
  datatype Visit = Visit(now: int, arrived: bool, ingested: ScenarioLab.Containment,
                         first: QuarantineService.Answers, second: QuarantineService.Answers,
                         commits: bool, cleanupCommits: bool, keeps: bool, between: seq<QuarantineService.Step>)

  /** A removal that swallows its error. */
  function Cleaned(db: QuarantineService.Db, c: ScenarioLab.Containment, a: QuarantineService.Answers, keeps: bool)
    : QuarantineService.Db
  {
    if ScenarioLab.NeedsRemoval(c)
    then QuarantineService.Settled(db, QuarantineService.RemoveOnce(db, a), keeps) else db
  }

  /** The service call a reconciliation before the deadline makes, if any. */
  function Called(db: QuarantineService.Db, c: ScenarioLab.Containment, a: QuarantineService.Answers)
    : QuarantineService.Served
  {
    if c == ScenarioLab.Proposed || c == ScenarioLab.ApprovalPending then QuarantineService.ApplyOnce(db, a)
    else if c == ScenarioLab.Contained then QuarantineService.RemoveOnce(db, a)
    else QuarantineService.Served(db, Ok(QuarantineService.Removed))
  }

  /** What a reconciliation sees, read off the service. */
  function SightOf(db: QuarantineService.Db, v: Visit): ScenarioLab.Sight {
    var c := EventStatus(db, v.ingested);
    var served := Called(db, c, v.first);
    var looked := QuarantineService.Run(served.db, v.between);
    ScenarioLab.Sight(
      Some(db.incident), false, false, false,
      if v.arrived then Some(c) else None,
      ScenarioLab.Quarantining(v.commits, served.outcome.Err?),
      EventStatus(looked, v.ingested), Some(looked.incident),
      ScenarioLab.Quarantining(v.cleanupCommits, false))
  }

  /** What a reconciliation leaves of the service's rows. */
  function Reconciled(j: Joint, v: Visit): QuarantineService.Db {
    var c := EventStatus(j.db, v.ingested);
    if ScenarioLab.Over(j.lab.execution.status) || !v.arrived then j.db
    else if v.now >= j.lab.execution.deadline then Cleaned(j.db, c, v.second, v.keeps)
    else
      var served := Called(j.db, c, v.first);
      var db := QuarantineService.Settled(j.db, served, v.keeps);
      if served.outcome.Err? || c == ScenarioLab.Proposed || c == ScenarioLab.ApprovalPending then db
      else
        var looked := QuarantineService.Run(db, v.between);
        if ScenarioLab.Conclude(false, EventStatus(looked, v.ingested), Some(looked.incident),
                                ScenarioLab.Quarantining(false, false)).write == Some(ScenarioLab.Failed)
        then Cleaned(looked, EventStatus(looked, v.ingested), v.second, v.keeps)
        else looked
  }

  datatype Step =
    | Reconcile(v: Visit)
    | Stop(v: Visit)
    | Finish(i: nat)
    | Elsewhere(s: QuarantineService.Step)

  function Next(j: Joint, s: Step): Joint {
    match s
    case Reconcile(v) =>
      Joint(ScenarioLab.Apply(j.lab, ScenarioLab.ReconcileCall(v.now, SightOf(j.db, v))), Reconciled(j, v))
    case Stop(v) =>
      var c := EventStatus(j.db, v.ingested);
      var served := QuarantineService.RemoveOnce(j.db, v.first);
      var sight := ScenarioLab.StopSight(false, if v.arrived then Some(c) else None,
                                         ScenarioLab.Quarantining(v.commits, served.outcome.Err?));
      Joint(ScenarioLab.Apply(j.lab, ScenarioLab.StopCall(sight)),
            if ScenarioLab.Over(j.lab.execution.status) || !v.arrived then j.db else Cleaned(j.db, c, v.first, v.keeps))
    case Finish(i) => j.(lab := ScenarioLab.Apply(j.lab, ScenarioLab.Resume(i)))
    case Elsewhere(q) => j.(db := QuarantineService.Next(j.db, q))
  }

  function Run(j: Joint, steps: seq<Step>): Joint {
    if steps == [] then j else Next(Run(j, steps[..|steps| - 1]), steps[|steps| - 1])
  }

  // ---------- what a run keeps ----------

  /** Some record of the event has been removed. */
  ghost predicate Released(db: QuarantineService.Db) {
    exists i :: 0 <= i < |db.records| && db.records[i].status == QuarantineService.Removed
  }

  /** A removed record is never written again, so whatever happens it stays. */
  lemma WritingStaysReleased(db: QuarantineService.Db, r: QuarantineService.Record)
    requires Released(db)
    ensures Released(QuarantineService.WithRecord(db, r))
  {
    var i :| 0 <= i < |db.records| && db.records[i].status == QuarantineService.Removed;
    assert QuarantineService.WithRecord(db, r).records[i] == db.records[i];
  }

  lemma ApplyStaysReleased(db: QuarantineService.Db, a: QuarantineService.Answers)
    requires Released(db)
    ensures Released(QuarantineService.ApplyOnce(db, a).db)
  {
    if QuarantineService.Refused(db, a).None? {
      var live := QuarantineService.Live(db);
      var evidence := if live.Some? then live.value.evidence else QuarantineService.NotVerified;
      WritingStaysReleased(db, QuarantineService.Record(QuarantineService.Applying, evidence));
      var marked := QuarantineService.Marked(db);
      assert Released(marked);
      var (result, state) := QuarantineService.Containment(marked, marked.incident, a);
      var outcome :=
        if result.Ok?
        then QuarantineService.Record(QuarantineService.Contained, QuarantineService.ContainmentSeen(result.value))
        else QuarantineService.Record(QuarantineService.VerificationFailed, QuarantineService.FailedWith(result.error));
      WritingStaysReleased(marked.(incident := state), outcome);
    }
  }

  lemma RemoveStaysReleased(db: QuarantineService.Db, a: QuarantineService.Answers)
    requires Released(db)
    ensures Released(QuarantineService.RemoveOnce(db, a).db)
  {
    if QuarantineService.Live(db).Some? {
      var record := QuarantineService.Live(db).value;
      WritingStaysReleased(db, record.(status := QuarantineService.Removing));
      var marked := QuarantineService.WithRecord(db, record.(status := QuarantineService.Removing));
      var result := QuarantineService.Released(db, a);
      var outcome :=
        if result.Ok?
        then QuarantineService.Record(QuarantineService.Removed, QuarantineService.ReleaseSeen(result.value))
        else QuarantineService.Record(QuarantineService.VerificationFailed, record.evidence);
      WritingStaysReleased(marked, outcome);
    }
  }

  /** Two stores of the service, the second reached from the first by its calls. */
  ghost predicate Follows(before: QuarantineService.Db, after: QuarantineService.Db) {
    && (QuarantineService.Sound(before) ==> QuarantineService.Sound(after))
    && (Released(before) ==> Released(after))
    && after.target == before.target
  }

  lemma ApplyFollows(db: QuarantineService.Db, a: QuarantineService.Answers, keeps: bool)
    ensures Follows(db, QuarantineService.Settled(db, QuarantineService.ApplyOnce(db, a), keeps))
  {
    if QuarantineService.Sound(db) { QuarantineService.ApplySound(db, a); }
    if Released(db) { ApplyStaysReleased(db, a); }
  }

  lemma RemoveFollows(db: QuarantineService.Db, a: QuarantineService.Answers, keeps: bool)
    ensures Follows(db, QuarantineService.Settled(db, QuarantineService.RemoveOnce(db, a), keeps))
  {
    if QuarantineService.Sound(db) { QuarantineService.RemoveSound(db, a); }
    if Released(db) { RemoveStaysReleased(db, a); }
  }

  lemma ElsewhereFollows(db: QuarantineService.Db, s: QuarantineService.Step)
    ensures Follows(db, QuarantineService.Next(db, s))
  {
    match s
    case CallApply(a, commits) => ApplyFollows(db, a, commits);
    case CallRemove(a, commits) => RemoveFollows(db, a, commits);
    case _ => if QuarantineService.Sound(db) { QuarantineService.NextSound(db, s); }
  }

  lemma ReconciledFollows(j: Joint, v: Visit)
    ensures Follows(j.db, Reconciled(j, v))
  {
    var c := EventStatus(j.db, v.ingested);
    RemoveFollows(j.db, v.second, v.keeps);
    ApplyFollows(j.db, v.first, v.keeps);
    RemoveFollows(j.db, v.first, v.keeps);
    var db := QuarantineService.Settled(j.db, Called(j.db, c, v.first), v.keeps);
    assert Follows(j.db, db);
    RunFollows(db, v.between);
    RemoveFollows(QuarantineService.Run(db, v.between), v.second, v.keeps);
  }

  lemma {:induction false} RunFollows(db: QuarantineService.Db, steps: seq<QuarantineService.Step>)
    ensures Follows(db, QuarantineService.Run(db, steps))
  {
    if steps != [] {
      RunFollows(db, steps[..|steps| - 1]);
      ElsewhereFollows(QuarantineService.Run(db, steps[..|steps| - 1]), steps[|steps| - 1]);
    }
  }

  /** A success stored, or still to be written, rests on a removed record. */
  ghost predicate SuccessRests(j: Joint) {
    && j.lab.execution.kind == ScenarioLab.Security && QuarantineService.Sound(j.db)
    && (j.lab.execution.status == ScenarioLab.Succeeded || ScenarioLab.Succeeded in j.lab.inFlight ==> Released(j.db))
  }

  /** When a security reconciliation writes SUCCEEDED. */
  lemma PlannedSuccess(e: ScenarioLab.Execution, now: int, s: ScenarioLab.Sight)
    requires e.kind == ScenarioLab.Security
    requires ScenarioLab.Reconcile(e, now, s).write == Some(ScenarioLab.Succeeded)
    ensures !ScenarioLab.Over(e.status) && now < e.deadline
    ensures ScenarioLab.SawItThrough(ScenarioLab.Security, ScenarioLab.ReconcileCall(now, s))
    ensures s.event == Some(ScenarioLab.Contained) ==> !s.call.raises
  {
  }

  /** A call brings in SUCCEEDED only by writing it. */
  lemma BeginAdds(lab: ScenarioLab.Lab, p: ScenarioLab.Plan, stop: bool)
    ensures var after := ScenarioLab.Begin(lab, p, stop);
            && after.execution.kind == lab.execution.kind
            && (after.execution.status == ScenarioLab.Succeeded || ScenarioLab.Succeeded in after.inFlight ==>
                  || lab.execution.status == ScenarioLab.Succeeded || ScenarioLab.Succeeded in lab.inFlight
                  || p.write == Some(ScenarioLab.Succeeded))
  {
  }

  /** A reconciliation that writes SUCCEEDED leaves a removed record. */
  lemma SuccessIsReleased(j: Joint, v: Visit)
    requires j.lab.execution.kind == ScenarioLab.Security
    requires ScenarioLab.Reconcile(j.lab.execution, v.now, SightOf(j.db, v)).write == Some(ScenarioLab.Succeeded)
    ensures Released(Reconciled(j, v))
  {
    PlannedSuccess(j.lab.execution, v.now, SightOf(j.db, v));
    var c := EventStatus(j.db, v.ingested);
    var served := Called(j.db, c, v.first);
    if c == ScenarioLab.Removed {
      assert j.db.records[|j.db.records| - 1].status == QuarantineService.Removed;
      assert Released(j.db);
      ReconciledFollows(j, v);
    } else {
      var looked := QuarantineService.Run(served.db, v.between);
      assert QuarantineService.Latest(looked).Some?
        && QuarantineService.Latest(looked).value.status == QuarantineService.Removed;
      assert looked.records[|looked.records| - 1].status == QuarantineService.Removed;
      assert Released(looked);
      RemoveFollows(looked, v.second, v.keeps);
    }
  }

  lemma NextRests(j: Joint, s: Step)
    requires SuccessRests(j)
    ensures SuccessRests(Next(j, s)) && Next(j, s).db.target == j.db.target
  {
    match s
    case Reconcile(v) =>
      var plan := ScenarioLab.Reconcile(j.lab.execution, v.now, SightOf(j.db, v));
      BeginAdds(j.lab, plan, false);
      ReconciledFollows(j, v);
      if plan.write == Some(ScenarioLab.Succeeded) { SuccessIsReleased(j, v); }
    case Stop(v) =>
      var c := EventStatus(j.db, v.ingested);
      var served := QuarantineService.RemoveOnce(j.db, v.first);
      var sight := ScenarioLab.StopSight(false, if v.arrived then Some(c) else None,
                                         ScenarioLab.Quarantining(v.commits, served.outcome.Err?));
      BeginAdds(j.lab, ScenarioLab.Stop(j.lab.execution, sight), true);
      RemoveFollows(j.db, v.first, v.keeps);
    case Finish(i) =>
    case Elsewhere(q) => ElsewhereFollows(j.db, q);
  }

  /**
   A security scenario that has SUCCEEDED, whatever operators did to it and to its quarantine meanwhile, has
   a removed record whose stored verification passed: policy gone, label gone, egress restored.
   */
  lemma {:induction false} SuccessMeansReleased(j: Joint, steps: seq<Step>)
    requires SuccessRests(j)
    ensures SuccessRests(Run(j, steps)) && Run(j, steps).db.target == j.db.target
    ensures Run(j, steps).lab.execution.status == ScenarioLab.Succeeded ==>
              exists i :: 0 <= i < |Run(j, steps).db.records| && Proven(j.db.target, Run(j, steps).db.records[i])
  {
    if steps != [] {
      SuccessMeansReleased(j, steps[..|steps| - 1]);
      NextRests(Run(j, steps[..|steps| - 1]), steps[|steps| - 1]);
    }
    var db := Run(j, steps).db;
    if Released(db) {
      var i :| 0 <= i < |db.records| && db.records[i].status == QuarantineService.Removed;
      assert QuarantineService.RecordSound(db.target, db.records[i]);
      assert Proven(j.db.target, db.records[i]);
    }
  }

  /** A removed record with the verification that removed it. */
  ghost predicate Proven(t: QuarantineService.Target, r: QuarantineService.Record) {
    && r.status == QuarantineService.Removed && r.evidence.ReleaseSeen?
    && QuarantineService.ReleasePasses(t, r.evidence.p)
  }

  /** The event's quarantine is in place, and removing it succeeds. */
  ghost predicate Removes(db: QuarantineService.Db, a: QuarantineService.Answers) {
    && QuarantineService.Live(db).Some? && QuarantineService.Live(db).value.status == QuarantineService.Contained
    && a.demoPod.Ok? && a.allowed && QuarantineService.Greatest(db.executions) < 3 && a.call.Ok?
    && QuarantineService.SomePollPasses(db.target, true, a.polls)
  }

  /**
   A reconciliation of a contained event before the deadline, undisturbed, whose removal succeeds and whose
   incident was verifying or resolved, succeeds: at once, or by the write it leaves in flight.
   */
  lemma RemovalSucceeds(j: Joint, v: Visit)
    requires j.lab.execution.kind == ScenarioLab.Security && !ScenarioLab.Over(j.lab.execution.status)
    requires v.arrived && v.now < j.lab.execution.deadline && v.between == []
    requires Removes(j.db, v.first) && (j.db.incident == Verifying || j.db.incident == Resolved)
    ensures ScenarioLab.Writes(j.lab, Next(j, Reconcile(v)).lab, v.commits, ScenarioLab.Succeeded)
    ensures Released(Next(j, Reconcile(v)).db)
  {
    QuarantineService.RemovedExactlyWhenVerified(j.db, v.first);
    var sight := SightOf(j.db, v);
    assert sight.event == Some(ScenarioLab.Contained) && sight.eventAfter == ScenarioLab.Removed;
    assert sight.incidentAfter == Some(Resolved) && !sight.call.raises;
    ScenarioLab.SecurityComesTo(j.lab, v.now, sight);
    SuccessIsReleased(j, v);
  }

  /** A proposed event that has no record yet is quarantined: what the service is left with is what its apply leaves. */
  lemma ProposalIsApplied(j: Joint, v: Visit)
    requires j.lab.execution.kind == ScenarioLab.Security && !ScenarioLab.Over(j.lab.execution.status)
    requires v.arrived && v.now < j.lab.execution.deadline && j.db.records == []
    requires v.ingested == ScenarioLab.Proposed || v.ingested == ScenarioLab.ApprovalPending
    requires QuarantineService.MayApply(j.db, v.first) && QuarantineService.Greatest(j.db.executions) < 3
    ensures Next(j, Reconcile(v)).lab == j.lab
    ensures var db := Next(j, Reconcile(v)).db;
            |db.records| == 1
            && (db.records[0].status == QuarantineService.Contained <==> QuarantineService.Contains(j.db, v.first))
  {
    QuarantineService.AppliedExactly(j.db, v.first);
    ScenarioLab.SecurityComesTo(j.lab, v.now, SightOf(j.db, v));
  }

  /** A security scenario as it starts: running, its event without a record. */
  function Started(deadline: int, target: QuarantineService.Target, incident: IncidentState): Joint {
    Joint(ScenarioLab.Lab(ScenarioLab.Execution(ScenarioLab.Security, ScenarioLab.Running, deadline), []),
          QuarantineService.Db(target, incident, [], []))
  }

  /** A scenario that has just started rests on nothing yet. */
  lemma StartRests(deadline: int, target: QuarantineService.Target, incident: IncidentState)
    ensures SuccessRests(Started(deadline, target, incident))
  {
  }

  /** From its start on: whatever happens, a security scenario that has SUCCEEDED has released what it contained. */
  lemma StartedScenarioReleases(deadline: int, target: QuarantineService.Target, incident: IncidentState,
                                steps: seq<Step>)
    ensures var j := Run(Started(deadline, target, incident), steps);
            j.lab.execution.status == ScenarioLab.Succeeded ==>
              exists i :: 0 <= i < |j.db.records| && Proven(target, j.db.records[i])
  {
    StartRests(deadline, target, incident);
    SuccessMeansReleased(Started(deadline, target, incident), steps);
  }
}
