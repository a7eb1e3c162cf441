/**
 The unhealthy-pod remediation run: collect evidence, select one pod, ask policy, delete, verify,
 retry with a fresh policy decision, and escalate on any error after rolling the database back.

 The database has a committed and a working copy. A run is proved to follow its journal to an end, and to
 commit the rows that belong to it; `RemediationJournal` says what such journals and rows are like.

 The run holds no lock between its commits, and its session keeps what it has read. So others may give
 the stored incident any states meanwhile, and the next commit writes over them unread.
 */
module UnhealthyPodPipeline {
  import opened Results
  import opened IncidentStates
  import opened RemediationJournal

  // ---------- the stored incident ----------

  /** The stored state changes, oldest first, each as its event tells it. */
  datatype Log = Empty | Logged(before: Log, from: IncidentState, to: IncidentState)

  /**
   The stored incident: its state and the changes stored for it, whether others have changed it, and
   whether the run has written over a state it did not know of.
   */
  datatype Stored = Stored(state: IncidentState, log: Log, disturbed: bool, overwrote: bool)

  /** A write of a session that takes the incident to be in state `known`. */
  function Write(s: Stored, known: IncidentState, target: IncidentState): Stored {
    s.(state := target, log := Logged(s.log, known, target), overwrote := s.overwrote || s.state != known)
  }

  /** The walk `after` continues `before` by at least one step. */
  predicate Continues(after: Walk, before: Walk) {
    after.Then? && (after.before == before || Continues(after.before, before))
  }

  lemma AskedContinues(db: Database, pod: string)
    ensures Continues(Asked(db, pod).walk, db.walk)
  {
    assert Continues(Enter(Enter(db, Classifying), ActionProposed).walk, db.walk);
  }

  /** What a commit of the steps from `before` to `after` makes of the stored incident. */
  function WriteSteps(s: Stored, before: Walk, after: Walk): Stored
    requires Continues(after, before)
  {
    Write(if after.before == before then s else WriteSteps(s, before, after.before), StateOf(after.before), after.state)
  }

  /** What others make of the stored incident, who read its state before they change it. */
  function Disturb(s: Stored, targets: seq<IncidentState>): Stored
    decreases |targets|
  {
    if targets == [] then s else
    Disturb(if targets[0] == s.state then s else Write(s, s.state, targets[0]).(disturbed := true), targets[1..])
  }

  /** The state that stored changes lead to from creation, none when one does not continue the one before. */
  function Replay(log: Log): Option<IncidentState> {
    match log
    case Empty => Some(Detected)
    case Logged(before, from, to) => if Replay(before) == Some(from) then Some(to) else None
  }

  /**
   The stored changes lead to the stored state unless the run has written over a state it did not know of,
   and while nobody else writes, the stored state is the one the run knows.
   */
  ghost predicate Books(s: Stored, known: Walk) {
    && Replay(s.log) == (if s.overwrote then None else Some(s.state))
    && (!s.disturbed ==> !s.overwrote && s.state == StateOf(known))
  }

  /** A commit overwrites exactly when it finds another state than the one the session last knew. */
  lemma {:induction false} WriteStepsKeep(s: Stored, before: Walk, after: Walk)
    requires Books(s, before) && Continues(after, before)
    ensures var written := WriteSteps(s, before, after);
            && Books(written, after) && written.state == StateOf(after)
            && (written.overwrote <==> s.overwrote || s.state != StateOf(before))
            && written.disturbed == s.disturbed
  {
    if after.before != before { WriteStepsKeep(s, before, after.before); }
  }

  /** Changes by others, who know the state they leave, continue the log. */
  lemma {:induction false} DisturbKeeps(s: Stored, known: Walk, targets: seq<IncidentState>)
    requires Books(s, known)
    ensures var after := Disturb(s, targets);
            Books(after, known) && after.overwrote == s.overwrote && (s.disturbed ==> after.disturbed)
            && (!after.disturbed ==> after == s)
    decreases |targets|
  {
    if targets != [] {
      DisturbKeeps(if targets[0] == s.state then s
                   else Write(s, s.state, targets[0]).(disturbed := true), known, targets[1..]);
    }
  }

  /** Nobody else writes the incident during the run. */
  ghost predicate Alone(world: World) {
    forall n :: world.meanwhile(n) == []
  }

  // ---------- the run ----------

  class Pipeline {
    const world: World
    const maxAttempts: nat
    var setup: Setup
    var committed: Database
    var working: Database
    var journal: Journal
    var stored: Stored
    var commits: nat
    /** When others have changed the stored state, if they have. */
    ghost var disturber: nat
    /** Where the journal has led to, and from where. */
    ghost var course: Course
    ghost var courses: seq<Course>
    /** The state the error handler found the incident in, if an error reached it. */
    var met: Option<IncidentState>

    ghost predicate Kept()
      reads `committed, `stored, `disturber
    {
      Books(stored, committed.walk) && (stored.disturbed ==> world.meanwhile(disturber) != [])
    }

    /** The journal holds what the world answered, each event when it was due, and leads where the run is. */
    ghost predicate Told()
      reads `setup, `journal, `course, `courses
    {
      Tells(world, setup, journal, courses) && course == courses[|courses| - 1]
    }

    /** Everything that follows from the journal is committed. */
    ghost predicate Settled()
      reads `course, `committed
    {
      committed == course.rows
    }

    /** The incident has just been created. */
    ghost predicate AtStart()
      reads `course, `committed, `working
    {
      course == Course(AwaitsPods, committed) && working == committed
      && Current(committed) == Detected && committed.retryCount == 0
    }

    constructor (world: World, maxAttempts: nat)
      ensures this.world == world && this.maxAttempts == maxAttempts
      ensures journal == Nothing
    {
      this.world, this.maxAttempts := world, maxAttempts;
      setup, journal, commits := Setup(None, maxAttempts), Nothing, 0;
      course, courses := Course(AwaitsPods, CREATED), [Course(AwaitsPods, CREATED)];
      committed, working := CREATED, CREATED;
      stored, met := Stored(Detected, Empty, false, false), None;
    }

    /** Writes what the session holds over the stored incident, whatever state that is in. */
    method Commit()
      requires Kept() && Continues(working.walk, committed.walk)
      modifies this`committed, this`stored
      ensures committed == working && Kept() && stored.state == Current(committed)
      ensures stored.overwrote <==> old(stored.overwrote) || old(stored.state) != old(Current(committed))
      ensures stored.disturbed == old(stored.disturbed)
    {
      WriteStepsKeep(stored, committed.walk, working.walk);
      stored := WriteSteps(stored, committed.walk, working.walk);
      committed := working;
    }

    /** What others do to the incident before the run writes again. The session does not see it. */
    method Meanwhile()
      requires Kept()
      modifies this`stored, this`commits, this`disturber
      ensures Kept() && stored.overwrote == old(stored.overwrote)
      ensures stored == Disturb(old(stored), world.meanwhile(old(commits)))
      ensures !stored.disturbed ==> stored == old(stored)
    {
      DisturbKeeps(stored, committed.walk, world.meanwhile(commits));
      if !stored.disturbed { disturber := commits; }
      stored, commits := Disturb(stored, world.meanwhile(commits)), commits + 1;
    }

    /** Enters an event that was due into the journal. */
    method Note(e: External)
      requires Told() && Expects(course.phase, e) && Answered(world, Length(journal), e)
      modifies this`journal, this`course, this`courses
      ensures Told() && journal == Noted(old(journal), e) && course == Step(setup, old(course), e)
    {
      TellMore(world, setup, journal, courses, e);
      journal, course := Noted(journal, e), Step(setup, course, e);
      courses := courses + [course];
    }

    method ReadPods() returns (r: Result<seq<Pod>>)
      requires Told() && (course.phase.AwaitsPods? || course.phase.AwaitsRetarget?)
      modifies this`journal, this`course, this`courses
      ensures Told()
      ensures if r.Ok? then course == Step(setup, old(course), PodsSeen(r.value))
              else course == Course(Over(Broke(r.error)), old(course.rows))
    {
      var n := Length(journal);
      r := world.pods(n);
      Note(if r.Ok? then PodsSeen(r.value) else CallRaised(GetPods(n), r.error));
    }

    method CheckServiceHealth() returns (r: Result<()>)
      requires Told() && (course.phase.AwaitsHealth?)
      modifies this`journal, this`course, this`courses
      ensures Told()
      ensures if r.Ok? then course == Step(setup, old(course), HealthSeen)
              else course == Course(Over(Broke(r.error)), old(course.rows))
    {
      var n := Length(journal);
      r := world.serviceHealth(n);
      Note(if r.Ok? then HealthSeen else CallRaised(GetServiceHealth(n), r.error));
    }

    method LoadRunbook() returns (r: Result<Runbook>)
      requires Told() && (course.phase.AwaitsRunbook?)
      modifies this`journal, this`course, this`courses
      ensures Told()
      ensures if r.Ok? then course == Step(setup, old(course), RunbookMatched(r.value))
              else course == Course(Over(Broke(r.error)), old(course.rows))
    {
      var n := Length(journal);
      r := world.runbook(n);
      Note(if r.Ok? then RunbookMatched(r.value) else CallRaised(MatchRunbook(n), r.error));
    }

    method RequireExecutableAction() returns (r: Result<()>)
      requires Told() && (course.phase.AwaitsAction?)
      modifies this`journal, this`course, this`courses
      ensures Told()
      ensures if r.Ok? then course == Step(setup, old(course), ActionRegistered)
              else course == Course(Over(Broke(r.error)), old(course.rows))
    {
      var n := Length(journal);
      r := world.registry(n);
      Note(if r.Ok? then ActionRegistered else CallRaised(RequireAction(n), r.error));
    }

    method Evaluate(pod: string) returns (r: Result<Policy>)
      requires Told()
               && ((course.phase.AwaitsPolicy? && course.phase.pod == pod)
                   || (course.phase.AwaitsRetryPolicy? && course.phase.pod == pod))
      modifies this`journal, this`course, this`courses
      ensures Told()
      ensures if r.Ok? then course == Step(setup, old(course), Decided(pod, r.value))
              else course == Course(Over(Broke(r.error)), old(course.rows))
    {
      var n := Length(journal);
      r := world.policy(n, pod);
      Note(if r.Ok? then Decided(pod, r.value) else CallRaised(EvaluatePolicy(n, pod), r.error));
    }

    method Verify() returns (r: Result<bool>)
      requires Told() && (course.phase.AwaitsVerdict?)
      modifies this`journal, this`course, this`courses
      ensures Told()
      ensures if r.Ok? then course == Step(setup, old(course), Verified(r.value))
              else course == Course(Over(Broke(r.error)), old(course.rows))
    {
      var n := Length(journal);
      r := world.verify(n);
      Note(if r.Ok? then Verified(r.value) else CallRaised(VerifyRecovery(n), r.error));
    }

    /** Asks Kubernetes to delete a pod. */
    method Delete(pod: string) returns (r: Result<()>)
      requires Told() && course.phase.AwaitsRequest? && course.phase.pod == pod
      modifies this`journal, this`course, this`courses
      ensures Told()
      ensures if r.Ok? then course == Step(setup, Step(setup, old(course), DeleteRequested(pod)), DeleteAccepted(pod))
              else course == Course(Over(Broke(r.error)), old(course.rows))
    {
      Note(DeleteRequested(pod));
      var n := Length(journal);
      r := world.deletePod(n, pod);
      Note(if r.Ok? then DeleteAccepted(pod) else CallRaised(DeletePod(n, pod), r.error));
    }

    /** An unforced state change of the working copy. */
    method Change(target: IncidentState) returns (r: Result<()>)
      modifies this`working
      ensures r.Ok? <==> target == old(Current(working)) || Allowed(old(Current(working)), target)
      ensures r.Err? || target == old(Current(working)) ==> working == old(working)
      ensures r.Ok? && target != old(Current(working)) ==>
                working == old(working).(walk := Then(old(working).walk, target))
    {
      var previous := Current(working);
      if previous == target { return Ok(()); }
      var _ :- TransitionIncident(previous, target);
      working := working.(walk := Then(working.walk, target));
      return Ok(());
    }

    /** A state change that the table allows, so that it raises nothing. */
    method Move(target: IncidentState)
      requires Allowed(Current(working), target)
      modifies this`working
      ensures working == Enter(old(working), target)
    {
      var moved := Change(target);
      assert moved.Ok?;
    }

    /**
     One whole run, whatever raises and whoever changes the incident between its commits. The journal takes
     its course to an end, with the world's answers, and what is committed are the rows that belong to it (`Ran`).

     The run ends in one of four states. Unless an error reached the handler, that is the state the run gave
     the incident, RESOLVED exactly right after a successful verification. The handler leaves a state that ends
     the incident, which somebody else must have written, and escalates any other. So a run ends RESOLVED
     without a successful verification exactly when the handler found the incident RESOLVED.

     The stored changes continue one another exactly when no write of the run went over a state it did not
     know of, and always when nobody else changed the incident.
     */
    method Run(requestedPod: Option<string>) returns (outcome: Outcome)
      requires journal == Nothing
      modifies this`setup, this`working, this`committed, this`journal, this`course, this`courses, this`stored,
        this`commits, this`disturber, this`met
      ensures setup == Setup(requestedPod, maxAttempts) && committed == working
      ensures Ran(world, setup, journal, met, committed, outcome.state) && outcome.attempts == committed.retryCount
      ensures met.Some? && Terminal(met.value) ==> stored.disturbed
      ensures outcome.state == stored.state
      ensures Replay(stored.log) == if stored.overwrote then None else Some(stored.state)
      ensures !stored.disturbed ==> !stored.overwrote && stored.state == Current(committed)
      ensures Alone(world) ==> !stored.disturbed
    {
      var r := TakeCourse(requestedPod);
      if r.Ok? {
        RanToEnd(world, setup, journal, r.value.state);
        return r.value;
      }
      RanIntoError(world, setup, journal, r.error, stored.state);
      outcome := Handle(r.error);
    }

    /** From the creation of the incident to an end or an error. */
    method TakeCourse(requestedPod: Option<string>) returns (r: Result<Outcome>)
      requires journal == Nothing
      modifies this`setup, this`working, this`committed, this`journal, this`course, this`courses
      modifies this`stored, this`commits, this`disturber, this`met
      ensures setup == Setup(requestedPod, maxAttempts) && met == None && Kept()
      ensures Orderly(setup, journal) && Faithful(world, journal) && committed == Rows(setup, journal)
      ensures r.Err? ==> PhaseOf(setup, journal) == Over(Broke(r.error))
      ensures r.Ok? ==> committed == working && stored.state == Current(committed)
                        && PhaseOf(setup, journal) == Over(Ended(r.value.state))
                        && r.value == Outcome(Current(committed), committed.retryCount)
    {
      Begin(requestedPod);
      r := Process();
      TellsCourse(world, setup, journal, courses);
    }

    /** Creates the incident and commits it. */
    method Begin(requestedPod: Option<string>)
      requires journal == Nothing
      modifies this`setup, this`working, this`committed, this`course, this`courses, this`stored, this`commits,
        this`disturber, this`met
      ensures setup == Setup(requestedPod, maxAttempts) && Told() && Kept() && AtStart() && met == None
    {
      setup := Setup(requestedPod, maxAttempts);
      working, course, courses := CREATED, Course(AwaitsPods, CREATED), [Course(AwaitsPods, CREATED)];
      committed, stored, commits, met := working, Stored(Detected, Empty, false, false), 0, None;
      Meanwhile();
    }

    /**
     The error handler rolls back, reads the incident again, and escalates it unless it has ended. Others may
     still change it between the read and the write.
     */
    method Handle(error: ErrorCode) returns (outcome: Outcome)
      requires Kept() && Recoverable(Current(committed))
      modifies this`working, this`committed, this`stored, this`commits, this`disturber, this`met
      ensures committed == working && Kept()
      ensures met == Some(old(stored.state)) && outcome == Outcome(stored.state, committed.retryCount)
      ensures stored.state == if Terminal(old(stored.state)) then old(stored.state) else Escalated
      ensures committed == if Terminal(old(stored.state)) then old(committed) else EscalatedWith(old(committed), error)
      ensures Terminal(old(stored.state)) ==> stored.disturbed
    {
      var seen := stored.state;
      working, met := committed, Some(seen);
      if !Terminal(seen) { Escalate(seen, error); }
      outcome := Outcome(stored.state, working.retryCount);
    }

    /** Escalates an incident that was found in state `seen`. */
    method Escalate(seen: IncidentState, error: ErrorCode)
      requires Kept() && working == committed
      requires seen == stored.state && !Terminal(seen)
      modifies this`working, this`committed, this`stored, this`commits, this`disturber
      ensures committed == working && Kept() && stored.state == Escalated
      ensures committed == EscalatedWith(old(committed), error)
    {
      var moved := TransitionIncident(seen, Escalated);
      assert moved.Ok?;
      Meanwhile();
      stored := Write(stored, seen, Escalated);
      working := EscalatedWith(working, error);
      committed := working;
    }

    /** The body of a run: to an end with everything committed, or to an error with what was committed before it. */
    method Process() returns (r: Result<Outcome>)
      requires Told() && Kept() && AtStart() && setup.maxAttempts == maxAttempts
      modifies this`working, this`committed, this`journal, this`course, this`courses, this`stored, this`commits,
        this`disturber
      ensures Kept() && Told() && Settled()
      ensures r.Err? ==> course.phase == Over(Broke(r.error))
      ensures r.Ok? ==> committed == working && stored.state == Current(committed)
                        && course.phase == Over(Ended(r.value.state))
                        && r.value == Outcome(Current(committed), committed.retryCount)
    {
      var pod :- Propose();
      var stopped :- Decide(pod);
      if stopped.Some? { return Ok(stopped.value); }
      r := Remediate(pod);
    }

    /** The first decision: the run stops, or its first attempt is ready. */
    method Decide(pod: string) returns (r: Result<Option<Outcome>>)
      requires Told() && Settled() && Kept() && course.phase == AwaitsPolicy(pod) && setup.maxAttempts == maxAttempts
      requires Gathered(committed) && working == Asked(committed, pod)
      modifies this`working, this`committed, this`journal, this`course, this`courses, this`stored, this`commits,
        this`disturber
      ensures Kept() && Told()
      ensures r.Err? ==> course.phase == Over(Broke(r.error)) && Settled()
      ensures r.Ok? && r.value.Some? ==>
                committed == working && Settled() && stored.state == Current(committed)
                && course.phase == Over(Ended(r.value.value.state)) && r.value.value == Outcome(Current(committed), 0)
                && committed.retryCount == 0
      ensures r.Ok? && r.value.None? ==>
                committed == working && Current(committed) == Executing && committed.retryCount == 0
                && if maxAttempts > 0 then Ready(1, Some(pod)) else Exhausted()
    {
      var policy :- Evaluate(pod);
      if !policy.allowed {
        var outcome := Stop(pod, policy);
        return Ok(Some(outcome));
      }
      Start(pod);
      r := Ok(None);
    }

    /** Policy allowed the first action: commit the decision before anything is deleted. */
    method Start(pod: string)
      requires Kept() && Gathered(committed) && working == Asked(committed, pod)
      modifies this`working, this`committed, this`stored, this`commits, this`disturber
      ensures Kept() && working == committed == Opened(old(committed), pod)
      ensures Current(committed) == Executing && committed.retryCount == 0
    {
      working := WithStatus(WithDecision(working, Decision(pod, true)), Running);
      Move(Executing);
      AskedContinues(committed, pod);
      Commit();
      Meanwhile();
    }

    /** Policy did not allow the first action: wait for an approval or block. */
    method Stop(pod: string, policy: Policy) returns (outcome: Outcome)
      requires !policy.allowed && Kept()
      requires Gathered(committed) && working == Asked(committed, pod)
      modifies this`working, this`committed, this`stored
      ensures Kept() && stored.state == Current(committed)
      ensures working == committed == Stopped(old(committed), pod, policy) && committed.retryCount == 0
      ensures outcome == Outcome(Current(committed), 0)
    {
      working := WithDecision(working, Decision(pod, policy.allowed));
      var target := if policy.requiresApproval then AwaitingApproval else Blocked;
      var status := if policy.requiresApproval then Pending else Rejected;
      working := WithStatus(working, status);
      Move(target);
      AskedContinues(committed, pod);
      Commit();
      outcome := Outcome(target, 0);
    }

    /** Evidence of pods and service health, committed before anything is chosen. */
    method Collect() returns (r: Result<seq<Pod>>)
      requires Told() && Kept() && AtStart()
      modifies this`working, this`committed, this`journal, this`course, this`courses, this`stored, this`commits,
        this`disturber
      ensures Kept() && Told() && Settled()
      ensures r.Err? ==> course.phase == Over(Broke(r.error))
      ensures r.Ok? ==> working == committed && Gathered(committed)
                        && course == Course(Select(setup, r.value), committed)
    {
      Move(CollectingEvidence);
      var pods :- ReadPods();
      var _ :- CheckServiceHealth();
      Commit();
      Meanwhile();
      return Ok(pods);
    }

    /** The runbook that matches, and its preconditions. */
    method MatchWithin(pods: seq<Pod>, pod: Pod) returns (r: Result<()>)
      requires Told() && course.phase == AwaitsRunbook(pods, pod)
      modifies this`journal, this`course, this`courses
      ensures Told() && course.rows == old(course.rows)
      ensures course.phase == if r.Ok? then AwaitsAction(pod.name) else Over(Broke(r.error))
    {
      var runbook :- LoadRunbook();
      r := ValidatePreconditions(runbook, pods, pod);
    }

    /** Target, classification, runbook and proposal, up to the policy evaluation; none of it committed. */
    method Choose(pods: seq<Pod>) returns (r: Result<string>)
      requires Told() && course.phase == Select(setup, pods)
      requires Current(working) == CollectingEvidence
      modifies this`working, this`journal, this`course, this`courses
      ensures Told() && course.rows == old(course.rows)
      ensures r.Err? ==> course.phase == Over(Broke(r.error))
      ensures r.Ok? ==> course.phase == AwaitsPolicy(r.value) && working == Asked(old(working), r.value)
    {
      var pod :- SelectUnhealthyPod(pods, setup.requested);
      Move(Classifying);
      var _ :- MatchWithin(pods, pod);
      working := working.(runbookStatus := Some(Running));
      Move(ActionProposed);
      var _ :- RequireExecutableAction();
      working := working.(proposal := Some(Proposal(pod.name, Pending)));
      Move(PolicyEvaluation);
      r := Ok(pod.name);
    }

    /** Evidence, classification, runbook and proposal, up to the policy evaluation. */
    method Propose() returns (r: Result<string>)
      requires Told() && Kept() && AtStart()
      modifies this`working, this`committed, this`journal, this`course, this`courses, this`stored, this`commits,
        this`disturber
      ensures Kept() && Told() && Settled()
      ensures r.Err? ==> course.phase == Over(Broke(r.error))
      ensures r.Ok? ==> course.phase == AwaitsPolicy(r.value) && working == Asked(committed, r.value)
                        && Gathered(committed)
    {
      var pods :- Collect();
      r := Choose(pods);
    }

    /** The next attempt may begin: its target is allowed and to be deleted, or there is none. */
    ghost predicate Ready(attempt: nat, pod: Option<string>)
      reads `course, `committed
    {
      match pod
      case Some(p) => course.phase == AwaitsRequest(p, attempt) && committed == course.rows
      case None => course.phase == AwaitsVerdict(attempt) && course.rows == Tried(committed, attempt, Failed, None)
    }

    /** Nothing is left to try. */
    ghost predicate Exhausted()
      reads `course, `committed
    {
      course.phase == Over(Ended(Escalated)) && course.rows == Closed(committed, Escalated, Failed)
    }

    /** The retry loop. */
    method Remediate(firstPod: string) returns (r: Result<Outcome>)
      requires Told() && Kept() && working == committed && Current(committed) == Executing
      requires setup.maxAttempts == maxAttempts && committed.retryCount == 0
      requires if maxAttempts > 0 then Ready(1, Some(firstPod)) else Exhausted()
      modifies this`working, this`committed, this`journal, this`course, this`courses, this`stored, this`commits,
        this`disturber
      ensures Kept() && Told() && Settled()
      ensures r.Err? ==> course.phase == Over(Broke(r.error))
      ensures r.Ok? ==> committed == working && stored.state == Current(committed)
                        && course.phase == Over(Ended(r.value.state))
                        && r.value == Outcome(Current(committed), committed.retryCount)
    {
      var currentPod := Some(firstPod);
      var attempt := 1;
      while attempt <= maxAttempts
        invariant 1 <= attempt <= maxAttempts + 1
        invariant working == committed && Kept() && Told() && committed.retryCount == attempt - 1
        invariant attempt <= maxAttempts ==> Ready(attempt, currentPod) && Current(committed) == Executing
        invariant attempt > maxAttempts ==> Exhausted() && Allowed(Current(committed), Escalated)
      {
        var verified :- Attempt(attempt, currentPod);
        if verified {
          Close(Resolved, Succeeded);
          return Ok(Outcome(Resolved, attempt));
        }
        if attempt < maxAttempts {
          currentPod :- PrepareRetry(attempt);
        }
        attempt := attempt + 1;
      }
      Close(Escalated, Failed);
      r := Ok(Outcome(Escalated, maxAttempts));
    }

    /** The last commit of the loop: resolved after a successful verification, escalated otherwise. */
    method Close(target: IncidentState, status: RecordStatus)
      requires working == committed && Kept() && Allowed(Current(committed), target)
      modifies this`working, this`committed, this`stored
      ensures Kept() && stored.state == Current(committed)
      ensures working == committed == Closed(old(committed), target, status)
    {
      working := WithStatus(working, status);
      Move(target);
      Commit();
    }

    /** Deletes the target if there is one; the result is the execution to store. */
    method DeleteCurrent(attempt: nat, currentPod: Option<string>) returns (r: Result<Execution>)
      requires Told() && Ready(attempt, currentPod)
      modifies this`journal, this`course, this`courses
      ensures Told()
      ensures r.Err? ==> course.phase == Over(Broke(r.error)) && committed == course.rows
      ensures r.Ok? ==> r.value == Execution(attempt, if currentPod.Some? then Succeeded else Failed, currentPod)
                        && course.phase == AwaitsVerdict(attempt)
                        && course.rows == Tried(committed, attempt, r.value.status, currentPod)
    {
      if currentPod.None? {
        return Ok(Execution(attempt, Failed, None));
      }
      var _ :- Delete(currentPod.value);
      r := Ok(Execution(attempt, Succeeded, currentPod));
    }

    /** Stores and commits the finished execution of an attempt. */
    method Store(rows: seq<Execution>, finished: Execution)
      requires Kept() && rows == committed.executions && Current(committed) == Executing
      requires working == committed.(retryCount := finished.attempt, executions := working.executions)
      modifies this`working, this`committed, this`stored, this`commits, this`disturber
      ensures Kept() && working == committed
      ensures committed == Tried(old(committed), finished.attempt, finished.status, finished.pod)
    {
      working := working.(executions := rows + [finished]);
      Move(Verifying);
      Commit();
      Meanwhile();
    }

    /** Deletes the target, then stores and commits the execution. */
    method Execute(attempt: nat, currentPod: Option<string>) returns (r: Result<()>)
      requires Ready(attempt, currentPod) && Told() && Kept()
      requires working == committed && Current(committed) == Executing
      modifies this`working, this`committed, this`journal, this`course, this`courses
      modifies this`stored, this`commits, this`disturber
      ensures Kept() && Told() && Settled()
      ensures r.Err? ==> course.phase == Over(Broke(r.error))
      ensures r.Ok? ==> course.phase == AwaitsVerdict(attempt) && working == committed
                        && committed
                          == Tried(old(committed), attempt, if currentPod.Some? then Succeeded else Failed, currentPod)
    {
      var rows := working.executions;
      working := working.(retryCount := attempt, executions := rows + [Execution(attempt, Running, None)]);
      var finished :- DeleteCurrent(attempt, currentPod);
      Store(rows, finished);
      r := Ok(());
    }

    /** One attempt: execute, then verify. */
    method Attempt(attempt: nat, currentPod: Option<string>) returns (r: Result<bool>)
      requires Ready(attempt, currentPod) && Told() && Kept()
      requires working == committed && Current(committed) == Executing
      modifies this`working, this`committed, this`journal, this`course, this`courses, this`stored, this`commits,
        this`disturber
      ensures Kept() && Told()
      ensures r.Err? ==> course.phase == Over(Broke(r.error)) && Settled()
      ensures r.Ok? ==> working == committed && Current(committed) == Verifying
                        && committed.retryCount == attempt
      ensures r.Ok? ==> course.phase == Judge(setup, attempt, r.value)
                        && course.rows == Judged(committed, Judge(setup, attempt, r.value))
    {
      var _ :- Execute(attempt, currentPod);
      var success :- Verify();
      r := Ok(success);
    }

    /** The single unhealthy pod that policy allows, its decision stored but not committed; none of several. */
    method NextTarget(attempt: nat) returns (r: Result<Option<string>>)
      requires Told() && course.phase == AwaitsRetarget(attempt)
      modifies this`working, this`journal, this`course, this`courses
      ensures Told()
      ensures r.Err? ==> course.phase == Over(Broke(r.error)) && course.rows == old(course.rows)
      ensures r.Ok? && r.value.None? ==>
                working == old(working) && course.phase == AwaitsVerdict(attempt + 1)
                && course.rows == Tried(Enter(old(course.rows), Executing), attempt + 1, Failed, None)
      ensures r.Ok? && r.value.Some? ==>
                var d := Decision(r.value.value, true);
                working == WithDecision(old(working), d) && course.phase == AwaitsRequest(d.pod, attempt + 1)
                && course.rows == Enter(WithDecision(old(course.rows), d), Executing)
    {
      var pods :- ReadPods();
      var unhealthy := UnhealthyPods(pods);
      if |unhealthy| != 1 { return Ok(None); }
      var pod := unhealthy[0].name;
      var policy :- Evaluate(pod);
      working := WithDecision(working, Decision(pod, policy.allowed));
      if !policy.allowed { return Err(RetryPolicyDenied); }
      r := Ok(Some(pod));
    }

    /** Looks for the next target; only a single unhealthy pod that policy allows is acted on again. */
    method PrepareRetry(attempt: nat) returns (r: Result<Option<string>>)
      requires Told() && Kept() && Settled() && working == committed && course.phase == AwaitsRetarget(attempt)
      requires Current(committed) == Verifying
      modifies this`working, this`committed, this`journal, this`course, this`courses, this`stored, this`commits,
        this`disturber
      ensures Kept() && Told()
      ensures r.Err? ==> course.phase == Over(Broke(r.error)) && Settled()
      ensures r.Ok? ==> working == committed && Ready(attempt + 1, r.value)
                        && Current(committed) == Executing && committed.retryCount == old(committed.retryCount)
    {
      Move(Executing);
      var next :- NextTarget(attempt);
      Commit();
      Meanwhile();
      r := Ok(next);
    }
  }
}
