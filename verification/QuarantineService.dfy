/**
 Containment of one security event: applying and removing its quarantine, with the policy decision, the
 attempt limit, the verification loops and the records they leave.
 */
module QuarantineService {
  import opened Results
  import opened IncidentStates
  import opened Quarantine

  /** One look at the cluster during a verification: its state and whether the controlled egress gets through. */
  datatype Poll = Poll(cluster: Cluster, probe: Result<bool>)

  /** What a record says about its last verification. */
  datatype Evidence = NotVerified | ContainmentSeen(p: Poll) | ReleaseSeen(p: Poll) | FailedWith(code: ErrorCode)

  datatype Status = Applying | Contained | VerificationFailed | Removing | Removed

  datatype Record = Record(status: Status, evidence: Evidence)

  datatype ExecutionStatus = Running | Succeeded | Failed(code: ErrorCode)

  datatype Execution = Execution(removes: bool, attempt: nat, status: ExecutionStatus)

  /** The pod of the event, and the identifier of its quarantine. */
  datatype Target = Target(pod: string, id: string)

  /** The event's target, its incident, and the records and executions so far, oldest first. */
  datatype Db = Db(target: Target, incident: IncidentState, records: seq<Record>, executions: seq<Execution>)

  /**
   What the outside answers during an apply: the live pod, the policy decision, the probe, the cluster call,
   the polls.
   */
  datatype Answers = Answers(demoPod: Result<bool>, allowed: bool, probe: Result<bool>, call: Result<()>,
                             polls: seq<Poll>)

  datatype Served = Served(db: Db, outcome: Result<Status>)

  // ---------- verification ----------

  predicate PodReady(p: Poll, pod: string) {
    pod in p.cluster.pods && p.cluster.pods[pod].ready
  }

  /** All four containment checks pass: policy enforced, label in place, egress blocked, pod still ready. */
  predicate ContainmentPasses(t: Target, p: Poll) {
    Quarantined(p.cluster, t.pod, t.id) && p.probe == Ok(false) && PodReady(p, t.pod)
  }

  /** All three release checks pass: policy gone, label gone, egress restored. */
  predicate ReleasePasses(t: Target, p: Poll) {
    && t.pod in p.cluster.pods
    && !StateOf(p.cluster, t.pod, ForQuarantine(t.id), t.id).policyExists
    && !StateOf(p.cluster, t.pod, ForQuarantine(t.id), t.id).labelMatches
    && p.probe == Ok(true)
  }

  predicate Passes(t: Target, release: bool, p: Poll) {
    if release then ReleasePasses(t, p) else ContainmentPasses(t, p)
  }

  /** A poll that raises: the pod is gone, or the probe fails. */
  predicate Breaks(t: Target, p: Poll) {
    t.pod !in p.cluster.pods || p.probe.Err?
  }

  /** The first poll that passes, unless one raises or time runs out before. */
  function Await(t: Target, release: bool, polls: seq<Poll>): Result<Poll> {
    if polls == [] then Err(if release then ReleaseVerificationFailed else QuarantineVerificationFailed)
    else if t.pod !in polls[0].cluster.pods then Err(TargetMissing)
    else if polls[0].probe.Err? then Err(polls[0].probe.error)
    else if Passes(t, release, polls[0]) then Ok(polls[0])
    else Await(t, release, polls[1..])
  }

  /** A poll passes, and none before it raises. */
  ghost predicate PassesAt(t: Target, release: bool, polls: seq<Poll>, i: nat) {
    i < |polls| && Passes(t, release, polls[i]) && forall j :: 0 <= j < i ==> !Breaks(t, polls[j])
  }

  ghost predicate SomePollPasses(t: Target, release: bool, polls: seq<Poll>) {
    exists i :: PassesAt(t, release, polls, i)
  }

  lemma PassesLater(t: Target, release: bool, polls: seq<Poll>, i: nat)
    requires polls != []
    ensures PassesAt(t, release, polls, i + 1) <==> !Breaks(t, polls[0]) && PassesAt(t, release, polls[1..], i)
  {
    if PassesAt(t, release, polls, i + 1) {
      forall j | 0 <= j < i ensures !Breaks(t, polls[1..][j]) { assert !Breaks(t, polls[j + 1]); }
      assert !Breaks(t, polls[0]);
    } else if !Breaks(t, polls[0]) && PassesAt(t, release, polls[1..], i) {
      forall j | 0 <= j < i + 1 ensures !Breaks(t, polls[j]) {
        if j > 0 { assert polls[1..][j - 1] == polls[j]; }
      }
    }
  }

  /** Verification succeeds exactly when some poll passes and none before it raises. */
  lemma {:induction false} AwaitPasses(t: Target, release: bool, polls: seq<Poll>)
    ensures Await(t, release, polls).Ok? <==> SomePollPasses(t, release, polls)
    ensures Await(t, release, polls).Ok? ==>
              Passes(t, release, Await(t, release, polls).value) && Await(t, release, polls).value in polls
  {
    if polls != [] {
      AwaitPasses(t, release, polls[1..]);
      assert Passes(t, release, polls[0]) ==> PassesAt(t, release, polls, 0);
      if i: nat :| PassesAt(t, release, polls[1..], i) {
        PassesLater(t, release, polls, i);
        assert !Breaks(t, polls[0]) ==> PassesAt(t, release, polls, i + 1);
      }
      if k: nat :| PassesAt(t, release, polls, k) {
        if k > 0 { PassesLater(t, release, polls, k - 1); }
      }
    }
  }

  // ---------- apply ----------

  function Latest(db: Db): Option<Record> {
    if db.records == [] then None else Some(db.records[|db.records| - 1])
  }

  /** The newest record, unless it has been removed. */
  function Live(db: Db): Option<Record> {
    if Latest(db).Some? && Latest(db).value.status != Removed then Latest(db) else None
  }

  /** Write the live record, or a new one. */
  function WithRecord(db: Db, r: Record): Db {
    if Live(db).Some? then db.(records := db.records[|db.records| - 1 := r]) else db.(records := db.records + [r])
  }

  function WithExecution(db: Db, e: Execution): Db {
    db.(executions := db.executions + [e])
  }

  /** The greatest attempt number used so far; numbers may have been skipped. */
  function Greatest(executions: seq<Execution>): nat {
    if executions == [] then 0 else
    var rest, last := Greatest(executions[..|executions| - 1]), executions[|executions| - 1].attempt;
    if rest < last then last else rest
  }

  function Moved(state: IncidentState, target: IncidentState): Result<IncidentState> {
    if state == target then Ok(target) else TransitionIncident(state, target)
  }

  /** The record and incident as an apply marks them before it acts. */
  function Marked(db: Db): Db {
    var marked := WithRecord(db, Record(Applying, if Live(db).Some? then Live(db).value.evidence else NotVerified));
    if db.incident == PolicyEvaluation || db.incident == AwaitingApproval then marked.(incident := Executing)
    else marked
  }

  /** How the guarded part of an apply comes out, and the incident state it got to. */
  function Containment(db: Db, state: IncidentState, a: Answers): (Result<Poll>, IncidentState) {
    if a.probe.Err? then (Err(a.probe.error), state)
    else if !a.probe.value then (Err(QuarantineBaselineFailed), state)
    else if a.call.Err? then (Err(a.call.error), state)
    else if Moved(state, Verifying).Err? then (Err(InvalidIncidentTransition), state)
    else (Await(db.target, false, a.polls), Verifying)
  }

  function AfterFailure(state: IncidentState): IncidentState {
    if state == Executing || state == Verifying then Escalated else state
  }

  /** The records once the guarded part of an apply has come out. */
  function Concluded(marked: Db, result: Result<Poll>): Served {
    var attempt := Greatest(marked.executions) + 1;
    match result
    case Ok(p) =>
      Served(WithExecution(WithRecord(marked, Record(Contained, ContainmentSeen(p))),
                           Execution(false, attempt, Succeeded)), Ok(Contained))
    case Err(code) =>
      Served(WithExecution(WithRecord(marked, Record(VerificationFailed, FailedWith(code))),
                           Execution(false, attempt, Failed(code))).(incident := AfterFailure(marked.incident)),
                             Err(code))
  }

  /** How an apply is answered before it touches anything, if it is. */
  function Refused(db: Db, a: Answers): Option<Result<Status>> {
    if Live(db).Some? && (Live(db).value.status == Contained || Live(db).value.status == Applying)
    then Some(Ok(Live(db).value.status))
    else if Terminal(db.incident) then Some(Err(IncidentNotActionable))
    else if a.demoPod.Err? then Some(Err(a.demoPod.error))
    else if !a.demoPod.value then Some(Err(TargetDenied))
    else if !a.allowed then Some(Err(PolicyDenied))
    else None
  }

  function Pursue(db: Db, a: Answers): Served {
    var marked := Marked(db);
    if Greatest(db.executions) >= 3 then Served(marked, Err(RemediationAttemptLimit)) else
    var (result, state) := Containment(marked, marked.incident, a);
    Concluded(marked.(incident := state), result)
  }

  function ApplyOnce(db: Db, a: Answers): Served {
    match Refused(db, a)
    case Some(outcome) => Served(db, outcome)
    case None => Pursue(db, a)
  }

  // ---------- remove ----------

  function Released(db: Db, a: Answers): Result<Poll> {
    if a.call.Err? then Err(a.call.error) else Await(db.target, true, a.polls)
  }

  function RemoveOnce(db: Db, a: Answers): Served {
    if Latest(db).None? then Served(db, Err(QuarantineNotFound))
    else if Latest(db).value.status == Removed then Served(db, Ok(Removed))
    else if a.demoPod.Err? then Served(db, Err(a.demoPod.error))
    else if !a.allowed then Served(db, Err(PolicyDenied))
    else
      var record := Latest(db).value;
      var marked := WithRecord(db, record.(status := Removing));
      if Greatest(db.executions) >= 3 then Served(marked, Err(RemediationAttemptLimit)) else
      var attempt := Greatest(db.executions) + 1;
      match Released(db, a)
      case Ok(p) =>
        Served(WithExecution(WithRecord(marked, Record(Removed, ReleaseSeen(p))), Execution(true, attempt, Succeeded))
                .(incident := if db.incident == Verifying then Resolved else db.incident), Ok(Removed))
      case Err(code) =>
        Served(WithExecution(WithRecord(marked, Record(VerificationFailed, record.evidence)),
                            Execution(true, attempt, Failed(code))), Err(code))
  }

  // ---------- runs ----------

  /**
   One call, or a change of the incident or of its executions elsewhere. When a call raises before its own commit,
   its caller either commits what the session holds or rolls it back.
   */
  datatype Step =
    | CallApply(a: Answers, commits: bool)
    | CallRemove(a: Answers, commits: bool)
    | ElsewhereMoved(incident: IncidentState)
    | ElsewhereExecuted(e: Execution)

  predicate Used(executions: seq<Execution>, attempt: nat) {
    exists i :: 0 <= i < |executions| && executions[i].attempt == attempt
  }

  function Settled(db: Db, r: Served, commits: bool): Db {
    if r.outcome.Err? && |r.db.executions| == |db.executions| && !commits then db else r.db
  }

  function Next(db: Db, s: Step): Db {
    match s
    case CallApply(a, commits) => Settled(db, ApplyOnce(db, a), commits)
    case CallRemove(a, commits) => Settled(db, RemoveOnce(db, a), commits)
    case ElsewhereMoved(incident) => db.(incident := incident)
    case ElsewhereExecuted(e) =>
      if 1 <= e.attempt <= 3 && !Used(db.executions, e.attempt) then WithExecution(db, e) else db
  }

  function Run(db: Db, steps: seq<Step>): Db {
    if steps == [] then db else Next(Run(db, steps[..|steps| - 1]), steps[|steps| - 1])
  }

  ghost predicate RecordSound(t: Target, r: Record) {
    && (r.status == Contained ==> r.evidence.ContainmentSeen? && ContainmentPasses(t, r.evidence.p))
    && (r.status == Removed ==> r.evidence.ReleaseSeen? && ReleasePasses(t, r.evidence.p))
  }

  ghost predicate RecordsSound(t: Target, records: seq<Record>) {
    && (forall i :: 0 <= i < |records| ==> RecordSound(t, records[i]))
    && (forall i :: 0 <= i < |records| - 1 ==> records[i].status == Removed)
  }

  /**
   CONTAINED and REMOVED are stored only over a verification in which every check passed, only the newest
   record is not removed, and the incident's executions have distinct attempt numbers from one to three.
   */
  ghost predicate Sound(db: Db) {
    RecordsSound(db.target, db.records) && Numbered(db.executions)
  }

  /** Attempts are one to three and differ. */
  ghost predicate Numbered(executions: seq<Execution>) {
    && (forall i :: 0 <= i < |executions| ==> 1 <= executions[i].attempt <= 3)
    && (forall i, j :: 0 <= i < j < |executions| ==> executions[i].attempt != executions[j].attempt)
  }

  function WithAttempt(executions: seq<Execution>, attempt: nat): nat {
    if executions == [] then 0 else
    WithAttempt(executions[..|executions| - 1], attempt)
    + if executions[|executions| - 1].attempt == attempt then 1 else 0
  }

  lemma {:induction false} OncePerAttempt(executions: seq<Execution>, attempt: nat)
    requires Numbered(executions)
    ensures WithAttempt(executions, attempt) <= 1
    ensures (forall i :: 0 <= i < |executions| ==> executions[i].attempt != attempt) ==>
            WithAttempt(executions, attempt) == 0
  {
    if executions != [] { OncePerAttempt(executions[..|executions| - 1], attempt); }
  }

  lemma {:induction false} AllCounted(executions: seq<Execution>)
    requires Numbered(executions)
    ensures |executions| == WithAttempt(executions, 1) + WithAttempt(executions, 2) + WithAttempt(executions, 3)
  {
    if executions != [] { AllCounted(executions[..|executions| - 1]); }
  }

  lemma AtMostThreeExecutions(executions: seq<Execution>)
    requires Numbered(executions)
    ensures |executions| <= 3
  {
    AllCounted(executions);
    OncePerAttempt(executions, 1);
    OncePerAttempt(executions, 2);
    OncePerAttempt(executions, 3);
  }

  lemma {:induction false} GreatestIs(executions: seq<Execution>, e: Execution)
    ensures forall i :: 0 <= i < |executions| ==> executions[i].attempt <= Greatest(executions)
    ensures executions != [] ==> exists i :: 0 <= i < |executions| && executions[i].attempt == Greatest(executions)
    ensures Greatest(executions + [e]) == if Greatest(executions) < e.attempt then e.attempt else Greatest(executions)
  {
    assert (executions + [e])[..|executions|] == executions;
    if executions != [] {
      var rest := executions[..|executions| - 1];
      GreatestIs(rest, e);
      assert forall i :: 0 <= i < |rest| ==> rest[i] == executions[i];
      if Greatest(executions) != executions[|executions| - 1].attempt {
        var i :| 0 <= i < |rest| && rest[i].attempt == Greatest(rest);
        assert executions[i].attempt == Greatest(executions);
      }
    }
  }

  lemma NextNumbered(executions: seq<Execution>, e: Execution)
    requires Numbered(executions) && Greatest(executions) < 3 && e.attempt == Greatest(executions) + 1
    ensures Numbered(executions + [e])
  {
    GreatestIs(executions, e);
  }

  lemma WritingKeepsSound(db: Db, r: Record)
    requires RecordsSound(db.target, db.records) && RecordSound(db.target, r)
    ensures RecordsSound(db.target, WithRecord(db, r).records)
    ensures r.status != Removed ==> Live(WithRecord(db, r)) == Some(r)
    ensures |WithRecord(db, r).records| == |db.records| + if Live(db).Some? then 0 else 1
  {
  }

  lemma ConcludedSound(marked: Db, result: Result<Poll>)
    requires Sound(marked) && Greatest(marked.executions) < 3
    requires result.Ok? ==> ContainmentPasses(marked.target, result.value)
    ensures Sound(Concluded(marked, result).db)
  {
    var r := if result.Ok? then Record(Contained, ContainmentSeen(result.value))
             else Record(VerificationFailed, FailedWith(result.error));
    WritingKeepsSound(marked, r);
    NextNumbered(marked.executions, Execution(false, Greatest(marked.executions) + 1,
                                              if result.Ok? then Succeeded else Failed(result.error)));
  }

  lemma MarkedSound(db: Db)
    requires Sound(db)
    ensures Sound(Marked(db)) && Marked(db).executions == db.executions && Marked(db).target == db.target
  {
    WritingKeepsSound(db, Record(Applying, if Live(db).Some? then Live(db).value.evidence else NotVerified));
  }

  lemma ApplySound(db: Db, a: Answers)
    requires Sound(db)
    ensures Sound(ApplyOnce(db, a).db) && ApplyOnce(db, a).db.target == db.target
  {
    MarkedSound(db);
    if Refused(db, a).None? && Greatest(db.executions) < 3 {
      var marked := Marked(db);
      var (result, state) := Containment(marked, marked.incident, a);
      AwaitPasses(marked.target, false, a.polls);
      ConcludedSound(marked.(incident := state), result);
    }
  }

  lemma RemoveSound(db: Db, a: Answers)
    requires Sound(db)
    ensures Sound(RemoveOnce(db, a).db) && RemoveOnce(db, a).db.target == db.target
  {
    if Live(db).Some? {
      var record := Live(db).value;
      var marked := WithRecord(db, record.(status := Removing));
      WritingKeepsSound(db, record.(status := Removing));
      AwaitPasses(db.target, true, a.polls);
      var result := Released(db, a);
      WritingKeepsSound(marked, if result.Ok? then Record(Removed, ReleaseSeen(result.value))
                                else Record(VerificationFailed, record.evidence));
      if Greatest(db.executions) < 3 {
        NextNumbered(db.executions, Execution(true, Greatest(db.executions) + 1,
                                              if result.Ok? then Succeeded else Failed(result.error)));
      }
    }
  }

  lemma NextSound(db: Db, s: Step)
    requires Sound(db)
    ensures Sound(Next(db, s)) && Next(db, s).target == db.target
  {
    match s
    case CallApply(a, commits) =>
      ApplySound(db, a);
      SettledSound(db, ApplyOnce(db, a), commits);
    case CallRemove(a, commits) =>
      RemoveSound(db, a);
      SettledSound(db, RemoveOnce(db, a), commits);
    case ElsewhereMoved(_) =>
    case ElsewhereExecuted(e) =>
      if 1 <= e.attempt <= 3 && !Used(db.executions, e.attempt) { UnusedNumbered(db.executions, e); }
  }

  lemma SettledSound(db: Db, r: Served, commits: bool)
    requires Sound(db) && Sound(r.db) && r.db.target == db.target
    ensures Sound(Settled(db, r, commits)) && Settled(db, r, commits).target == db.target
  {
  }

  lemma UnusedNumbered(executions: seq<Execution>, e: Execution)
    requires Numbered(executions) && 1 <= e.attempt <= 3 && !Used(executions, e.attempt)
    ensures Numbered(executions + [e])
  {
    forall i | 0 <= i < |executions| ensures executions[i].attempt != e.attempt {
      assert !(executions[i].attempt == e.attempt);
    }
  }

  /** Every run keeps this, whatever the cluster and policy answer and whatever callers do with a raised error. */
  lemma {:induction false} EveryRunIsSound(db: Db, steps: seq<Step>)
    requires Sound(db)
    ensures Sound(Run(db, steps)) && |Run(db, steps).executions| <= 3 && Run(db, steps).target == db.target
  {
    if steps != [] {
      EveryRunIsSound(db, steps[..|steps| - 1]);
      NextSound(Run(db, steps[..|steps| - 1]), steps[|steps| - 1]);
    }
    AtMostThreeExecutions(Run(db, steps).executions);
  }

  /** An apply that is neither answered from the record nor refused up front. */
  predicate Proceeds(db: Db, a: Answers) {
    Refused(db, a).None? && Greatest(db.executions) < 3
  }

  /**
   Such an apply ends CONTAINED exactly when the egress was open before, the cluster accepted the
   quarantine, the incident may enter verification, and a poll passes every check before any raises.
   Otherwise it fails, and leaves no incident executing or verifying.
   */
  lemma ContainedExactlyWhenVerified(db: Db, a: Answers)
    requires Proceeds(db, a)
    ensures var r := ApplyOnce(db, a);
            var state := Marked(db).incident;
            && (r.outcome == Ok(Contained) <==>
                  a.probe == Ok(true) && a.call.Ok? && Moved(state, Verifying).Ok?
                    && SomePollPasses(db.target, false, a.polls))
            && (r.outcome.Ok? ==>
                r.outcome == Ok(Contained) && Latest(r.db).value.status == Contained && r.db.incident == Verifying)
            && (r.outcome.Err? ==> Latest(r.db).value == Record(VerificationFailed, FailedWith(r.outcome.error))
                                   && r.db.incident != Executing && r.db.incident != Verifying)
            && |r.db.executions| == |db.executions| + 1
  {
    AwaitPasses(db.target, false, a.polls);
  }

  /** No poll passes and none raises. */
  ghost predicate Silent(t: Target, release: bool, polls: seq<Poll>) {
    forall j :: 0 <= j < |polls| ==> !Passes(t, release, polls[j]) && !Breaks(t, polls[j])
  }

  /** Nothing passes or raises before poll `i`, which raises this. */
  ghost predicate FailsAt(t: Target, release: bool, polls: seq<Poll>, i: nat, code: ErrorCode) {
    && i < |polls| && Silent(t, release, polls[..i]) && Breaks(t, polls[i])
    && if t.pod !in polls[i].cluster.pods then code == TargetMissing else polls[i].probe == Err(code)
  }

  /** The first poll that is decisive raises this, or time runs out. */
  ghost predicate EndsWith(t: Target, release: bool, polls: seq<Poll>, code: ErrorCode) {
    || (Silent(t, release, polls) && code == if release then ReleaseVerificationFailed
        else QuarantineVerificationFailed)
    || exists i: nat :: FailsAt(t, release, polls, i, code)
  }

  lemma SilentLonger(t: Target, release: bool, polls: seq<Poll>)
    requires polls != [] && !Passes(t, release, polls[0]) && !Breaks(t, polls[0])
    ensures Silent(t, release, polls[1..]) ==> Silent(t, release, polls)
  {
    if Silent(t, release, polls[1..]) {
      forall j | 0 <= j < |polls| ensures !Passes(t, release, polls[j]) && !Breaks(t, polls[j]) {
        if j > 0 { assert polls[j] == polls[1..][j - 1]; }
      }
    }
  }

  /** Why a verification fails. */
  lemma {:induction false} AwaitFails(t: Target, release: bool, polls: seq<Poll>)
    ensures Await(t, release, polls).Err? ==> EndsWith(t, release, polls, Await(t, release, polls).error)
  {
    if polls != [] && Await(t, release, polls).Err? {
      var rest, code := polls[1..], Await(t, release, polls).error;
      if Breaks(t, polls[0]) {
        assert FailsAt(t, release, polls, 0, code);
      } else {
        AwaitFails(t, release, rest);
        SilentLonger(t, release, polls);
        if i: nat :| FailsAt(t, release, rest, i, code) {
          SilentLonger(t, release, polls[..i + 1]);
          assert polls[..i + 1][1..] == rest[..i];
          assert FailsAt(t, release, polls, i + 1, code);
        }
      }
    }
  }

  /** The event is contained already, or somebody is at it. */
  predicate Handled(db: Db) {
    db.records != [] && var status := db.records[|db.records| - 1].status; status == Contained || status == Applying
  }

  /** An apply may act: nothing is in place, the incident goes on, the live pod is a demo pod, and policy allows it. */
  predicate MayApply(db: Db, a: Answers) {
    !Handled(db) && !Terminal(db.incident) && a.demoPod == Ok(true) && a.allowed
  }

  /** `t` holds `r` in place of the newest record of `db` that is not removed, or behind all of them. */
  predicate WroteRecord(db: Db, t: Db, r: Record) {
    t.records == if db.records != [] && db.records[|db.records| - 1].status != Removed
                 then db.records[|db.records| - 1 := r] else db.records + [r]
  }

  /** The incident as it is while an apply acts. */
  function Acting(state: IncidentState): IncidentState {
    if state == PolicyEvaluation || state == AwaitingApproval then Executing else state
  }

  /** An apply that may not act answers in this order, and leaves everything as it is. */
  lemma NotApplied(db: Db, a: Answers)
    requires !MayApply(db, a)
    ensures ApplyOnce(db, a) == Served(
              db,
              if Handled(db) then Ok(db.records[|db.records| - 1].status)
              else if Terminal(db.incident) then Err(IncidentNotActionable)
              else match a.demoPod
                   case Err(e) => Err(e)
                   case Ok(demo) => Err(if demo then PolicyDenied else TargetDenied))
  {
  }

  /** One that may act but has no attempt left only marks record and incident. */
  lemma AppliedTooOften(db: Db, a: Answers)
    requires MayApply(db, a) && Greatest(db.executions) >= 3
    ensures var r := ApplyOnce(db, a);
            && r.outcome == Err(RemediationAttemptLimit) && r.db.executions == db.executions
            && r.db.incident == Acting(db.incident) && r.db.target == db.target
            && WroteRecord(db, r.db, Record(Applying, LiveEvidence(db)))
  {
  }

  /** The evidence of the newest record unless that is removed. */
  function LiveEvidence(db: Db): Evidence {
    if db.records != [] && db.records[|db.records| - 1].status != Removed
    then db.records[|db.records| - 1].evidence else NotVerified
  }

  /** What an apply needs to end contained, once it acts. */
  ghost predicate Contains(db: Db, a: Answers) {
    && a.probe == Ok(true) && a.call.Ok?
    && (Acting(db.incident) == Executing || db.incident == Verifying || db.incident == Rollback)
    && SomePollPasses(db.target, false, a.polls)
  }

  /** Why an apply that acted did not end contained, the first reason in this order. */
  ghost predicate Reason(db: Db, a: Answers, code: ErrorCode) {
    if a.probe.Err? then code == a.probe.error
    else if !a.probe.value then code == QuarantineBaselineFailed
    else if a.call.Err? then code == a.call.error
    else if Acting(db.incident) != Executing && db.incident != Verifying && db.incident != Rollback
    then code == InvalidIncidentTransition
    else EndsWith(db.target, false, a.polls, code)
  }

  /** The incident after an apply that acted and failed: it is escalated if it was executing or verifying. */
  function FailedFrom(db: Db, a: Answers): IncidentState {
    var state := Acting(db.incident);
    if state == Executing || state == Verifying then Escalated
    else if state == Rollback && a.probe == Ok(true) && a.call.Ok? then Escalated
    else state
  }

  /** What the guarded part of an apply comes to. */
  lemma ContainmentComesTo(db: Db, a: Answers)
    ensures var (result, state) := Containment(db, Acting(db.incident), a);
            && (result.Ok? <==> Contains(db, a))
            && (result.Ok? ==>
                result.value in a.polls && ContainmentPasses(db.target, result.value) && state == Verifying)
            && (result.Err? ==> Reason(db, a, result.error) && AfterFailure(state) == FailedFrom(db, a))
  {
    AwaitPasses(db.target, false, a.polls);
    AwaitFails(db.target, false, a.polls);
    VerifiableFrom(Acting(db.incident));
  }

  lemma VerifiableFrom(state: IncidentState)
    ensures Moved(state, Verifying).Ok? <==> state == Executing || state == Verifying || state == Rollback
  {
  }

  /** Writing a record twice leaves the second. */
  lemma WrittenTwice(db: Db, first: Record, second: Record)
    requires first.status != Removed
    ensures WroteRecord(db, WithRecord(WithRecord(db, first), second), second)
  {
  }

  /** The rows of an apply that acted. */
  lemma Acted(db: Db, a: Answers)
    requires MayApply(db, a) && Greatest(db.executions) < 3
    ensures var (result, state) := Containment(db, Acting(db.incident), a);
            var r, attempt := ApplyOnce(db, a), Greatest(db.executions) + 1;
            && (result.Ok? ==>
                  && r.outcome == Ok(Contained) && r.db.incident == state
                  && r.db.executions == db.executions + [Execution(false, attempt, Succeeded)]
                  && WroteRecord(db, r.db, Record(Contained, ContainmentSeen(result.value))))
            && (result.Err? ==>
                  && r.outcome == Err(result.error) && r.db.incident == AfterFailure(state)
                  && r.db.executions == db.executions + [Execution(false, attempt, Failed(result.error))]
                  && WroteRecord(db, r.db, Record(VerificationFailed, FailedWith(result.error))))
  {
    var (result, state) := Containment(db, Acting(db.incident), a);
    ActsByMarking(db, a);
    ConcludedRows(db, Record(Applying, LiveEvidence(db)), state, result);
  }

  lemma ActsByMarking(db: Db, a: Answers)
    requires MayApply(db, a) && Greatest(db.executions) < 3
    ensures var (result, state) := Containment(db, Acting(db.incident), a);
            ApplyOnce(db, a)
            == Concluded(WithRecord(db, Record(Applying, LiveEvidence(db))).(incident := state), result)
  {
    assert Marked(db) == WithRecord(db, Record(Applying, LiveEvidence(db))).(incident := Acting(db.incident));
  }

  lemma ConcludedRows(db: Db, mark: Record, state: IncidentState, result: Result<Poll>)
    requires mark.status != Removed
    ensures var r := Concluded(WithRecord(db, mark).(incident := state), result);
            var attempt := Greatest(db.executions) + 1;
            && (result.Ok? ==>
                  && r.outcome == Ok(Contained) && r.db.incident == state
                  && r.db.executions == db.executions + [Execution(false, attempt, Succeeded)]
                  && WroteRecord(db, r.db, Record(Contained, ContainmentSeen(result.value))))
            && (result.Err? ==>
                  && r.outcome == Err(result.error) && r.db.incident == AfterFailure(state)
                  && r.db.executions == db.executions + [Execution(false, attempt, Failed(result.error))]
                  && WroteRecord(db, r.db, Record(VerificationFailed, FailedWith(result.error))))
  {
    if result.Ok? {
      WrittenTwice(db, mark, Record(Contained, ContainmentSeen(result.value)));
    } else {
      WrittenTwice(db, mark, Record(VerificationFailed, FailedWith(result.error)));
    }
  }

  /**
   An apply adds an execution if and only if nothing is in place, the incident goes on, the live pod is a demo
   pod, policy allows it and an attempt is left. It then ends contained exactly as `Contains` says, and each
   outcome's record, execution and incident are these.
   */
  lemma AppliedExactly(db: Db, a: Answers)
    ensures var r := ApplyOnce(db, a);
            var attempt := Greatest(db.executions) + 1;
            var acts := MayApply(db, a) && Greatest(db.executions) < 3;
            && (acts <==> r.db.executions != db.executions)
            && (acts ==> (r.outcome.Ok? <==> Contains(db, a)))
            && (acts && r.outcome.Ok? ==>
                  && r.outcome == Ok(Contained) && r.db.incident == Verifying
                  && r.db.executions == db.executions + [Execution(false, attempt, Succeeded)]
                  && exists p :: p in a.polls && ContainmentPasses(db.target, p)
                                 && WroteRecord(db, r.db, Record(Contained, ContainmentSeen(p))))
            && (acts && r.outcome.Err? ==>
                  && Reason(db, a, r.outcome.error)
                  && r.db.executions == db.executions + [Execution(false, attempt, Failed(r.outcome.error))]
                  && WroteRecord(db, r.db, Record(VerificationFailed, FailedWith(r.outcome.error)))
                  && r.db.incident == FailedFrom(db, a))
  {
    if MayApply(db, a) && Greatest(db.executions) < 3 {
      ContainmentComesTo(db, a);
      Acted(db, a);
    } else if MayApply(db, a) {
      AppliedTooOften(db, a);
    } else {
      NotApplied(db, a);
    }
  }

  /**
   Exactly when a live quarantine is removed: the pod can be read, policy allows it, an attempt is left, the
   cluster call succeeds and a poll passes every check before any raises. Each other outcome is told apart:
   a refusal changes nothing, a spent incident only marks the record, a failed removal stores its execution
   and keeps the evidence of the containment.
   */
  lemma RemovedExactlyWhenVerified(db: Db, a: Answers)
    requires Live(db).Some?
    ensures var r := RemoveOnce(db, a);
            var tried := a.demoPod.Ok? && a.allowed && Greatest(db.executions) < 3;
            var attempt := Greatest(db.executions) + 1;
            && (r.outcome == Ok(Removed) <==> tried && a.call.Ok? && SomePollPasses(db.target, true, a.polls))
            && (r.outcome.Ok? ==>
                  && r.outcome == Ok(Removed) && |r.db.records| == |db.records|
                  && Latest(r.db).value.status == Removed && Latest(r.db).value.evidence.ReleaseSeen?
                  && ReleasePasses(db.target, Latest(r.db).value.evidence.p)
                  && r.db.incident == (if db.incident == Verifying then Resolved else db.incident)
                  && r.db.executions == db.executions + [Execution(true, attempt, Succeeded)])
            && (r.outcome.Err? && tried ==>
                  && Latest(r.db) == Some(Record(VerificationFailed, Live(db).value.evidence))
                  && r.db.incident == db.incident
                  && r.db.executions == db.executions + [Execution(true, attempt, Failed(r.outcome.error))])
            && (a.demoPod.Ok? && a.allowed && !tried ==>
                  && r.outcome == Err(RemediationAttemptLimit)
                  && Latest(r.db) == Some(Live(db).value.(status := Removing))
                  && r.db == db.(records := r.db.records))
            && (!(a.demoPod.Ok? && a.allowed) ==> r.outcome.Err? && r.db == db)
  {
    AwaitPasses(db.target, true, a.polls);
  }

  /**
   Once the greatest attempt of an incident is its third, its quarantine is never lifted: no later call,
   however answered, makes the newest record REMOVED or gets past the attempt limit.
   */
  lemma {:induction false} SpentIncidentKeepsQuarantine(db: Db, steps: seq<Step>)
    requires Live(db).Some? && Greatest(db.executions) >= 3
    ensures Live(Run(db, steps)).Some? && Greatest(Run(db, steps).executions) >= 3
    ensures |Run(db, steps).records| == |db.records|
  {
    if steps != [] {
      SpentIncidentKeepsQuarantine(db, steps[..|steps| - 1]);
      SpentStep(Run(db, steps[..|steps| - 1]), steps[|steps| - 1]);
    }
  }

  lemma SpentStep(db: Db, s: Step)
    requires Live(db).Some? && Greatest(db.executions) >= 3
    ensures Live(Next(db, s)).Some? && Greatest(Next(db, s).executions) >= 3
    ensures |Next(db, s).records| == |db.records|
  {
    match s
    case ElsewhereExecuted(e) => GreatestIs(db.executions, e);
    case _ =>
  }

  /** Exactly when a live quarantine can still be lifted in some run: while its third attempt has not been used. */
  lemma RemovableExactlyWhileAttemptsRemain(db: Db)
    requires Live(db).Some?
    ensures (exists steps :: Lifts(db, steps)) <==> Greatest(db.executions) < 3
  {
    if Greatest(db.executions) < 3 {
      var cluster := Cluster(map[db.target.pod := Pod(map[], true, true)], map[]);
      var poll := Poll(cluster, Ok(true));
      var a := Answers(Ok(true), true, Ok(true), Ok(()), [poll]);
      assert Passes(db.target, true, poll);
      assert PassesAt(db.target, true, a.polls, 0);
      RemovedExactlyWhenVerified(db, a);
      var steps: seq<Step> := [CallRemove(a, true)];
      assert steps[..|steps| - 1] == [];
      assert Run(db, steps) == Next(db, steps[0]);
      assert Lifts(db, steps);
    } else {
      forall steps ensures !Lifts(db, steps) { SpentIncidentKeepsQuarantine(db, steps); }
    }
  }

  ghost predicate Lifts(db: Db, steps: seq<Step>) {
    Live(Run(db, steps)).None?
  }

  /** Applying to a contained event changes nothing and asks nothing of the outside. */
  lemma ApplyIsIdempotent(db: Db, a: Answers, b: Answers)
    requires ApplyOnce(db, a).outcome.Ok?
    ensures ApplyOnce(ApplyOnce(db, a).db, b) == Served(ApplyOnce(db, a).db, ApplyOnce(db, a).outcome)
  {
    AnsweredFromRecord(db, a);
  }

  /** An apply that returns leaves a live record that answers the next one. */
  lemma AnsweredFromRecord(db: Db, a: Answers)
    requires ApplyOnce(db, a).outcome.Ok?
    ensures var r := ApplyOnce(db, a);
            && Live(r.db).Some? && Live(r.db).value.status == r.outcome.value
            && (r.outcome.value == Contained || r.outcome.value == Applying)
  {
  }

  // ---------- the service ----------

  class SecurityContainment {
    const target: Target
    var incident: IncidentState
    var records: seq<Record>
    var executions: seq<Execution>

    constructor (target: Target, incident: IncidentState)
      ensures Snapshot() == Db(target, incident, [], []) && Sound(Snapshot())
    {
      this.target, this.incident, records, executions := target, incident, [], [];
    }

    function Snapshot(): Db
      reads this
    {
      Db(target, incident, records, executions)
    }

    method Write(r: Record)
      modifies this`records
      ensures Snapshot() == WithRecord(old(Snapshot()), r)
    {
      if records != [] && records[|records| - 1].status != Removed {
        records := records[|records| - 1 := r];
      } else {
        records := records + [r];
      }
    }

    /** The polling loop of either verification. */
    method WaitFor(release: bool, polls: seq<Poll>) returns (r: Result<Poll>)
      ensures r == Await(target, release, polls)
    {
      var i := 0;
      while i < |polls|
        invariant 0 <= i <= |polls|
        invariant Await(target, release, polls) == Await(target, release, polls[i..])
      {
        var p := polls[i];
        if target.pod !in p.cluster.pods { return Err(TargetMissing); }
        if p.probe.Err? { return Err(p.probe.error); }
        var state := StateOf(p.cluster, target.pod, ForQuarantine(target.id), target.id);
        var passes;
        if release {
          passes := !state.policyExists && !state.labelMatches && p.probe.value;
        } else {
          passes := state.Enforced() && !p.probe.value && p.cluster.pods[target.pod].ready;
        }
        if passes { return Ok(p); }
        assert polls[i..][1..] == polls[i + 1..];
        i := i + 1;
      }
      return Err(if release then ReleaseVerificationFailed else QuarantineVerificationFailed);
    }

    method ApplyQuarantine(a: Answers) returns (outcome: Result<Status>)
      modifies this
      ensures Served(Snapshot(), outcome) == ApplyOnce(old(Snapshot()), a)
    {
      var refused := Screen(a);
      if refused.Some? { return refused.value; }
      Mark();
      if Greatest(executions) >= 3 { return Err(RemediationAttemptLimit); }
      var verified := CallAndVerify(a);
      outcome := Conclude(verified);
    }

    /** The checks before anything is touched. */
    method Screen(a: Answers) returns (refused: Option<Result<Status>>)
      ensures refused == Refused(Snapshot(), a)
    {
      if records != [] && (records[|records| - 1].status == Contained || records[|records| - 1].status == Applying) {
        return Some(Ok(records[|records| - 1].status));
      }
      if Terminal(incident) { return Some(Err(IncidentNotActionable)); }
      if a.demoPod.Err? { return Some(Err(a.demoPod.error)); }
      if !a.demoPod.value { return Some(Err(TargetDenied)); }
      if !a.allowed { return Some(Err(PolicyDenied)); }
      return None;
    }

    method Mark()
      modifies this
      ensures Snapshot() == Marked(old(Snapshot()))
    {
      Write(Record(Applying, if Live(Snapshot()).Some? then Live(Snapshot()).value.evidence else NotVerified));
      if incident == PolicyEvaluation || incident == AwaitingApproval {
        incident := Executing;
      }
    }

    /** The guarded part of an apply: baseline probe, cluster call, and verification. */
    method CallAndVerify(a: Answers) returns (verified: Result<Poll>)
      modifies this`incident
      ensures Containment(old(Snapshot()), old(incident), a) == (verified, incident)
    {
      if a.probe.Err? { return Err(a.probe.error); }
      if !a.probe.value { return Err(QuarantineBaselineFailed); }
      if a.call.Err? { return Err(a.call.error); }
      if Moved(incident, Verifying).Err? { return Err(InvalidIncidentTransition); }
      incident := Verifying;
      verified := WaitFor(false, a.polls);
    }

    /** Records the outcome; a failure escalates an incident that is executing or verifying. */
    method Conclude(verified: Result<Poll>) returns (outcome: Result<Status>)
      modifies this
      ensures Served(Snapshot(), outcome) == Concluded(old(Snapshot()), verified)
    {
      var attempt := Greatest(executions) + 1;
      if verified.Err? {
        Write(Record(VerificationFailed, FailedWith(verified.error)));
        executions := executions + [Execution(false, attempt, Failed(verified.error))];
        if incident == Executing || incident == Verifying { incident := Escalated; }
        return Err(verified.error);
      }
      Write(Record(Contained, ContainmentSeen(verified.value)));
      executions := executions + [Execution(false, attempt, Succeeded)];
      return Ok(Contained);
    }

    method RemoveQuarantine(a: Answers) returns (outcome: Result<Status>)
      modifies this
      ensures Served(Snapshot(), outcome) == RemoveOnce(old(Snapshot()), a)
    {
      if records == [] { return Err(QuarantineNotFound); }
      var record := records[|records| - 1];
      if record.status == Removed { return Ok(Removed); }
      if a.demoPod.Err? { return Err(a.demoPod.error); }
      if !a.allowed { return Err(PolicyDenied); }
      Write(record.(status := Removing));
      if Greatest(executions) >= 3 { return Err(RemediationAttemptLimit); }
      var attempt := Greatest(executions) + 1;
      var verified: Result<Poll>;
      if a.call.Err? {
        verified := Err(a.call.error);
      } else {
        verified := WaitFor(true, a.polls);
      }
      if verified.Err? {
        Write(Record(VerificationFailed, record.evidence));
        executions := executions + [Execution(true, attempt, Failed(verified.error))];
        return Err(verified.error);
      }
      Write(Record(Removed, ReleaseSeen(verified.value)));
      executions := executions + [Execution(true, attempt, Succeeded)];
      if incident == Verifying { incident := Resolved; }
      return Ok(Removed);
    }
  }
}
