/**
 Incidents under sessions that hold a state they have read before, and under transactions that roll back.

 A database session keeps what it has read, also after it commits. A change it makes is checked against
 that state, told by its event as leaving that state, and written over whatever state the row is in by
 then. The gauge of active incidents is kept in memory, so a rollback does not undo its steps.
 */
module IncidentSessions {
  import opened Results
  import opened IncidentStates
  import opened Incidents

  /**
   A request that reads the row it changes, a change by a session that knows some state, or a step that is
   rolled back.
   */
  datatype Step =
    | Fresh(request: Request)
    | Late(id: nat, known: IncidentState, target: IncidentState, force: bool, now: int)
    | RolledBack(step: Step)

  /** A change of an incident that its session takes to be in state `known`. */
  function ChangeKnowing(st: Store, id: nat, known: IncidentState, target: IncidentState, force: bool, now: int)
    : Result<Store>
    requires id in st.incidents
  {
    if known == target then Ok(st)
    else if !force && TransitionIncident(known, target).Err? then Err(InvalidIncidentTransition)
    else
      var incident := st.incidents[id];
      var resolvedAt := if target == Resolved then Some(now) else incident.resolvedAt;
      Ok(Store(
          st.incidents[id := incident.(state := target, resolvedAt := resolvedAt)],
          st.events + [StateChanged(id, known, target)],
          if Terminal(target) then st.gauge.Add(incident.environment, -1) else st.gauge))
  }

  function Take(st: Store, step: Step): Store {
    match step
    case Fresh(r) => Serve(st, r)
    case Late(id, known, target, force, now) =>
      if id !in st.incidents then st
      else (match ChangeKnowing(st, id, known, target, force, now) case Ok(s) => s case Err(_) => st)
    case RolledBack(undone) => st.(gauge := Take(st, undone).gauge)
  }

  function TakeAll(st: Store, steps: seq<Step>): Store {
    if steps == [] then st else Take(TakeAll(st, steps[..|steps| - 1]), steps[|steps| - 1])
  }

  // ---------- what goes wrong ----------

  datatype Change = Change(id: nat, known: IncidentState, target: IncidentState)

  /** The state change that a request makes, if it makes one. */
  function ChangeOf(st: Store, r: Request): Option<Change> {
    if r.id !in st.incidents then None else
    var state := st.incidents[r.id].state;
    match r
    case CreateIncident(_, _) => None
    case Move(id, target, _) =>
      if state != target && Allowed(state, target) then Some(Change(id, state, target)) else None
    case ResolveByOperator(id, _) => if state != Resolved then Some(Change(id, state, Resolved)) else None
    case UpdateByOperator(id, target, _, _) =>
      if target.Some? && target.value != state then Some(Change(id, state, target.value)) else None
  }

  function StoredChange(st: Store, step: Step): Option<Change> {
    match step
    case Fresh(r) => ChangeOf(st, r)
    case Late(id, known, target, force, _) =>
      if id in st.incidents && known != target && (force || Allowed(known, target))
      then Some(Change(id, known, target)) else None
    case RolledBack(_) => None
  }

  /** The step writes over a state of this incident that its session does not know. */
  predicate Overwrites(st: Store, step: Step, id: nat) {
    var c := StoredChange(st, step);
    c.Some? && c.value.id == id && id in st.incidents && st.incidents[id].state != c.value.known
  }

  predicate EverOverwritten(st: Store, steps: seq<Step>, id: nat) {
    steps != [] &&
    var before := steps[..|steps| - 1];
    EverOverwritten(st, before, id) || Overwrites(TakeAll(st, before), steps[|steps| - 1], id)
  }

  /** By how much a step takes the gauge of one environment away from its open incidents. */
  function Drift(st: Store, step: Step, e: Environment): int {
    var c := StoredChange(st, step);
    if c.Some? && c.value.id in st.incidents && st.incidents[c.value.id].environment == e
       && Terminal(st.incidents[c.value.id].state) then -1
    else if step.RolledBack? then LostStep(st, step.step, e)
    else 0
  }

  /** What a step adds to the gauge. */
  function LostStep(st: Store, step: Step, e: Environment): int {
    var c := StoredChange(st, step);
    match step
    case RolledBack(undone) => LostStep(st, undone, e)
    case Fresh(CreateIncident(id, environment)) => if id !in st.incidents && environment == e then 1 else 0
    case _ =>
      if c.Some? && c.value.id in st.incidents && st.incidents[c.value.id].environment == e && Terminal(c.value.target)
      then -1 else 0
  }

  function TotalDrift(st: Store, steps: seq<Step>, e: Environment): int {
    if steps == [] then 0 else
    var before := steps[..|steps| - 1];
    TotalDrift(st, before, e) + Drift(TakeAll(st, before), steps[|steps| - 1], e)
  }

  // ---------- one step ----------

  /** What is known of one incident's log: it leads to the row's state, or it is broken. */
  ghost predicate LogOf(st: Store, id: nat, broken: bool) {
    Replay(st.events, id) == if broken then Broken else Stored(st.incidents, id)
  }

  lemma ChangeLog(st: Store, id: nat, known: IncidentState, target: IncidentState, force: bool, now: int,
                  other: nat, broken: bool)
    requires id in st.incidents && LogOf(st, other, broken) && known != target
    ensures var r := ChangeKnowing(st, id, known, target, force, now);
            r.Ok? ==> LogOf(r.value, other, broken || (other == id && st.incidents[id].state != known))
  {
    ReplayAppend(st.events, StateChanged(id, known, target), other);
  }

  lemma RequestLog(st: Store, r: Request, id: nat, broken: bool)
    requires LogOf(st, id, broken)
    ensures LogOf(Serve(st, r), id, broken)
  {
    match r
    case CreateIncident(created, environment) =>
      if created !in st.incidents { ReplayAppend(st.events, IncidentCreated(created), id); }
    case Move(moved, target, now) =>
      if moved in st.incidents { FreshLog(st, moved, target, false, now, id, broken); }
    case ResolveByOperator(moved, now) =>
      if moved in st.incidents { FreshLog(st, moved, Resolved, true, now, id, broken); }
    case UpdateByOperator(moved, target, changesText, now) =>
      if moved in st.incidents {
        if target.Some? { FreshLog(st, moved, target.value, true, now, id, broken); }
        var after := if target.Some? then ChangeState(st, moved, target.value, true, now).value else st;
        ReplayAppend(after.events, IncidentUpdated(moved, after.incidents[moved].state), id);
      }
  }

  lemma FreshLog(st: Store, id: nat, target: IncidentState, force: bool, now: int, other: nat, broken: bool)
    requires id in st.incidents && LogOf(st, other, broken)
    ensures var r := ChangeState(st, id, target, force, now);
            r.Ok? ==> LogOf(r.value, other, broken)
  {
    var known := st.incidents[id].state;
    if known != target { ChangeLog(st, id, known, target, force, now, other, broken); }
  }

  lemma StepLog(st: Store, step: Step, id: nat, broken: bool)
    requires LogOf(st, id, broken)
    ensures LogOf(Take(st, step), id, broken || Overwrites(st, step, id))
  {
    match step
    case Fresh(r) => RequestLog(st, r, id, broken);
    case Late(moved, known, target, force, now) =>
      if moved in st.incidents && known != target { ChangeLog(st, moved, known, target, force, now, id, broken); }
    case RolledBack(_) =>
  }

  /** How far the gauge of one environment is from its open incidents. */
  function Error(st: Store, e: Environment): int {
    st.gauge.Get(e) - |ActiveIds(st.incidents, e)|
  }

  lemma ChangeError(st: Store, id: nat, known: IncidentState, target: IncidentState, force: bool, now: int,
                    e: Environment)
    requires id in st.incidents && known != target
    ensures var r := ChangeKnowing(st, id, known, target, force, now);
            r.Ok? ==>
              Error(r.value, e) == Error(st, e)
              - if st.incidents[id].environment == e && Terminal(st.incidents[id].state) then 1 else 0
  {
    var r := ChangeKnowing(st, id, known, target, force, now);
    if r.Ok? { ActiveStep(st.incidents, r.value.incidents, id, e); }
  }

  lemma RequestError(st: Store, r: Request, e: Environment)
    ensures Error(Serve(st, r), e) == Error(st, e) + Drift(st, Fresh(r), e)
  {
    match r
    case CreateIncident(id, environment) =>
      if id !in st.incidents { ActiveStep(st.incidents, Create(st, id, environment).incidents, id, e); }
    case Move(id, target, now) =>
      if id in st.incidents { FreshError(st, id, target, false, now, e); }
    case ResolveByOperator(id, now) =>
      if id in st.incidents { FreshError(st, id, Resolved, true, now, e); }
    case UpdateByOperator(id, target, _, now) =>
      if id in st.incidents && target.Some? { FreshError(st, id, target.value, true, now, e); }
  }

  lemma FreshError(st: Store, id: nat, target: IncidentState, force: bool, now: int, e: Environment)
    requires id in st.incidents
    ensures var r, row := ChangeState(st, id, target, force, now), st.incidents[id];
            r.Ok? ==>
              Error(r.value, e) == Error(st, e)
              - if row.state != target && row.environment == e && Terminal(row.state) then 1 else 0
  {
    var known := st.incidents[id].state;
    if known != target {
      assert ChangeState(st, id, target, force, now) == ChangeKnowing(st, id, known, target, force, now);
      ChangeError(st, id, known, target, force, now, e);
    }
  }

  lemma RequestGauge(st: Store, r: Request, e: Environment)
    ensures Serve(st, r).gauge.Get(e) == st.gauge.Get(e) + LostStep(st, Fresh(r), e)
  {
  }

  lemma {:induction false} StepGauge(st: Store, step: Step, e: Environment)
    ensures Take(st, step).gauge.Get(e) == st.gauge.Get(e) + LostStep(st, step, e)
  {
    match step
    case Fresh(r) => RequestGauge(st, r, e);
    case Late(_, _, _, _, _) =>
    case RolledBack(undone) => StepGauge(st, undone, e);
  }

  lemma StepError(st: Store, step: Step, e: Environment)
    ensures Error(Take(st, step), e) == Error(st, e) + Drift(st, step, e)
  {
    match step
    case Fresh(r) => RequestError(st, r, e);
    case Late(id, known, target, force, now) =>
      if id in st.incidents && known != target { ChangeError(st, id, known, target, force, now, e); }
    case RolledBack(undone) => StepGauge(st, undone, e);
  }

  // ---------- every run ----------

  /**
   Whatever sessions write and whichever transactions roll back: an incident's log leads to its state
   exactly when no session wrote over a state of it that it did not know, and is broken from then on. The
   gauge is off by exactly the changes written over an ended incident and the gauge steps of what was rolled back.
   */
  lemma {:induction false} EverySession(steps: seq<Step>, id: nat, e: Environment)
    ensures var st := TakeAll(EMPTY, steps);
            && Replay(st.events, id) == (if EverOverwritten(EMPTY, steps, id) then Broken else Stored(st.incidents, id))
            && st.gauge.Get(e) == |ActiveIds(st.incidents, e)| + TotalDrift(EMPTY, steps, e)
  {
    if steps == [] {
      assert ActiveIds(EMPTY.incidents, e) == {};
    } else {
      var before := steps[..|steps| - 1];
      EverySession(before, id, e);
      var st := TakeAll(EMPTY, before);
      StepLog(st, steps[|steps| - 1], id, EverOverwritten(EMPTY, before, id));
      StepError(st, steps[|steps| - 1], e);
    }
  }

  /** The runs in which every session knows the row it changes are those of `Incidents`. */
  lemma {:induction false} FreshSessions(requests: seq<Request>, id: nat)
    ensures var steps := seq(|requests|, i requires 0 <= i < |requests| => Fresh(requests[i]));
            TakeAll(EMPTY, steps) == ServeAll(EMPTY, requests) && !EverOverwritten(EMPTY, steps, id)
  {
    if requests != [] {
      var shorter := requests[..|requests| - 1];
      FreshSessions(shorter, id);
      var steps := seq(|requests|, i requires 0 <= i < |requests| => Fresh(requests[i]));
      assert steps[..|steps| - 1] == seq(|shorter|, i requires 0 <= i < |shorter| => Fresh(shorter[i]));
    }
  }

  /**
   An unforced change leaves a terminal state exactly when its session takes the incident to be in an
   earlier state from which the target may be reached, and the target is not the terminal state itself.
   */
  lemma UnforcedLeavesTerminal(st: Store, id: nat, known: IncidentState, target: IncidentState, now: int)
    requires id in st.incidents && Terminal(st.incidents[id].state)
    ensures Take(st, Late(id, known, target, false, now)).incidents[id].state != st.incidents[id].state
       <==> Allowed(known, target) && target != st.incidents[id].state
    ensures Allowed(known, target) ==> Overwrites(st, Late(id, known, target, false, now), id)
  {
  }

  /**
   Without forced changes an ended incident stays as it ended as long as no session writes over a state it
   does not know.
   */
  lemma {:induction false} EndedStaysUnlessOverwritten(st: Store, steps: seq<Step>, id: nat)
    requires id in st.incidents && Terminal(st.incidents[id].state)
    requires forall i :: 0 <= i < |steps| ==> Unforced(steps[i])
    ensures !EverOverwritten(st, steps, id) ==>
              var after := TakeAll(st, steps); id in after.incidents && after.incidents[id] == st.incidents[id]
  {
    if steps != [] {
      EndedStaysUnlessOverwritten(st, steps[..|steps| - 1], id);
    }
  }

  predicate Unforced(step: Step) {
    match step
    case Fresh(r) => r.CreateIncident? || r.Move?
    case Late(_, _, _, force, _) => !force
    case RolledBack(_) => true
  }
}
