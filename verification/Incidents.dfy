/**
 Incident rows, their event log and the active-incident gauge, as one store that creation,
 state changes (forced or not), operator resolution and operator updates modify.
 */
module Incidents {
  import opened Results
  import opened IncidentStates

  datatype Incident = Incident(environment: Environment, state: IncidentState, resolvedAt: Option<int>)

  datatype IncidentEvent =
    | IncidentCreated(id: nat)
    | StateChanged(id: nat, from: IncidentState, to: IncidentState)
    | IncidentUpdated(id: nat, at: IncidentState)

  /** The in-memory gauge of active incidents, one count per environment. */
  datatype Gauge = Gauge(local: int, staging: int, production: int) {
    function Get(e: Environment): int {
      match e case Local => local case Staging => staging case Production => production
    }

    function Add(e: Environment, delta: int): Gauge {
      match e
      case Local => this.(local := local + delta)
      case Staging => this.(staging := staging + delta)
      case Production => this.(production := production + delta)
    }
  }

  /** The database rows together with the gauge. */
  datatype Store = Store(incidents: map<nat, Incident>, events: seq<IncidentEvent>, gauge: Gauge)

  const EMPTY := Store(map[], [], Gauge(0, 0, 0))

  // ---------- the operations ----------

  function Create(st: Store, id: nat, environment: Environment): Store
  {
    Store(
      st.incidents[id := Incident(environment, Detected, None)],
      st.events + [IncidentCreated(id)],
      st.gauge.Add(environment, 1))
  }

  function ChangeState(st: Store, id: nat, target: IncidentState, force: bool, now: int): Result<Store>
    requires id in st.incidents
  {
    var incident := st.incidents[id];
    if incident.state == target then Ok(st)
    else if !force && TransitionIncident(incident.state, target).Err? then Err(InvalidIncidentTransition)
    else
      var resolvedAt := if target == Resolved then Some(now) else incident.resolvedAt;
      Ok(Store(
          st.incidents[id := incident.(state := target, resolvedAt := resolvedAt)],
          st.events + [StateChanged(id, incident.state, target)],
          if Terminal(target) then st.gauge.Add(incident.environment, -1) else st.gauge))
  }

  /** What a caller may ask of the service. Operator resolution and operator updates are forced changes. */
  datatype Request =
    | CreateIncident(id: nat, environment: Environment)
    | Move(id: nat, target: IncidentState, now: int)
    | ResolveByOperator(id: nat, now: int)
    | UpdateByOperator(id: nat, newState: Option<IncidentState>, changesText: bool, now: int)

  /** One request; a request that fails, or names a missing row, leaves the store as it was. */
  function Serve(st: Store, r: Request): Store {
    match r
    case CreateIncident(id, environment) =>
      if id in st.incidents then st else Create(st, id, environment)
    case Move(id, target, now) =>
      if id !in st.incidents then st
      else (match ChangeState(st, id, target, false, now) case Ok(s) => s case Err(_) => st)
    case ResolveByOperator(id, now) =>
      if id !in st.incidents then st else ChangeState(st, id, Resolved, true, now).value
    case UpdateByOperator(id, target, changesText, now) =>
      if id !in st.incidents then st else Update(st, id, target, changesText, now)
  }

  function Update(st: Store, id: nat, target: Option<IncidentState>, changesText: bool, now: int): Store
    requires id in st.incidents
  {
    var moved := if target.Some? then ChangeState(st, id, target.value, true, now).value else st;
    if changesText
    then moved.(events := moved.events + [IncidentUpdated(id, moved.incidents[id].state)])
    else moved
  }

  function ServeAll(st: Store, requests: seq<Request>): Store {
    if requests == [] then st else Serve(ServeAll(st, requests[..|requests| - 1]), requests[|requests| - 1])
  }

  // ---------- the log replayed ----------

  datatype Replayed = Absent | At(state: IncidentState) | Broken

  /** The state the log leads to for one incident, Broken when an event does not continue the previous one. */
  function Replay(events: seq<IncidentEvent>, id: nat): Replayed {
    if events == [] then Absent
    else Follow(Replay(events[..|events| - 1], id), events[|events| - 1], id)
  }

  function Follow(before: Replayed, e: IncidentEvent, id: nat): Replayed {
    if e.id != id then before else
    match e
    case IncidentCreated(_) => if before == Absent then At(Detected) else Broken
    case StateChanged(_, from, to) => if before == At(from) then At(to) else Broken
    case IncidentUpdated(_, at) => if before == At(at) then before else Broken
  }

  /** How many state changes of one environment's incidents left a terminal state. */
  function Reopenings(events: seq<IncidentEvent>, incidents: map<nat, Incident>, environment: Environment): nat {
    if events == [] then 0 else
    Reopenings(events[..|events| - 1], incidents, environment)
    + if LeavesTerminal(events[|events| - 1], incidents, environment) then 1 else 0
  }

  predicate LeavesTerminal(e: IncidentEvent, incidents: map<nat, Incident>, environment: Environment) {
    e.StateChanged? && Terminal(e.from) && e.id in incidents && incidents[e.id].environment == environment
  }

  /** An open incident of one environment. */
  predicate Active(incidents: map<nat, Incident>, id: nat, environment: Environment) {
    id in incidents && incidents[id].environment == environment && !Terminal(incidents[id].state)
  }

  function ActiveIds(incidents: map<nat, Incident>, environment: Environment): set<nat> {
    set id | id in incidents && Active(incidents, id, environment)
  }

  ghost predicate EventsKnown(st: Store) {
    forall i :: 0 <= i < |st.events| ==> st.events[i].id in st.incidents
  }

  /** What the log should lead to, going by the stored rows. */
  function Stored(incidents: map<nat, Incident>, id: nat): Replayed {
    if id in incidents then At(incidents[id].state) else Absent
  }

  ghost predicate LogIsState(st: Store) {
    forall id :: Replay(st.events, id) == Stored(st.incidents, id)
  }

  ghost predicate GaugeLaw(st: Store) {
    forall e: Environment ::
      st.gauge.Get(e) == |ActiveIds(st.incidents, e)| - Reopenings(st.events, st.incidents, e)
  }

  ghost predicate Consistent(st: Store) {
    EventsKnown(st) && LogIsState(st) && GaugeLaw(st)
  }

  // ---------- one step ----------

  lemma ReplayAppend(events: seq<IncidentEvent>, e: IncidentEvent, id: nat)
    ensures Replay(events + [e], id) == Follow(Replay(events, id), e, id)
  {
    assert (events + [e])[..|events|] == events;
  }

  lemma ReopeningsAppend(events: seq<IncidentEvent>, e: IncidentEvent, incidents: map<nat, Incident>, env: Environment)
    ensures Reopenings(events + [e], incidents, env)
         == Reopenings(events, incidents, env) + if LeavesTerminal(e, incidents, env) then 1 else 0
  {
    assert (events + [e])[..|events|] == events;
  }

  /** Reopenings depend only on which environment the rows named by the log belong to. */
  lemma {:induction false} ReopeningsFrame(events: seq<IncidentEvent>, a: map<nat, Incident>, b: map<nat, Incident>,
                                           env: Environment)
    requires forall i :: 0 <= i < |events| ==>
               events[i].id in a && events[i].id in b && a[events[i].id].environment == b[events[i].id].environment
    ensures Reopenings(events, a, env) == Reopenings(events, b, env)
  {
    if events != [] {
      ReopeningsFrame(events[..|events| - 1], a, b, env);
    }
  }

  /** One more event keeps log and rows together when it turns the old row into the new one. */
  lemma LogStep(before: Store, after: Store, e: IncidentEvent)
    requires LogIsState(before) && after.events == before.events + [e]
    requires Follow(Stored(before.incidents, e.id), e, e.id) == Stored(after.incidents, e.id)
    requires forall id :: id != e.id ==> Stored(after.incidents, id) == Stored(before.incidents, id)
    ensures LogIsState(after)
  {
    forall id ensures Replay(after.events, id) == Stored(after.incidents, id) {
      ReplayAppend(before.events, e, id);
    }
  }

  /** The reopenings of one environment, one event and one row later. */
  lemma ReopeningsStep(before: Store, after: Store, e: IncidentEvent, env: Environment)
    requires EventsKnown(before) && after.events == before.events + [e]
    requires forall id :: id in before.incidents ==>
               id in after.incidents && after.incidents[id].environment == before.incidents[id].environment
    ensures Reopenings(after.events, after.incidents, env)
         == Reopenings(before.events, before.incidents, env) + if LeavesTerminal(e, after.incidents, env) then 1 else 0
  {
    ReopeningsAppend(before.events, e, after.incidents, env);
    ReopeningsFrame(before.events, before.incidents, after.incidents, env);
  }

  /** Changing one row changes the number of open incidents by what that row contributes. */
  lemma ActiveStep(a: map<nat, Incident>, b: map<nat, Incident>, id: nat, env: Environment)
    requires forall other :: other != id ==> (Active(a, other, env) <==> Active(b, other, env))
    ensures |ActiveIds(b, env)|
         == |ActiveIds(a, env)| - (if Active(a, id, env) then 1 else 0) + if Active(b, id, env) then 1 else 0
  {
    var rest := ActiveIds(a, env) - {id};
    ActiveRest(a, id, env);
    ActiveRest(b, id, env);
    assert rest == ActiveIds(b, env) - {id};
  }

  lemma ActiveRest(a: map<nat, Incident>, id: nat, env: Environment)
    ensures |ActiveIds(a, env)| == |ActiveIds(a, env) - {id}| + if Active(a, id, env) then 1 else 0
  {
    var rest := ActiveIds(a, env) - {id};
    assert ActiveIds(a, env) == if Active(a, id, env) then rest + {id} else rest;
  }

  lemma CreateConsistent(st: Store, id: nat, environment: Environment)
    requires Consistent(st) && id !in st.incidents
    ensures Consistent(Create(st, id, environment))
  {
    var after := Create(st, id, environment);
    LogStep(st, after, IncidentCreated(id));
    forall env: Environment
      ensures after.gauge.Get(env) == |ActiveIds(after.incidents, env)| - Reopenings(after.events, after.incidents, env)
    {
      ReopeningsStep(st, after, IncidentCreated(id), env);
      ActiveStep(st.incidents, after.incidents, id, env);
    }
  }

  lemma ChangeConsistent(st: Store, id: nat, target: IncidentState, force: bool, now: int)
    requires Consistent(st) && id in st.incidents
    ensures var r := ChangeState(st, id, target, force, now);
            r.Ok? ==> Consistent(r.value)
  {
    var r := ChangeState(st, id, target, force, now);
    if r.Ok? && st.incidents[id].state != target {
      var after := r.value;
      var e := StateChanged(id, st.incidents[id].state, target);
      LogStep(st, after, e);
      forall env: Environment
        ensures after.gauge.Get(env)
                == |ActiveIds(after.incidents, env)| - Reopenings(after.events, after.incidents, env)
      {
        ReopeningsStep(st, after, e, env);
        ActiveStep(st.incidents, after.incidents, id, env);
      }
    }
  }

  lemma UpdatedConsistent(st: Store, id: nat)
    requires Consistent(st) && id in st.incidents
    ensures Consistent(st.(events := st.events + [IncidentUpdated(id, st.incidents[id].state)]))
  {
    var e := IncidentUpdated(id, st.incidents[id].state);
    LogStep(st, st.(events := st.events + [e]), e);
    forall env: Environment
      ensures st.gauge.Get(env) == |ActiveIds(st.incidents, env)| - Reopenings(st.events + [e], st.incidents, env)
    {
      ReopeningsStep(st, st.(events := st.events + [e]), e, env);
    }
  }

  lemma ServeConsistent(st: Store, r: Request)
    requires Consistent(st)
    ensures Consistent(Serve(st, r))
  {
    match r
    case CreateIncident(id, environment) =>
      if id !in st.incidents { CreateConsistent(st, id, environment); }
    case Move(id, target, now) =>
      if id in st.incidents { ChangeConsistent(st, id, target, false, now); }
    case ResolveByOperator(id, now) =>
      if id in st.incidents { ChangeConsistent(st, id, Resolved, true, now); }
    case UpdateByOperator(id, target, changesText, now) =>
      if id in st.incidents {
        if target.Some? { ChangeConsistent(st, id, target.value, true, now); }
        var moved := if target.Some? then ChangeState(st, id, target.value, true, now).value else st;
        UpdatedConsistent(moved, id);
      }
  }

  // ---------- every run ----------

  /**
   After any requests, forced changes included, replaying the log gives every incident's state, and
   the gauge misses the number of open incidents by exactly the number of changes that left a
   terminal state. So it is exact if and only if no such change happened.
   */
  lemma {:induction false} EveryRun(requests: seq<Request>)
    ensures var st := ServeAll(EMPTY, requests);
            && (forall id :: Replay(st.events, id) == Stored(st.incidents, id))
            && (forall e: Environment ::
                  st.gauge.Get(e) == |ActiveIds(st.incidents, e)| - Reopenings(st.events, st.incidents, e))
            && (forall e: Environment ::
                  st.gauge.Get(e) == |ActiveIds(st.incidents, e)| <==> Reopenings(st.events, st.incidents, e) == 0)
    ensures Consistent(ServeAll(EMPTY, requests))
  {
    if requests == [] {
      forall e: Environment ensures ActiveIds(EMPTY.incidents, e) == {} {}
    } else {
      EveryRun(requests[..|requests| - 1]);
      ServeConsistent(ServeAll(EMPTY, requests[..|requests| - 1]), requests[|requests| - 1]);
    }
  }

  /**
   The gauge does go wrong: resolving by hand an incident that was already blocked or escalated
   lowers it although no open incident was closed, and reopening one does not raise it.
   */
  lemma ForcedChangeFromTerminalMissesGauge(st: Store, id: nat, target: IncidentState, now: int)
    requires id in st.incidents && Terminal(st.incidents[id].state) && st.incidents[id].state != target
    ensures var after := Serve(st, UpdateByOperator(id, Some(target), false, now));
            var env := st.incidents[id].environment;
            && after.gauge.Get(env) == st.gauge.Get(env) - (if Terminal(target) then 1 else 0)
            && |ActiveIds(after.incidents, env)| == |ActiveIds(st.incidents, env)| + (if Terminal(target) then 0 else 1)
  {
    var after := Serve(st, UpdateByOperator(id, Some(target), false, now));
    ActiveStep(st.incidents, after.incidents, id, st.incidents[id].environment);
  }

  /** Without forced changes a terminal state is final, whatever else is requested. */
  lemma {:induction false} TerminalIsAbsorbing(st: Store, requests: seq<Request>, id: nat)
    requires id in st.incidents && Terminal(st.incidents[id].state)
    requires forall i :: 0 <= i < |requests| ==> requests[i].CreateIncident? || requests[i].Move?
    ensures var after := ServeAll(st, requests);
            id in after.incidents && after.incidents[id] == st.incidents[id]
  {
    if requests != [] {
      TerminalIsAbsorbing(st, requests[..|requests| - 1], id);
    }
  }

  /** The log says that the incident has been resolved. */
  ghost predicate WasResolved(events: seq<IncidentEvent>, id: nat) {
    exists k :: 0 <= k < |events| && events[k].StateChanged? && events[k].id == id && events[k].to == Resolved
  }

  lemma WasResolvedLonger(events: seq<IncidentEvent>, e: IncidentEvent, id: nat)
    ensures WasResolved(events + [e], id)
       <==> WasResolved(events, id) || (e.StateChanged? && e.id == id && e.to == Resolved)
  {
    if k :| 0 <= k < |events| && events[k].StateChanged? && events[k].id == id && events[k].to == Resolved {
      assert (events + [e])[k] == events[k];
    }
    if e.StateChanged? && e.id == id && e.to == Resolved { assert (events + [e])[|events|] == e; }
  }

  ghost predicate Dated(st: Store, id: nat) {
    id in st.incidents ==> (st.incidents[id].resolvedAt.Some? <==> WasResolved(st.events, id))
  }

  lemma ChangeDates(st: Store, id: nat, target: IncidentState, force: bool, now: int, other: nat)
    requires id in st.incidents && Dated(st, other)
    ensures var r := ChangeState(st, id, target, force, now);
            r.Ok? ==>
              Dated(r.value, other) && (forall k :: k in r.value.incidents <==> k in st.incidents)
              && (target == Resolved && st.incidents[id].state != Resolved ==>
                  r.value.incidents[id].resolvedAt == Some(now))
  {
    WasResolvedLonger(st.events, StateChanged(id, st.incidents[id].state, target), other);
  }

  lemma ServeDates(st: Store, r: Request, id: nat)
    requires Dated(st, id) && EventsKnown(st)
    ensures Dated(Serve(st, r), id)
  {
    match r
    case CreateIncident(created, _) =>
      if created !in st.incidents { WasResolvedLonger(st.events, IncidentCreated(created), id); }
    case Move(moved, target, now) =>
      if moved in st.incidents { ChangeDates(st, moved, target, false, now, id); }
    case ResolveByOperator(moved, now) =>
      if moved in st.incidents { ChangeDates(st, moved, Resolved, true, now, id); }
    case UpdateByOperator(moved, target, _, now) =>
      if moved in st.incidents {
        if target.Some? { ChangeDates(st, moved, target.value, true, now, id); }
        var after := if target.Some? then ChangeState(st, moved, target.value, true, now).value else st;
        WasResolvedLonger(after.events, IncidentUpdated(moved, after.incidents[moved].state), id);
      }
  }

  /** In every run an incident has a time of resolution exactly if its log says that it has been resolved. */
  lemma {:induction false} ResolvedIsDated(requests: seq<Request>, id: nat)
    ensures Dated(ServeAll(EMPTY, requests), id)
  {
    if requests != [] {
      var earlier := requests[..|requests| - 1];
      ResolvedIsDated(earlier, id);
      EveryRun(earlier);
      ServeDates(ServeAll(EMPTY, earlier), requests[|requests| - 1], id);
    }
  }

  // ---------- the service ----------

  /** The rows and the gauge, modified in place. */
  class IncidentService {
    var incidents: map<nat, Incident>
    var events: seq<IncidentEvent>
    var gauge: Gauge

    ghost function Snapshot(): Store
      reads this
    {
      Store(incidents, events, gauge)
    }

    ghost predicate Valid()
      reads this
    {
      Consistent(Snapshot())
    }

    constructor ()
      ensures Valid() && Snapshot() == EMPTY
    {
      incidents, events, gauge := map[], [], Gauge(0, 0, 0);
      new;
      EveryRun([]);
    }

    method CreateIncident(id: nat, environment: Environment)
      requires Valid() && id !in incidents
      modifies this
      ensures Valid() && Snapshot() == Create(old(Snapshot()), id, environment)
      ensures |ActiveIds(incidents, environment)| == |old(ActiveIds(incidents, environment))| + 1
    {
      CreateConsistent(Snapshot(), id, environment);
      ActiveStep(incidents, incidents[id := Incident(environment, Detected, None)], id, environment);
      ghost var expected := Create(Snapshot(), id, environment);
      incidents := incidents[id := Incident(environment, Detected, None)];
      gauge := gauge.Add(environment, 1);
      events := events + [IncidentCreated(id)];
      assert Snapshot() == expected;
    }

    method ChangeIncidentState(id: nat, target: IncidentState, force: bool, now: int) returns (r: Result<()>)
      requires Valid() && id in incidents
      modifies this
      ensures Valid()
      ensures r.Ok? <==> force || target == old(incidents[id].state) || Allowed(old(incidents[id].state), target)
      ensures r.Ok? ==> id in incidents && incidents[id].state == target
                        && ChangeState(old(Snapshot()), id, target, force, now) == Ok(Snapshot())
      ensures r.Err? ==> r.error == InvalidIncidentTransition && Snapshot() == old(Snapshot())
      ensures forall other :: other in old(incidents) && other != id ==>
                other in incidents && incidents[other] == old(incidents[other])
    {
      ChangeConsistent(Snapshot(), id, target, force, now);
      ghost var expected := ChangeState(Snapshot(), id, target, force, now);
      var previous := incidents[id];
      if previous.state == target { return Ok(()); }
      if !force && TransitionIncident(previous.state, target).Err? { return Err(InvalidIncidentTransition); }
      var changed := previous.(state := target);
      if target == Resolved {
        changed := changed.(resolvedAt := Some(now));
      }
      incidents := incidents[id := changed];
      if Terminal(target) {
        gauge := gauge.Add(previous.environment, -1);
      }
      events := events + [StateChanged(id, previous.state, target)];
      assert Snapshot() == expected.value;
      r := Ok(());
    }

    method ResolveIncident(id: nat, now: int)
      requires Valid() && id in incidents
      modifies this
      ensures Valid() && id in incidents && incidents[id].state == Resolved
      ensures Snapshot() == Serve(old(Snapshot()), Request.ResolveByOperator(id, now))
    {
      if incidents[id].state != Resolved {
        var _ := ChangeIncidentState(id, Resolved, true, now);
      }
    }

    method UpdateIncident(id: nat, target: Option<IncidentState>, changesText: bool, now: int)
      requires Valid() && id in incidents
      modifies this
      ensures Valid() && id in incidents
      ensures target.Some? ==> incidents[id].state == target.value
      ensures target.None? ==> incidents[id].state == old(incidents[id].state)
      ensures Snapshot() == Serve(old(Snapshot()), Request.UpdateByOperator(id, target, changesText, now))
    {
      if target.Some? && target.value != incidents[id].state {
        var _ := ChangeIncidentState(id, target.value, true, now);
      }
      if changesText {
        UpdatedConsistent(Snapshot(), id);
        events := events + [IncidentUpdated(id, incidents[id].state)];
      }
    }
  }
}
