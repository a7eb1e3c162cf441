/**
 Alert ingestion: one record per source and fingerprint, repeated payloads counted, and a new incident
 for a firing alert whose incident is missing or over. Incidents move meanwhile.
 */
module Alerts {
  import opened Results
  import opened IncidentStates

  datatype Key = Key(source: string, fingerprint: string)

  /** What the payload digest covers: the status and everything else the alert says. */
  datatype Payload = Payload(firing: bool, content: nat)

  datatype Alert = Alert(key: Key, payload: Payload)

  datatype Record = Record(incident: Option<nat>, payload: Payload, repeatCount: nat)

  /** An incident raised by ingestion, numbered in order of creation. */
  datatype Incident = Incident(key: Key, state: IncidentState)

  /** An alert noted in the history of an incident. */
  datatype Note = Note(incident: nat, firing: bool)

  datatype Store = Store(records: map<Key, Record>, incidents: seq<Incident>, notes: seq<Note>)

  datatype Reply = Reply(incident: Option<nat>, duplicate: bool, created: bool)

  // ---------- ingestion ----------

  predicate ExactRepeat(st: Store, a: Alert) {
    a.key in st.records && st.records[a.key].payload == a.payload
  }

  function LinkedIncident(st: Store, key: Key): Option<nat> {
    if key in st.records then st.records[key].incident else None
  }

  /** The key's record leads to an incident that is still open. */
  predicate HasOpenIncident(st: Store, key: Key) {
    LinkedIncident(st, key).Some? && LinkedIncident(st, key).value < |st.incidents|
    && !Terminal(st.incidents[LinkedIncident(st, key).value].state)
  }

  function IngestOne(st: Store, a: Alert): (Store, Reply) {
    if ExactRepeat(st, a) then
      var r := st.records[a.key];
      (st.(records := st.records[a.key := r.(repeatCount := r.repeatCount + 1)]), Reply(r.incident, true, false))
    else
      var created := a.payload.firing && !HasOpenIncident(st, a.key);
      var incident := if created then Some(|st.incidents|) else LinkedIncident(st, a.key);
      var count := if a.key in st.records then st.records[a.key].repeatCount + 1 else 1;
      (Store(st.records[a.key := Record(incident, a.payload, count)],
             if created then st.incidents + [Incident(a.key, Detected)] else st.incidents,
             if incident.Some? then st.notes + [Note(incident.value, a.payload.firing)] else st.notes),
       Reply(incident, false, created))
  }

  function IngestAll(st: Store, alerts: seq<Alert>): (Store, seq<Reply>) {
    if alerts == [] then (st, []) else
    var before := IngestAll(st, alerts[..|alerts| - 1]);
    var last := IngestOne(before.0, alerts[|alerts| - 1]);
    (last.0, before.1 + [last.1])
  }

  /** What happens to the rows: an alert arrives, or an incident changes state, with or without force. */
  datatype Step = Receive(a: Alert) | Move(id: nat, target: IncidentState) | Force(id: nat, target: IncidentState)

  function Apply(st: Store, s: Step): Store {
    match s
    case Receive(a) => IngestOne(st, a).0
    case Move(id, target) =>
      if id < |st.incidents| && Allowed(st.incidents[id].state, target)
      then st.(incidents := st.incidents[id := st.incidents[id].(state := target)]) else st
    case Force(id, target) =>
      if id < |st.incidents| then st.(incidents := st.incidents[id := st.incidents[id].(state := target)]) else st
  }

  function Run(st: Store, steps: seq<Step>): Store {
    if steps == [] then st else Apply(Run(st, steps[..|steps| - 1]), steps[|steps| - 1])
  }

  const EMPTY := Store(map[], [], [])

  /** How many alerts of a run had a key. */
  function Received(steps: seq<Step>, key: Key): nat {
    if steps == [] then 0 else
    Received(steps[..|steps| - 1], key)
    + if steps[|steps| - 1].Receive? && steps[|steps| - 1].a.key == key then 1 else 0
  }

  // ---------- what every run keeps ----------

  /** Links lead to incidents of the same key. */
  ghost predicate LinksMatch(st: Store) {
    forall key :: key in st.records && st.records[key].incident.Some? ==>
      st.records[key].incident.value < |st.incidents| && st.incidents[st.records[key].incident.value].key == key
  }

  ghost predicate CountsMatch(st: Store, steps: seq<Step>) {
    forall key :: (key in st.records <==> Received(steps, key) > 0)
               && (key in st.records ==> st.records[key].repeatCount == Received(steps, key))
  }

  /** Only the incident its key's record leads to may be open. */
  ghost predicate OnlyLinkedOpen(st: Store) {
    forall i :: 0 <= i < |st.incidents| && !Terminal(st.incidents[i].state) ==>
      LinkedIncident(st, st.incidents[i].key) == Some(i)
  }

  lemma ReceivedStep(steps: seq<Step>, s: Step, key: Key)
    ensures Received(steps + [s], key) == Received(steps, key) + if s.Receive? && s.a.key == key then 1 else 0
  {
    assert (steps + [s])[..|steps|] == steps;
  }

  /** One record per key, and its count is the number of alerts received for it, whatever incidents do. */
  lemma {:induction false} CountsAreAlertsReceived(steps: seq<Step>)
    ensures CountsMatch(Run(EMPTY, steps), steps) && LinksMatch(Run(EMPTY, steps))
  {
    if steps != [] {
      var earlier, s := steps[..|steps| - 1], steps[|steps| - 1];
      CountsAreAlertsReceived(earlier);
      var before, after := Run(EMPTY, earlier), Run(EMPTY, steps);
      assert steps == earlier + [s];
      forall key ensures (key in after.records <==> Received(steps, key) > 0)
                      && (key in after.records ==> after.records[key].repeatCount == Received(steps, key))
      {
        ReceivedStep(earlier, s, key);
      }
    }
  }

  /** A forced change out of a terminal state into one that is not. */
  predicate Reopens(st: Store, s: Step) {
    s.Force? && s.id < |st.incidents| && Terminal(st.incidents[s.id].state) && !Terminal(s.target)
  }

  /** A forced change that reopens an incident the record of its key no longer leads to. */
  predicate ReopensSuperseded(st: Store, s: Step) {
    Reopens(st, s) && LinkedIncident(st, st.incidents[s.id].key) != Some(s.id)
  }

  /** From a store in which only linked incidents are open, exactly such a reopening leads out of it. */
  lemma OpenStep(st: Store, s: Step)
    requires LinksMatch(st) && OnlyLinkedOpen(st)
    ensures OnlyLinkedOpen(Apply(st, s)) <==> !ReopensSuperseded(st, s)
  {
    var after := Apply(st, s);
    if ReopensSuperseded(st, s) {
      assert !Terminal(after.incidents[s.id].state);
      assert LinkedIncident(after, after.incidents[s.id].key) != Some(s.id);
    } else {
      forall i | 0 <= i < |after.incidents| && !Terminal(after.incidents[i].state)
        ensures LinkedIncident(after, after.incidents[i].key) == Some(i)
      {
        if i < |st.incidents| { assert Terminal(st.incidents[i].state) ==> Reopens(st, s) && s.id == i; }
      }
    }
  }

  ghost predicate NoSupersededReopened(st: Store, steps: seq<Step>) {
    forall i :: 0 <= i < |steps| ==> !ReopensSuperseded(Run(st, steps[..i]), steps[i])
  }

  lemma {:induction false} OnlyLinkedIncidentsOpen(steps: seq<Step>)
    requires NoSupersededReopened(EMPTY, steps)
    ensures OnlyLinkedOpen(Run(EMPTY, steps))
  {
    if steps != [] {
      var earlier, s := steps[..|steps| - 1], steps[|steps| - 1];
      forall i | 0 <= i < |earlier| ensures !ReopensSuperseded(Run(EMPTY, earlier[..i]), earlier[i]) {
        assert earlier[..i] == steps[..i];
      }
      OnlyLinkedIncidentsOpen(earlier);
      CountsAreAlertsReceived(earlier);
      OpenStep(Run(EMPTY, earlier), s);
    }
  }

  /** Over runs: only linked incidents are open all along if and only if no superseded one is ever reopened. */
  lemma OnlyLinkedAllAlong(steps: seq<Step>)
    ensures (forall i :: 0 <= i <= |steps| ==> OnlyLinkedOpen(Run(EMPTY, steps[..i])))
       <==> NoSupersededReopened(EMPTY, steps)
  {
    if NoSupersededReopened(EMPTY, steps) {
      forall i | 0 <= i <= |steps| ensures OnlyLinkedOpen(Run(EMPTY, steps[..i])) {
        forall k | 0 <= k < i ensures !ReopensSuperseded(Run(EMPTY, steps[..i][..k]), steps[..i][k]) {
          assert steps[..i][..k] == steps[..k];
        }
        OnlyLinkedIncidentsOpen(steps[..i]);
      }
    } else {
      var i :| 0 <= i < |steps| && ReopensSuperseded(Run(EMPTY, steps[..i]), steps[i]);
      if OnlyLinkedOpen(Run(EMPTY, steps[..i])) {
        CountsAreAlertsReceived(steps[..i]);
        OpenStep(Run(EMPTY, steps[..i]), steps[i]);
        assert steps[..i + 1][..i] == steps[..i];
        assert !OnlyLinkedOpen(Run(EMPTY, steps[..i + 1]));
      }
    }
  }

  /** An open incident of a key. */
  predicate OpenOf(st: Store, i: nat, key: Key) {
    i < |st.incidents| && st.incidents[i].key == key && !Terminal(st.incidents[i].state)
  }

  /** No key has two open incidents. */
  ghost predicate AtMostOneEach(st: Store) {
    forall i: nat, j: nat, key :: OpenOf(st, i, key) && OpenOf(st, j, key) ==> i == j
  }

  /** Unless a forced change reopens a superseded incident, no key ever has two open incidents. */
  lemma AtMostOneOpenIncident(steps: seq<Step>)
    requires NoSupersededReopened(EMPTY, steps)
    ensures AtMostOneEach(Run(EMPTY, steps))
  {
    OnlyLinkedIncidentsOpen(steps);
  }

  /** A step that reopens an incident beside another open one of its key. */
  ghost predicate ReopensBeside(st: Store, s: Step) {
    Reopens(st, s) && exists j: nat :: j != s.id && OpenOf(st, j, st.incidents[s.id].key)
  }

  /** A firing alert that raises an incident while one its record does not lead to is open. */
  ghost predicate RaisesBeside(st: Store, s: Step) {
    && s.Receive? && IngestOne(st, s.a).1.created
    && exists j: nat :: OpenOf(st, j, s.a.key)
  }

  /** Exactly which steps give a key its second open incident. */
  lemma SecondOpenIncident(st: Store, s: Step)
    requires AtMostOneEach(st)
    ensures AtMostOneEach(Apply(st, s)) <==> !ReopensBeside(st, s) && !RaisesBeside(st, s)
  {
    var after := Apply(st, s);
    if ReopensBeside(st, s) {
      var key := st.incidents[s.id].key;
      var j: nat :| j != s.id && OpenOf(st, j, key);
      assert OpenOf(after, j, key) && OpenOf(after, s.id, key);
    } else if RaisesBeside(st, s) {
      var j: nat :| OpenOf(st, j, s.a.key);
      assert OpenOf(after, j, s.a.key) && OpenOf(after, |st.incidents|, s.a.key);
    } else {
      forall i: nat, j: nat, key | OpenOf(after, i, key) && OpenOf(after, j, key) ensures i == j {
        OpenBefore(st, s, i, key);
        OpenBefore(st, s, j, key);
      }
    }
  }

  /** An incident open after a step was open before, or the step reopened or raised it. */
  lemma OpenBefore(st: Store, s: Step, i: nat, key: Key)
    requires OpenOf(Apply(st, s), i, key)
    ensures || OpenOf(st, i, key)
            || (Reopens(st, s) && s.id == i && st.incidents[i].key == key)
            || (s.Receive? && s.a.key == key && i == |st.incidents| && IngestOne(st, s.a).1.created)
  {
  }

  /**
   Two open incidents are reached from the empty store: a key fires, its incident ends, it fires with
   another payload, and the first incident is reopened by force.
   */
  lemma ReopeningMakesTwo(key: Key, first: nat, second: nat, end: IncidentState, target: IncidentState)
    requires first != second && Terminal(end) && !Terminal(target)
    ensures var steps := [Receive(Alert(key, Payload(true, first))), Force(0, end),
                          Receive(Alert(key, Payload(true, second))), Force(0, target)];
            OpenOf(Run(EMPTY, steps), 0, key) && OpenOf(Run(EMPTY, steps), 1, key)
            && !AtMostOneEach(Run(EMPTY, steps)) && AtMostOneEach(Run(EMPTY, steps[..3]))
  {
    var a, b := Alert(key, Payload(true, first)), Alert(key, Payload(true, second));
    var steps := [Receive(a), Force(0, end), Receive(b), Force(0, target)];
    FirstSteps(EMPTY, steps);
    var one := Apply(EMPTY, steps[0]);
    assert !HasOpenIncident(EMPTY, key) && one.incidents == [Incident(key, Detected)];
    var ended := Apply(one, steps[1]);
    assert ended.incidents == [Incident(key, end)] && !HasOpenIncident(ended, key);
    var two := Apply(ended, steps[2]);
    assert two.incidents == [Incident(key, end), Incident(key, Detected)];
    assert forall i: nat, k :: OpenOf(two, i, k) ==> i == 1;
    var reopened := Apply(two, steps[3]);
    assert OpenOf(reopened, 0, key) && OpenOf(reopened, 1, key);
  }

  lemma FirstSteps(st: Store, steps: seq<Step>)
    requires |steps| == 4
    ensures Run(st, steps[..3]) == Apply(Apply(Apply(st, steps[0]), steps[1]), steps[2])
    ensures Run(st, steps) == Apply(Run(st, steps[..3]), steps[3])
  {
    assert steps[..3][..2] == steps[..2];
    assert steps[..2][..1] == steps[..1];
    assert steps[..1][..0] == [];
    assert Run(st, steps[..1]) == Apply(st, steps[0]);
    assert Run(st, steps[..2]) == Apply(Run(st, steps[..1]), steps[1]);
  }

  /**
   What one alert leaves. A payload that repeats the last one word for word is only counted. Any other becomes the
   record's payload; it raises an incident if and only if it is firing and the record leads to no open one, is noted
   with the incident the record then leads to, and answers with it.
   */
  lemma IngestComesTo(st: Store, a: Alert)
    ensures var (after, reply) := IngestOne(st, a);
            var known := a.key in st.records;
            var repeats := known && st.records[a.key].payload == a.payload;
            var raises := !repeats && a.payload.firing && !HasOpenIncident(st, a.key);
            && a.key in after.records && reply.duplicate == repeats && reply.created == raises
            && reply.incident == after.records[a.key].incident
            && after.records[a.key].payload == a.payload
            && after.records[a.key].repeatCount == (if known then st.records[a.key].repeatCount + 1 else 1)
            && after.records[a.key].incident
               == (if raises then Some(|st.incidents|) else if known then st.records[a.key].incident else None)
            && after.incidents == (if raises then st.incidents + [Incident(a.key, Detected)] else st.incidents)
            && after.notes == (if !repeats && after.records[a.key].incident.Some?
                               then st.notes + [Note(after.records[a.key].incident.value, a.payload.firing)]
                                 else st.notes)
            && forall key :: key != a.key ==> SameRecord(st, after, key)
  {
  }

  predicate SameRecord(st: Store, after: Store, key: Key) {
    (key in after.records <==> key in st.records) && (key in st.records ==> after.records[key] == st.records[key])
  }

  /**
   Exactly when a firing alert leaves its key with an open incident: unless it repeats the last payload
   word for word while that incident is missing or over. Nothing else of the store moves.
   */
  lemma FiringLeavesOpenIncident(steps: seq<Step>, a: Alert)
    requires a.payload.firing
    ensures var st := Run(EMPTY, steps);
            var after := IngestOne(st, a).0;
            && (HasOpenIncident(after, a.key) <==> HasOpenIncident(st, a.key) || !ExactRepeat(st, a))
            && (|after.incidents| > |st.incidents| <==> !HasOpenIncident(st, a.key) && !ExactRepeat(st, a))
            && after.incidents[..|st.incidents|] == st.incidents
            && forall key :: key != a.key ==> SameRecord(st, after, key)
  {
    CountsAreAlertsReceived(steps);
    FiringStep(Run(EMPTY, steps), a);
  }

  lemma FiringStep(st: Store, a: Alert)
    requires a.payload.firing && LinksMatch(st)
    ensures var after := IngestOne(st, a).0;
            && (HasOpenIncident(after, a.key) <==> HasOpenIncident(st, a.key) || !ExactRepeat(st, a))
            && (|after.incidents| > |st.incidents| <==> !HasOpenIncident(st, a.key) && !ExactRepeat(st, a))
            && after.incidents[..|st.incidents|] == st.incidents
            && forall key :: key != a.key ==> SameRecord(st, after, key)
  {
  }

  /** A repeat of a firing alert after its incident ended goes unnoticed: no incident is open and none is raised. */
  lemma RepeatAfterEndIsSilent(key: Key, content: nat, end: IncidentState)
    requires Terminal(end)
    ensures var fire := Receive(Alert(key, Payload(true, content)));
            var st := Run(EMPTY, [fire, Force(0, end), fire]);
            && |st.incidents| == 1 && !HasOpenIncident(st, key)
            && st.records[key].repeatCount == 2 && st.records[key].payload.firing
  {
    var a := Alert(key, Payload(true, content));
    var fire, finish := Receive(a), Force(0, end);
    var one := Apply(EMPTY, fire);
    assert !HasOpenIncident(EMPTY, key);
    assert [fire, finish, fire][..2] == [fire, finish];
    assert [fire, finish][..1] == [fire];
    assert [fire][..0] == [];
    assert Run(EMPTY, [fire]) == one;
    assert Run(EMPTY, [fire, finish]) == Apply(one, finish);
    assert Run(EMPTY, [fire, finish, fire]) == Apply(Apply(one, finish), fire);
  }

  // ---------- the service ----------

  class AlertService {
    var records: map<Key, Record>
    var incidents: seq<Incident>
    var notes: seq<Note>

    constructor ()
      ensures Snapshot() == EMPTY
    {
      records, incidents, notes := map[], [], [];
    }

    function Snapshot(): Store
      reads this
    {
      Store(records, incidents, notes)
    }

    method Ingest(a: Alert) returns (reply: Reply)
      modifies this
      ensures (Snapshot(), reply) == IngestOne(old(Snapshot()), a)
    {
      if a.key in records && records[a.key].payload == a.payload {
        var r := records[a.key];
        records := records[a.key := r.(repeatCount := r.repeatCount + 1)];
        return Reply(r.incident, true, false);
      }
      var incident := if a.key in records then records[a.key].incident else None;
      var created := false;
      if a.payload.firing
         && (incident.None? || incident.value >= |incidents| || Terminal(incidents[incident.value].state))
      {
        incident := Some(|incidents|);
        incidents := incidents + [Incident(a.key, Detected)];
        created := true;
      }
      var count := if a.key in records then records[a.key].repeatCount + 1 else 1;
      records := records[a.key := Record(incident, a.payload, count)];
      if incident.Some? {
        notes := notes + [Note(incident.value, a.payload.firing)];
      }
      reply := Reply(incident, false, created);
    }

    /** A batch is ingested in order, and answered alert by alert. */
    method IngestAlerts(alerts: seq<Alert>) returns (replies: seq<Reply>)
      modifies this
      ensures (Snapshot(), replies) == IngestAll(old(Snapshot()), alerts)
      ensures |replies| == |alerts|
    {
      replies := [];
      var i := 0;
      while i < |alerts|
        invariant 0 <= i <= |alerts| && |replies| == i
        invariant (Snapshot(), replies) == IngestAll(old(Snapshot()), alerts[..i])
      {
        assert alerts[..i + 1][..i] == alerts[..i];
        var reply := Ingest(alerts[i]);
        replies := replies + [reply];
        i := i + 1;
      }
      assert alerts[..i] == alerts;
    }
  }
}
