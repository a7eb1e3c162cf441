/**
 Reports of the in-cluster agent: which are accepted, what is stored of them, and the evidence they
 attach to open incidents.
 */
module ClusterAgent {
  import opened Results
  import opened IncidentStates

  datatype Target = Target(namespace: string, service: string, deployment: string)

  datatype Workload = Workload(target: Target, errors: bool)

  /** A report. Its digest covers all of it, so equal digests are equal reports. */
  datatype Report = Report(cluster: nat, id: nat, observedAt: real, workloads: seq<Workload>, content: nat, bytes: nat)

  datatype Status = Connected | Degraded

  datatype AgentState = AgentState(report: Report, receivedAt: real, status: Status)

  datatype Incident = Incident(service: nat, state: IncidentState)

  /** The evidence one report attached to one incident. */
  datatype Evidence = Evidence(incident: nat, at: real)

  /** The cluster's rows: its registered targets, its incidents in order of creation, the agent's state and evidence. */
  datatype Store = Store(registered: bool, services: map<Target, nat>, incidents: seq<Incident>,
                         agent: Option<AgentState>, evidence: seq<Evidence>)

  datatype Settings = Settings(cluster: nat, freshness: real)

  datatype Receipt = Receipt(id: nat, duplicate: bool, attached: nat, status: Status)

  const MAX_BYTES: nat := 524288

  // ---------- acceptance ----------

  predicate Registered(services: map<Target, nat>, workloads: seq<Workload>) {
    forall i :: 0 <= i < |workloads| ==> workloads[i].target in services
  }

  predicate InTime(s: Settings, r: Report, now: real) {
    -30.0 <= now - r.observedAt <= s.freshness
  }

  /** The first reason to refuse a report, if any. */
  function Refusal(s: Settings, st: Store, r: Report, now: real): Option<ErrorCode> {
    if r.cluster != s.cluster then Some(AgentClusterDenied)
    else if !InTime(s, r, now) then Some(ReportStale)
    else if !st.registered then Some(ClusterNotFound)
    else if st.agent.Some? && st.agent.value.report.id == r.id then
      if st.agent.value.report != r then Some(ReportConflict) else None
    else if st.agent.Some? && r.observedAt <= st.agent.value.report.observedAt then Some(ReportOutOfOrder)
    else if st.agent.Some? && now - st.agent.value.receivedAt < 10.0 then Some(ReportRateLimited)
    else if !Registered(st.services, r.workloads) then Some(TargetDenied)
    else if r.bytes > MAX_BYTES then Some(ReportTooLarge)
    else None
  }

  predicate Duplicate(st: Store, r: Report) {
    st.agent.Some? && st.agent.value.report == r
  }

  predicate Accepts(s: Settings, st: Store, r: Report, now: real) {
    Refusal(s, st, r, now).None? && !Duplicate(st, r)
  }

  function StatusOf(workloads: seq<Workload>): Status {
    if exists i :: 0 <= i < |workloads| && workloads[i].errors then Degraded else Connected
  }

  // ---------- evidence ----------

  /** The incidents of a service that are not resolved, newest first. */
  function OpenOf(incidents: seq<Incident>, service: nat): seq<nat> {
    if incidents == [] then [] else
    var last := |incidents| - 1;
    (if incidents[last].service == service && incidents[last].state != Resolved then [last] else [])
    + OpenOf(incidents[..last], service)
  }

  /** At most twenty of them. */
  function Eligible(incidents: seq<Incident>, service: nat): seq<nat> {
    var open := OpenOf(incidents, service);
    if |open| <= 20 then open else open[..20]
  }

  function LatestAt(evidence: seq<Evidence>, incident: nat): Option<real> {
    if evidence == [] then None else
    var rest, last := LatestAt(evidence[..|evidence| - 1], incident), evidence[|evidence| - 1];
    if last.incident != incident then rest
    else if rest.Some? && last.at < rest.value then rest
    else Some(last.at)
  }

  predicate Due(evidence: seq<Evidence>, incident: nat, now: real) {
    LatestAt(evidence, incident).None? || now - LatestAt(evidence, incident).value >= 60.0
  }

  /** Evidence for each incident of a list that has had none for a minute. */
  function AttachEach(evidence: seq<Evidence>, incidents: seq<nat>, now: real): seq<Evidence> {
    if incidents == [] then evidence else
    var before := AttachEach(evidence, incidents[..|incidents| - 1], now);
    var last := incidents[|incidents| - 1];
    if Due(before, last, now) then before + [Evidence(last, now)] else before
  }

  function AttachAll(services: map<Target, nat>, incidents: seq<Incident>, evidence: seq<Evidence>,
                     workloads: seq<Workload>, now: real): seq<Evidence>
    requires Registered(services, workloads)
  {
    if workloads == [] then evidence
    else AttachEach(AttachAll(services, incidents, evidence, workloads[..|workloads| - 1], now),
                    Eligible(incidents, services[workloads[|workloads| - 1].target]), now)
  }

  /** The evidence of a store after a report's workloads. */
  function Attached(st: Store, workloads: seq<Workload>, now: real): seq<Evidence>
    requires Registered(st.services, workloads)
  {
    AttachAll(st.services, st.incidents, st.evidence, workloads, now)
  }

  lemma {:induction false} AttachEachGrows(evidence: seq<Evidence>, incidents: seq<nat>, now: real)
    ensures evidence <= AttachEach(evidence, incidents, now)
  {
    if incidents != [] { AttachEachGrows(evidence, incidents[..|incidents| - 1], now); }
  }

  lemma {:induction false} AttachAllGrows(st: Store, workloads: seq<Workload>, now: real)
    requires Registered(st.services, workloads)
    ensures st.evidence <= Attached(st, workloads, now)
  {
    if workloads != [] {
      var fewer, last := workloads[..|workloads| - 1], workloads[|workloads| - 1];
      AttachAllGrows(st, fewer, now);
      AttachEachGrows(Attached(st, fewer, now), Eligible(st.incidents, st.services[last.target]), now);
    }
  }

  // ---------- ingestion ----------

  datatype Reply = Reply(store: Store, outcome: Result<Receipt>)

  function Accepted(st: Store, r: Report, now: real): Store
    requires Registered(st.services, r.workloads)
  {
    st.(agent := Some(AgentState(r, now, StatusOf(r.workloads))), evidence := Attached(st, r.workloads, now))
  }

  function Ingest(s: Settings, st: Store, r: Report, now: real): Reply {
    var refusal := Refusal(s, st, r, now);
    if refusal.Some? then Reply(st, Err(refusal.value))
    else if Duplicate(st, r) then Reply(st, Ok(Receipt(r.id, true, 0, st.agent.value.status)))
    else
      var after := Accepted(st, r, now);
      var attached := |after.evidence| - |st.evidence|;
      Reply(after, Ok(Receipt(r.id, false, if attached >= 0 then attached else 0, StatusOf(r.workloads))))
  }

  // ---------- runs ----------

  /** A report arrives, or the other rows of the cluster change. */
  datatype Step = Receive(report: Report) | Change(registered: bool, services: map<Target, nat>,
                                                   incidents: seq<Incident>)

  datatype Timed = Timed(at: real, step: Step)

  /** A report that was accepted, and when. */
  datatype Acceptance = Acceptance(report: Report, at: real)

  datatype Progress = Progress(store: Store, accepted: seq<Acceptance>)

  function Apply(s: Settings, p: Progress, t: Timed): Progress {
    match t.step
    case Receive(r) =>
      Progress(Ingest(s, p.store, r, t.at).store,
               if Accepts(s, p.store, r, t.at) then p.accepted + [Acceptance(r, t.at)] else p.accepted)
    case Change(registered, services, incidents) =>
      p.(store := p.store.(registered := registered, services := services, incidents := incidents))
  }

  function Run(s: Settings, p: Progress, steps: seq<Timed>): Progress {
    if steps == [] then p else Apply(s, Run(s, p, steps[..|steps| - 1]), steps[|steps| - 1])
  }

  const EMPTY := Progress(Store(false, map[], [], None, []), [])

  /** Each accepted report is newer than the one before, by its own clock, and came ten seconds or more after it. */
  ghost predicate Ordered(accepted: seq<Acceptance>) {
    forall i, j :: 0 <= i < j < |accepted| ==>
      accepted[i].report.observedAt < accepted[j].report.observedAt && accepted[i].at + 10.0 <= accepted[j].at
  }

  ghost predicate Fresh(s: Settings, accepted: seq<Acceptance>) {
    forall i :: 0 <= i < |accepted| ==>
      InTime(s, accepted[i].report, accepted[i].at) && accepted[i].report.cluster == s.cluster
  }

  /** What is stored is the last accepted report. */
  ghost predicate StoresLast(st: Store, accepted: seq<Acceptance>) {
    if accepted == [] then st.agent.None?
    else st.agent == Some(AgentState(accepted[|accepted| - 1].report, accepted[|accepted| - 1].at,
                                     StatusOf(accepted[|accepted| - 1].report.workloads)))
  }

  /** Pieces of evidence for one incident are a minute or more apart. */
  ghost predicate Spaced(evidence: seq<Evidence>) {
    forall i, j :: 0 <= i < j < |evidence| && evidence[i].incident == evidence[j].incident ==>
      evidence[i].at + 60.0 <= evidence[j].at
  }

  lemma {:induction false} LatestAtIsLatest(evidence: seq<Evidence>, i: nat)
    requires i < |evidence|
    ensures LatestAt(evidence, evidence[i].incident).Some?
    ensures evidence[i].at <= LatestAt(evidence, evidence[i].incident).value
  {
    if i < |evidence| - 1 { LatestAtIsLatest(evidence[..|evidence| - 1], i); }
  }

  lemma {:induction false} AttachEachSpaced(evidence: seq<Evidence>, incidents: seq<nat>, now: real)
    requires Spaced(evidence)
    ensures Spaced(AttachEach(evidence, incidents, now))
  {
    if incidents != [] {
      var before, last := AttachEach(evidence, incidents[..|incidents| - 1], now), incidents[|incidents| - 1];
      AttachEachSpaced(evidence, incidents[..|incidents| - 1], now);
      if Due(before, last, now) {
        forall i | 0 <= i < |before| && before[i].incident == last ensures before[i].at + 60.0 <= now {
          LatestAtIsLatest(before, i);
        }
      }
    }
  }

  lemma {:induction false} AttachAllSpaced(st: Store, workloads: seq<Workload>, now: real)
    requires Registered(st.services, workloads) && Spaced(st.evidence)
    ensures Spaced(Attached(st, workloads, now))
  {
    if workloads != [] {
      var fewer, last := workloads[..|workloads| - 1], workloads[|workloads| - 1];
      AttachAllSpaced(st, fewer, now);
      AttachEachSpaced(Attached(st, fewer, now), Eligible(st.incidents, st.services[last.target]), now);
    }
  }

  ghost predicate Inv(s: Settings, p: Progress) {
    Ordered(p.accepted) && Fresh(s, p.accepted) && StoresLast(p.store, p.accepted) && Spaced(p.store.evidence)
  }

  lemma AcceptedKeeps(s: Settings, p: Progress, r: Report, now: real)
    requires Inv(s, p) && Accepts(s, p.store, r, now)
    ensures Inv(s, Progress(Accepted(p.store, r, now), p.accepted + [Acceptance(r, now)]))
  {
    AttachAllSpaced(p.store, r.workloads, now);
  }

  lemma ApplyKeeps(s: Settings, p: Progress, t: Timed)
    requires Inv(s, p)
    ensures Inv(s, Apply(s, p, t))
  {
    if t.step.Receive? && Accepts(s, p.store, t.step.report, t.at) {
      AcceptedKeeps(s, p, t.step.report, t.at);
      assert Apply(s, p, t).store == Accepted(p.store, t.step.report, t.at);
    }
  }

  /**
   In every run, whatever the clock does, the accepted reports are strictly newer and ten seconds or more
   apart, each was fresh and from the right cluster, the stored state is the last of them, and the evidence
   attached to one incident is a minute or more apart.
   */
  lemma {:induction false} EveryRun(s: Settings, steps: seq<Timed>)
    ensures Inv(s, Run(s, EMPTY, steps))
  {
    if steps != [] {
      EveryRun(s, steps[..|steps| - 1]);
      ApplyKeeps(s, Run(s, EMPTY, steps[..|steps| - 1]), steps[|steps| - 1]);
    }
  }

  /**
   No report is accepted twice: one accepted before changes nothing when it comes again, whether it is
   answered as a duplicate, which happens exactly while it is the stored one and still in time, or refused.
   */
  lemma ReplayChangesNothing(s: Settings, steps: seq<Timed>, i: nat, now: real)
    requires i < |Run(s, EMPTY, steps).accepted|
    ensures var p := Run(s, EMPTY, steps);
            var r := p.accepted[i].report;
            && Ingest(s, p.store, r, now).store == p.store
            && (Ingest(s, p.store, r, now).outcome.Ok? <==>
                  i == |p.accepted| - 1 && InTime(s, r, now) && p.store.registered)
  {
    EveryRun(s, steps);
    var p := Run(s, EMPTY, steps);
    assert i < |p.accepted| - 1 ==> p.accepted[i].report.observedAt < p.accepted[|p.accepted| - 1].report.observedAt;
  }

  /**
   Evidence is only ever added, at the time of an accepted report, to incidents of its targets that are not
   resolved.
   */
  ghost predicate Targeted(st: Store, workloads: seq<Workload>, incident: nat) {
    && incident < |st.incidents| && st.incidents[incident].state != Resolved
    && exists i :: 0 <= i < |workloads| && workloads[i].target in st.services
                   && st.services[workloads[i].target] == st.incidents[incident].service
  }

  lemma {:induction false} OpenOfAre(incidents: seq<Incident>, service: nat)
    ensures forall k :: 0 <= k < |OpenOf(incidents, service)| ==>
              var i := OpenOf(incidents, service)[k];
              i < |incidents| && incidents[i].service == service && incidents[i].state != Resolved
  {
    if incidents != [] { OpenOfAre(incidents[..|incidents| - 1], service); }
  }

  lemma {:induction false} AttachEachTo(evidence: seq<Evidence>, incidents: seq<nat>, now: real)
    ensures forall k :: |evidence| <= k < |AttachEach(evidence, incidents, now)| ==>
              AttachEach(evidence, incidents, now)[k].at == now
                && AttachEach(evidence, incidents, now)[k].incident in incidents
  {
    if incidents != [] {
      AttachEachTo(evidence, incidents[..|incidents| - 1], now);
      AttachEachGrows(evidence, incidents[..|incidents| - 1], now);
    }
  }

  lemma {:induction false} EvidenceIsTargeted(st: Store, workloads: seq<Workload>, now: real)
    requires Registered(st.services, workloads)
    ensures st.evidence <= Attached(st, workloads, now)
    ensures forall k :: |st.evidence| <= k < |Attached(st, workloads, now)| ==>
              Attached(st, workloads, now)[k].at == now
                && Targeted(st, workloads, Attached(st, workloads, now)[k].incident)
  {
    AttachAllGrows(st, workloads, now);
    if workloads != [] {
      var fewer, last := workloads[..|workloads| - 1], workloads[|workloads| - 1];
      EvidenceIsTargeted(st, fewer, now);
      var before, all := Attached(st, fewer, now), Attached(st, workloads, now);
      var service := st.services[last.target];
      OpenOfAre(st.incidents, service);
      AttachEachTo(before, Eligible(st.incidents, service), now);
      AttachEachGrows(before, Eligible(st.incidents, service), now);
      forall k | |st.evidence| <= k < |all| ensures all[k].at == now && Targeted(st, workloads, all[k].incident) {
        if k < |before| {
          assert all[k] == before[k];
          var i :| 0 <= i < |fewer| && st.services[fewer[i].target] == st.incidents[all[k].incident].service;
          assert workloads[i] == fewer[i];
        } else {
          assert workloads[|workloads| - 1].target == last.target;
        }
      }
    }
  }

  // ---------- what is accepted ----------

  /** The report continues what is stored: it is newer by its own clock, and ten seconds or more have passed. */
  predicate Continues(st: Store, r: Report, now: real) {
    st.agent.Some? ==>
      r.id != st.agent.value.report.id && r.observedAt > st.agent.value.report.observedAt
      && now - st.agent.value.receivedAt >= 10.0
  }

  /** A report is accepted exactly on these conditions; anything else changes nothing. */
  lemma AcceptedExactly(s: Settings, st: Store, r: Report, now: real)
    ensures var reply := Ingest(s, st, r, now);
            var accepted := r.cluster == s.cluster && -30.0 <= now - r.observedAt <= s.freshness && st.registered
                            && Continues(st, r, now) && r.bytes <= 524288
                            && forall i :: 0 <= i < |r.workloads| ==> r.workloads[i].target in st.services;
            && (accepted <==> reply.outcome.Ok? && !reply.outcome.value.duplicate)
            && (!accepted ==> reply.store == st)
            && (accepted ==>
                  && reply.store.agent.Some? && reply.store.agent.value.report == r
                  && reply.store.agent.value.receivedAt == now
                  && (reply.store.agent.value.status == Degraded <==>
                        exists i :: 0 <= i < |r.workloads| && r.workloads[i].errors)
                  && reply.store == st.(agent := reply.store.agent, evidence := reply.store.evidence)
                  && reply.outcome.value.attached == |reply.store.evidence| - |st.evidence|)
  {
    if Registered(st.services, r.workloads) { AttachAllGrows(st, r.workloads, now); }
  }

  // ---------- who gets evidence ----------

  /** How much evidence there is for an incident. */
  function Count(evidence: seq<Evidence>, incident: nat): nat {
    if evidence == [] then 0 else
    Count(evidence[..|evidence| - 1], incident) + if evidence[|evidence| - 1].incident == incident then 1 else 0
  }

  /** No evidence for the incident is younger than a minute. */
  ghost predicate Lacks(evidence: seq<Evidence>, incident: nat, now: real) {
    forall k :: 0 <= k < |evidence| && evidence[k].incident == incident ==> now - evidence[k].at >= 60.0
  }

  lemma {:induction false} DueWhenLacking(evidence: seq<Evidence>, incident: nat, now: real)
    ensures Due(evidence, incident, now) <==> Lacks(evidence, incident, now)
    ensures LatestAt(evidence, incident).Some? ==>
              exists k :: 0 <= k < |evidence| && evidence[k] == Evidence(incident, LatestAt(evidence, incident).value)
    ensures LatestAt(evidence, incident).None? ==> forall k :: 0 <= k < |evidence| ==> evidence[k].incident != incident
    ensures LatestAt(evidence, incident).Some? ==>
              forall k :: 0 <= k < |evidence| && evidence[k].incident == incident ==>
                evidence[k].at <= LatestAt(evidence, incident).value
  {
    if evidence != [] {
      var rest := evidence[..|evidence| - 1];
      DueWhenLacking(rest, incident, now);
      if k :| 0 <= k < |rest| && LatestAt(rest, incident).Some?
              && rest[k] == Evidence(incident, LatestAt(rest, incident).value) {
        assert evidence[k] == rest[k];
      }
    }
  }

  /** Of a list each incident that lacks evidence gets one piece of it, and no other incident any. */
  lemma {:induction false} EachGetsOne(evidence: seq<Evidence>, incidents: seq<nat>, now: real, i: nat)
    ensures var after := AttachEach(evidence, incidents, now);
            && Count(after, i) == Count(evidence, i) + (if i in incidents && Due(evidence, i, now) then 1 else 0)
            && (Due(after, i, now) <==> Due(evidence, i, now) && i !in incidents)
  {
    if incidents != [] {
      var fewer, last := incidents[..|incidents| - 1], incidents[|incidents| - 1];
      EachGetsOne(evidence, fewer, now, i);
      assert i in incidents <==> i in fewer || i == last;
      var before := AttachEach(evidence, fewer, now);
      OneMore(before, Evidence(last, now), i, now);
    }
  }

  lemma OneMore(evidence: seq<Evidence>, e: Evidence, i: nat, now: real)
    requires e.at == now
    ensures Count(evidence + [e], i) == Count(evidence, i) + if e.incident == i then 1 else 0
    ensures e.incident == i ==> !Due(evidence + [e], i, now)
    ensures e.incident != i ==> (Due(evidence + [e], i, now) <==> Due(evidence, i, now))
  {
    assert (evidence + [e])[..|evidence|] == evidence;
  }

  /** An incident that is not resolved, of this service. */
  predicate Open(incident: Incident, service: nat) {
    incident.service == service && incident.state != Resolved
  }

  /** How many open incidents of a service are newer than incident `i`. */
  function Newer(incidents: seq<Incident>, service: nat, i: nat): nat {
    if |incidents| <= i + 1 then 0 else
    var last := |incidents| - 1;
    Newer(incidents[..last], service, i) + if Open(incidents[last], service) then 1 else 0
  }

  lemma {:induction false} OpenIsListed(incidents: seq<Incident>, service: nat, i: nat)
    requires i < |incidents| && Open(incidents[i], service)
    ensures i in OpenOf(incidents, service)
  {
    var last := |incidents| - 1;
    if i < last {
      OpenIsListed(incidents[..last], service, i);
      Behind(OpenOf(incidents[..last], service), last, i);
    }
  }

  lemma Behind(rest: seq<nat>, first: nat, i: nat)
    requires i in rest
    ensures i in [first] + rest && i in [] + rest
  {
    assert [] + rest == rest;
    var k :| 0 <= k < |rest| && rest[k] == i;
    assert ([first] + rest)[k + 1] == i;
  }

  lemma {:induction false} OpenInOrder(incidents: seq<Incident>, service: nat, k: nat)
    requires k < |OpenOf(incidents, service)|
    ensures var i := OpenOf(incidents, service)[k]; i < |incidents| && Newer(incidents, service, i) == k
  {
    var last := |incidents| - 1;
    var rest := OpenOf(incidents[..last], service);
    if !Open(incidents[last], service) {
      assert OpenOf(incidents, service) == rest;
      OpenInOrder(incidents[..last], service, k);
    } else if k > 0 {
      assert OpenOf(incidents, service)[k] == rest[k - 1];
      OpenInOrder(incidents[..last], service, k - 1);
    }
  }

  /** The incidents a workload may give evidence to: the twenty newest open ones of its service. */
  lemma EligibleAre(incidents: seq<Incident>, service: nat, i: nat)
    ensures i in Eligible(incidents, service)
       <==> i < |incidents| && Open(incidents[i], service) && Newer(incidents, service, i) < 20
  {
    OpenOfAre(incidents, service);
    if i < |incidents| && Open(incidents[i], service) { OpenIsListed(incidents, service, i); }
    var open := OpenOf(incidents, service);
    if k :| 0 <= k < |open| && open[k] == i {
      OpenInOrder(incidents, service, k);
      assert |open| > 20 && k < 20 ==> open[..20][k] == i;
    }
    if l :| 0 <= l < |Eligible(incidents, service)| && Eligible(incidents, service)[l] == i {
      OpenInOrder(incidents, service, l);
    }
  }

  /** Some workload of the report runs the incident's service. */
  ghost predicate Reported(st: Store, workloads: seq<Workload>, service: nat)
    requires Registered(st.services, workloads)
  {
    exists k :: 0 <= k < |workloads| && st.services[workloads[k].target] == service
  }

  /** The incident is among the twenty newest open ones of a reported service, and has lacked evidence for a minute. */
  ghost predicate Owed(st: Store, workloads: seq<Workload>, now: real, i: nat)
    requires Registered(st.services, workloads)
  {
    && i < |st.incidents| && st.incidents[i].state != Resolved && Reported(st, workloads, st.incidents[i].service)
    && Newer(st.incidents, st.incidents[i].service, i) < 20 && Lacks(st.evidence, i, now)
  }

  lemma {:induction false} AllGetOne(st: Store, workloads: seq<Workload>, now: real, i: nat)
    requires Registered(st.services, workloads)
    ensures var after := Attached(st, workloads, now);
            var listed := i < |st.incidents| && st.incidents[i].state != Resolved
                          && Reported(st, workloads, st.incidents[i].service)
                          && Newer(st.incidents, st.incidents[i].service, i) < 20;
            && Count(after, i) == Count(st.evidence, i) + (if listed && Due(st.evidence, i, now) then 1 else 0)
            && (Due(after, i, now) <==> Due(st.evidence, i, now) && !listed)
  {
    if workloads != [] {
      var fewer, last := workloads[..|workloads| - 1], workloads[|workloads| - 1];
      var service := st.services[last.target];
      AllGetOne(st, fewer, now, i);
      EligibleAre(st.incidents, service, i);
      EachGetsOne(Attached(st, fewer, now), Eligible(st.incidents, service), now, i);
      if i < |st.incidents| { ReportedByOneMore(st, workloads, st.incidents[i].service); }
    }
  }

  lemma ReportedByOneMore(st: Store, workloads: seq<Workload>, service: nat)
    requires Registered(st.services, workloads) && workloads != []
    ensures Reported(st, workloads, service)
       <==> Reported(st, workloads[..|workloads| - 1], service)
            || st.services[workloads[|workloads| - 1].target] == service
  {
    var fewer := workloads[..|workloads| - 1];
    if k :| 0 <= k < |fewer| && st.services[fewer[k].target] == service { assert workloads[k] == fewer[k]; }
    if k :| 0 <= k < |workloads| && st.services[workloads[k].target] == service {
      if k < |fewer| { assert fewer[k] == workloads[k]; }
    }
  }

  /** A report gives each incident one piece of evidence if it is owed, and none otherwise. */
  lemma EvidenceExactlyWhereOwed(st: Store, workloads: seq<Workload>, now: real, i: nat)
    requires Registered(st.services, workloads)
    ensures Count(Attached(st, workloads, now), i)
         == Count(st.evidence, i) + if Owed(st, workloads, now, i) then 1 else 0
  {
    AllGetOne(st, workloads, now, i);
    DueWhenLacking(st.evidence, i, now);
  }

  // ---------- the service ----------

  class ClusterAgentService {
    const settings: Settings
    var registered: bool
    var services: map<Target, nat>
    var incidents: seq<Incident>
    var agent: Option<AgentState>
    var evidence: seq<Evidence>

    constructor (settings: Settings)
      ensures this.settings == settings && Snapshot() == EMPTY.store
    {
      this.settings := settings;
      registered, services, incidents, agent, evidence := false, map[], [], None, [];
    }

    function Snapshot(): Store
      reads this
    {
      Store(registered, services, incidents, agent, evidence)
    }

    method IngestReport(r: Report, now: real) returns (outcome: Result<Receipt>)
      modifies this`agent, this`evidence
      ensures Reply(Snapshot(), outcome) == Ingest(settings, old(Snapshot()), r, now)
    {
      if r.cluster != settings.cluster { return Err(AgentClusterDenied); }
      var age := now - r.observedAt;
      if age < -30.0 || settings.freshness < age { return Err(ReportStale); }
      if !registered { return Err(ClusterNotFound); }
      if agent.Some? && agent.value.report.id == r.id {
        if agent.value.report != r { return Err(ReportConflict); }
        return Ok(Receipt(r.id, true, 0, agent.value.status));
      }
      if agent.Some? {
        if r.observedAt <= agent.value.report.observedAt { return Err(ReportOutOfOrder); }
        if now - agent.value.receivedAt < 10.0 { return Err(ReportRateLimited); }
      }
      if !Registered(services, r.workloads) { return Err(TargetDenied); }
      if r.bytes > MAX_BYTES { return Err(ReportTooLarge); }
      var status := StatusOf(r.workloads);
      agent := Some(AgentState(r, now, status));
      var attached := AttachEvidence(r.workloads, now);
      outcome := Ok(Receipt(r.id, false, attached, status));
    }

    /** Evidence for the open incidents of every workload, workload by workload. */
    method AttachEvidence(workloads: seq<Workload>, now: real) returns (attached: nat)
      requires Registered(services, workloads)
      modifies this`evidence
      ensures evidence == AttachAll(services, incidents, old(evidence), workloads, now)
      ensures attached == |evidence| - |old(evidence)|
    {
      attached := 0;
      var i := 0;
      while i < |workloads|
        invariant 0 <= i <= |workloads|
        invariant evidence == AttachAll(services, incidents, old(evidence), workloads[..i], now)
        invariant attached == |evidence| - |old(evidence)|
      {
        assert workloads[..i + 1][..i] == workloads[..i];
        var more := AttachTo(Eligible(incidents, services[workloads[i].target]), now);
        attached := attached + more;
        i := i + 1;
      }
      assert workloads[..i] == workloads;
    }

    /** The same for one workload's incidents. */
    method AttachTo(open: seq<nat>, now: real) returns (attached: nat)
      modifies this`evidence
      ensures evidence == AttachEach(old(evidence), open, now) && attached == |evidence| - |old(evidence)|
    {
      attached := 0;
      var k := 0;
      while k < |open|
        invariant 0 <= k <= |open|
        invariant evidence == AttachEach(old(evidence), open[..k], now)
        invariant attached == |evidence| - |old(evidence)|
      {
        assert open[..k + 1][..k] == open[..k];
        if Due(evidence, open[k], now) {
          evidence := evidence + [Evidence(open[k], now)];
          attached := attached + 1;
        }
        k := k + 1;
      }
      assert open[..k] == open;
    }
  }
}
