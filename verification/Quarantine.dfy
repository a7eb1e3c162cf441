/**
 Quarantining one pod in the cluster: a label on the pod and a deny-all policy that selects the label.
 Both calls against the cluster, and what each leaves of everything else.
 */
module Quarantine {
  import opened Results

  datatype Label = DemoTarget | QuarantineId | OtherLabel(name: string)

  datatype Pod = Pod(labels: map<Label, string>, managed: bool, ready: bool)

  datatype PolicyName = ForQuarantine(id: string) | OtherPolicy(name: string)

  datatype Policy = Policy(selector: map<Label, string>, denyAll: bool)

  /** The pods and network policies of the staging namespace. */
  datatype Cluster = Cluster(pods: map<string, Pod>, policies: map<PolicyName, Policy>)

  /** Which requests the API server refuses for reasons of its own. */
  datatype Faults = Faults(create: bool, clear: bool, delete: bool)

  datatype PolicyState = PolicyState(policyExists: bool, labelMatches: bool, denyAll: bool) {
    predicate Enforced() {
      policyExists && labelMatches && denyAll
    }
  }

  function SelectorFor(id: string): map<Label, string> {
    map[QuarantineId := id]
  }

  predicate Labelled(p: Pod, key: Label, value: string) {
    key in p.labels && p.labels[key] == value
  }

  function WithLabels(k: Cluster, pod: string, labels: map<Label, string>): Cluster
    requires pod in k.pods
  {
    k.(pods := k.pods[pod := k.pods[pod].(labels := labels)])
  }

  function SetLabel(k: Cluster, pod: string, id: string): Cluster
    requires pod in k.pods
  {
    WithLabels(k, pod, k.pods[pod].labels[QuarantineId := id])
  }

  function ClearLabel(k: Cluster, pod: string): Cluster
    requires pod in k.pods
  {
    WithLabels(k, pod, k.pods[pod].labels - {QuarantineId})
  }

  // ---------- the calls ----------

  function StateOf(k: Cluster, pod: string, name: PolicyName, id: string): PolicyState
    requires pod in k.pods
  {
    var exists_ := name in k.policies;
    PolicyState(exists_ && k.policies[name].selector == SelectorFor(id),
                Labelled(k.pods[pod], QuarantineId, id),
                exists_ && k.policies[name].denyAll)
  }

  datatype Reply<T> = Reply(cluster: Cluster, outcome: Result<T>)

  function Apply(k: Cluster, pod: string, id: string, f: Faults): Reply<()> {
    if pod !in k.pods then Reply(k, Err(TargetMissing))
    else if !Labelled(k.pods[pod], DemoTarget, "true") || !k.pods[pod].managed then Reply(k, Err(TargetDenied))
    else
      var labelled := SetLabel(k, pod, id);
      var name := ForQuarantine(id);
      if name in k.policies then
        Reply(labelled, if StateOf(labelled, pod, name, id).Enforced() then Ok(()) else Err(QuarantineConflict))
      else if f.create then
        if f.clear then Reply(labelled, Err(ExternalFailure(0)))
        else Reply(ClearLabel(labelled, pod), Err(KubernetesActionFailed))
      else
        Reply(labelled.(policies := k.policies[name := Policy(SelectorFor(id), true)]), Ok(()))
  }

  function Remove(k: Cluster, pod: string, name: PolicyName, id: string, f: Faults): Reply<PolicyState> {
    if pod !in k.pods then Reply(k, Err(TargetMissing)) else
    var found := StateOf(k, pod, name, id).policyExists;
    if found && f.delete then Reply(k, Err(KubernetesActionFailed)) else
    var without := if found then k.(policies := k.policies - {name}) else k;
    if f.clear then Reply(without, Err(ExternalFailure(0)))
    else Reply(ClearLabel(without, pod), Ok(StateOf(ClearLabel(without, pod), pod, name, id)))
  }

  // ---------- what they touch ----------

  predicate Quarantined(k: Cluster, pod: string, id: string) {
    pod in k.pods && StateOf(k, pod, ForQuarantine(id), id).Enforced()
  }

  /** Nothing differs but the quarantine label of one pod and one policy. */
  ghost predicate OnlyTouches(k: Cluster, after: Cluster, pod: string, name: PolicyName) {
    && after.pods.Keys == k.pods.Keys
    && (forall p :: p in k.pods && p != pod ==> after.pods[p] == k.pods[p])
    && (pod in k.pods ==> after.pods[pod].(labels := map[]) == k.pods[pod].(labels := map[])
                          && after.pods[pod].labels - {QuarantineId} == k.pods[pod].labels - {QuarantineId})
    && after.policies - {name} == k.policies - {name}
  }

  /**
   Whatever its outcome, applying touches one label and one policy, and returns only once the quarantine is
   enforced.
   */
  lemma ApplyEnforces(k: Cluster, pod: string, id: string, f: Faults)
    ensures var r := Apply(k, pod, id, f);
            && OnlyTouches(k, r.cluster, pod, ForQuarantine(id))
            && (r.outcome.Ok? ==> Quarantined(r.cluster, pod, id))
            && (ForQuarantine(id) in k.policies ==> r.cluster.policies == k.policies)
  {
  }

  /** Removing touches one label, and the one policy only when it selects this quarantine. */
  lemma RemoveReleases(k: Cluster, pod: string, name: PolicyName, id: string, f: Faults)
    ensures var r := Remove(k, pod, name, id, f);
            && OnlyTouches(k, r.cluster, pod, name)
            && (name in k.policies && k.policies[name].selector != SelectorFor(id) ==> r.cluster.policies == k.policies)
            && (r.outcome.Ok? ==> !r.outcome.value.policyExists && !r.outcome.value.labelMatches
                                  && !Quarantined(r.cluster, pod, id))
  {
  }

  /**
   Exactly when applying succeeds: the pod exists, is a managed demo target, and either has this quarantine's own
   policy already or gets it created. The pod then carries the label, and that policy is the only other change.
   */
  lemma AppliesExactly(k: Cluster, pod: string, id: string, f: Faults)
    ensures var r, name := Apply(k, pod, id, f), ForQuarantine(id);
            && (r.outcome.Ok? <==>
                  && pod in k.pods && Labelled(k.pods[pod], DemoTarget, "true") && k.pods[pod].managed
                  && if name in k.policies
                     then k.policies[name].selector == map[QuarantineId := id] && k.policies[name].denyAll
                     else !f.create)
            && (r.outcome.Ok? ==>
                  && Labelled(r.cluster.pods[pod], QuarantineId, id)
                  && r.cluster.policies == if name in k.policies then k.policies
                                           else k.policies[name := Policy(map[QuarantineId := id], true)])
            && (pod !in k.pods ==> r == Reply(k, Err(TargetMissing)))
            && (pod in k.pods && !(Labelled(k.pods[pod], DemoTarget, "true") && k.pods[pod].managed) ==>
                  r == Reply(k, Err(TargetDenied)))
  {
  }

  /** Exactly when removing succeeds: the pod exists, and neither the deletion it needs nor the clearing is refused. */
  lemma RemovesExactly(k: Cluster, pod: string, name: PolicyName, id: string, f: Faults)
    ensures var r := Remove(k, pod, name, id, f);
            var own := name in k.policies && k.policies[name].selector == map[QuarantineId := id];
            && (r.outcome.Ok? <==> pod in k.pods && !(own && f.delete) && !f.clear)
            && (r.outcome.Ok? ==>
                  && QuarantineId !in r.cluster.pods[pod].labels
                  && r.cluster.policies == if own then k.policies - {name} else k.policies)
            && (pod in k.pods && own && f.delete ==> r == Reply(k, Err(KubernetesActionFailed)))
  {
  }

  predicate HasLabel(k: Cluster, pod: string) {
    pod in k.pods && QuarantineId in k.pods[pod].labels
  }

  /**
   When a call that was not let through for a conflict leaves the cluster as it was: unless it erased an
   earlier label.
   */
  lemma RejectedApplyRestores(k: Cluster, pod: string, id: string, f: Faults)
    requires Apply(k, pod, id, f).outcome == Err(KubernetesActionFailed)
    ensures Apply(k, pod, id, f).cluster == k <==> !HasLabel(k, pod)
  {
    var after := Apply(k, pod, id, f).cluster;
    LabelsRestored(k.pods[pod].labels, id);
    if !HasLabel(k, pod) {
      assert after.pods == k.pods;
    } else {
      assert QuarantineId !in after.pods[pod].labels;
    }
  }

  lemma LabelsRestored(labels: map<Label, string>, id: string)
    ensures labels[QuarantineId := id] - {QuarantineId} == labels - {QuarantineId}
    ensures QuarantineId !in labels ==> labels[QuarantineId := id] - {QuarantineId} == labels
  {
  }

  /** A conflict leaves the label behind: the cluster is as before only if the pod already carried it. */
  lemma ConflictLeavesLabel(k: Cluster, pod: string, id: string, f: Faults)
    requires Apply(k, pod, id, f).outcome == Err(QuarantineConflict)
    ensures Labelled(Apply(k, pod, id, f).cluster.pods[pod], QuarantineId, id)
    ensures Apply(k, pod, id, f).cluster == k <==> Labelled(k.pods[pod], QuarantineId, id)
  {
    var after := Apply(k, pod, id, f).cluster;
    if Labelled(k.pods[pod], QuarantineId, id) {
      assert after.pods[pod].labels == k.pods[pod].labels;
      assert after.pods == k.pods;
    }
  }

  /**
   Applying a quarantine and removing it again restores the cluster exactly when the pod carried no
   quarantine label and no policy of that name existed.
   */
  lemma ApplyThenRemoveRestores(k: Cluster, pod: string, id: string, f: Faults, g: Faults)
    requires Apply(k, pod, id, f).outcome.Ok?
    requires Remove(Apply(k, pod, id, f).cluster, pod, ForQuarantine(id), id, g).outcome.Ok?
    ensures Remove(Apply(k, pod, id, f).cluster, pod, ForQuarantine(id), id, g).cluster == k
       <==> !HasLabel(k, pod) && ForQuarantine(id) !in k.policies
  {
    var name := ForQuarantine(id);
    var middle := Apply(k, pod, id, f).cluster;
    var after := Remove(middle, pod, name, id, g).cluster;
    LabelsRestored(k.pods[pod].labels, id);
    assert name !in after.policies;
    assert QuarantineId !in after.pods[pod].labels;
    if !HasLabel(k, pod) && name !in k.policies {
      assert after.pods == k.pods;
      assert after.policies == k.policies;
    }
  }

  /**
   Another quarantine outlives a removal exactly when it is on another pod: the label is cleared
   whichever quarantine set it.
   */
  lemma RemovalReleasesOthers(k: Cluster, pod: string, id: string, f: Faults, other: string, otherId: string)
    requires Remove(k, pod, ForQuarantine(id), id, f).outcome.Ok? && otherId != id
    ensures Quarantined(Remove(k, pod, ForQuarantine(id), id, f).cluster, other, otherId)
       <==> Quarantined(k, other, otherId) && other != pod
  {
  }

  // ---------- runs ----------

  datatype Step =
    | Contain(pod: string, id: string, faults: Faults)
    | Release(pod: string, id: string, faults: Faults)
    | Outside(pods: map<string, Pod>)

  function Next(k: Cluster, s: Step): Cluster {
    match s
    case Contain(pod, id, f) => Apply(k, pod, id, f).cluster
    case Release(pod, id, f) => Remove(k, pod, ForQuarantine(id), id, f).cluster
    case Outside(pods) => k.(pods := pods)
  }

  function Run(k: Cluster, steps: seq<Step>): Cluster {
    if steps == [] then k else Next(Run(k, steps[..|steps| - 1]), steps[|steps| - 1])
  }

  /** Every quarantine policy denies everything to the pods that carry its own label. */
  ghost predicate OwnPolicies(k: Cluster) {
    forall id :: ForQuarantine(id) in k.policies ==> k.policies[ForQuarantine(id)] == Policy(SelectorFor(id), true)
  }

  /**
   However pods come, go and change labels, as long as nobody else writes quarantine policies every one of
   them keeps the form it was created in, so applying a quarantine never meets a conflict.
   */
  lemma {:induction false} NoConflictWithoutForeignPolicies(k: Cluster, steps: seq<Step>, pod: string, id: string,
                                                            f: Faults)
    requires OwnPolicies(k)
    ensures OwnPolicies(Run(k, steps))
    ensures Apply(Run(k, steps), pod, id, f).outcome != Err(QuarantineConflict)
  {
    if steps != [] {
      NoConflictWithoutForeignPolicies(k, steps[..|steps| - 1], pod, id, f);
    }
  }

  // ---------- the executor ----------

  class KubernetesExecutor {
    var pods: map<string, Pod>
    var policies: map<PolicyName, Policy>

    constructor (pods: map<string, Pod>, policies: map<PolicyName, Policy>)
      ensures Snapshot() == Cluster(pods, policies)
    {
      this.pods, this.policies := pods, policies;
    }

    function Snapshot(): Cluster
      reads this
    {
      Cluster(pods, policies)
    }

    method PatchLabel(pod: string, id: Option<string>)
      requires pod in pods
      modifies this`pods
      ensures Snapshot()
           == if id.Some? then SetLabel(old(Snapshot()), pod, id.value) else ClearLabel(old(Snapshot()), pod)
    {
      var p := pods[pod];
      pods := pods[pod := p.(labels := if id.Some? then p.labels[QuarantineId := id.value]
                             else p.labels - {QuarantineId})];
    }

    method GetQuarantinePolicyState(pod: string, name: PolicyName, id: string) returns (r: Result<PolicyState>)
      ensures r == if pod in pods then Ok(StateOf(Snapshot(), pod, name, id)) else Err(TargetMissing)
    {
      if pod !in pods { return Err(TargetMissing); }
      var matches, deny := false, false;
      if name in policies {
        matches := policies[name].selector == SelectorFor(id);
        deny := policies[name].denyAll;
      }
      return Ok(PolicyState(matches, Labelled(pods[pod], QuarantineId, id), deny));
    }

    method ApplyQuarantinePolicy(pod: string, id: string, f: Faults) returns (outcome: Result<()>)
      modifies this
      ensures Reply(Snapshot(), outcome) == Apply(old(Snapshot()), pod, id, f)
    {
      if pod !in pods { return Err(TargetMissing); }
      if !Labelled(pods[pod], DemoTarget, "true") || !pods[pod].managed { return Err(TargetDenied); }
      var name := ForQuarantine(id);
      PatchLabel(pod, Some(id));
      if name in policies {
        var state := GetQuarantinePolicyState(pod, name, id);
        return if state.value.Enforced() then Ok(()) else Err(QuarantineConflict);
      }
      if f.create {
        if f.clear { return Err(ExternalFailure(0)); }
        PatchLabel(pod, None);
        return Err(KubernetesActionFailed);
      }
      policies := policies[name := Policy(SelectorFor(id), true)];
      return Ok(());
    }

    method RemoveQuarantinePolicy(pod: string, name: PolicyName, id: string, f: Faults)
      returns (outcome: Result<PolicyState>)
      modifies this
      ensures Reply(Snapshot(), outcome) == Remove(old(Snapshot()), pod, name, id, f)
    {
      var state := GetQuarantinePolicyState(pod, name, id);
      if state.Err? { return Err(state.error); }
      if state.value.policyExists {
        if f.delete { return Err(KubernetesActionFailed); }
        policies := policies - {name};
      }
      if f.clear { return Err(ExternalFailure(0)); }
      PatchLabel(pod, None);
      outcome := GetQuarantinePolicyState(pod, name, id);
    }
  }
}
