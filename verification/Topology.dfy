/** The module clusters: the checks a topology manifest passes before the gateway routes by it. */
module Topology {
  import opened Wrappers
  import opened Index

  datatype Strategy = Single | Hash(virtualShards: nat) | Broadcast

  datatype Protocol = Direct | NatsService | JetStream

  datatype Autoscale = Autoscale(minReplicas: nat, maxReplicas: nat)

  datatype Cluster = Cluster(
    name: string, category: string, runtime: string, policies: seq<string>,
    service: string, namespace: Option<string>,
    protocol: Protocol, subject: Option<string>, stream: Option<string>,
    strategy: Strategy, routeBy: seq<string>, sticky: bool,
    replicas: nat, autoscale: Option<Autoscale>)

  datatype Reason =
    | NoVirtualShards | NoRouteBy | NatsNeedsSubject | JetNeedsStream | JetNeedsSubject
    | NoReplicas | NoMinReplicas | MaxBelowMin

  datatype TopologyError =
    | DuplicateClusterName(name: string)
    | DuplicatePolicyAssignment(policy: string, first: string, second: string)
    | Invalid(cluster: string, reason: Reason)

  function ValidateRouting(c: Cluster): Option<Reason> {
    match c.strategy
    case Hash(shards) => if shards == 0 then Some(NoVirtualShards) else if c.routeBy == [] then Some(NoRouteBy) else None
    case _ => None
  }

  function ValidateTransport(c: Cluster): Option<Reason> {
    match c.protocol
    case Direct => None
    case NatsService => if c.subject.None? then Some(NatsNeedsSubject) else None
    case JetStream =>
      if c.stream.None? then Some(JetNeedsStream) else if c.subject.None? then Some(JetNeedsSubject) else None
  }

  function ValidateDeployment(c: Cluster): Option<Reason> {
    if c.replicas == 0 then Some(NoReplicas)
    else if c.autoscale.None? then None
    else if c.autoscale.value.minReplicas == 0 then Some(NoMinReplicas)
    else if c.autoscale.value.maxReplicas < c.autoscale.value.minReplicas then Some(MaxBelowMin)
    else None
  }

  /** The first of the three checks that fails. */
  function Validate(c: Cluster): Option<Reason> {
    if ValidateRouting(c).Some? then ValidateRouting(c)
    else if ValidateTransport(c).Some? then ValidateTransport(c)
    else ValidateDeployment(c)
  }

  /** The settings a cluster must have. */
  predicate SettingsOk(c: Cluster) {
    && (c.strategy.Hash? ==> c.strategy.virtualShards > 0 && |c.routeBy| > 0)
    && (c.protocol == NatsService ==> c.subject.Some?)
    && (c.protocol == JetStream ==> c.stream.Some? && c.subject.Some?)
    && c.replicas > 0
    && (c.autoscale.Some? ==> 1 <= c.autoscale.value.minReplicas <= c.autoscale.value.maxReplicas)
  }

  /** What each reason says is wrong. */
  predicate Wrong(c: Cluster, reason: Reason) {
    match reason
    case NoVirtualShards => c.strategy == Hash(0)
    case NoRouteBy => c.strategy.Hash? && |c.routeBy| == 0
    case NatsNeedsSubject => c.protocol == NatsService && c.subject.None?
    case JetNeedsStream => c.protocol == JetStream && c.stream.None?
    case JetNeedsSubject => c.protocol == JetStream && c.subject.None?
    case NoReplicas => c.replicas == 0
    case NoMinReplicas => c.autoscale.Some? && c.autoscale.value.minReplicas == 0
    case MaxBelowMin => c.autoscale.Some? && c.autoscale.value.maxReplicas < c.autoscale.value.minReplicas
  }

  /** Routing is looked at before transport and transport before deployment, each from top to bottom. */
  function Turn(reason: Reason): nat {
    match reason
    case NoVirtualShards => 0
    case NoRouteBy => 1
    case NatsNeedsSubject => 2
    case JetNeedsStream => 3
    case JetNeedsSubject => 4
    case NoReplicas => 5
    case NoMinReplicas => 6
    case MaxBelowMin => 7
  }

  predicate FirstWrong(c: Cluster, reason: Reason) {
    Wrong(c, reason) && forall other :: Wrong(c, other) ==> Turn(reason) <= Turn(other)
  }

  /** The three checks together pass exactly such clusters, and the reason they give is the first that is true. */
  lemma ValidateIff(c: Cluster)
    ensures Validate(c).None? <==> SettingsOk(c)
    ensures Validate(c).Some? ==> FirstWrong(c, Validate(c).value)
  {
  }

  // ---- what an accepted manifest is ----

  /** Every (policy, cluster number) pair, in manifest order: what `ModuleRegistry::new` collects. */
  function Assignments(clusters: seq<Cluster>): seq<(string, nat)> {
    if clusters == [] then []
    else var n := |clusters| - 1; Assignments(clusters[..n]) + AssignedTo(clusters[n].policies, n)
  }

  function AssignedTo(policies: seq<string>, cluster: nat): seq<(string, nat)> {
    seq(|policies|, i requires 0 <= i < |policies| => (policies[i], cluster))
  }

  predicate DistinctClusters(clusters: seq<Cluster>) {
    forall i, j | 0 <= i < j < |clusters| :: clusters[i].name != clusters[j].name
  }

  predicate AllValid(clusters: seq<Cluster>) {
    forall i | 0 <= i < |clusters| :: SettingsOk(clusters[i])
  }

  /** Distinct cluster names, no policy assigned twice within or across clusters, every cluster valid. */
  predicate Accepts(clusters: seq<Cluster>) {
    DistinctClusters(clusters) && Distinct(Assignments(clusters)) && AllValid(clusters)
  }

  predicate NewName(clusters: seq<Cluster>, i: nat)
    requires i < |clusters|
  {
    forall j | 0 <= j < i :: clusters[j].name != clusters[i].name
  }

  /** The error is the first thing wrong with cluster `i`: its name, then its policies, then its settings. */
  predicate Blames(clusters: seq<Cluster>, i: nat, e: TopologyError)
    requires i < |clusters|
  {
    var c := clusters[i];
    match e
    case DuplicateClusterName(name) => name == c.name && !NewName(clusters, i)
    case DuplicatePolicyAssignment(policy, first, second) =>
      && second == c.name && NewName(clusters, i)
      && exists k | 0 <= k < |c.policies| ::
           c.policies[k] == policy && RepeatedAt(Assignments(clusters[..i]) + AssignedTo(c.policies[..k], i), policy, clusters, first)
    case Invalid(cluster, reason) =>
      && cluster == c.name && NewName(clusters, i) && Distinct(Assignments(clusters[..i + 1]))
      && FirstWrong(c, reason)
  }

  /** So far no policy came twice, and this one is held by the cluster called `first`. */
  predicate RepeatedAt(before: seq<(string, nat)>, policy: string, clusters: seq<Cluster>, first: string) {
    && Distinct(before)
    && exists m | 0 <= m < |before| ::
         before[m].0 == policy && before[m].1 < |clusters| && clusters[before[m].1].name == first
  }

  /** The policies seen so far and the names of their clusters. */
  ghost predicate Indexed(index: map<string, string>, before: seq<(string, nat)>, clusters: seq<Cluster>) {
    && (forall m | 0 <= m < |before| ::
          before[m].1 < |clusters| && before[m].0 in index && index[before[m].0] == clusters[before[m].1].name)
    && (forall policy | policy in index :: exists m | 0 <= m < |before| :: before[m].0 == policy)
  }

  lemma IndexedGrows(index: map<string, string>, before: seq<(string, nat)>, clusters: seq<Cluster>, policy: string, c: nat)
    requires Indexed(index, before, clusters) && Distinct(before) && policy !in index && c < |clusters|
    ensures Indexed(index[policy := clusters[c].name], before + [(policy, c)], clusters)
    ensures Distinct(before + [(policy, c)])
  {
    var after := before + [(policy, c)];
    assert after[|before|].0 == policy;
    forall p | p in index ensures exists m | 0 <= m < |after| :: after[m].0 == p {
      var m :| 0 <= m < |before| && before[m].0 == p;
      assert after[m].0 == p;
    }
  }

  /** The inner loop: files the policies of cluster `i`. */
  method AssignPolicies(clusters: seq<Cluster>, i: nat, before: map<string, string>)
    returns (index: map<string, string>, r: Result<(), TopologyError>)
    requires i < |clusters| && NewName(clusters, i)
    requires Indexed(before, Assignments(clusters[..i]), clusters) && Distinct(Assignments(clusters[..i]))
    ensures r.Ok? <==> Distinct(Assignments(clusters[..i + 1]))
    ensures r.Ok? ==> Indexed(index, Assignments(clusters[..i + 1]), clusters)
    ensures r.Err? ==> Blames(clusters, i, r.error) && r.error.DuplicatePolicyAssignment?
  {
    hide SettingsOk, FirstWrong;
    index := before;
    var c := clusters[i];
    ghost var earlier := Assignments(clusters[..i]);
    assert clusters[..i + 1][..i] == clusters[..i];
    assert Assignments(clusters[..i + 1]) == earlier + AssignedTo(c.policies, i);
    assert earlier + AssignedTo(c.policies[..0], i) == earlier;
    hide Assignments;
    for k := 0 to |c.policies|
      invariant Indexed(index, earlier + AssignedTo(c.policies[..k], i), clusters)
      invariant Distinct(earlier + AssignedTo(c.policies[..k], i))
    {
      ghost var so_far := earlier + AssignedTo(c.policies[..k], i);
      ghost var next := (c.policies[k], i);
      assert AssignedTo(c.policies[..k + 1], i) == AssignedTo(c.policies[..k], i) + [next];
      assert earlier + AssignedTo(c.policies[..k + 1], i) == so_far + [next];
      if c.policies[k] in index {
        RepeatedBreaks(earlier, c.policies, i, k, clusters, index);
        r := Err(DuplicatePolicyAssignment(c.policies[k], index[c.policies[k]], c.name));
        return;
      }
      IndexedGrows(index, so_far, clusters, c.policies[k], i);
      index := index[c.policies[k] := c.name];
    }
    assert c.policies[..|c.policies|] == c.policies;
    r := Ok(());
  }

  lemma RepeatedBreaks(earlier: seq<(string, nat)>, policies: seq<string>, i: nat, k: nat, clusters: seq<Cluster>,
                       index: map<string, string>)
    requires k < |policies| && Indexed(index, earlier + AssignedTo(policies[..k], i), clusters)
    requires Distinct(earlier + AssignedTo(policies[..k], i)) && policies[k] in index
    ensures !Distinct(earlier + AssignedTo(policies, i))
    ensures RepeatedAt(earlier + AssignedTo(policies[..k], i), policies[k], clusters, index[policies[k]])
  {
    var before, all := earlier + AssignedTo(policies[..k], i), earlier + AssignedTo(policies, i);
    var m :| 0 <= m < |before| && before[m].0 == policies[k];
    assert before[m] == all[m];
    assert all[|earlier| + k].0 == policies[k];
  }

  /**
   The checks of `parse_topology_manifest` after decoding: a manifest is accepted exactly when all is in order,
   and otherwise the error names what is wrong with the first cluster that is not.
   */
  method CheckTopology(clusters: seq<Cluster>) returns (r: Result<(), TopologyError>)
    ensures r.Ok? <==> Accepts(clusters)
    ensures r.Err? ==> exists i :: 0 <= i < |clusters| && Accepts(clusters[..i]) && Blames(clusters, i, r.error)
  {
    var seen: set<string> := {};
    var policyIndex: map<string, string> := map[];
    for i := 0 to |clusters|
      invariant seen == set j | 0 <= j < i :: clusters[j].name
      invariant Accepts(clusters[..i])
      invariant Indexed(policyIndex, Assignments(clusters[..i]), clusters)
    {
      AcceptsGrows(clusters, i);
      if clusters[i].name in seen {
        r := Err(DuplicateClusterName(clusters[i].name));
        assert Blames(clusters, i, r.error);
        return;
      }
      policyIndex, r := AssignPolicies(clusters, i, policyIndex);
      if r.Err? {
        return;
      }
      seen := seen + {clusters[i].name};
      var reason := Validate(clusters[i]);
      ValidateIff(clusters[i]);
      if reason.Some? {
        r := Err(Invalid(clusters[i].name, reason.value));
        assert Blames(clusters, i, r.error);
        return;
      }
    }
    assert clusters[..|clusters|] == clusters;
    r := Ok(());
  }

  lemma {:induction false} AssignmentsPrefix(clusters: seq<Cluster>, n: nat)
    requires n <= |clusters|
    ensures Assignments(clusters[..n]) <= Assignments(clusters)
  {
    if n < |clusters| {
      var m := |clusters| - 1;
      AssignmentsPrefix(clusters[..m], n);
      assert clusters[..m][..n] == clusters[..n];
    } else {
      assert clusters[..n] == clusters;
    }
  }

  /** A prefix of an accepted manifest is accepted. */
  lemma AcceptsPrefix(clusters: seq<Cluster>, n: nat)
    requires Accepts(clusters) && n <= |clusters|
    ensures Accepts(clusters[..n])
  {
    hide SettingsOk, Assignments;
    AssignmentsPrefix(clusters, n);
    var part, all := Assignments(clusters[..n]), Assignments(clusters);
    forall i, j | 0 <= i < j < |part| ensures part[i].0 != part[j].0 {
      assert part[i] == all[i] && part[j] == all[j];
    }
  }

  /** One more cluster is accepted exactly when its name is new, its policies are and it is valid. */
  lemma AcceptsGrows(clusters: seq<Cluster>, i: nat)
    requires i < |clusters| && Accepts(clusters[..i])
    ensures Accepts(clusters[..i + 1]) <==>
            && (forall j | 0 <= j < i :: clusters[j].name != clusters[i].name)
            && Distinct(Assignments(clusters[..i + 1])) && SettingsOk(clusters[i])
    ensures Accepts(clusters) ==> Accepts(clusters[..i + 1])
  {
    hide SettingsOk, Assignments;
    if Accepts(clusters) {
      AcceptsPrefix(clusters, i + 1);
    }
  }
}
