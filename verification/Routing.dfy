/** Routing an authorized request to a module cluster: lookup by policy, route key, shard. */
module Routing {
  import opened Wrappers
  import opened Text
  import opened Json
  import opened Index
  import opened Topology

  datatype RouteError =
    | UnmappedPolicy(policy: string)
    | RuntimeMismatch(cluster: string, engine: string, runtime: string)
    | MissingRouteField(cluster: string, field: string)
    | NonScalarRouteField(cluster: string, field: string)

  datatype RouteSelection = RouteSelection(cluster: Cluster, routeKey: Option<string>, shard: Option<nat>)

  datatype ModuleRegistry = ModuleRegistry(clusters: seq<Cluster>, policyIndex: map<string, nat>)

  /** `ModuleRegistry::new` */
  function NewRegistry(clusters: seq<Cluster>): ModuleRegistry {
    ModuleRegistry(clusters, Collect(Assignments(clusters)))
  }

  // ---- the route key ----

  /** `read_path`: one object field per segment. */
  function ReadPath(value: Value, segments: seq<string>): Option<Value>
    decreases segments
  {
    if segments == [] then Some(value)
    else if !value.Object? then None
    else
      match Get(value.fields, segments[0])
      case None => None
      case Some(next) => ReadPath(next, segments[1..])
  }

  /** One field of the route key. */
  function RouteField(cluster: Cluster, context: Value, field: string): Result<string, RouteError> {
    match ReadPath(context, Split(field, '.'))
    case None => Err(MissingRouteField(cluster.name, field))
    case Some(v) => if v.Array? || v.Object? then Err(NonScalarRouteField(cluster.name, field)) else Ok(ScalarText(v))
  }

  /** From `value`, one object field after the other, to `target`. */
  ghost predicate PathLeads(value: Value, segments: seq<string>, target: Value) {
    exists stops: seq<Value> ::
      && |stops| == |segments| + 1 && stops[0] == value && stops[|segments|] == target
      && forall i | 0 <= i < |segments| :: Inside(stops[i], segments[i], stops[i + 1])
  }

  predicate Inside(outer: Value, key: string, inner: Value) {
    outer.Object? && Get(outer.fields, key) == Some(inner)
  }

  lemma {:induction false} ReadPathFollows(value: Value, segments: seq<string>) returns (stops: seq<Value>)
    requires ReadPath(value, segments).Some?
    ensures |stops| == |segments| + 1 && stops[0] == value && stops[|segments|] == ReadPath(value, segments).value
    ensures forall i | 0 <= i < |segments| :: Inside(stops[i], segments[i], stops[i + 1])
    decreases |segments|
  {
    if segments == [] {
      stops := [value];
    } else {
      stops := ReadPathFollows(Get(value.fields, segments[0]).value, segments[1..]);
      var rest := stops;
      stops := [value] + rest;
      forall i | 0 <= i < |segments| ensures Inside(stops[i], segments[i], stops[i + 1]) {
        if i > 0 {
          assert Inside(rest[i - 1], segments[1..][i - 1], rest[i]);
        }
      }
    }
  }

  lemma {:induction false} StopsAreRead(value: Value, segments: seq<string>, stops: seq<Value>)
    requires |stops| == |segments| + 1 && stops[0] == value
    requires forall i | 0 <= i < |segments| :: Inside(stops[i], segments[i], stops[i + 1])
    ensures ReadPath(value, segments) == Some(stops[|segments|])
    decreases |segments|
  {
    if segments != [] {
      assert Inside(stops[0], segments[0], stops[1]);
      forall i | 0 <= i < |segments[1..]| ensures Inside(stops[1..][i], segments[1..][i], stops[1..][i + 1]) {
        assert Inside(stops[i + 1], segments[i + 1], stops[i + 2]);
      }
      StopsAreRead(stops[1], segments[1..], stops[1..]);
    }
  }

  /** A path is read exactly where its segments lead. */
  lemma ReadPathIff(value: Value, segments: seq<string>, target: Value)
    ensures ReadPath(value, segments) == Some(target) <==> PathLeads(value, segments, target)
  {
    hide ReadPath;
    if ReadPath(value, segments) == Some(target) {
      var stops := ReadPathFollows(value, segments);
    }
    if PathLeads(value, segments, target) {
      var stops :| |stops| == |segments| + 1 && stops[0] == value && stops[|segments|] == target
                   && forall i | 0 <= i < |segments| :: Inside(stops[i], segments[i], stops[i + 1]);
      StopsAreRead(value, segments, stops);
    }
  }

  /** Where a field's path leads decides its text: strings and digits as they are, the rest by name, no lists or objects. */
  lemma FieldTexts(cluster: Cluster, context: Value, field: string, target: Value)
    requires PathLeads(context, Split(field, '.'), target)
    ensures RouteField(cluster, context, field) ==
            match target
            case String(s) => Ok(s)
            case Number(digits) => Ok(digits)
            case Bool(b) => if b then Ok("true") else Ok("false")
            case Null => Ok("null")
            case _ => Err(NonScalarRouteField(cluster.name, field))
  {
    hide PathLeads, ReadPath;
    ReadPathIff(context, Split(field, '.'), target);
  }

  /** A path that leads nowhere is a missing field. */
  lemma MissingField(cluster: Cluster, context: Value, field: string)
    requires forall target :: !PathLeads(context, Split(field, '.'), target)
    ensures RouteField(cluster, context, field) == Err(MissingRouteField(cluster.name, field))
  {
    hide PathLeads, ReadPath;
    var r := ReadPath(context, Split(field, '.'));
    if r.Some? {
      ReadPathIff(context, Split(field, '.'), r.value);
    }
  }

  /** All the fields the cluster routes by, in order. */
  predicate RouteFields(cluster: Cluster, context: Value, values: seq<string>) {
    && |values| == |cluster.routeBy|
    && forall i | 0 <= i < |values| :: RouteField(cluster, context, cluster.routeBy[i]) == Ok(values[i])
  }

  /** The error of the first field that has one. */
  predicate FirstFieldError(cluster: Cluster, context: Value, e: RouteError) {
    exists i | 0 <= i < |cluster.routeBy| ::
      && RouteField(cluster, context, cluster.routeBy[i]) == Err(e)
      && forall j | 0 <= j < i :: RouteField(cluster, context, cluster.routeBy[j]).Ok?
  }

  /** `derive_route_key`: no key without fields, else every field's text joined by colons. */
  method DeriveRouteKey(cluster: Cluster, context: Value) returns (r: Result<Option<string>, RouteError>)
    ensures r.Ok? && r.value.None? <==> cluster.routeBy == []
    ensures r.Ok? && r.value.Some? ==> exists values :: RouteFields(cluster, context, values) && r.value.value == Join(values, ":")
    ensures r.Err? ==> FirstFieldError(cluster, context, r.error)
    ensures r == KeyOf(cluster, context)
  {
    hide RouteField;
    KeyOfFields(cluster, context);
    if cluster.routeBy == [] {
      return Ok(None);
    }
    var values: seq<string> := [];
    for i := 0 to |cluster.routeBy|
      invariant |values| == i
      invariant forall j | 0 <= j < i :: RouteField(cluster, context, cluster.routeBy[j]) == Ok(values[j])
    {
      var field := RouteField(cluster, context, cluster.routeBy[i]);
      if field.Err? {
        assert FirstFieldError(cluster, context, field.error);
        return Err(field.error);
      }
      values := values + [field.value];
    }
    assert RouteFields(cluster, context, values);
    return Ok(Some(Join(values, ":")));
  }

  /** The fields from number `n` on, or the first error among them. */
  function FieldsFrom(cluster: Cluster, context: Value, n: nat): Result<seq<string>, RouteError>
    requires n <= |cluster.routeBy|
    decreases |cluster.routeBy| - n
  {
    if n == |cluster.routeBy| then Ok([])
    else
      match RouteField(cluster, context, cluster.routeBy[n])
      case Err(e) => Err(e)
      case Ok(value) =>
        match FieldsFrom(cluster, context, n + 1)
        case Err(e) => Err(e)
        case Ok(rest) => Ok([value] + rest)
  }

  function KeyOf(cluster: Cluster, context: Value): Result<Option<string>, RouteError> {
    if cluster.routeBy == [] then Ok(None)
    else
      match FieldsFrom(cluster, context, 0)
      case Err(e) => Err(e)
      case Ok(values) => Ok(Some(Join(values, ":")))
  }

  lemma {:induction false} FieldsAre(cluster: Cluster, context: Value, n: nat)
    requires n <= |cluster.routeBy|
    ensures var r := FieldsFrom(cluster, context, n);
            if r.Ok? then
              && |r.value| == |cluster.routeBy| - n
              && forall i | n <= i < |cluster.routeBy| :: RouteField(cluster, context, cluster.routeBy[i]) == Ok(r.value[i - n])
            else
              exists i | n <= i < |cluster.routeBy| ::
                && RouteField(cluster, context, cluster.routeBy[i]) == Err(r.error)
                && forall j | n <= j < i :: RouteField(cluster, context, cluster.routeBy[j]).Ok?
    decreases |cluster.routeBy| - n
  {
    hide RouteField;
    if n < |cluster.routeBy| {
      FieldsAre(cluster, context, n + 1);
    }
  }

  lemma KeyOfFields(cluster: Cluster, context: Value)
    ensures forall values :: RouteFields(cluster, context, values) ==> FieldsFrom(cluster, context, 0) == Ok(values)
    ensures forall e :: FirstFieldError(cluster, context, e) ==> FieldsFrom(cluster, context, 0) == Err(e)
  {
    FieldsAre(cluster, context, 0);
    var r := FieldsFrom(cluster, context, 0);
    hide RouteField, FieldsFrom;
    forall values | RouteFields(cluster, context, values) ensures r == Ok(values) {
      if r.Ok? {
        assert r.value == values;
      }
    }
  }

  // ---- when a key tells its fields apart ----

  function Colons(s: string): nat {
    if s == [] then 0 else (if s[0] == ':' then 1 else 0) + Colons(s[1..])
  }

  function AllColons(values: seq<string>): nat {
    if values == [] then 0 else Colons(values[0]) + AllColons(values[1..])
  }

  lemma {:induction false} ColonsAdd(a: string, b: string)
    ensures Colons(a + b) == Colons(a) + Colons(b)
  {
    if a == [] {
      assert a + b == b;
    } else {
      assert (a + b)[1..] == a[1..] + b;
      ColonsAdd(a[1..], b);
    }
  }

  lemma {:induction false} ColonsZero(s: string)
    ensures Colons(s) == 0 <==> ':' !in s
  {
    if s != [] {
      ColonsZero(s[1..]);
    }
  }

  /** Joining adds one colon between every two fields. */
  lemma {:induction false} JoinColons(values: seq<string>)
    requires values != []
    ensures Colons(Join(values, ":")) == AllColons(values) + |values| - 1
  {
    if |values| > 1 {
      JoinColons(values[1..]);
      ColonsAdd(values[0] + ":", Join(values[1..], ":"));
      ColonsAdd(values[0], ":");
      assert Colons(":") == 1;
    } else {
      assert values[1..] == [];
    }
  }

  predicate NoColons(values: seq<string>) {
    forall v | v in values :: ':' !in v
  }

  lemma {:induction false} AllColonsZero(values: seq<string>)
    ensures AllColons(values) == 0 <==> NoColons(values)
  {
    if values != [] {
      AllColonsZero(values[1..]);
      ColonsZero(values[0]);
      assert forall v :: v in values <==> v == values[0] || v in values[1..];
    }
  }

  /** No other list of as many fields has the same key. */
  ghost predicate KeyTellsFields(values: seq<string>) {
    forall other: seq<string> :: |other| == |values| && Join(other, ":") == Join(values, ":") ==> other == values
  }

  lemma CleanKeysTell(values: seq<string>)
    requires values != [] && NoColons(values)
    ensures KeyTellsFields(values)
  {
    forall other: seq<string> | |other| == |values| && Join(other, ":") == Join(values, ":") ensures other == values {
      JoinColons(values);
      JoinColons(other);
      AllColonsZero(values);
      AllColonsZero(other);
      SplitJoin(values, ':');
      SplitJoin(other, ':');
    }
  }

  /** Join, with two neighbours and the rest named. */
  lemma {:induction false} JoinPair(front: seq<string>, a: string, b: string, back: seq<string>)
    ensures Join(front + [a, b] + back, ":") == Join(front + [a + ":" + b] + back, ":")
  {
    var two, one := front + [a, b] + back, front + [a + ":" + b] + back;
    if front == [] {
      assert two[1..] == [b] + back && ([b] + back)[1..] == back;
      assert one[1..] == back;
      if back != [] {
        assert Join([b] + back, ":") == b + ":" + Join(back, ":");
        assert a + ":" + (b + ":" + Join(back, ":")) == (a + ":" + b) + ":" + Join(back, ":");
      } else {
        assert two == [a, b] && one == [a + ":" + b];
      }
    } else {
      JoinPair(front[1..], a, b, back);
      assert two[1..] == front[1..] + [a, b] + back;
      assert one[1..] == front[1..] + [a + ":" + b] + back;
    }
  }

  /** A colon may as well have stood in the next field, or in the one before. */
  lemma ColonMovesRight(front: seq<string>, a: string, b: string, next: string, back: seq<string>)
    ensures !KeyTellsFields(front + [a + ":" + b, next] + back)
  {
    var values, other := front + [a + ":" + b, next] + back, front + [a, b + ":" + next] + back;
    JoinPair(front, a + ":" + b, next, back);
    JoinPair(front, a, b + ":" + next, back);
    assert a + ":" + (b + ":" + next) == (a + ":" + b) + ":" + next;
    assert values[|front|] == a + ":" + b && other[|front|] == a;
    assert |a + ":" + b| > |a|;
    assert |other| == |values| && other != values;
    hide Join;
  }

  lemma ColonMovesLeft(front: seq<string>, last: string, a: string, b: string)
    ensures !KeyTellsFields(front + [last, a + ":" + b] + [])
  {
    var values, other := front + [last, a + ":" + b] + [], front + [last + ":" + a, b] + [];
    JoinPair(front, last, a + ":" + b, []);
    JoinPair(front, last + ":" + a, b, []);
    assert last + ":" + (a + ":" + b) == (last + ":" + a) + ":" + b;
    assert values[|front|] == last && other[|front|] == last + ":" + a;
    assert |other| == |values| && other != values;
    hide Join;
  }

  lemma ColonsConfuse(values: seq<string>, i: nat)
    requires |values| > 1 && i < |values| && ':' in values[i]
    ensures !KeyTellsFields(values)
  {
    hide KeyTellsFields;
    var c :| 0 <= c < |values[i]| && values[i][c] == ':';
    var a, b := values[i][..c], values[i][c + 1..];
    assert values[i] == a + ":" + b;
    if i + 1 < |values| {
      assert values == values[..i] + [values[i], values[i + 1]] + values[i + 2..];
      ColonMovesRight(values[..i], a, b, values[i + 1], values[i + 2..]);
    } else {
      assert values == values[..i - 1] + [values[i - 1], values[i]] + [];
      ColonMovesLeft(values[..i - 1], values[i - 1], a, b);
    }
  }

  /** A key with several fields stands for one list of fields exactly when none of them holds a colon. */
  lemma KeyTellsFieldsIff(values: seq<string>)
    requires values != []
    ensures KeyTellsFields(values) <==> |values| == 1 || NoColons(values)
  {
    if NoColons(values) {
      CleanKeysTell(values);
    } else if |values| > 1 {
      var i :| 0 <= i < |values| && ':' in values[i];
      ColonsConfuse(values, i);
    }
  }

  // ---- resolving ----

  /** `route_to_shard`, with the hasher as a parameter. */
  function RouteToShard(key: string, virtualShards: nat, hash: string -> nat): (shard: nat)
    requires virtualShards > 0
    ensures shard < virtualShards && exists rounds: nat :: hash(key) == shard + rounds * virtualShards
  {
    assert hash(key) == hash(key) % virtualShards + (hash(key) / virtualShards) * virtualShards;
    hash(key) % virtualShards
  }

  /** The cluster that holds the policy, by a scan of the manifest. */
  predicate Serves(clusters: seq<Cluster>, policy: string, i: nat) {
    i < |clusters| && policy in clusters[i].policies
  }

  lemma {:induction false} AssignmentsServe(clusters: seq<Cluster>, policy: string, i: nat)
    ensures (policy, i) in Assignments(clusters) <==> Serves(clusters, policy, i)
  {
    if clusters != [] {
      var n := |clusters| - 1;
      AssignmentsServe(clusters[..n], policy, i);
      var last := AssignedTo(clusters[n].policies, n);
      assert (policy, i) in last <==> i == n && policy in clusters[n].policies by {
        if policy in clusters[n].policies {
          var k :| 0 <= k < |clusters[n].policies| && clusters[n].policies[k] == policy;
          assert last[k] == (policy, n);
        }
      }
    }
  }

  /** In an accepted manifest at most one cluster serves a policy, and the registry's index finds it. */
  lemma RegistryFindsTheCluster(clusters: seq<Cluster>, policy: string, i: nat)
    requires Accepts(clusters)
    ensures Lookup(NewRegistry(clusters).policyIndex, policy) == Some(i) <==> Serves(clusters, policy, i)
  {
    var all := Assignments(clusters);
    IndexIsScan(all, policy);
    AssignmentsServe(clusters, policy, i);
    hide Assignments, SettingsOk;
    if Serves(clusters, policy, i) {
      var m :| 0 <= m < |all| && all[m] == (policy, i);
      GetAt(all, m);
    }
  }

  /** `ModuleRegistry::resolve` on the routing context built from the request. */
  function Resolve(registry: ModuleRegistry, policy: string, engine: string, context: Value, hash: string -> nat)
    : Result<RouteSelection, RouteError>
    requires AllValid(registry.clusters)
  {
    match Lookup(registry.policyIndex, policy)
    case None => Err(UnmappedPolicy(policy))
    case Some(i) =>
      if i >= |registry.clusters| then Err(UnmappedPolicy(policy))
      else
        var cluster := registry.clusters[i];
        if cluster.runtime != engine then Err(RuntimeMismatch(cluster.name, engine, cluster.runtime))
        else
          match KeyOf(cluster, context)
          case Err(e) => Err(e)
          case Ok(key) =>
            Ok(RouteSelection(
                 cluster, key,
                 if cluster.strategy.Hash? && key.Some?
                 then Some(RouteToShard(key.value, cluster.strategy.virtualShards, hash)) else None))
  }

  /**
   On an accepted manifest a request is routed to the one cluster that serves its policy, or refused; a hash
   cluster always gets a shard below its number of shards, any other cluster none.
   */
  lemma AcceptedManifestsRoute(clusters: seq<Cluster>, policy: string, engine: string, context: Value,
                               hash: string -> nat)
    requires Accepts(clusters)
    ensures var r := Resolve(NewRegistry(clusters), policy, engine, context, hash);
            match r
            case Err(UnmappedPolicy(p)) => p == policy && forall i: nat :: !Serves(clusters, policy, i)
            case Err(RuntimeMismatch(name, e, runtime)) =>
              exists i: nat :: Serves(clusters, policy, i) && name == clusters[i].name && e == engine != runtime == clusters[i].runtime
            case Err(e) =>
              exists i: nat :: Serves(clusters, policy, i) && FirstFieldError(clusters[i], context, e)
            case Ok(route) =>
              && (exists i: nat :: Serves(clusters, policy, i) && clusters[i] == route.cluster)
              && route.cluster.runtime == engine
              && (route.shard.Some? <==> route.cluster.strategy.Hash?)
              && (route.shard.Some? ==>
                    && route.routeKey.Some? && route.shard.value < route.cluster.strategy.virtualShards
                    && exists rounds: nat ::
                         hash(route.routeKey.value) == route.shard.value + rounds * route.cluster.strategy.virtualShards)
              && (route.routeKey.None? <==> route.cluster.routeBy == [])
              && (route.routeKey.Some? ==>
                    exists values :: RouteFields(route.cluster, context, values) && route.routeKey.value == Join(values, ":"))
  {
    var index := NewRegistry(clusters).policyIndex;
    forall i: nat ensures Lookup(index, policy) == Some(i) <==> Serves(clusters, policy, i) {
      RegistryFindsTheCluster(clusters, policy, i);
    }
    hide Collect, Assignments, FirstFieldError;
    if Lookup(index, policy).Some? {
      var i := Lookup(index, policy).value;
      assert Serves(clusters, policy, i);
      assert SettingsOk(clusters[i]);
      KeyErrors(clusters[i], context);
    }
  }

  lemma KeyErrors(cluster: Cluster, context: Value)
    ensures KeyOf(cluster, context).Ok? ==>
              && (KeyOf(cluster, context).value.None? <==> cluster.routeBy == [])
              && (KeyOf(cluster, context).value.Some? ==>
                    exists values :: RouteFields(cluster, context, values) && KeyOf(cluster, context).value.value == Join(values, ":"))
    ensures KeyOf(cluster, context).Err? ==> FirstFieldError(cluster, context, KeyOf(cluster, context).error)
    ensures KeyOf(cluster, context).Err? ==>
              KeyOf(cluster, context).error.MissingRouteField? || KeyOf(cluster, context).error.NonScalarRouteField?
  {
    FieldsAre(cluster, context, 0);
    hide RouteField, Join;
    var r := FieldsFrom(cluster, context, 0);
    if r.Ok? {
      hide FieldsFrom;
      assert RouteFields(cluster, context, r.value);
    }
  }

  /** Requests whose routing fields agree go to the same shard; without a colon in them, only those share a key. */
  lemma KeysFollowFields(cluster: Cluster, a: Value, b: Value, va: seq<string>, vb: seq<string>)
    requires cluster.routeBy != [] && RouteFields(cluster, a, va) && RouteFields(cluster, b, vb)
    requires |va| == 1 || NoColons(va)
    ensures KeyOf(cluster, a) == KeyOf(cluster, b) <==> va == vb
  {
    KeyOfFields(cluster, a);
    KeyOfFields(cluster, b);
    KeyTellsFieldsIff(va);
    hide FieldsFrom, RouteField, Join;
  }
}
