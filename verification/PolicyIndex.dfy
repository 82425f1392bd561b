/**
 The gateway's policies: a manifest with distinct policy names, an index over it, and the choice of the policy
 that authorizes a request.
 */
module PolicyIndex {
  import opened Wrappers
  import opened Index

  datatype Policy<R> = Policy(name: string, rule: R)

  /** A request: the policy it names, if any, and the rest. */
  datatype Request<Q> = Request(policy: Option<string>, rest: Q)

  datatype AuthorizeError =
    | NotValid
    | UnknownPolicy(name: string)
    | PolicyMismatch(name: string)
    | NoPolicyMatch

  datatype Gateway<R> = Gateway(policies: seq<Policy<R>>, index: map<string, nat>)

  predicate DistinctNames<R>(policies: seq<Policy<R>>) {
    forall i, j | 0 <= i < j < |policies| :: policies[i].name != policies[j].name
  }

  /** The checks of `parse_policy_manifest` after decoding: the first repeated name is the error. */
  method CheckPolicyNames<R>(policies: seq<Policy<R>>) returns (r: Result<(), string>)
    ensures r.Ok? <==> DistinctNames(policies)
    ensures r.Err? ==>
              exists i, j :: 0 <= j < i < |policies| && policies[j].name == policies[i].name == r.error
                             && DistinctNames(policies[..i])
  {
    var seen: set<string> := {};
    for i := 0 to |policies|
      invariant seen == set j | 0 <= j < i :: policies[j].name
      invariant DistinctNames(policies[..i])
    {
      if policies[i].name in seen {
        return Err(policies[i].name);
      }
      seen := seen + {policies[i].name};
    }
    assert policies[..|policies|] == policies;
    return Ok(());
  }

  function Entries<R>(policies: seq<Policy<R>>): seq<(string, nat)> {
    seq(|policies|, i requires 0 <= i < |policies| => (policies[i].name, i))
  }

  /** `Gateway::from_manifest` */
  function FromManifest<R>(policies: seq<Policy<R>>): Gateway<R> {
    Gateway(policies, Collect(Entries(policies)))
  }

  /** The names the parser accepts are exactly those for which the index finds every policy as a scan does. */
  lemma AcceptedIffIndexed<R>(policies: seq<Policy<R>>)
    ensures DistinctNames(policies) <==>
            forall name :: Lookup(FromManifest(policies).index, name) == Get(Entries(policies), name)
  {
    IndexIsScanIff(Entries(policies));
    assert Distinct(Entries(policies)) <==> DistinctNames(policies) by {
      assert forall i | 0 <= i < |policies| :: Entries(policies)[i].0 == policies[i].name;
    }
    hide Collect, Get, Lookup;
  }

  predicate Matches<R(!new), Q(!new)>(policy: Policy<R>, rest: Q, rule: (R, Q) -> bool) {
    rule(policy.rule, rest)
  }

  function FirstMatch<R(!new), Q(!new)>(policies: seq<Policy<R>>, rest: Q, rule: (R, Q) -> bool): (r: Option<nat>)
    ensures r.Some? ==> r.value < |policies| && Matches(policies[r.value], rest, rule)
                        && forall i | 0 <= i < r.value :: !Matches(policies[i], rest, rule)
    ensures r.None? ==> forall i | 0 <= i < |policies| :: !Matches(policies[i], rest, rule)
    decreases |policies|
  {
    if policies == [] then None
    else if Matches(policies[0], rest, rule) then Some(0)
    else match FirstMatch(policies[1..], rest, rule) case None => None case Some(i) => Some(i + 1)
  }

  /** `authorize`, with the request's own validation and the match rules as parameters. */
  function Authorize<R(!new), Q(!new)>(g: Gateway<R>, request: Request<Q>, valid: Q -> bool, rule: (R, Q) -> bool)
    : Result<string, AuthorizeError>
  {
    if !valid(request.rest) then Err(NotValid)
    else
      match request.policy
      case Some(name) =>
        (match Lookup(g.index, name)
         case None => Err(UnknownPolicy(name))
         case Some(i) =>
           if i >= |g.policies| then Err(UnknownPolicy(name))
           else if !Matches(g.policies[i], request.rest, rule) then Err(PolicyMismatch(name))
           else Ok(g.policies[i].name))
      case None =>
        match FirstMatch(g.policies, request.rest, rule)
        case Some(i) => Ok(g.policies[i].name)
        case None => Err(NoPolicyMatch)
  }

  predicate Named<R>(policies: seq<Policy<R>>, name: string) {
    exists i | 0 <= i < |policies| :: policies[i].name == name
  }

  /** The policies of that name that match: with distinct names at most one. */
  predicate NamedAndMatches<R(!new), Q(!new)>(policies: seq<Policy<R>>, name: string, rest: Q, rule: (R, Q) -> bool) {
    exists i | 0 <= i < |policies| :: policies[i].name == name && Matches(policies[i], rest, rule)
  }

  /** With distinct names the index leads to the one policy of that name. */
  lemma NameIsFound<R>(policies: seq<Policy<R>>, name: string)
    requires DistinctNames(policies)
    ensures match Lookup(FromManifest(policies).index, name)
            case None => !Named(policies, name)
            case Some(k) =>
              k < |policies| && policies[k].name == name
              && forall i | 0 <= i < |policies| :: policies[i].name == name ==> i == k
  {
    var entries := Entries(policies);
    IndexIsScan(entries, name);
    assert forall i | 0 <= i < |policies| :: entries[i] == (policies[i].name, i);
    hide Collect, Lookup;
    var found := Get(entries, name);
    if found.Some? {
      var i :| 0 <= i < |entries| && entries[i] == (name, found.value);
    }
  }

  /** For a manifest that was accepted, a named request is answered by a look at the list alone. */
  lemma NamedAuthorizeIsScan<R(!new), Q(!new)>(policies: seq<Policy<R>>, name: string, rest: Q, valid: Q -> bool,
                                               rule: (R, Q) -> bool)
    requires DistinctNames(policies)
    ensures Authorize(FromManifest(policies), Request(Some(name), rest), valid, rule) ==
            if !valid(rest) then Err(NotValid)
            else if !Named(policies, name) then Err(UnknownPolicy(name))
            else if !NamedAndMatches(policies, name, rest, rule) then Err(PolicyMismatch(name))
            else Ok(name)
  {
    hide Matches, Collect, Entries, Lookup, FirstMatch, DistinctNames;
    NameIsFound(policies, name);
    var found := Lookup(FromManifest(policies).index, name);
    if found.Some? {
      assert NamedAndMatches(policies, name, rest, rule) <==> Matches(policies[found.value], rest, rule);
      assert Named(policies, name);
    }
  }

  /** For any manifest an unnamed request gets the first policy that matches, and is refused exactly when none does. */
  lemma UnnamedAuthorizeIff<R(!new), Q(!new)>(policies: seq<Policy<R>>, rest: Q, valid: Q -> bool, rule: (R, Q) -> bool)
    ensures var r := Authorize(FromManifest(policies), Request(None, rest), valid, rule);
            && (r == Err(NotValid) <==> !valid(rest))
            && (r == Err(NoPolicyMatch) <==> valid(rest) && forall i | 0 <= i < |policies| :: !Matches(policies[i], rest, rule))
            && (r.Ok? <==> valid(rest) && exists i | 0 <= i < |policies| :: Matches(policies[i], rest, rule))
            && (r.Ok? ==> exists i :: 0 <= i < |policies| && policies[i].name == r.value && Matches(policies[i], rest, rule)
                                      && forall j | 0 <= j < i :: !Matches(policies[j], rest, rule))
  {
    hide Matches, Collect;
  }

  /**
   An unnamed request gets the first matching policy, and naming that policy in the same request gets the same
   answer again.
   */
  lemma UnnamedAuthorizeIsStable<R(!new), Q(!new)>(policies: seq<Policy<R>>, rest: Q, valid: Q -> bool,
                                                   rule: (R, Q) -> bool, name: string)
    requires DistinctNames(policies)
    requires Authorize(FromManifest(policies), Request(None, rest), valid, rule) == Ok(name)
    ensures exists i :: 0 <= i < |policies| && policies[i].name == name && Matches(policies[i], rest, rule)
                        && forall j | 0 <= j < i :: !Matches(policies[j], rest, rule)
    ensures Authorize(FromManifest(policies), Request(Some(name), rest), valid, rule) == Ok(name)
  {
    hide Matches, Collect;
    var i := FirstMatch(policies, rest, rule).value;
    assert policies[i].name == name;
    NamedAuthorizeIsScan(policies, name, rest, valid, rule);
  }

  // ---- manifests with repeated names ----

  /** Policy `i` is the last of that name: the one the index keeps. */
  predicate LastNamed<R>(policies: seq<Policy<R>>, name: string, i: nat) {
    i < |policies| && policies[i].name == name && forall j | i < j < |policies| :: policies[j].name != name
  }

  predicate LastNamedMatches<R(!new), Q(!new)>(policies: seq<Policy<R>>, name: string, rest: Q, rule: (R, Q) -> bool) {
    exists i | 0 <= i < |policies| :: LastNamed(policies, name, i) && Matches(policies[i], rest, rule)
  }

  /** For any manifest, checked or not, a named request is answered by the last policy of that name. */
  lemma NamedAuthorizeTakesLast<R(!new), Q(!new)>(policies: seq<Policy<R>>, name: string, rest: Q, valid: Q -> bool,
                                                  rule: (R, Q) -> bool)
    ensures Authorize(FromManifest(policies), Request(Some(name), rest), valid, rule) ==
            if !valid(rest) then Err(NotValid)
            else if !Named(policies, name) then Err(UnknownPolicy(name))
            else if !LastNamedMatches(policies, name, rest, rule) then Err(PolicyMismatch(name))
            else Ok(name)
  {
    var entries := Entries(policies);
    CollectHoldsLast(entries, name);
    hide Matches, Collect;
    assert forall i | 0 <= i < |policies| :: entries[i] == (policies[i].name, i);
    if name in Collect(entries) {
      var k :| 0 <= k < |entries| && entries[k] == (name, Collect(entries)[name])
               && forall j | k < j < |entries| :: entries[j].0 != name;
      assert LastNamed(policies, name, k);
      assert LastNamedMatches(policies, name, rest, rule) <==> Matches(policies[k], rest, rule);
    }
  }

  /**
   For any manifest: when an unnamed request is answered with a name, naming it gives the same answer exactly
   when the last policy of that name matches too.
   */
  lemma NamingAgreesIff<R(!new), Q(!new)>(policies: seq<Policy<R>>, rest: Q, valid: Q -> bool, rule: (R, Q) -> bool,
                                          name: string)
    requires Authorize(FromManifest(policies), Request(None, rest), valid, rule) == Ok(name)
    ensures Authorize(FromManifest(policies), Request(Some(name), rest), valid, rule) == Ok(name) <==>
            LastNamedMatches(policies, name, rest, rule)
  {
    hide Matches, Collect, LastNamedMatches;
    var i := FirstMatch(policies, rest, rule).value;
    assert policies[i].name == name;
    NamedAuthorizeTakesLast(policies, name, rest, valid, rule);
  }

  /** So without the check on names the second answer can differ. */
  lemma RepeatedNamesAreUnstable<R(!new), Q(!new)>(a: R, b: R, name: string, rest: Q, valid: Q -> bool,
                                                   rule: (R, Q) -> bool)
    requires valid(rest) && rule(a, rest) && !rule(b, rest)
    ensures var g := FromManifest([Policy(name, a), Policy(name, b)]);
            && Authorize(g, Request(None, rest), valid, rule) == Ok(name)
            && Authorize(g, Request(Some(name), rest), valid, rule) == Err(PolicyMismatch(name))
  {
    var policies := [Policy(name, a), Policy(name, b)];
    assert policies[0].name == name && Matches(policies[0], rest, rule) && !Matches(policies[1], rest, rule);
    assert !LastNamed(policies, name, 0) by {
      assert policies[1].name == name;
    }
    NamedAuthorizeTakesLast(policies, name, rest, valid, rule);
    hide Collect;
  }
}
