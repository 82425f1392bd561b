/**
 The gateway's request resolver: context markers become values of the caller's identity, template markers
 become text, and everything else is copied.
 */
module Resolver {
  import opened Wrappers
  import opened Json

  datatype AuthContext =
    AuthContext(uid: Option<string>, tenantId: Option<string>, roles: seq<string>, permissionVersion: Option<string>)

  datatype Claim = CtxItself | Uid | TenantId | PermissionVersion | Unknown

  datatype GatewayError =
    | MissingAuthContext(claim: Claim)
    | MissingRequestParam(name: string)
    | PartsNotText
    | ValuesNotList
    | NonScalarTemplateValue(value: Value)

  /** A computation of the gateway: it may also never return. */
  datatype Outcome<+T> = Done(value: T) | Failed(error: GatewayError) | Diverges
  {
    predicate IsFailure() {
      !Done?
    }
    function PropagateFailure<U>(): Outcome<U>
      requires IsFailure()
    {
      if Failed? then Failed(error) else Diverges
    }
    function Extract(): T
      requires Done?
    {
      value
    }
  }

  // ---- following `{args.name}` references ----

  /** The parameter a value refers to: a string `{args.name}`. */
  function Reference(v: Value): Option<string> {
    if v.String? && |v.s| >= 7 && v.s[..6] == "{args." && v.s[|v.s| - 1] == '}'
    then Some(v.s[6..|v.s| - 1])
    else None
  }

  /** Exactly the strings `{args.name}` are references, each to its name. */
  lemma ReferencesAre(v: Value, name: string)
    ensures Reference(v) == Some(name) <==> v == String("{args." + name + "}")
  {
    if v == String("{args." + name + "}") {
      assert v.s[..6] == "{args." && v.s[6..|v.s| - 1] == name;
    }
    if Reference(v) == Some(name) {
      assert v.s == "{args." + name + "}";
    }
  }

  /** `render_scalar`, cut off after `calls` nested calls. */
  function RenderScalar(v: Value, params: map<string, Value>, calls: nat): Outcome<string>
    decreases calls
  {
    if calls == 0 then Diverges
    else
      match Reference(v)
      case Some(name) =>
        if name !in params then Failed(MissingRequestParam(name)) else RenderScalar(params[name], params, calls - 1)
      case None =>
        if v.Array? || v.Object? then Failed(NonScalarTemplateValue(v)) else Done(ScalarText(v))
  }

  /** `render_scalar` as it runs: by `TerminatesIffNoKeyTwice` more calls than this change nothing. */
  function Render(v: Value, params: map<string, Value>): Outcome<string> {
    RenderScalar(v, params, |params| + 1)
  }

  /** The value after `n` hops from parameter to parameter, if the chain goes that far. */
  function Walk(v: Value, params: map<string, Value>, n: nat): Option<Value> {
    if n == 0 then Some(v)
    else
      match Walk(v, params, n - 1)
      case Some(u) => if Hops(u, params) then Some(params[Reference(u).value]) else None
      case None => None
  }

  predicate Hops(v: Value, params: map<string, Value>) {
    Reference(v).Some? && Reference(v).value in params
  }

  /** The parameter looked up by hop `n`. */
  predicate HopKey(v: Value, params: map<string, Value>, n: nat, key: string) {
    Walk(v, params, n).Some? && Reference(Walk(v, params, n).value) == Some(key) && key in params
  }

  ghost predicate VisitsTwice(v: Value, params: map<string, Value>) {
    exists i: nat, j: nat, key :: i < j && HopKey(v, params, i, key) && HopKey(v, params, j, key)
  }

  /** Following `n` hops first and walking on is one longer walk. */
  lemma {:induction false} WalkFromNext(v: Value, params: map<string, Value>, n: nat)
    requires Hops(v, params)
    ensures Walk(v, params, n + 1) == Walk(params[Reference(v).value], params, n)
  {
    if n > 0 {
      WalkFromNext(v, params, n - 1);
    } else {
      assert Walk(v, params, 0) == Some(v);
    }
  }

  /** What `calls` nested calls amount to, said by the chain. */
  lemma {:induction false} RenderFollowsWalk(v: Value, params: map<string, Value>, calls: nat, n: nat)
    requires Walk(v, params, n).Some? && !Hops(Walk(v, params, n).value, params)
    ensures calls <= n ==> RenderScalar(v, params, calls) == Diverges
    ensures calls > n ==> RenderScalar(v, params, calls) == RenderScalar(Walk(v, params, n).value, params, 1)
    decreases n
  {
    if n > 0 && calls > 0 {
      WalkReaches(v, params, n, 0);
      assert Walk(v, params, 0) == Some(v);
      WalkFromNext(v, params, n - 1);
      RenderFollowsWalk(params[Reference(v).value], params, calls - 1, n - 1);
    }
  }

  lemma {:induction false} WalkReaches(v: Value, params: map<string, Value>, n: nat, m: nat)
    requires Walk(v, params, n).Some? && m < n
    ensures Walk(v, params, m).Some? && Hops(Walk(v, params, m).value, params)
  {
    if m < n - 1 {
      WalkReaches(v, params, n - 1, m);
    }
  }

  lemma {:induction false} EndlessRenderDiverges(v: Value, params: map<string, Value>, calls: nat)
    requires Walk(v, params, calls).Some?
    ensures RenderScalar(v, params, calls) == Diverges
    decreases calls
  {
    if calls > 0 {
      WalkReaches(v, params, calls, 0);
      WalkFromNext(v, params, calls - 1);
      EndlessRenderDiverges(params[Reference(v).value], params, calls - 1);
    }
  }

  /** A key looked up at hops `i` and `j` makes the chain periodic, so it goes on for ever. */
  lemma {:induction false} TwiceMeansEndless(v: Value, params: map<string, Value>, i: nat, j: nat, key: string, n: nat)
    requires i < j && HopKey(v, params, i, key) && HopKey(v, params, j, key)
    ensures Walk(v, params, n).Some? && Hops(Walk(v, params, n).value, params)
    ensures n > j ==> Walk(v, params, n) == Walk(v, params, n - (j - i))
    decreases n
  {
    assert Hops(Walk(v, params, j).value, params);
    hide Hops;
    if n < j {
      WalkReaches(v, params, j, n);
    } else if n > j {
      TwiceMeansEndless(v, params, i, j, key, n - 1);
      TwiceMeansEndless(v, params, i, j, key, n - (j - i));
    }
  }

  /** The keys looked up by the first `n` hops. */
  ghost function Keys(v: Value, params: map<string, Value>, n: nat): set<string> {
    set key | key in params && exists i: nat :: i < n && HopKey(v, params, i, key)
  }

  /** While no key comes twice each hop finds a new one, so at most `|params|` hops are possible. */
  lemma {:induction false} DistinctHops(v: Value, params: map<string, Value>, n: nat)
    requires !VisitsTwice(v, params) && Walk(v, params, n).Some?
    ensures |Keys(v, params, n)| == n && Keys(v, params, n) <= params.Keys
  {
    if n > 0 {
      DistinctHops(v, params, n - 1);
      var key := Reference(Walk(v, params, n - 1).value).value;
      assert HopKey(v, params, n - 1, key);
      KeysGrow(v, params, n - 1, key);
    } else {
      assert Keys(v, params, 0) == {};
    }
  }

  lemma KeysGrow(v: Value, params: map<string, Value>, n: nat, key: string)
    requires !VisitsTwice(v, params) && HopKey(v, params, n, key)
    ensures key !in Keys(v, params, n) && Keys(v, params, n + 1) == Keys(v, params, n) + {key}
  {
    assert forall other | HopKey(v, params, n, other) :: other == key;
    hide HopKey;
    forall other ensures other in Keys(v, params, n + 1) <==> other in Keys(v, params, n) + {key} {
      if other in Keys(v, params, n + 1) {
        var i: nat :| i < n + 1 && HopKey(v, params, i, other);
        assert i < n || i == n;
      }
      if other in Keys(v, params, n) {
        var i: nat :| i < n && HopKey(v, params, i, other);
        assert i < n + 1;
      }
      if other == key {
        HopKeyInParams(v, params, n, key);
      }
    }
  }

  lemma HopKeyInParams(v: Value, params: map<string, Value>, n: nat, key: string)
    requires HopKey(v, params, n, key)
    ensures key in params
  {
  }

  lemma HopsAreBounded(v: Value, params: map<string, Value>, n: nat)
    requires !VisitsTwice(v, params) && Walk(v, params, n).Some?
    ensures n <= |params|
  {
    DistinctHops(v, params, n);
    hide Keys, Walk, VisitsTwice;
    SubsetSize(Keys(v, params, n), params.Keys);
  }

  /** A chain that looks no key up twice stops within `|params|` hops. */
  lemma {:induction false} ChainStops(v: Value, params: map<string, Value>, n: nat) returns (stop: nat)
    requires !VisitsTwice(v, params) && Walk(v, params, n).Some?
    ensures stop <= |params| && Walk(v, params, stop).Some? && !Hops(Walk(v, params, stop).value, params)
    decreases |params| + 1 - n
  {
    hide VisitsTwice;
    HopsAreBounded(v, params, n);
    if Hops(Walk(v, params, n).value, params) {
      stop := ChainStops(v, params, n + 1);
    } else {
      stop := n;
    }
  }

  /**
   `render_scalar` returns if and only if the chain of references looks no parameter up twice, and then it
   has returned after at most `|params|` hops: any larger bound on the calls gives the same outcome.
   */
  lemma TerminatesIffNoKeyTwice(v: Value, params: map<string, Value>, calls: nat)
    requires calls > |params|
    ensures RenderScalar(v, params, calls) == Render(v, params)
    ensures RenderScalar(v, params, calls) == Diverges <==> VisitsTwice(v, params)
  {
    if VisitsTwice(v, params) {
      var i: nat, j: nat, key :| i < j && HopKey(v, params, i, key) && HopKey(v, params, j, key);
      TwiceMeansEndless(v, params, i, j, key, calls);
      TwiceMeansEndless(v, params, i, j, key, |params| + 1);
      EndlessRenderDiverges(v, params, calls);
      EndlessRenderDiverges(v, params, |params| + 1);
    } else {
      assert Walk(v, params, 0) == Some(v);
      var stop := ChainStops(v, params, 0);
      RenderFollowsWalk(v, params, calls, stop);
      RenderFollowsWalk(v, params, |params| + 1, stop);
    }
  }

  /** The chain from `v` ends at `last`, a value that is no reference. */
  ghost predicate EndsAt(v: Value, params: map<string, Value>, last: Value) {
    Reference(last).None? && exists n: nat :: n <= |params| && Walk(v, params, n) == Some(last)
  }

  /** A scalar in writing: strings and digits as they are, the rest by name. */
  predicate Spells(v: Value, text: string) {
    match v
    case Null => text == "null"
    case Bool(b) => (b && text == "true") || (!b && text == "false")
    case Number(digits) => text == digits
    case String(s) => text == s
    case _ => false
  }

  /** Text is rendered if and only if the chain ends at a scalar, and then it is that scalar's text. */
  lemma RendersFinalText(v: Value, params: map<string, Value>, text: string)
    ensures Render(v, params) == Done(text) <==> exists last :: EndsAt(v, params, last) && Spells(last, text)
  {
    if Render(v, params) == Done(text) {
      TerminatesIffNoKeyTwice(v, params, |params| + 1);
      assert Walk(v, params, 0) == Some(v);
      var stop := ChainStops(v, params, 0);
      RenderFollowsWalk(v, params, |params| + 1, stop);
      assert EndsAt(v, params, Walk(v, params, stop).value);
    }
    if last :| EndsAt(v, params, last) && Spells(last, text) {
      var n: nat :| n <= |params| && Walk(v, params, n) == Some(last);
      RenderFollowsWalk(v, params, |params| + 1, n);
    }
  }

  /** The chain from `v` stops at `last`, and why no text comes of it. */
  ghost predicate StopsWith(v: Value, params: map<string, Value>, last: Value, e: GatewayError) {
    && (exists n: nat :: n <= |params| && Walk(v, params, n) == Some(last))
    && match e
       case MissingRequestParam(name) => last == String("{args." + name + "}") && name !in params
       case NonScalarTemplateValue(value) => value == last && (last.Array? || last.Object?)
       case _ => false
  }

  /** It fails if and only if the chain stops at a name that is no parameter or at a list or object, and says at which. */
  lemma RenderFailsIff(v: Value, params: map<string, Value>, e: GatewayError)
    ensures Render(v, params) == Failed(e) <==> exists last :: StopsWith(v, params, last, e)
  {
    if Render(v, params) == Failed(e) {
      TerminatesIffNoKeyTwice(v, params, |params| + 1);
      assert Walk(v, params, 0) == Some(v);
      var stop := ChainStops(v, params, 0);
      RenderFollowsWalk(v, params, |params| + 1, stop);
      var last := Walk(v, params, stop).value;
      LastFails(last, params, e);
      assert StopsWith(v, params, last, e);
    }
    if last :| StopsWith(v, params, last, e) {
      var n: nat :| n <= |params| && Walk(v, params, n) == Some(last);
      LastFails(last, params, e);
      RenderFollowsWalk(v, params, |params| + 1, n);
    }
  }

  /** The last value of a chain by itself. */
  lemma LastFails(last: Value, params: map<string, Value>, e: GatewayError)
    ensures StopsWith(last, params, last, e) ==> !Hops(last, params)
    ensures !Hops(last, params) ==> (RenderScalar(last, params, 1) == Failed(e) <==> StopsWith(last, params, last, e))
  {
    assert Walk(last, params, 0) == Some(last);
    if e.MissingRequestParam? {
      ReferencesAre(last, e.name);
    }
    if Reference(last).Some? {
      ReferencesAre(last, Reference(last).value);
    }
    hide Reference;
  }

  // ---- resolving a document ----

  predicate IsContextBinding<T>(fields: seq<(string, T)>) {
    Get(fields, "$ctx").Some? && Get(fields, "token").Some?
  }

  predicate IsTemplateBinding(fields: seq<(string, Value)>) {
    Get(fields, "$template") == Some(String("key")) && Get(fields, "parts").Some? && Get(fields, "values").Some?
  }

  function Required(claim: Option<string>, name: Claim): Outcome<Value> {
    match claim case Some(text) => Done(String(text)) case None => Failed(MissingAuthContext(name))
  }

  function ContextValue(name: string, auth: AuthContext): Outcome<Value> {
    if name == "uid" then Required(auth.uid, Uid)
    else if name == "tenantId" then Required(auth.tenantId, TenantId)
    else if name == "roles" then Done(Array(Strings(auth.roles)))
    else if name == "permissionVersion" then Required(auth.permissionVersion, PermissionVersion)
    else Failed(MissingAuthContext(Unknown))
  }

  function ResolveContextBinding(fields: seq<(string, Value)>, auth: AuthContext): Outcome<Value> {
    var name := Get(fields, "$ctx");
    if name.Some? && name.value.String? then ContextValue(name.value.s, auth) else Failed(MissingAuthContext(CtxItself))
  }

  function ResolveValue(v: Value, auth: AuthContext, params: map<string, Value>): Outcome<Value>
    decreases v, 0
  {
    match v
    case Array(items) => var resolved :- ResolveAll(items, auth, params); Done(Array(resolved))
    case Object(fields) =>
      if IsContextBinding(fields) then ResolveContextBinding(fields, auth)
      else if IsTemplateBinding(fields) then
        var parts, values := Get(fields, "parts").value, Get(fields, "values").value;
        if !parts.Array? then Failed(PartsNotText)
        else if !values.Array? then Failed(ValuesNotList)
        else var text :- RenderTemplate(parts.items, values.items, auth, params); Done(String(text))
      else var resolved :- ResolveMap(fields, auth, params); Done(Object(resolved))
    case _ => Done(v)
  }

  function ResolveAll(items: seq<Value>, auth: AuthContext, params: map<string, Value>): Outcome<seq<Value>>
    decreases items
  {
    if items == [] then Done([])
    else
      var first :- ResolveValue(items[0], auth, params);
      var rest :- ResolveAll(items[1..], auth, params);
      Done([first] + rest)
  }

  function ResolveMap(fields: seq<(string, Value)>, auth: AuthContext, params: map<string, Value>)
    : Outcome<seq<(string, Value)>>
    decreases fields
  {
    if fields == [] then Done([])
    else
      var first :- ResolveField(fields[0], auth, params);
      var rest :- ResolveMap(fields[1..], auth, params);
      Done([first] + rest)
  }

  function ResolveField(field: (string, Value), auth: AuthContext, params: map<string, Value>)
    : Outcome<(string, Value)>
    decreases field
  {
    var value :- ResolveValue(field.1, auth, params);
    Done((field.0, value))
  }

  /** Parts alternating with rendered values, the last value rendered last. */
  function RenderTemplate(parts: seq<Value>, values: seq<Value>, auth: AuthContext, params: map<string, Value>)
    : Outcome<string>
    decreases values, |parts|
  {
    if parts == [] then Done("")
    else if !parts[0].String? then Failed(PartsNotText)
    else if values == [] then
      var rest :- RenderTemplate(parts[1..], [], auth, params);
      Done(parts[0].s + rest)
    else
      var value :- ResolveValue(values[0], auth, params);
      var text :- Render(value, params);
      var rest :- RenderTemplate(parts[1..], values[1..], auth, params);
      Done(parts[0].s + text + rest)
  }

  // ---- templates ----

  /** What the loop does from part `i` on, after `rendered`. */
  function Prepend(rendered: string, rest: Outcome<string>): Outcome<string> {
    match rest case Done(text) => Done(rendered + text) case _ => rest
  }

  lemma PrependLaws(a: string, b: string, rest: Outcome<string>)
    ensures Prepend("", rest) == rest && Prepend(a, Done("")) == Done(a)
    ensures Prepend(a, Prepend(b, rest)) == Prepend(a + b, rest)
  {
    assert a + "" == a;
    if rest.Done? {
      assert "" + rest.value == rest.value;
      assert a + (b + rest.value) == (a + b) + rest.value;
    }
  }

  function From<T>(s: seq<T>, i: nat): seq<T> {
    if i <= |s| then s[i..] else []
  }

  lemma RenderTemplateStep(parts: seq<Value>, values: seq<Value>, i: nat, auth: AuthContext, params: map<string, Value>)
    requires i < |parts|
    ensures var part := parts[i];
            RenderTemplate(parts[i..], From(values, i), auth, params) ==
            if !part.String? then Failed(PartsNotText)
            else if i < |values| then
              var value := ResolveValue(values[i], auth, params);
              if !value.Done? then value.PropagateFailure()
              else
                var text := Render(value.value, params);
                if !text.Done? then text
                else Prepend(part.s + text.value, RenderTemplate(parts[i + 1..], From(values, i + 1), auth, params))
            else Prepend(part.s, RenderTemplate(parts[i + 1..], From(values, i + 1), auth, params))
  {
    hide ResolveValue, Render;
    assert parts[i..][1..] == parts[i + 1..];
    if i < |values| {
      assert values[i..][1..] == values[i + 1..];
    }
  }

  lemma NothingLeft(values: seq<Value>, auth: AuthContext, params: map<string, Value>)
    ensures RenderTemplate([], values, auth, params) == Done("")
  {
  }

  /** One turn of the loop: what part `i` and its value add to the text, or the error that ends it. */
  method RenderPart(parts: seq<Value>, values: seq<Value>, i: nat, auth: AuthContext, params: map<string, Value>)
    returns (r: Outcome<string>)
    requires i < |parts|
    ensures RenderTemplate(parts[i..], From(values, i), auth, params) ==
            if r.Done? then Prepend(r.value, RenderTemplate(parts[i + 1..], From(values, i + 1), auth, params)) else r
  {
    RenderTemplateStep(parts, values, i, auth, params);
    hide ResolveValue, Render, RenderTemplate, Prepend;
    if !parts[i].String? {
      return Failed(PartsNotText);
    }
    if i < |values| {
      var value := ResolveValue(values[i], auth, params);
      if !value.Done? {
        return value.PropagateFailure();
      }
      var text := Render(value.value, params);
      return if text.Done? then Done(parts[i].s + text.value) else text;
    }
    return Done(parts[i].s);
  }

  /** The loop over parts and values that appends to one string. */
  method RenderParts(parts: seq<Value>, values: seq<Value>, auth: AuthContext, params: map<string, Value>)
    returns (r: Outcome<string>)
    ensures r == RenderTemplate(parts, values, auth, params)
  {
    hide RenderTemplate;
    ghost var whole := RenderTemplate(parts, values, auth, params);
    var rendered := "";
    var i := 0;
    assert parts[0..] == parts && From(values, 0) == values;
    PrependLaws("", "", whole);
    while i < |parts|
      invariant i <= |parts|
      invariant whole == Prepend(rendered, RenderTemplate(parts[i..], From(values, i), auth, params))
    {
      var added := RenderPart(parts, values, i, auth, params);
      if !added.Done? {
        return added;
      }
      PrependLaws(rendered, added.value, RenderTemplate(parts[i + 1..], From(values, i + 1), auth, params));
      rendered := rendered + added.value;
      i := i + 1;
    }
    assert parts[i..] == [];
    NothingLeft(From(values, i), auth, params);
    PrependLaws(rendered, "", whole);
    return Done(rendered);
  }

  /** `resolve_template_binding` */
  method ResolveTemplateBinding(fields: seq<(string, Value)>, auth: AuthContext, params: map<string, Value>)
    returns (r: Outcome<string>)
    requires IsTemplateBinding(fields) && !IsContextBinding(fields)
    ensures ResolveValue(Object(fields), auth, params) == if r.Done? then Done(String(r.value)) else r.PropagateFailure()
  {
    hide RenderTemplate;
    var parts, values := Get(fields, "parts").value, Get(fields, "values").value;
    if !parts.Array? {
      return Failed(PartsNotText);
    }
    if !values.Array? {
      return Failed(ValuesNotList);
    }
    r := RenderParts(parts.items, values.items, auth, params);
  }

  /** `parts[0] texts[0] parts[1] texts[1] ...`, to the last part; missing texts are empty. */
  function Interleave(parts: seq<string>, texts: seq<string>): string {
    if parts == [] then ""
    else if texts == [] then parts[0] + Interleave(parts[1..], [])
    else parts[0] + texts[0] + Interleave(parts[1..], texts[1..])
  }

  /** The values a template looks at: one per part, as far as they go. */
  function Used<T>(values: seq<T>, parts: nat): seq<T> {
    if |values| <= parts then values else values[..parts]
  }

  /** Entry by entry, the text is that of the value the resolved entry's reference chain ends at. */
  ghost predicate FinalTexts(values: seq<Value>, texts: seq<string>, auth: AuthContext, params: map<string, Value>) {
    && |texts| == |values|
    && forall i | 0 <= i < |values| ::
         var resolved := ResolveValue(values[i], auth, params);
         resolved.Done? && Render(resolved.value, params) == Done(texts[i])
  }

  /** A template of texts, cut after its first part. */
  lemma TemplateFirst(parts: seq<string>, values: seq<Value>, auth: AuthContext, params: map<string, Value>)
    requires parts != []
    ensures RenderTemplate(Strings(parts), values, auth, params) ==
            if values == [] then Prepend(parts[0], RenderTemplate(Strings(parts[1..]), [], auth, params))
            else
              var value := ResolveValue(values[0], auth, params);
              if !value.Done? then value.PropagateFailure()
              else
                var text := Render(value.value, params);
                if !text.Done? then text
                else Prepend(parts[0] + text.value, RenderTemplate(Strings(parts[1..]), values[1..], auth, params))
  {
    hide ResolveValue, Render;
    assert Strings(parts)[1..] == Strings(parts[1..]);
  }

  lemma {:induction false} TemplateToTexts(parts: seq<string>, values: seq<Value>, auth: AuthContext,
                                           params: map<string, Value>) returns (texts: seq<string>)
    requires RenderTemplate(Strings(parts), values, auth, params).Done?
    ensures FinalTexts(Used(values, |parts|), texts, auth, params)
    ensures RenderTemplate(Strings(parts), values, auth, params).value == Interleave(parts, texts)
    decreases |parts|
  {
    hide ResolveValue, Render, RenderTemplate, Strings;
    if parts == [] {
      texts := [];
      NothingLeft(values, auth, params);
      assert Strings([]) == [] by {
        StringsLength([]);
      }
    } else {
      TemplateFirst(parts, values, auth, params);
      if values == [] {
        texts := TemplateToTexts(parts[1..], [], auth, params);
      } else {
        texts := TemplateToTexts(parts[1..], values[1..], auth, params);
        var text := Render(ResolveValue(values[0], auth, params).value, params).value;
        FirstText(values, |parts|, text, texts, auth, params);
        assert ([text] + texts)[1..] == texts;
        texts := [text] + texts;
      }
    }
  }

  lemma StringsLength(texts: seq<string>)
    ensures |Strings(texts)| == |texts|
  {
  }

  lemma FirstText(values: seq<Value>, parts: nat, text: string, texts: seq<string>, auth: AuthContext,
                  params: map<string, Value>)
    requires values != [] && parts > 0 && FinalTexts(Used(values[1..], parts - 1), texts, auth, params)
    requires var value := ResolveValue(values[0], auth, params); value.Done? && Render(value.value, params) == Done(text)
    ensures FinalTexts(Used(values, parts), [text] + texts, auth, params)
  {
    hide ResolveValue, Render;
    assert Used(values, parts) == [values[0]] + Used(values[1..], parts - 1);
  }

  lemma {:induction false} TextsToTemplate(parts: seq<string>, values: seq<Value>, texts: seq<string>,
                                           auth: AuthContext, params: map<string, Value>)
    requires FinalTexts(Used(values, |parts|), texts, auth, params)
    ensures RenderTemplate(Strings(parts), values, auth, params) == Done(Interleave(parts, texts))
    decreases |parts|
  {
    hide ResolveValue, Render;
    if parts != [] {
      assert Strings(parts)[1..] == Strings(parts[1..]);
      if values == [] {
        TextsToTemplate(parts[1..], [], [], auth, params);
      } else {
        var used := Used(values, |parts|);
        assert used == [values[0]] + Used(values[1..], |parts| - 1);
        forall i | 0 <= i < |used| - 1
          ensures ResolveValue(used[1..][i], auth, params).Done?
          ensures Render(ResolveValue(used[1..][i], auth, params).value, params) == Done(texts[1..][i])
        {
          assert used[1..][i] == used[i + 1] && texts[1..][i] == texts[i + 1];
        }
        TextsToTemplate(parts[1..], values[1..], texts[1..], auth, params);
      }
    }
  }

  /** A template renders if and only if each value it uses has a final text, and then to the interleaving. */
  lemma TemplateInterleaves(parts: seq<string>, values: seq<Value>, auth: AuthContext, params: map<string, Value>,
                            text: string)
    ensures RenderTemplate(Strings(parts), values, auth, params) == Done(text) <==>
            exists texts :: FinalTexts(Used(values, |parts|), texts, auth, params) && text == Interleave(parts, texts)
  {
    hide RenderTemplate, FinalTexts, Interleave;
    if RenderTemplate(Strings(parts), values, auth, params) == Done(text) {
      var texts := TemplateToTexts(parts, values, auth, params);
    }
    if texts :| FinalTexts(Used(values, |parts|), texts, auth, params) && text == Interleave(parts, texts) {
      TextsToTemplate(parts, values, texts, auth, params);
    }
  }

  // ---- resolving ends when no parameter refers to itself ----

  ghost predicate Acyclic(params: map<string, Value>) {
    forall name | name in params :: !VisitsTwice(String("{args." + name + "}"), params)
  }

  lemma RepeatingChainStartsAtParam(v: Value, params: map<string, Value>) returns (name: string)
    requires VisitsTwice(v, params)
    ensures name in params && v == String("{args." + name + "}")
  {
    var i: nat, j: nat, key :| i < j && HopKey(v, params, i, key) && HopKey(v, params, j, key);
    TwiceMeansEndless(v, params, i, j, key, 1);
    WalkReaches(v, params, 1, 0);
    name := Reference(v).value;
    assert v.s == "{args." + name + "}";
  }

  /** Looking at each parameter is enough: any other value either stops at once or is a reference to one. */
  lemma AcyclicChains(v: Value, params: map<string, Value>)
    requires Acyclic(params)
    ensures !VisitsTwice(v, params)
  {
    if VisitsTwice(v, params) {
      var name := RepeatingChainStartsAtParam(v, params);
    }
  }

  /** With such parameters every document is resolved or refused, whatever it holds. */
  lemma {:induction false} AcyclicParamsResolve(v: Value, auth: AuthContext, params: map<string, Value>)
    requires Acyclic(params)
    ensures !ResolveValue(v, auth, params).Diverges?
    decreases v, 0
  {
    hide Render, Acyclic;
    match v {
      case Array(items) => AcyclicAll(items, auth, params);
      case Object(fields) =>
        if IsTemplateBinding(fields) && !IsContextBinding(fields) {
          var parts, values := Get(fields, "parts").value, Get(fields, "values").value;
          if parts.Array? && values.Array? {
            AcyclicTemplate(parts.items, values.items, auth, params);
          }
        } else {
          AcyclicMap(fields, auth, params);
        }
      case _ =>
    }
  }

  lemma {:induction false} AcyclicAll(items: seq<Value>, auth: AuthContext, params: map<string, Value>)
    requires Acyclic(params)
    ensures !ResolveAll(items, auth, params).Diverges?
    decreases items
  {
    hide Acyclic;
    if items != [] {
      AcyclicParamsResolve(items[0], auth, params);
      AcyclicAll(items[1..], auth, params);
    }
  }

  lemma AcyclicField(field: (string, Value), auth: AuthContext, params: map<string, Value>)
    requires Acyclic(params)
    ensures !ResolveField(field, auth, params).Diverges?
    decreases field
  {
    hide Acyclic;
    AcyclicParamsResolve(field.1, auth, params);
  }

  lemma {:induction false} AcyclicMap(fields: seq<(string, Value)>, auth: AuthContext, params: map<string, Value>)
    requires Acyclic(params)
    ensures !ResolveMap(fields, auth, params).Diverges?
    decreases fields
  {
    hide Acyclic;
    if fields != [] {
      AcyclicField(fields[0], auth, params);
      AcyclicMap(fields[1..], auth, params);
    }
  }

  lemma {:induction false} AcyclicTemplate(parts: seq<Value>, values: seq<Value>, auth: AuthContext,
                                           params: map<string, Value>)
    requires Acyclic(params)
    ensures !RenderTemplate(parts, values, auth, params).Diverges?
    decreases values, |parts|
  {
    hide Acyclic;
    if parts != [] {
      AcyclicTemplate(parts[1..], if values == [] then [] else values[1..], auth, params);
      if values != [] {
        AcyclicParamsResolve(values[0], auth, params);
        var value := ResolveValue(values[0], auth, params);
        if value.Done? {
          AcyclicChains(value.value, params);
          TerminatesIffNoKeyTwice(value.value, params, |params| + 1);
        }
      }
    }
  }

  // ---- markers in what comes out ----

  /** No object at any depth carries both `$ctx` and `token`. */
  predicate NoContextBinding(v: Value)
    decreases v, 0
  {
    match v
    case Array(items) => NoneInItems(items)
    case Object(fields) => !(Get(fields, "$ctx").Some? && Get(fields, "token").Some?) && NoneInFields(fields)
    case _ => true
  }

  predicate NoneInItems(items: seq<Value>)
    decreases items
  {
    items == [] || (NoContextBinding(items[0]) && NoneInItems(items[1..]))
  }

  predicate NoneInField(field: (string, Value))
    decreases field
  {
    NoContextBinding(field.1)
  }

  predicate NoneInFields(fields: seq<(string, Value)>)
    decreases fields
  {
    fields == [] || (NoneInField(fields[0]) && NoneInFields(fields[1..]))
  }

  lemma {:induction false} ScalarsHoldNone(texts: seq<string>)
    ensures NoneInItems(Strings(texts))
  {
    if texts != [] {
      assert Strings(texts)[1..] == Strings(texts[1..]);
      ScalarsHoldNone(texts[1..]);
    }
  }

  /** Whatever document comes in, no context marker is left in what goes out. */
  lemma {:induction false} NoContextBindingSurvives(v: Value, auth: AuthContext, params: map<string, Value>)
    ensures var r := ResolveValue(v, auth, params); r.Done? ==> NoContextBinding(r.value)
    decreases v, 0
  {
    match v {
      case Array(items) => NoneSurvivesInItems(items, auth, params);
      case Object(fields) =>
        if IsContextBinding(fields) {
          ScalarsHoldNone(auth.roles);
        } else if !IsTemplateBinding(fields) {
          NoneSurvivesInFields(fields, auth, params);
        }
      case _ =>
    }
  }

  lemma {:induction false} NoneSurvivesInItems(items: seq<Value>, auth: AuthContext, params: map<string, Value>)
    ensures var r := ResolveAll(items, auth, params); r.Done? ==> NoneInItems(r.value)
    decreases items
  {
    if items != [] {
      NoContextBindingSurvives(items[0], auth, params);
      NoneSurvivesInItems(items[1..], auth, params);
    }
  }

  lemma NoneSurvivesInField(field: (string, Value), auth: AuthContext, params: map<string, Value>)
    ensures var r := ResolveField(field, auth, params); r.Done? ==> r.value.0 == field.0 && NoneInField(r.value)
    decreases field
  {
    NoContextBindingSurvives(field.1, auth, params);
  }

  lemma {:induction false} NoneSurvivesInFields(fields: seq<(string, Value)>, auth: AuthContext, params: map<string, Value>)
    ensures var r := ResolveMap(fields, auth, params);
            r.Done? ==> NoneInFields(r.value) && forall key :: Get(r.value, key).Some? <==> Get(fields, key).Some?
    decreases fields
  {
    if fields != [] {
      NoneSurvivesInField(fields[0], auth, params);
      NoneSurvivesInFields(fields[1..], auth, params);
    }
  }

  lemma {:induction false} ResolvedField(fields: seq<(string, Value)>, key: string, auth: AuthContext,
                                         params: map<string, Value>)
    requires ResolveMap(fields, auth, params).Done?
    ensures match Get(fields, key)
            case None => Get(ResolveMap(fields, auth, params).value, key).None?
            case Some(v) => Get(ResolveMap(fields, auth, params).value, key).Some? &&
                            ResolveValue(v, auth, params) == Done(Get(ResolveMap(fields, auth, params).value, key).value)
    decreases |fields|
  {
    if fields != [] && fields[0].0 != key {
      ResolvedField(fields[1..], key, auth, params);
    }
  }

  /**
   Template markers can survive, and do exactly when an object has the other two keys and a `$template` that
   is not the literal `key` but resolves to it.
   */
  lemma TemplateBindingSurvivesIff(fields: seq<(string, Value)>, auth: AuthContext, params: map<string, Value>,
                                   out: seq<(string, Value)>)
    requires ResolveValue(Object(fields), auth, params) == Done(Object(out))
    ensures IsTemplateBinding(out) <==>
            && Get(fields, "$template").Some? && Get(fields, "parts").Some? && Get(fields, "values").Some?
            && Get(fields, "$template").value != String("key")
            && ResolveValue(Get(fields, "$template").value, auth, params) == Done(String("key"))
  {
    hide Get, ResolveMap, RenderTemplate;
    if IsContextBinding(fields) || IsTemplateBinding(fields) {
      BindingIsNoObject(fields, auth, params);
    }
    assert ResolveMap(fields, auth, params) == Done(out);
    hide ResolveValue;
    ResolvedField(fields, "$template", auth, params);
    ResolvedField(fields, "parts", auth, params);
    ResolvedField(fields, "values", auth, params);
  }

  /** A marker never resolves to an object. */
  lemma BindingIsNoObject(fields: seq<(string, Value)>, auth: AuthContext, params: map<string, Value>)
    requires IsContextBinding(fields) || IsTemplateBinding(fields)
    ensures var r := ResolveValue(Object(fields), auth, params); r.Done? ==> !r.value.Object?
  {
    hide RenderTemplate, Get;
  }

  lemma TemplateBindingSurvives(auth: AuthContext, params: map<string, Value>) returns (fields: seq<(string, Value)>)
    requires auth.uid == Some("key")
    ensures var r := ResolveValue(Object(fields), auth, params);
            r.Done? && r.value.Object? && IsTemplateBinding(r.value.fields)
  {
    var ctx := [("$ctx", String("uid")), ("token", String("UID"))];
    assert ctx[1..] == [("token", String("UID"))];
    assert Get(ctx, "token") == Get(ctx[1..], "token");
    assert ResolveValue(Object(ctx), auth, params) == Done(String("key"));
    fields := [("$template", Object(ctx)), ("parts", Null), ("values", Null)];
    var later := [("parts", Null), ("values", Null)];
    assert fields[1..] == later && later[1..] == [("values", Null)];
    assert Get(later, "values") == Get(later[1..], "values");
    assert Get(fields, "parts") == Get(later, "parts") && Get(fields, "values") == Get(later, "values");
    assert Get(fields, "$ctx").None?;
    hide Render;
    assert ResolveMap(later[1..], auth, params).Done?;
    assert ResolveMap(later, auth, params).Done?;
    assert ResolveMap(fields, auth, params).Done?;
    TemplateBindingSurvivesIff(fields, auth, params, ResolveMap(fields, auth, params).value);
  }
}
