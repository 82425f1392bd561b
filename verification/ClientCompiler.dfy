/**
 The browser client's compiler from tagged values to JSON markers, and what it means: resolving the compiled
 form on the gateway gives what evaluating the client's value outright gives.
 */
module ClientCompiler {
  import opened Wrappers
  import opened Text
  import opened Json
  import opened Resolver

  /** `SerializedValue`: scalars, context values, key templates, lists and plain objects. */
  datatype ClientValue =
    | Nil
    | Flag(b: bool)
    | Num(text: string)
    | Str(s: string)
    | Ctx(key: string, token: string)
    | KeyTemplate(parts: seq<string>, values: seq<ClientValue>)
    | List(items: seq<ClientValue>)
    | Record(fields: seq<(string, ClientValue)>)

  // ---- serialize ----

  function Serialize(v: ClientValue): Value {
    match v
    case Nil => Null
    case Flag(b) => Bool(b)
    case Num(text) => Number(text)
    case Str(s) => String(s)
    case Ctx(key, token) => Object([("$ctx", String(key)), ("token", String(token))])
    case KeyTemplate(parts, values) =>
      Object([("$template", String("key")), ("parts", Array(Strings(parts))), ("values", Array(SerializeAll(values)))])
    case List(items) => Array(SerializeAll(items))
    case Record(fields) => Object(SerializeFields(fields))
  }

  function SerializeAll(items: seq<ClientValue>): (r: seq<Value>)
    ensures |r| == |items|
  {
    if items == [] then [] else [Serialize(items[0])] + SerializeAll(items[1..])
  }

  function SerializeField(field: (string, ClientValue)): (string, Value) {
    (field.0, Serialize(field.1))
  }

  function SerializeFields(fields: seq<(string, ClientValue)>): (r: seq<(string, Value)>)
    ensures |r| == |fields|
  {
    if fields == [] then [] else [SerializeField(fields[0])] + SerializeFields(fields[1..])
  }

  // ---- what the client meant ----

  /** The value itself: no markers anywhere. `params` are the request parameters as sent. */
  function Eval(v: ClientValue, auth: AuthContext, params: map<string, Value>): Outcome<Value>
    decreases v, 0
  {
    match v
    case Nil => Done(Null)
    case Flag(b) => Done(Bool(b))
    case Num(text) => Done(Number(text))
    case Str(s) => Done(String(s))
    case Ctx(key, _) => ContextValue(key, auth)
    case KeyTemplate(parts, values) => var text :- EvalTemplate(parts, values, auth, params); Done(String(text))
    case List(items) => var all :- EvalAll(items, auth, params); Done(Array(all))
    case Record(fields) => var all :- EvalFields(fields, auth, params); Done(Object(all))
  }

  function EvalAll(items: seq<ClientValue>, auth: AuthContext, params: map<string, Value>): Outcome<seq<Value>>
    decreases items
  {
    if items == [] then Done([])
    else
      var first :- Eval(items[0], auth, params);
      var rest :- EvalAll(items[1..], auth, params);
      Done([first] + rest)
  }

  function EvalField(field: (string, ClientValue), auth: AuthContext, params: map<string, Value>)
    : Outcome<(string, Value)>
    decreases field
  {
    var value :- Eval(field.1, auth, params);
    Done((field.0, value))
  }

  function EvalFields(fields: seq<(string, ClientValue)>, auth: AuthContext, params: map<string, Value>)
    : Outcome<seq<(string, Value)>>
    decreases fields
  {
    if fields == [] then Done([])
    else
      var first :- EvalField(fields[0], auth, params);
      var rest :- EvalFields(fields[1..], auth, params);
      Done([first] + rest)
  }

  function EvalTemplate(parts: seq<string>, values: seq<ClientValue>, auth: AuthContext, params: map<string, Value>)
    : Outcome<string>
    decreases values, |parts|
  {
    if parts == [] then Done("")
    else if values == [] then
      var rest :- EvalTemplate(parts[1..], [], auth, params);
      Done(parts[0] + rest)
    else
      var value :- Eval(values[0], auth, params);
      var text :- Render(value, params);
      var rest :- EvalTemplate(parts[1..], values[1..], auth, params);
      Done(parts[0] + text + rest)
  }

  // ---- honest values ----

  /** A plain object whose own keys read as a marker. */
  predicate Imitates(fields: seq<(string, ClientValue)>) {
    || (Get(fields, "$ctx").Some? && Get(fields, "token").Some?)
    || (Get(fields, "$template") == Some(Str("key")) && Get(fields, "parts").Some? && Get(fields, "values").Some?)
  }

  /** No plain object that the gateway looks at imitates a marker. */
  predicate Honest(v: ClientValue)
    decreases v, 0
  {
    match v
    case KeyTemplate(parts, values) => HonestFirst(values, |parts|)
    case List(items) => HonestFirst(items, |items|)
    case Record(fields) => !Imitates(fields) && HonestFields(fields)
    case _ => true
  }

  predicate HonestFirst(items: seq<ClientValue>, n: nat)
    decreases items
  {
    items == [] || n == 0 || (Honest(items[0]) && HonestFirst(items[1..], n - 1))
  }

  predicate HonestField(field: (string, ClientValue))
    decreases field
  {
    Honest(field.1)
  }

  predicate HonestFields(fields: seq<(string, ClientValue)>)
    decreases fields
  {
    fields == [] || (HonestField(fields[0]) && HonestFields(fields[1..]))
  }

  // ---- compiling keeps keys ----

  lemma {:induction false} GetSerialized(fields: seq<(string, ClientValue)>, key: string)
    ensures Get(SerializeFields(fields), key) ==
            match Get(fields, key) case Some(v) => Some(Serialize(v)) case None => None
  {
    if fields != [] {
      GetSerialized(fields[1..], key);
    }
  }

  lemma ImitatesIffBinding(fields: seq<(string, ClientValue)>)
    ensures Imitates(fields) <==>
            IsContextBinding(SerializeFields(fields)) || IsTemplateBinding(SerializeFields(fields))
  {
    hide Get, SerializeFields;
    GetSerialized(fields, "$ctx");
    GetSerialized(fields, "token");
    GetSerialized(fields, "$template");
    GetSerialized(fields, "parts");
    GetSerialized(fields, "values");
  }

  // ---- compile, then resolve ----

  lemma CtxResolves(key: string, token: string, auth: AuthContext, params: map<string, Value>)
    ensures ResolveValue(Serialize(Ctx(key, token)), auth, params) == ContextValue(key, auth)
  {
    var fields := [("$ctx", String(key)), ("token", String(token))];
    assert fields[1..] == [("token", String(token))];
    assert Get(fields, "$ctx") == Some(String(key));
    assert Get(fields, "token") == Get(fields[1..], "token") == Some(String(token));
    hide ContextValue;
  }

  lemma TemplateResolves(parts: seq<string>, values: seq<ClientValue>, auth: AuthContext, params: map<string, Value>)
    ensures ResolveValue(Serialize(KeyTemplate(parts, values)), auth, params) ==
            var text := RenderTemplate(Strings(parts), SerializeAll(values), auth, params);
            if text.Done? then Done(String(text.value)) else text.PropagateFailure()
  {
    var list := SerializeAll(values);
    hide SerializeAll, RenderTemplate;
    var fields := [("$template", String("key")), ("parts", Array(Strings(parts))), ("values", Array(list))];
    assert fields[1..] == [("parts", Array(Strings(parts))), ("values", Array(list))];
    assert fields[2..] == [("values", Array(list))];
    assert Get(fields, "parts") == Get(fields[1..], "parts") == Some(Array(Strings(parts)));
    assert Get(fields, "values") == Get(fields[1..], "values") == Get(fields[2..], "values") == Some(Array(list));
    assert Get(fields, "$ctx").None?;
  }

  /** Every honest value, compiled and then resolved, is the value evaluated outright, errors included. */
  lemma {:induction false} CompileThenResolve(v: ClientValue, auth: AuthContext, params: map<string, Value>)
    requires Honest(v)
    ensures ResolveValue(Serialize(v), auth, params) == Eval(v, auth, params)
    decreases v, 0
  {
    match v {
      case Ctx(key, token) => CtxResolves(key, token, auth, params);
      case KeyTemplate(parts, values) =>
        TemplateResolves(parts, values, auth, params);
        CompileTemplate(parts, values, auth, params);
      case List(items) => CompileAll(items, auth, params);
      case Record(fields) =>
        ImitatesIffBinding(fields);
        CompileFields(fields, auth, params);
      case _ =>
    }
  }

  lemma {:induction false} CompileAll(items: seq<ClientValue>, auth: AuthContext, params: map<string, Value>)
    requires HonestFirst(items, |items|)
    ensures ResolveAll(SerializeAll(items), auth, params) == EvalAll(items, auth, params)
    decreases items
  {
    if items != [] {
      CompileThenResolve(items[0], auth, params);
      CompileAll(items[1..], auth, params);
    }
  }

  lemma CompileField(field: (string, ClientValue), auth: AuthContext, params: map<string, Value>)
    requires HonestField(field)
    ensures ResolveField(SerializeField(field), auth, params) == EvalField(field, auth, params)
    decreases field
  {
    CompileThenResolve(field.1, auth, params);
  }

  lemma {:induction false} CompileFields(fields: seq<(string, ClientValue)>, auth: AuthContext, params: map<string, Value>)
    requires HonestFields(fields)
    ensures ResolveMap(SerializeFields(fields), auth, params) == EvalFields(fields, auth, params)
    decreases fields
  {
    if fields != [] {
      CompileField(fields[0], auth, params);
      CompileFields(fields[1..], auth, params);
    }
  }

  lemma {:induction false} CompileTemplate(parts: seq<string>, values: seq<ClientValue>, auth: AuthContext,
                                           params: map<string, Value>)
    requires HonestFirst(values, |parts|)
    ensures RenderTemplate(Strings(parts), SerializeAll(values), auth, params) == EvalTemplate(parts, values, auth, params)
    decreases values, |parts|
  {
    if parts != [] {
      assert Strings(parts)[1..] == Strings(parts[1..]);
      if values == [] {
        CompileTemplate(parts[1..], [], auth, params);
      } else {
        CompileThenResolve(values[0], auth, params);
        CompileTemplate(parts[1..], values[1..], auth, params);
      }
    }
  }

  // ---- key templates, text by text ----

  /** What a scalar parameter is printed as. */
  predicate Prints(v: Value, text: string) {
    Spells(v, text) && (v.String? ==> !(StartsWith(v.s, "{args.") && EndsWith(v.s, "}")))
  }

  /**
   What a template value stands for in the text: a scalar for itself, a context value for the caller's claim, and
   `{args.name}` for a scalar parameter of that name.
   */
  predicate Says(v: ClientValue, text: string, auth: AuthContext, params: map<string, Value>) {
    match v
    case Nil => text == "null"
    case Flag(b) => (b && text == "true") || (!b && text == "false")
    case Num(digits) => text == digits
    case Str(s) =>
      || (text == s && !(StartsWith(s, "{args.") && EndsWith(s, "}")))
      || exists name :: name in params && s == "{args." + name + "}" && Prints(params[name], text)
    case Ctx(key, _) =>
      && !(StartsWith(text, "{args.") && EndsWith(text, "}"))
      && ((key == "uid" && auth.uid == Some(text)) || (key == "tenantId" && auth.tenantId == Some(text))
          || (key == "permissionVersion" && auth.permissionVersion == Some(text)))
    case _ => false
  }

  lemma NoReference(s: string)
    requires !(StartsWith(s, "{args.") && EndsWith(s, "}"))
    ensures Reference(String(s)).None?
  {
    if |s| >= 7 && s[|s| - 1] == '}' {
      assert s[|s| - 1..] == "}";
    }
  }

  lemma PrintedRenders(v: Value, text: string, params: map<string, Value>, calls: nat)
    requires Prints(v, text) && calls > 0
    ensures RenderScalar(v, params, calls) == Done(text)
  {
    if v.String? {
      NoReference(v.s);
    }
    hide Reference;
    assert v.String? || Reference(v).None? by {
      OnlyStringsRefer(v);
    }
  }

  lemma OnlyStringsRefer(v: Value)
    ensures !v.String? ==> Reference(v).None?
  {
  }

  lemma ReferenceRenders(name: string, params: map<string, Value>, text: string)
    requires name in params && Prints(params[name], text)
    ensures Render(String("{args." + name + "}"), params) == Done(text)
  {
    var v := String("{args." + name + "}");
    ReferencesAre(v, name);
    hide Reference, Prints;
    assert params.Keys != {};
    PrintedRenders(params[name], text, params, |params|);
  }

  lemma SaidRenders(v: ClientValue, text: string, auth: AuthContext, params: map<string, Value>)
    requires Says(v, text, auth, params)
    ensures var resolved := ResolveValue(Serialize(v), auth, params);
            resolved.Done? && Render(resolved.value, params) == Done(text)
  {
    if v.Ctx? {
      CtxResolves(v.key, v.token, auth, params);
      assert Prints(String(text), text);
      PrintedRenders(String(text), text, params, |params| + 1);
    } else if v.Str? && !(text == v.s && !(StartsWith(v.s, "{args.") && EndsWith(v.s, "}"))) {
      var name :| name in params && v.s == "{args." + name + "}" && Prints(params[name], text);
      ReferenceRenders(name, params, text);
    } else {
      assert Prints(Serialize(v), text);
      PrintedRenders(Serialize(v), text, params, |params| + 1);
    }
  }

  /**
   A key template comes out as its parts with the texts of its values between them: null, true and false by name,
   numbers by their digits, strings as they are, claims and parameters by their values.
   */
  lemma TemplatesSpellTheirValues(parts: seq<string>, values: seq<ClientValue>, texts: seq<string>, auth: AuthContext,
                                  params: map<string, Value>)
    requires |texts| == |Used(values, |parts|)|
    requires forall i | 0 <= i < |texts| :: Says(values[i], texts[i], auth, params)
    ensures ResolveValue(Serialize(KeyTemplate(parts, values)), auth, params) == Done(String(Interleave(parts, texts)))
  {
    TemplateResolves(parts, values, auth, params);
    var used := Used(SerializeAll(values), |parts|);
    forall i | 0 <= i < |used|
      ensures var resolved := ResolveValue(used[i], auth, params);
              resolved.Done? && Render(resolved.value, params) == Done(texts[i])
    {
      SerializedAt(values, i);
      SaidRenders(values[i], texts[i], auth, params);
      hide Says, Serialize, ResolveValue, Render;
    }
    hide ResolveValue, Render, Serialize, Says, SerializeAll, RenderTemplate, Interleave;
    assert FinalTexts(used, texts, auth, params);
    TextsToTemplate(parts, SerializeAll(values), texts, auth, params);
  }

  lemma {:induction false} SerializedAt(items: seq<ClientValue>, i: nat)
    requires i < |items|
    ensures SerializeAll(items)[i] == Serialize(items[i])
  {
    if i > 0 {
      SerializedAt(items[1..], i - 1);
    }
  }

  /** In particular one value between two parts. */
  lemma OneValueTemplate(before: string, after: string, text: string)
    ensures Interleave([before, after], [text]) == before + text + after
  {
    assert [before, after][1..] == [after] && [after][1..] == [] && [text][1..] == [];
    assert Interleave([], []) == "";
    assert after + "" == after;
  }

  // ---- the four claims the client exports ----

  const UID := Ctx("uid", "UID")
  const TENANT_ID := Ctx("tenantId", "TENANT_ID")
  const ROLES := Ctx("roles", "ROLES")
  const PERMISSION_VERSION := Ctx("permissionVersion", "PERMISSION_VERSION")

  /** Each becomes the caller's own claim, or the error that names the missing one. */
  lemma ReservedClaimsResolve(auth: AuthContext, params: map<string, Value>)
    ensures ResolveValue(Serialize(UID), auth, params) ==
            if auth.uid.Some? then Done(String(auth.uid.value)) else Failed(MissingAuthContext(Uid))
    ensures ResolveValue(Serialize(TENANT_ID), auth, params) ==
            if auth.tenantId.Some? then Done(String(auth.tenantId.value)) else Failed(MissingAuthContext(TenantId))
    ensures ResolveValue(Serialize(ROLES), auth, params) == Done(Array(Strings(auth.roles)))
    ensures ResolveValue(Serialize(PERMISSION_VERSION), auth, params) ==
            if auth.permissionVersion.Some? then Done(String(auth.permissionVersion.value))
            else Failed(MissingAuthContext(PermissionVersion))
    ensures forall key, token | key !in {"uid", "tenantId", "roles", "permissionVersion"} ::
              ResolveValue(Serialize(Ctx(key, token)), auth, params) == Failed(MissingAuthContext(Unknown))
  {
    forall key, token | key !in {"uid", "tenantId", "roles", "permissionVersion"}
      ensures ResolveValue(Serialize(Ctx(key, token)), auth, params) == Failed(MissingAuthContext(Unknown))
    {
      CtxResolves(key, token, auth, params);
      hide ResolveValue, Serialize;
    }
    CtxResolves("uid", "UID", auth, params);
    CtxResolves("tenantId", "TENANT_ID", auth, params);
    CtxResolves("roles", "ROLES", auth, params);
    CtxResolves("permissionVersion", "PERMISSION_VERSION", auth, params);
    hide ResolveValue, Serialize;
  }

  /** Markers that are not in order are refused: a claim named by no text, parts or values that are no lists. */
  lemma MalformedMarkers(fields: seq<(string, Value)>, auth: AuthContext, params: map<string, Value>)
    ensures var (claim, token, parts, values) := (Get(fields, "$ctx"), Get(fields, "token"), Get(fields, "parts"), Get(fields, "values"));
            var r := ResolveValue(Object(fields), auth, params);
            && (claim.Some? && token.Some? && !claim.value.String? ==> r == Failed(MissingAuthContext(CtxItself)))
            && ((claim.None? || token.None?) && Get(fields, "$template") == Some(String("key")) && parts.Some? && values.Some? ==>
                  && (!parts.value.Array? ==> r == Failed(PartsNotText))
                  && (parts.value.Array? && !values.value.Array? ==> r == Failed(ValuesNotList))
                  && (parts.value.Array? && values.value.Array? && parts.value.items != [] && !parts.value.items[0].String? ==>
                        r == Failed(PartsNotText)))
  {
    hide Get, ContextValue, ResolveMap;
  }

  // ---- and only honest values ----

  /** A value that evaluates to something other than a list or an object hides no imitation. */
  lemma {:induction false} ScalarsAreHonest(v: ClientValue, auth: AuthContext, params: map<string, Value>)
    requires Eval(v, auth, params).Done?
    requires var value := Eval(v, auth, params).value; !value.Array? && !value.Object?
    ensures Honest(v)
    decreases v, 0
  {
    if v.KeyTemplate? {
      TemplatesAreHonest(v.parts, v.values, auth, params);
    }
  }

  lemma {:induction false} TemplatesAreHonest(parts: seq<string>, values: seq<ClientValue>, auth: AuthContext,
                                              params: map<string, Value>)
    requires EvalTemplate(parts, values, auth, params).Done?
    ensures HonestFirst(values, |parts|)
    decreases values, |parts|
  {
    if parts != [] && values != [] {
      RenderedIsScalar(Eval(values[0], auth, params).value, params);
      ScalarsAreHonest(values[0], auth, params);
      TemplatesAreHonest(parts[1..], values[1..], auth, params);
    }
  }

  lemma RenderedIsScalar(v: Value, params: map<string, Value>)
    requires Render(v, params).Done?
    ensures !v.Array? && !v.Object?
  {
  }

  /** When the client's value has a meaning, the gateway computes it if and only if the value is honest. */
  lemma {:induction false} AgreesIffHonest(v: ClientValue, auth: AuthContext, params: map<string, Value>)
    requires Eval(v, auth, params).Done?
    ensures ResolveValue(Serialize(v), auth, params) == Eval(v, auth, params) <==> Honest(v)
    decreases v, 0
  {
    if Honest(v) {
      CompileThenResolve(v, auth, params);
    } else {
      match v {
        case KeyTemplate(parts, values) => TemplatesAreHonest(parts, values, auth, params);
        case List(items) => ListAgrees(items, auth, params);
        case Record(fields) =>
          ImitatesIffBinding(fields);
          if !Imitates(fields) {
            RecordAgrees(fields, auth, params);
          } else {
            BindingIsNoObject(SerializeFields(fields), auth, params);
          }
        case _ =>
      }
    }
  }

  lemma {:induction false} ListAgrees(items: seq<ClientValue>, auth: AuthContext, params: map<string, Value>)
    requires EvalAll(items, auth, params).Done? && !HonestFirst(items, |items|)
    ensures ResolveAll(SerializeAll(items), auth, params) != EvalAll(items, auth, params)
    decreases items
  {
    AgreesIffHonest(items[0], auth, params);
    var resolved, meant := ResolveAll(SerializeAll(items), auth, params), EvalAll(items, auth, params);
    if resolved == meant {
      assert resolved.value[0] == meant.value[0] && resolved.value[1..] == meant.value[1..];
      ListAgrees(items[1..], auth, params);
    }
  }

  lemma {:induction false} RecordAgrees(fields: seq<(string, ClientValue)>, auth: AuthContext, params: map<string, Value>)
    requires EvalFields(fields, auth, params).Done? && !HonestFields(fields)
    ensures ResolveMap(SerializeFields(fields), auth, params) != EvalFields(fields, auth, params)
    decreases fields
  {
    FieldAgrees(fields[0], auth, params);
    var resolved, meant := ResolveMap(SerializeFields(fields), auth, params), EvalFields(fields, auth, params);
    if resolved == meant {
      assert resolved.value[0] == meant.value[0] && resolved.value[1..] == meant.value[1..];
      RecordAgrees(fields[1..], auth, params);
    }
  }

  lemma FieldAgrees(field: (string, ClientValue), auth: AuthContext, params: map<string, Value>)
    requires EvalField(field, auth, params).Done?
    ensures ResolveField(SerializeField(field), auth, params) == EvalField(field, auth, params) <==> HonestField(field)
    decreases field
  {
    AgreesIffHonest(field.1, auth, params);
  }

  // ---- whole requests ----

  /** The parts of a request body that may hold markers; the others are copied as they are. */
  datatype Body<V> = Body(
    values: seq<V>, query: Option<seq<(string, V)>>, document: Option<seq<(string, V)>>,
    name: Option<V>, channel: Option<V>, value: Option<V>, payload: Option<V>, topic: Option<V>, message: Option<V>)

  function ResolveOptional(v: Option<Value>, auth: AuthContext, params: map<string, Value>): Outcome<Option<Value>> {
    match v
    case None => Done(None)
    case Some(value) => var resolved :- ResolveValue(value, auth, params); Done(Some(resolved))
  }

  function ResolveOptionalMap(v: Option<seq<(string, Value)>>, auth: AuthContext, params: map<string, Value>)
    : Outcome<Option<seq<(string, Value)>>>
  {
    match v
    case None => Done(None)
    case Some(fields) => var resolved :- ResolveMap(fields, auth, params); Done(Some(resolved))
  }

  /** `prepare`, after authorization. */
  function Prepare(body: Body<Value>, auth: AuthContext, params: map<string, Value>): Outcome<Body<Value>> {
    var values :- ResolveAll(body.values, auth, params);
    var query :- ResolveOptionalMap(body.query, auth, params);
    var document :- ResolveOptionalMap(body.document, auth, params);
    var name :- ResolveOptional(body.name, auth, params);
    var channel :- ResolveOptional(body.channel, auth, params);
    var value :- ResolveOptional(body.value, auth, params);
    var payload :- ResolveOptional(body.payload, auth, params);
    var topic :- ResolveOptional(body.topic, auth, params);
    var message :- ResolveOptional(body.message, auth, params);
    Done(Body(values, query, document, name, channel, value, payload, topic, message))
  }

  predicate AllBecome(items: seq<Value>, resolved: seq<Value>, auth: AuthContext, params: map<string, Value>) {
    |resolved| == |items| && forall i | 0 <= i < |items| :: ResolveValue(items[i], auth, params) == Done(resolved[i])
  }

  /** Every field keeps its name and place, and its value is the resolved one. */
  predicate FieldsBecome(fields: seq<(string, Value)>, resolved: seq<(string, Value)>, auth: AuthContext,
                         params: map<string, Value>) {
    && |resolved| == |fields|
    && forall i | 0 <= i < |fields| ::
         resolved[i].0 == fields[i].0 && ResolveValue(fields[i].1, auth, params) == Done(resolved[i].1)
  }

  predicate Becomes(v: Option<Value>, resolved: Option<Value>, auth: AuthContext, params: map<string, Value>) {
    if v.Some? then resolved.Some? && ResolveValue(v.value, auth, params) == Done(resolved.value) else resolved.None?
  }

  predicate MapBecomes(v: Option<seq<(string, Value)>>, resolved: Option<seq<(string, Value)>>, auth: AuthContext,
                       params: map<string, Value>) {
    if v.Some? then resolved.Some? && FieldsBecome(v.value, resolved.value, auth, params) else resolved.None?
  }

  lemma {:induction false} ResolveAllIff(items: seq<Value>, resolved: seq<Value>, auth: AuthContext, params: map<string, Value>)
    ensures ResolveAll(items, auth, params) == Done(resolved) <==> AllBecome(items, resolved, auth, params)
  {
    hide ResolveValue;
    if items != [] && resolved != [] {
      ResolveAllIff(items[1..], resolved[1..], auth, params);
      assert [resolved[0]] + resolved[1..] == resolved;
      if AllBecome(items, resolved, auth, params) {
        assert ResolveValue(items[0], auth, params) == Done(resolved[0]);
      }
      if ResolveAll(items, auth, params) == Done(resolved) {
        forall i | 0 <= i < |items| ensures ResolveValue(items[i], auth, params) == Done(resolved[i]) {
          if i > 0 {
            assert items[1..][i - 1] == items[i] && resolved[1..][i - 1] == resolved[i];
          }
        }
      }
    }
  }

  lemma {:induction false} ResolveMapIff(fields: seq<(string, Value)>, resolved: seq<(string, Value)>, auth: AuthContext,
                                         params: map<string, Value>)
    ensures ResolveMap(fields, auth, params) == Done(resolved) <==> FieldsBecome(fields, resolved, auth, params)
  {
    hide ResolveValue;
    if fields != [] && resolved != [] {
      ResolveMapIff(fields[1..], resolved[1..], auth, params);
      assert [resolved[0]] + resolved[1..] == resolved;
      if FieldsBecome(fields, resolved, auth, params) {
        assert resolved[0].0 == fields[0].0 && ResolveValue(fields[0].1, auth, params) == Done(resolved[0].1);
      }
      if ResolveMap(fields, auth, params) == Done(resolved) {
        assert ResolveField(fields[0], auth, params) == Done(resolved[0]);
        assert ResolveMap(fields[1..], auth, params) == Done(resolved[1..]);
        assert FieldsBecome(fields[1..], resolved[1..], auth, params);
        forall i | 0 <= i < |fields|
          ensures resolved[i].0 == fields[i].0 && ResolveValue(fields[i].1, auth, params) == Done(resolved[i].1)
        {
          if i > 0 {
            assert fields[1..][i - 1] == fields[i] && resolved[1..][i - 1] == resolved[i];
          }
        }
      }
    }
  }

  lemma OptionalIff(v: Option<Value>, resolved: Option<Value>, auth: AuthContext, params: map<string, Value>)
    ensures ResolveOptional(v, auth, params) == Done(resolved) <==> Becomes(v, resolved, auth, params)
  {
    hide ResolveValue;
  }

  lemma OptionalMapIff(v: Option<seq<(string, Value)>>, resolved: Option<seq<(string, Value)>>, auth: AuthContext,
                       params: map<string, Value>)
    ensures ResolveOptionalMap(v, auth, params) == Done(resolved) <==> MapBecomes(v, resolved, auth, params)
  {
    if v.Some? && resolved.Some? {
      ResolveMapIff(v.value, resolved.value, auth, params);
    }
    hide ResolveMap, FieldsBecome;
  }

  /** A body is prepared exactly when every part of it resolves, and each part becomes its own resolved value. */
  lemma PreparedPartByPart(body: Body<Value>, prepared: Body<Value>, auth: AuthContext, params: map<string, Value>)
    ensures Prepare(body, auth, params) == Done(prepared) <==>
            && AllBecome(body.values, prepared.values, auth, params)
            && MapBecomes(body.query, prepared.query, auth, params) && MapBecomes(body.document, prepared.document, auth, params)
            && Becomes(body.name, prepared.name, auth, params) && Becomes(body.channel, prepared.channel, auth, params)
            && Becomes(body.value, prepared.value, auth, params) && Becomes(body.payload, prepared.payload, auth, params)
            && Becomes(body.topic, prepared.topic, auth, params) && Becomes(body.message, prepared.message, auth, params)
  {
    ResolveAllIff(body.values, prepared.values, auth, params);
    OptionalMapIff(body.query, prepared.query, auth, params);
    OptionalMapIff(body.document, prepared.document, auth, params);
    OptionalIff(body.name, prepared.name, auth, params);
    OptionalIff(body.channel, prepared.channel, auth, params);
    OptionalIff(body.value, prepared.value, auth, params);
    OptionalIff(body.payload, prepared.payload, auth, params);
    OptionalIff(body.topic, prepared.topic, auth, params);
    OptionalIff(body.message, prepared.message, auth, params);
    hide AllBecome, MapBecomes, Becomes, ResolveAll, ResolveOptionalMap, ResolveOptional;
  }

  function SerializeOptional(v: Option<ClientValue>): Option<Value> {
    match v case None => None case Some(value) => Some(Serialize(value))
  }

  function SerializeOptionalMap(v: Option<seq<(string, ClientValue)>>): Option<seq<(string, Value)>> {
    match v case None => None case Some(fields) => Some(SerializeFields(fields))
  }

  /** The request the client sends. */
  function SerializeBody(b: Body<ClientValue>): Body<Value> {
    Body(SerializeAll(b.values), SerializeOptionalMap(b.query), SerializeOptionalMap(b.document),
         SerializeOptional(b.name), SerializeOptional(b.channel), SerializeOptional(b.value),
         SerializeOptional(b.payload), SerializeOptional(b.topic), SerializeOptional(b.message))
  }

  function EvalOptional(v: Option<ClientValue>, auth: AuthContext, params: map<string, Value>): Outcome<Option<Value>> {
    match v
    case None => Done(None)
    case Some(value) => var evaluated :- Eval(value, auth, params); Done(Some(evaluated))
  }

  function EvalOptionalMap(v: Option<seq<(string, ClientValue)>>, auth: AuthContext, params: map<string, Value>)
    : Outcome<Option<seq<(string, Value)>>>
  {
    match v
    case None => Done(None)
    case Some(fields) => var evaluated :- EvalFields(fields, auth, params); Done(Some(evaluated))
  }

  function EvalBody(b: Body<ClientValue>, auth: AuthContext, params: map<string, Value>): Outcome<Body<Value>> {
    var values :- EvalAll(b.values, auth, params);
    var query :- EvalOptionalMap(b.query, auth, params);
    var document :- EvalOptionalMap(b.document, auth, params);
    var name :- EvalOptional(b.name, auth, params);
    var channel :- EvalOptional(b.channel, auth, params);
    var value :- EvalOptional(b.value, auth, params);
    var payload :- EvalOptional(b.payload, auth, params);
    var topic :- EvalOptional(b.topic, auth, params);
    var message :- EvalOptional(b.message, auth, params);
    Done(Body(values, query, document, name, channel, value, payload, topic, message))
  }

  predicate HonestOptional(v: Option<ClientValue>) {
    v.Some? ==> Honest(v.value)
  }

  /** A query or document as a whole is never read as a marker, so only its fields matter. */
  predicate HonestOptionalMap(v: Option<seq<(string, ClientValue)>>) {
    v.Some? ==> HonestFields(v.value)
  }

  predicate HonestBody(b: Body<ClientValue>) {
    && HonestFirst(b.values, |b.values|) && HonestOptionalMap(b.query) && HonestOptionalMap(b.document)
    && HonestOptional(b.name) && HonestOptional(b.channel) && HonestOptional(b.value)
    && HonestOptional(b.payload) && HonestOptional(b.topic) && HonestOptional(b.message)
  }

  lemma CompileOptional(v: Option<ClientValue>, auth: AuthContext, params: map<string, Value>)
    requires HonestOptional(v)
    ensures ResolveOptional(SerializeOptional(v), auth, params) == EvalOptional(v, auth, params)
  {
    if v.Some? {
      CompileThenResolve(v.value, auth, params);
    }
  }

  lemma CompileOptionalMap(v: Option<seq<(string, ClientValue)>>, auth: AuthContext, params: map<string, Value>)
    requires HonestOptionalMap(v)
    ensures ResolveOptionalMap(SerializeOptionalMap(v), auth, params) == EvalOptionalMap(v, auth, params)
  {
    if v.Some? {
      CompileFields(v.value, auth, params);
    }
  }

  /** The prepared body of an honest request is the client's body evaluated field by field, or its first error. */
  lemma PrepareMeansEval(b: Body<ClientValue>, auth: AuthContext, params: map<string, Value>)
    requires HonestBody(b)
    ensures Prepare(SerializeBody(b), auth, params) == EvalBody(b, auth, params)
  {
    CompileAll(b.values, auth, params);
    CompileOptionalMap(b.query, auth, params);
    CompileOptionalMap(b.document, auth, params);
    CompileOptional(b.name, auth, params);
    CompileOptional(b.channel, auth, params);
    CompileOptional(b.value, auth, params);
    CompileOptional(b.payload, auth, params);
    CompileOptional(b.topic, auth, params);
    CompileOptional(b.message, auth, params);
    hide ResolveAll, EvalAll, ResolveOptionalMap, EvalOptionalMap, ResolveOptional, EvalOptional;
    hide SerializeAll, SerializeOptionalMap, SerializeOptional;
  }
}
