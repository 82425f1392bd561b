/** The JSON form in which sessions travel from the user service to the gateway. */
module PublicSession {
  import opened Wrappers
  import opened Text
  import opened Json
  import opened AuthStore

  const MAX_U64: nat := 0xFFFF_FFFF_FFFF_FFFF

  datatype Field = App | Uid | TenantId | Email | DisplayName

  function FieldName(f: Field): string {
    match f
    case App => "app"
    case Uid => "uid"
    case TenantId => "tenantId"
    case Email => "email"
    case DisplayName => "displayName"
  }

  datatype DecodeError = MissingToken | MissingUser | MissingRoles | RoleNotText | MissingField(field: Field)

  function Unsigned(n: nat): Value {
    Number(Decimal(n))
  }

  function KindName(kind: Kind): string {
    match kind case Authenticated => "authenticated" case Anonymous => "anonymous"
  }

  function PublicUser(u: User): seq<(string, Value)> {
    [("app", String(u.app)), ("uid", String(u.uid)), ("tenantId", String(u.tenantId)), ("email", String(u.email)),
     ("displayName", String(u.displayName)), ("roles", Array(Strings(u.roles))), ("anonymous", Bool(u.anonymous))]
  }

  /** `to_public_json`, and `public_session` on the service's side: everything but the password. */
  function ToPublicJson(s: Session): Value {
    Object([("token", String(s.token)), ("sessionKind", String(KindName(s.kind))),
            ("anonymous", Bool(s.kind == Anonymous)), ("issuedAt", Unsigned(s.issuedAt)),
            ("lastSeenAt", Unsigned(s.lastSeenAt)), ("expiresAt", Unsigned(s.expiresAt)),
            ("user", Object(PublicUser(s.user)))])
  }

  // ---- decoding ----

  /** `as_u64`: a whole number that fits 64 bits. */
  function AsU64(v: Option<Value>): Option<nat> {
    if v.Some? && v.value.Number? && v.value.text != [] && AllDigits(v.value.text) && Text.Value(v.value.text) <= MAX_U64
    then Some(Text.Value(v.value.text)) else None
  }

  function OrZero(v: Option<nat>): nat {
    match v case Some(n) => n case None => 0
  }

  function Texts(items: seq<Value>): Option<seq<string>> {
    if items == [] then Some([])
    else if !items[0].String? then None
    else match Texts(items[1..]) case None => None case Some(rest) => Some([items[0].s] + rest)
  }

  function RequiredText(user: Value, f: Field): Result<string, DecodeError> {
    match AsText(Member(user, FieldName(f))) case Some(text) => Ok(text) case None => Err(MissingField(f))
  }

  function DecodeUser(user: Value, roles: seq<string>): Result<User, DecodeError> {
    match RequiredText(user, App)
    case Err(e) => Err(e)
    case Ok(app) =>
      match RequiredText(user, Uid)
      case Err(e) => Err(e)
      case Ok(uid) =>
        match RequiredText(user, TenantId)
        case Err(e) => Err(e)
        case Ok(tenantId) =>
          match RequiredText(user, Email)
          case Err(e) => Err(e)
          case Ok(email) =>
            match RequiredText(user, DisplayName)
            case Err(e) => Err(e)
            case Ok(displayName) =>
              Ok(User(app, uid, tenantId, email, "", displayName, roles, Member(user, "anonymous") == Some(Bool(true))))
  }

  /** `from_public_json` */
  function FromPublicJson(v: Value): Result<Session, DecodeError> {
    var token, user := AsText(Member(v, "token")), Member(v, "user");
    if token.None? then Err(MissingToken)
    else if user.None? || !user.value.Object? then Err(MissingUser)
    else
      var roles := Member(user.value, "roles");
      if roles.None? || !roles.value.Array? then Err(MissingRoles)
      else
        match Texts(roles.value.items)
        case None => Err(RoleNotText)
        case Some(texts) =>
          match DecodeUser(user.value, texts)
          case Err(e) => Err(e)
          case Ok(decoded) =>
            Ok(Session(token.value, decoded,
                       if AsText(Member(v, "sessionKind")) == Some("anonymous") then Anonymous else Authenticated,
                       OrZero(AsU64(Member(v, "issuedAt"))), OrZero(AsU64(Member(v, "lastSeenAt"))),
                       OrZero(AsU64(Member(v, "expiresAt")))))
  }

  // ---- round trips ----

  /** What 64-bit times hold. */
  predicate Fits(s: Session) {
    s.issuedAt <= MAX_U64 && s.lastSeenAt <= MAX_U64 && s.expiresAt <= MAX_U64
  }

  function WithoutPassword(s: Session): Session {
    s.(user := s.user.(password := ""))
  }

  lemma UnsignedReads(n: nat)
    ensures AsU64(Some(Unsigned(n))) == if n <= MAX_U64 then Some(n) else None
  {
    ValueOfDecimal(n);
  }

  lemma {:induction false} TextsReads(texts: seq<string>)
    ensures Texts(Strings(texts)) == Some(texts)
  {
    if texts != [] {
      assert Strings(texts)[1..] == Strings(texts[1..]);
      TextsReads(texts[1..]);
      assert [texts[0]] + texts[1..] == texts;
    }
  }

  lemma UserMembers(u: User)
    ensures var user := Object(PublicUser(u));
            && Member(user, "app") == Some(String(u.app)) && Member(user, "uid") == Some(String(u.uid))
            && Member(user, "tenantId") == Some(String(u.tenantId)) && Member(user, "email") == Some(String(u.email))
            && Member(user, "displayName") == Some(String(u.displayName))
            && Member(user, "roles") == Some(Array(Strings(u.roles)))
            && Member(user, "anonymous") == Some(Bool(u.anonymous))
  {
    var fields := PublicUser(u);
    hide Get;
    GetAt(fields, 0);
    GetAt(fields, 1);
    GetAt(fields, 2);
    GetAt(fields, 3);
    GetAt(fields, 4);
    GetAt(fields, 5);
    GetAt(fields, 6);
  }

  /** Under which names the public form shows what. */
  lemma SessionMembers(s: Session)
    ensures var v := ToPublicJson(s);
            && Member(v, "token") == Some(String(s.token)) && Member(v, "sessionKind") == Some(String(KindName(s.kind)))
            && Member(v, "anonymous") == Some(Bool(s.kind == Anonymous))
            && Member(v, "issuedAt") == Some(Unsigned(s.issuedAt))
            && Member(v, "lastSeenAt") == Some(Unsigned(s.lastSeenAt))
            && Member(v, "expiresAt") == Some(Unsigned(s.expiresAt))
            && Member(v, "user") == Some(Object(PublicUser(s.user)))
  {
    hide Get, PublicUser, Unsigned;
    var fields := ToPublicJson(s).fields;
    GetAt(fields, 0);
    GetAt(fields, 1);
    GetAt(fields, 2);
    GetAt(fields, 3);
    GetAt(fields, 4);
    GetAt(fields, 5);
    GetAt(fields, 6);
  }

  function FieldOf(u: User, f: Field): string {
    match f
    case App => u.app
    case Uid => u.uid
    case TenantId => u.tenantId
    case Email => u.email
    case DisplayName => u.displayName
  }

  lemma FieldReads(u: User, f: Field)
    ensures RequiredText(Object(PublicUser(u)), f) == Ok(FieldOf(u, f))
  {
    UserMembers(u);
    hide Get, PublicUser, Member;
  }

  lemma UserReturns(u: User)
    ensures DecodeUser(Object(PublicUser(u)), u.roles) == Ok(u.(password := ""))
  {
    UserMembers(u);
    FieldReads(u, App);
    FieldReads(u, Uid);
    FieldReads(u, TenantId);
    FieldReads(u, Email);
    FieldReads(u, DisplayName);
    hide Get, PublicUser, Member, RequiredText;
  }

  lemma KindReturns(kind: Kind)
    ensures KindName(kind) == "anonymous" <==> kind == Anonymous
  {
    assert "authenticated"[1] != "anonymous"[1];
  }

  /** Decoding the public form gives back every field but the password. */
  lemma PublicFormReturns(s: Session)
    requires Fits(s)
    ensures FromPublicJson(ToPublicJson(s)) == Ok(WithoutPassword(s))
  {
    SessionMembers(s);
    UserMembers(s.user);
    UserReturns(s.user);
    TextsReads(s.user.roles);
    UnsignedReads(s.issuedAt);
    UnsignedReads(s.lastSeenAt);
    UnsignedReads(s.expiresAt);
    KindReturns(s.kind);
    hide Get, PublicUser, ToPublicJson, DecodeUser, Unsigned, Texts, Strings, KindName, Member, AsU64;
  }

  /** Whatever document was accepted, encoding the session and decoding it again changes nothing. */
  lemma AcceptedFormIsStable(v: Value)
    requires FromPublicJson(v).Ok?
    ensures FromPublicJson(ToPublicJson(FromPublicJson(v).value)) == FromPublicJson(v)
  {
    var s := FromPublicJson(v).value;
    assert s.user.password == "" && Fits(s);
    assert WithoutPassword(s) == s;
    PublicFormReturns(s);
  }

  predicate IsText(v: Option<Value>) {
    v.Some? && v.value.String?
  }

  predicate IsList(v: Option<Value>) {
    v.Some? && v.value.Array?
  }

  predicate AllTexts(items: seq<Value>) {
    forall i | 0 <= i < |items| :: items[i].String?
  }

  lemma {:induction false} TextsIff(items: seq<Value>)
    ensures Texts(items).Some? <==> AllTexts(items)
  {
    if items != [] {
      TextsIff(items[1..]);
      assert AllTexts(items) <==> items[0].String? && AllTexts(items[1..]) by {
        assert forall i | 1 <= i < |items| :: items[i] == items[1..][i - 1];
      }
    }
  }

  function Turn(f: Field): nat {
    match f
    case App => 0
    case Uid => 1
    case TenantId => 2
    case Email => 3
    case DisplayName => 4
  }

  /** The first of the user's texts that is not there. */
  predicate FirstMissing(user: Value, f: Field) {
    !IsText(Member(user, FieldName(f))) && forall g: Field :: Turn(g) < Turn(f) ==> IsText(Member(user, FieldName(g)))
  }

  lemma UserRefusals(user: Value, roles: seq<string>, f: Field)
    ensures DecodeUser(user, roles) == Err(MissingField(f)) <==> FirstMissing(user, f)
    ensures DecodeUser(user, roles).Err? ==> DecodeUser(user, roles).error.MissingField?
  {
    hide Get, Member, FieldName;
    assert Turn(App) < Turn(Uid) < Turn(TenantId) < Turn(Email) < Turn(DisplayName);
  }

  /** A document is refused for the first thing missing: the token, the user, the roles, then the user's texts in order. */
  lemma RefusedForTheFirstFault(v: Value, f: Field)
    ensures var (r, token, user) := (FromPublicJson(v), Member(v, "token"), Member(v, "user"));
            && (r == Err(MissingToken) <==> !IsText(token))
            && (r == Err(MissingUser) <==> IsText(token) && !(user.Some? && user.value.Object?))
            && (IsText(token) && user.Some? && user.value.Object? ==>
                  var roles := Member(user.value, "roles");
                  && (r == Err(MissingRoles) <==> !IsList(roles))
                  && (r == Err(RoleNotText) <==> IsList(roles) && !AllTexts(roles.value.items))
                  && (r == Err(MissingField(f)) <==> IsList(roles) && AllTexts(roles.value.items) && FirstMissing(user.value, f)))
  {
    hide Get, Member, DecodeUser, Texts, FirstMissing, AllTexts;
    var user := Member(v, "user");
    if user.Some? {
      var roles := Member(user.value, "roles");
      if IsList(roles) {
        TextsIff(roles.value.items);
        if Texts(roles.value.items).Some? {
          UserRefusals(user.value, Texts(roles.value.items).value, f);
        }
      }
    }
  }

  /** Without a kind, or with any text but `anonymous`, a session counts as authenticated; times that are missing count as 0. */
  lemma MissingFieldsDefault(v: Value)
    requires FromPublicJson(v).Ok?
    ensures (FromPublicJson(v).value.kind == Anonymous <==> Member(v, "sessionKind") == Some(String("anonymous")))
    ensures Member(v, "issuedAt").None? ==> FromPublicJson(v).value.issuedAt == 0
    ensures Member(v, "lastSeenAt").None? ==> FromPublicJson(v).value.lastSeenAt == 0
    ensures Member(v, "expiresAt").None? ==> FromPublicJson(v).value.expiresAt == 0
  {
    hide Get, DecodeUser, Texts;
  }
}
