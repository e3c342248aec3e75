/** `POST /api/tenant/select`: a signed-in user picks the tenant they administer. The
    tenant cookie is written only after the user's membership in that tenant is found. */
module TenantSelect {
  import opened Common
  import opened Json
  import opened Table
  import opened RouteAuth
  import WithTenant

  /** The attributes `cookies().set` is given. */
  datatype CookieOptions = CookieOptions(httpOnly: bool, sameSite: string, secure: bool, path: string, maxAge: int)

  datatype Cookie = Cookie(value: string, options: CookieOptions)

  /** Seven days, in seconds. */
  const SelectionMaxAge := 60 * 60 * 24 * 7

  /** The options of the tenant cookie: HTTP-only, same-site lax, secure in production,
      valid on the whole site for a week. */
  function SelectionOptions(isProduction: bool): (o: CookieOptions)
    ensures o.httpOnly && o.sameSite == "lax" && o.secure == isProduction
    ensures o.path == "/" && o.maxAge == 604_800
  {
    CookieOptions(true, "lax", isProduction, "/", SelectionMaxAge)
  }

  /** A `NextResponse.json(body, { status })`. */
  datatype Reply = Reply(status: int, body: Value)

  /** The route answers, or an error escapes it (Next.js then answers 500). */
  datatype Result = Answered(reply: Reply) | Crashed(error: Value)

  /** Destructuring `tenantId` out of `null`. */
  const NullBodyError := Obj(map["name" := Str("TypeError")])

  /** Prisma refusing a `tenantId` filter that is not a string. */
  const ValidationError := Obj(map["name" := Str("PrismaClientValidationError")])

  /** The `tenantId` of the body; `body` is `None` when it is not JSON, which the route
      reads as `{}`. `None` when destructuring throws (a null body). */
  function RequestedTenant(body: Option<Value>): (t: Option<Value>)
    ensures body.None? ==> t == Some(Undef)
    ensures body.Some? ==> (t.None? <==> IsNullish(body.value))
    ensures body.Some? && body.value.Obj? ==> t == Some(Get(body.value, "tenantId"))
  {
    if body.None? then Some(Undef)
    else if body.value.Null? || body.value.Undef? then None
    else Some(Get(body.value, "tenantId"))
  }

  /** `{ userId, tenantId }` with the body's `tenantId` as it came: a string is compared
      for equality, an object is read by Prisma as a string filter (`{contains: ""}`). */
  function SelectFilter(userId: string, tenantId: Value): Value {
    Obj(map["userId" := Str(userId), "tenantId" := tenantId])
  }

  /** Prisma takes a string or a string filter for `tenantId`; anything else it refuses. */
  predicate FilterAccepted(tenantId: Value) {
    tenantId.Str? || tenantId.Obj?
  }

  /** `findFirst` on the memberships with `SelectFilter`; for a string it is the user's
      membership in that tenant. */
  function MembershipMatching(memberships: seq<Row>, userId: string, tenantId: Value): (r: Option<Row>)
    ensures r.Some? ==> r.value in memberships && Eval(SelectFilter(userId, tenantId), r.value)
    ensures r.None? <==> forall x | x in memberships :: !Eval(SelectFilter(userId, tenantId), x)
    ensures tenantId.Str? ==> r == FindMembership(memberships, userId, tenantId.s)
  {
    var i := FirstIndex(memberships, SelectFilter(userId, tenantId));
    if i < |memberships| then Some(memberships[i])
    else
      assert forall x | x in memberships :: !Eval(SelectFilter(userId, tenantId), x) by {
        forall x | x in memberships ensures !Eval(SelectFilter(userId, tenantId), x) {
          var j :| 0 <= j < |memberships| && memberships[j] == x;
        }
      }
      None
  }

  /** The text the `Set-Cookie` header carries for the value the jar is given, before
      percent-encoding: a string as it is, an object as JavaScript prints it. */
  function CookieText(v: Value): (s: string)
    requires FilterAccepted(v)
    ensures v.Str? ==> s == v.s
    ensures v.Obj? ==> s == "[object Object]"
  {
    if v.Str? then v.s else "[object Object]"
  }

  /** The three errors the route can throw are told apart. */
  lemma ErrorsDistinct()
    ensures Unauthorized != ValidationError && NullBodyError != ValidationError
  {
    assert "message" in Unauthorized.fields && "message" !in ValidationError.fields;
    assert NullBodyError.fields["name"] != ValidationError.fields["name"] by {
      assert "TypeError"[0] != "PrismaClientValidationError"[0];
    }
  }

  /** The route's answer and the cookie it writes (`None`: the jar is not touched).
      `userId` is the session's user id. */
  function Select(userId: Option<string>, body: Option<Value>, memberships: seq<Row>, isProduction: bool)
    : (r: (Result, Option<Cookie>))
    ensures (userId.None? || userId.value == "") ==> r == (Crashed(Unauthorized), None)
    ensures r.1.Some? <==>
      && userId.Some? && userId.value != ""
      && RequestedTenant(body).Some? && Truthy(RequestedTenant(body).value)
      && FilterAccepted(RequestedTenant(body).value)
      && MembershipMatching(memberships, userId.value, RequestedTenant(body).value).Some?
    ensures r.1.Some? ==>
      r.1.value == Cookie(CookieText(RequestedTenant(body).value), SelectionOptions(isProduction))
      && r.0 == Answered(Reply(200, Obj(map["ok" := Bool(true)])))
      && exists m | m in memberships :: Eval(SelectFilter(userId.value, RequestedTenant(body).value), m)
    ensures r.1.Some? && RequestedTenant(body).value.Str? ==>
      exists m | m in memberships :: IsMembership(m, userId.value, r.1.value.value)
    ensures r.0 == Answered(Reply(400, Obj(map["ok" := Bool(false), "error" := Str("tenantId required")]))) <==>
      userId.Some? && userId.value != "" && RequestedTenant(body).Some? && !Truthy(RequestedTenant(body).value)
    ensures r.0 == Crashed(ValidationError) <==>
      userId.Some? && userId.value != "" && RequestedTenant(body).Some? && Truthy(RequestedTenant(body).value)
      && !FilterAccepted(RequestedTenant(body).value)
    ensures r.0.Answered? && r.0.reply.status == 403 ==>
      r.1.None? && r.0.reply.body == Obj(map["ok" := Bool(false), "error" := Str("Forbidden")])
      && userId.Some? && RequestedTenant(body).Some? && FilterAccepted(RequestedTenant(body).value)
      && forall m | m in memberships :: !Eval(SelectFilter(userId.value, RequestedTenant(body).value), m)
    ensures r.0.Answered? && r.0.reply.status == 403 && RequestedTenant(body).value.Str? ==>
      forall m | m in memberships :: !IsMembership(m, userId.value, RequestedTenant(body).value.s)
  {
    ErrorsDistinct();
    if userId.None? || userId.value == "" then (Crashed(Unauthorized), None)
    else
      var t := RequestedTenant(body);
      if t.None? then (Crashed(NullBodyError), None)
      else if !Truthy(t.value) then
        (Answered(Reply(400, Obj(map["ok" := Bool(false), "error" := Str("tenantId required")]))), None)
      else if !FilterAccepted(t.value) then (Crashed(ValidationError), None)
      else if MembershipMatching(memberships, userId.value, t.value).None? then
        (Answered(Reply(403, Obj(map["ok" := Bool(false), "error" := Str("Forbidden")]))), None)
      else
        (Answered(Reply(200, Obj(map["ok" := Bool(true)]))), Some(Cookie(CookieText(t.value), SelectionOptions(isProduction))))
  }

  /** The cookies of the response being built, with their attributes. */
  class ResponseCookies {
    var cookies: map<string, Cookie>

    constructor ()
      ensures cookies == map[]
    {
      cookies := map[];
    }

    method Set(name: string, value: string, options: CookieOptions)
      modifies this
      ensures cookies == old(cookies)[name := Cookie(value, options)]
    {
      cookies := cookies[name := Cookie(value, options)];
    }
  }

  /** The handler: the membership is read, then the jar is written once. */
  method Post(jar: ResponseCookies, userId: Option<string>, body: Option<Value>, memberships: seq<Row>,
              isProduction: bool)
    returns (r: Result)
    modifies jar
    ensures r == Select(userId, body, memberships, isProduction).0
    ensures var c := Select(userId, body, memberships, isProduction).1;
      jar.cookies == if c.Some? then old(jar.cookies)[WithTenant.TenantCookie := c.value] else old(jar.cookies)
  {
    if userId.None? || userId.value == "" {
      return Crashed(Unauthorized);
    }
    var tenantId := RequestedTenant(body);
    if tenantId.None? {
      return Crashed(NullBodyError);
    }
    if !Truthy(tenantId.value) {
      return Answered(Reply(400, Obj(map["ok" := Bool(false), "error" := Str("tenantId required")])));
    }
    if !FilterAccepted(tenantId.value) {
      return Crashed(ValidationError);
    }
    var membership := MembershipMatching(memberships, userId.value, tenantId.value);
    if membership.None? {
      return Answered(Reply(403, Obj(map["ok" := Bool(false), "error" := Str("Forbidden")])));
    }
    jar.Set(WithTenant.TenantCookie, CookieText(tenantId.value), SelectionOptions(isProduction));
    return Answered(Reply(200, Obj(map["ok" := Bool(true)])));
  }

  /** Selecting a tenant the user does not belong to never writes the cookie, whatever
      the request asks for. */
  lemma NoCookieWithoutMembership(userId: string, tenantId: string, body: Option<Value>,
                                  memberships: seq<Row>, isProduction: bool)
    requires RequestedTenant(body) == Some(Str(tenantId))
    requires forall m | m in memberships :: !IsMembership(m, userId, tenantId)
    ensures Select(Some(userId), body, memberships, isProduction).1.None?
    ensures userId != "" && tenantId != "" ==>
      Select(Some(userId), body, memberships, isProduction).0.reply.status == 403
  {
  }

  /** The route reads the body without validating it: a `tenantId` that is a filter
      object matching every tenant (`{"tenantId": {"contains": ""}}`) finds any membership
      of the user, answers 200 and writes the cookie with the object's printed text. */
  lemma FilterObjectSelects(userId: string, memberships: seq<Row>, isProduction: bool, m: Row)
    requires userId != "" && m in memberships
    requires FieldOf(m, "userId") == Str(userId) && FieldOf(m, "tenantId").Str?
    ensures var body := Some(Obj(map["tenantId" := Obj(map["contains" := Str("")])]));
      Select(Some(userId), body, memberships, isProduction)
      == (Answered(Reply(200, Obj(map["ok" := Bool(true)]))), Some(Cookie("[object Object]", SelectionOptions(isProduction))))
  {
    var t := Obj(map["contains" := Str("")]);
    var w := SelectFilter(userId, t);
    assert Includes(FieldOf(m, "tenantId").s, "") by {
      assert OccursAt(FieldOf(m, "tenantId").s, "", 0);
    }
    assert t.fields.Keys == {"contains"};
    assert w.fields.Keys == {"userId", "tenantId"};
    assert EvalKey("tenantId", t, m);
    assert Eval(w, m);
  }
}
