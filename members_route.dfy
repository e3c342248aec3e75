/** `/api/admin/members`: the listing of the current tenant's members, and attaching an
    existing user to the tenant, which is idempotent, rate-limited per user and audited. */
module MembersRoute {
  import opened Common
  import opened Json
  import opened Requests
  import opened Table
  import opened TenantGuard
  import opened RouteAuth
  import RouteWrappers
  import Http
  import opened PrismaErrors
  import opened Audit
  import opened Idempotency
  import opened RateLimit
  import Schemas

  // ---------------------------------------------------------------------------
  // Users and memberships

  /** `{ email }`. */
  function EmailFilter(email: string): Value {
    Obj(map["email" := Str(email)])
  }

  lemma EmailFilterMeaning(email: string, r: Row)
    ensures Eval(EmailFilter(email), r) <==> FieldOf(r, "email") == Str(email)
  {
    assert EmailFilter(email).fields.Keys == {"email"};
    assert EvalKey("email", Str(email), r) <==> FieldOf(r, "email") == Str(email);
  }

  /** `systemDb.user.findUnique({ where: { email } })`. */
  function FindUser(users: seq<Row>, email: string): (u: Option<Row>)
    ensures u.Some? ==> u.value in users && FieldOf(u.value, "email") == Str(email)
    ensures u.None? <==> forall x | x in users :: FieldOf(x, "email") != Str(email)
  {
    var i := FirstIndex(users, EmailFilter(email));
    if i < |users| then
      EmailFilterMeaning(email, users[i]);
      Some(users[i])
    else
      assert forall x | x in users :: FieldOf(x, "email") != Str(email) by {
        forall x | x in users ensures FieldOf(x, "email") != Str(email) {
          var j :| 0 <= j < |users| && users[j] == x;
          EmailFilterMeaning(email, x);
        }
      }
      None
  }

  /** A user as `select: { id, email, name }` returns it. */
  function UserView(u: Row): (v: Value)
    ensures v.Obj? && v.fields.Keys == {"id", "email", "name"}
    ensures forall k | k in v.fields :: v.fields[k] == FieldOf(u, k)
  {
    Obj(map["id" := FieldOf(u, "id"), "email" := FieldOf(u, "email"), "name" := FieldOf(u, "name")])
  }

  /** The `user` relation of a membership: the user whose id the membership holds, `null`
      when there is none. */
  function UserOf(users: seq<Row>, id: Value): (v: Value)
    ensures v != Null ==> exists u | u in users :: FieldOf(u, "id") == id && v == UserView(u)
    ensures v == Null <==> forall u | u in users :: FieldOf(u, "id") != id
  {
    if users == [] then Null
    else if FieldOf(users[0], "id") == id then UserView(users[0])
    else
      var v := UserOf(users[1..], id);
      assert forall u | u in users[1..] :: u in users;
      assert forall u | u in users && u != users[0] :: u in users[1..];
      v
  }

  /** `!!b` of an optional boolean. */
  function Flag(b: Option<bool>): bool {
    b.Some? && b.value
  }

  /** The `data` of the membership insert. */
  function MembershipData(userId: Value, tenantId: string, caps: Schemas.Caps): Value {
    Obj(map[
      "userId" := userId, "tenantId" := Str(tenantId),
      "isOwner" := Bool(Flag(caps.isOwner)),
      "canManageMembers" := Bool(Flag(caps.canManageMembers)),
      "canManageProducts" := Bool(Flag(caps.canManageProducts)),
      "canViewProducts" := Bool(if caps.canViewProducts.Some? then caps.canViewProducts.value else true)])
  }

  /** The membership row the insert adds. */
  function NewMembership(userId: Value, tenantId: string, caps: Schemas.Caps, freshId: string): Row {
    RowOf(MembershipData(userId, tenantId, caps), freshId)
  }

  /** The new membership belongs to the tenant and the user; a management flag is set only
      when the request sets it to true, and viewing products is allowed unless the request
      turns it off. */
  lemma NewMembershipFields(userId: Value, tenantId: string, caps: Schemas.Caps, freshId: string)
    ensures var m := NewMembership(userId, tenantId, caps, freshId);
      && OwnedBy(m, tenantId) && FieldOf(m, "userId") == userId && FieldOf(m, "id") == Str(freshId)
      && FieldOf(m, "isOwner") == Bool(caps.isOwner == Some(true))
      && FieldOf(m, "canManageMembers") == Bool(caps.canManageMembers == Some(true))
      && FieldOf(m, "canManageProducts") == Bool(caps.canManageProducts == Some(true))
      && FieldOf(m, "canViewProducts") == Bool(caps.canViewProducts != Some(false))
  {
    var d := MembershipData(userId, tenantId, caps);
    var f := d.fields;
    assert "tenant" !in f && "id" !in f;
    assert RelationTenant(d) == None;
    assert Written(d) == f by {
      assert Entries(d) - {"tenant"} == f;
    }
    assert NewMembership(userId, tenantId, caps, freshId).fields == f["id" := Str(freshId)];
  }

  /** The unique index on (userId, tenantId) already holds a row for the pair. */
  predicate AlreadyMember(memberships: seq<Row>, userId: Value, tenantId: string) {
    exists m | m in memberships :: FieldOf(m, "userId") == userId && OwnedBy(m, tenantId)
  }

  /** The constraint names the route recognises. */
  const MemberConstraint: seq<string> := ["userId", "tenantId", "userId_tenantId"]

  /** The error the insert raises for a second membership of the same user in the tenant. */
  function MemberConflict(): Value {
    UniqueError(["userId", "tenantId"])
  }

  lemma MemberConflictRecognised()
    ensures IsUniqueViolation(MemberConflict(), Some(MemberConstraint))
  {
    LeadingTargetRecognised(["userId", "tenantId"], MemberConstraint);
  }

  /** The `caps` object of a membership. */
  function CapsView(m: Row): Value {
    Obj(map[
      "isOwner" := FieldOf(m, "isOwner"), "canManageMembers" := FieldOf(m, "canManageMembers"),
      "canManageProducts" := FieldOf(m, "canManageProducts"), "canViewProducts" := FieldOf(m, "canViewProducts")])
  }

  /** One entry of the listing, and the shape of `apiData`. */
  function MemberView(m: Row, user: Value): (v: Value)
    ensures v.Obj? && v.fields.Keys == {"membershipId", "userId", "user", "caps", "createdAt", "updatedAt", "version"}
    ensures v.fields["membershipId"] == FieldOf(m, "id") && v.fields["user"] == user
  {
    Obj(map[
      "membershipId" := FieldOf(m, "id"), "userId" := FieldOf(m, "userId"), "user" := user,
      "caps" := CapsView(m), "createdAt" := FieldOf(m, "createdAt"), "updatedAt" := FieldOf(m, "updatedAt"),
      "version" := FieldOf(m, "version")])
  }

  // ---------------------------------------------------------------------------
  // GET

  /** The listing query: no filter of its own. */
  const ListArgs := Args(Undef, Undef, Undef, Undef)

  /** The rows `db.membership.findMany` answers through the tenant guard: exactly the
      tenant's memberships. */
  function ListedMembers(memberships: seq<Row>, tenantId: string): (rows: seq<Row>)
    ensures forall x | x in rows :: x in memberships && OwnedBy(x, tenantId)
    ensures forall x | x in memberships && OwnedBy(x, tenantId) :: x in rows
  {
    var w := WithTenant(Undef, tenantId);
    assert Police("Membership", "findMany", ListArgs, tenantId) == Ok(ListArgs.(where := w));
    var rows := AnswerRows(Execute(memberships, "Membership", "findMany", ListArgs, tenantId, "").0);
    assert rows == Filter(memberships, w);
    assert forall x :: Eval(w, x) <==> OwnedBy(x, tenantId) by {
      forall x ensures Eval(w, x) <==> OwnedBy(x, tenantId) {
        WithTenantMeaning(Undef, tenantId, x);
      }
    }
    FilterMembers(memberships, w);
    rows
  }

  function MemberViews(rows: seq<Row>, users: seq<Row>): (vs: seq<Value>)
    ensures |vs| == |rows| && forall i | 0 <= i < |rows| :: vs[i] == MemberView(rows[i], UserOf(users, FieldOf(rows[i], "userId")))
  {
    seq(|rows|, i requires 0 <= i < |rows| => MemberView(rows[i], UserOf(users, FieldOf(rows[i], "userId"))))
  }

  /** The `GET` handler. `userId` is the session's user id, `tenantId` the current tenant and
      `generated` the id `fail`/`ok` would generate. */
  function MembersGet(userId: Option<string>, tenantId: string, memberships: seq<Row>, users: seq<Row>,
                      req: Request, generated: string): (out: RouteWrappers.Outcome)
    ensures !SignedIn(userId) ==> out == NoSession()
    ensures SignedIn(userId) && !Permits(FindMembership(memberships, userId.value, tenantId), "canManageMembers") ==>
      out == RouteWrappers.Returned(Http.Fail(403, "Forbidden", map[], Some(req), None, generated))
    ensures out.Returned? && out.res.status == 200 ==>
      && SignedIn(userId) && Permits(FindMembership(memberships, userId.value, tenantId), "canManageMembers")
      && out.res == Http.Ok(Obj(map["data" := Arr(MemberViews(ListedMembers(memberships, tenantId), users))]),
                            Http.Status(200), Some(req), generated)
    ensures SignedIn(userId) && Permits(FindMembership(memberships, userId.value, tenantId), "canManageMembers") ==>
      out == RouteWrappers.Returned(Http.Ok(Obj(map["data" := Arr(MemberViews(ListedMembers(memberships, tenantId), users))]),
                                            Http.Status(200), Some(req), generated))
  {
    if !SignedIn(userId) then NoSession()
    else if !Permits(FindMembership(memberships, userId.value, tenantId), "canManageMembers") then
      RouteWrappers.Returned(Http.Fail(403, "Forbidden", map[], Some(req), None, generated))
    else
      var data := Obj(map["data" := Arr(MemberViews(ListedMembers(memberships, tenantId), users))]);
      RouteWrappers.Returned(Http.Ok(data, Http.Status(200), Some(req), generated))
  }

  /** Every entry of a 200 listing is one of the tenant's memberships, and every membership of
      the tenant is listed: another tenant's member never appears. */
  lemma ListingIsTenantsMembers(userId: Option<string>, tenantId: string, memberships: seq<Row>, users: seq<Row>,
                                req: Request, generated: string, i: nat)
    requires var out := MembersGet(userId, tenantId, memberships, users, req, generated);
      out.Returned? && out.res.status == 200
    ensures var items := MemberViews(ListedMembers(memberships, tenantId), users);
      i < |items| ==> exists m | m in memberships && OwnedBy(m, tenantId) ::
        items[i] == MemberView(m, UserOf(users, FieldOf(m, "userId")))
    ensures forall m | m in memberships && OwnedBy(m, tenantId) ::
      MemberView(m, UserOf(users, FieldOf(m, "userId"))) in MemberViews(ListedMembers(memberships, tenantId), users)
  {
    var rows := ListedMembers(memberships, tenantId);
    var items := MemberViews(rows, users);
    if i < |items| {
      assert rows[i] in memberships && OwnedBy(rows[i], tenantId);
    }
    forall m | m in memberships && OwnedBy(m, tenantId)
      ensures MemberView(m, UserOf(users, FieldOf(m, "userId"))) in items
    {
      var j :| 0 <= j < |rows| && rows[j] == m;
      assert items[j] == MemberView(m, UserOf(users, FieldOf(m, "userId")));
    }
  }

  // ---------------------------------------------------------------------------
  // POST

  /** The tables the handler touches: idempotency rows, the limiter's buckets, memberships and
      audit rows. */
  datatype Tables = Tables(keys: seq<Record>, buckets: map<string, Bucket>, memberships: seq<Row>, auditLog: seq<Row>)

  /** What the model takes as given: the clock, the rows other requests insert while the
      reservation runs and whether its insert fails, `RL_MUTATION_PER_USER_PER_MIN`, zod's
      e-mail check, the generated ids, a failing audit insert and the id `ok`/`fail` would
      generate. */
  datatype Given = Given(now: int, raced: seq<Record>, reserveFails: bool, limitEnv: Option<int>,
                         isEmail: string -> bool, membershipId: string, auditFails: bool, auditId: string,
                         generated: string)

  /** `Number(RL_MUTATION_PER_USER_PER_MIN || 60)`: unset or empty means 60. */
  function MutationLimit(limitEnv: Option<int>): int {
    if limitEnv.Some? then limitEnv.value else 60
  }

  const MutationWindowMs := 60_000

  /** The limiter key of a user's mutations. */
  function MutationKey(userId: string): string {
    "mut:user:" + userId
  }

  /** The error `getIdempotencyKey` throws for a key over 200 characters. */
  const KeyTooLong := Obj(map["message" := Str("Idempotency-Key too long")])

  /** The record `writeAudit` receives after the insert. */
  function MembershipAudit(tenantId: string, userId: string, created: Row, req: Request): (a: AuditInput)
    ensures a.tenantId == tenantId && a.userId == Some(userId) && a.action == "MEMBERSHIP_CREATE"
    ensures a.entityType == Some("Membership")
  {
    var after := Obj(map["id" := FieldOf(created, "id"), "userId" := FieldOf(created, "userId"),
                         "caps" := CapsView(created)]);
    AuditInput(tenantId, Some(userId), "MEMBERSHIP_CREATE", Some("Membership"),
               if FieldOf(created, "id").Str? then Some(FieldOf(created, "id").s) else None,
               Obj(map["after" := after]), req)
  }

  /** A 4xx answer of the handler. */
  function Rejected(status: int, error: string, extra: map<string, Value>, req: Request, generated: string)
    : (out: RouteWrappers.Outcome)
    ensures out.Returned? && out.res.status == status
  {
    RouteWrappers.Returned(Http.Fail(status, error, extra, Some(req), None, generated))
  }

  /** The handler after the reservation and the limiter let the request through: the
      permission, the body, the owner rule and the user are checked in that order, then the
      membership is inserted, the audit row written and, in `Reserved` mode, the answer
      stored under the key. `t` holds the tables as the reservation and the limiter left them. */
  function Admit(userId: string, tenantId: string, req: Request, body: Value, users: seq<Row>,
                 reserve: ReserveOutcome, t: Tables, g: Given): (r: (RouteWrappers.Outcome, Tables))
    ensures var me := FindMembership(t.memberships, userId, tenantId);
      !Permits(me, "canManageMembers") ==> r == (Rejected(403, "Forbidden", map[], req, g.generated), t)
    ensures var me := FindMembership(t.memberships, userId, tenantId);
      var parsed := Schemas.ParseMemberCreate(body, g.isEmail);
      Permits(me, "canManageMembers") && parsed.Invalid? ==>
        r == (Rejected(422, "Invalid input", map["issues" := Issues(parsed.errors)], req, g.generated), t)
    ensures var me := FindMembership(t.memberships, userId, tenantId);
      var parsed := Schemas.ParseMemberCreate(body, g.isEmail);
      Permits(me, "canManageMembers") && parsed.Valid? && parsed.value.caps.isOwner == Some(true)
        && !Truthy(FieldOf(me.value, "isOwner")) ==>
        r == (Rejected(403, "Only owners can set isOwner", map[], req, g.generated), t)
    ensures var me := FindMembership(t.memberships, userId, tenantId);
      var parsed := Schemas.ParseMemberCreate(body, g.isEmail);
      (Permits(me, "canManageMembers") && parsed.Valid?
       && !(parsed.value.caps.isOwner == Some(true) && !Truthy(FieldOf(me.value, "isOwner")))
       && FindUser(users, parsed.value.email).None?) ==>
        r == (Rejected(404, "User not found", map[], req, g.generated), t)
    ensures var me := FindMembership(t.memberships, userId, tenantId);
      var parsed := Schemas.ParseMemberCreate(body, g.isEmail);
      (Permits(me, "canManageMembers") && parsed.Valid?
       && !(parsed.value.caps.isOwner == Some(true) && !Truthy(FieldOf(me.value, "isOwner")))
       && FindUser(users, parsed.value.email).Some?
       && AlreadyMember(t.memberships, FieldOf(FindUser(users, parsed.value.email).value, "id"), tenantId)) ==>
        r == (Rejected(409, "User is already a member of this tenant", map[], req, g.generated), t)
    ensures r.0.Returned? ==> r.0.res.status in {403, 422, 404, 409, 201}
    ensures !(r.0.Returned? && r.0.res.status == 201) ==> r.1 == t
    ensures r.0.Returned? && r.0.res.status == 201 ==>
      var me := FindMembership(t.memberships, userId, tenantId);
      var parsed := Schemas.ParseMemberCreate(body, g.isEmail);
      && Permits(me, "canManageMembers") && parsed.Valid?
      && !(parsed.value.caps.isOwner == Some(true) && !Truthy(FieldOf(me.value, "isOwner")))
      && FindUser(users, parsed.value.email).Some?
      && var user := FindUser(users, parsed.value.email).value;
         var created := NewMembership(FieldOf(user, "id"), tenantId, parsed.value.caps, g.membershipId);
         var data := MemberView(created, UserView(user));
         && !AlreadyMember(t.memberships, FieldOf(user, "id"), tenantId)
         && r.0.res == Http.Ok(data, Http.Status(201), Some(req), g.generated)
         && r.1.memberships == t.memberships + [created]
         && r.1.auditLog == (if g.auditFails then t.auditLog
                             else Inserted(System, t.auditLog, MembershipAudit(tenantId, userId, created, req), g.auditId))
         && r.1.buckets == t.buckets
         && r.1.keys == if reserve.Reserved? then Persist(t.keys, reserve.fp, 201, data) else t.keys
  {
    var me := FindMembership(t.memberships, userId, tenantId);
    if !Permits(me, "canManageMembers") then (Rejected(403, "Forbidden", map[], req, g.generated), t)
    else
      var parsed := Schemas.ParseMemberCreate(body, g.isEmail);
      if parsed.Invalid? then
        (Rejected(422, "Invalid input", map["issues" := Issues(parsed.errors)], req, g.generated), t)
      else if parsed.value.caps.isOwner == Some(true) && !Truthy(FieldOf(me.value, "isOwner")) then
        (Rejected(403, "Only owners can set isOwner", map[], req, g.generated), t)
      else
        var user := FindUser(users, parsed.value.email);
        if user.None? then (Rejected(404, "User not found", map[], req, g.generated), t)
        else Insert(userId, tenantId, req, user.value, parsed.value.caps, reserve, t, g)
  }

  /** A permitted caller naming an existing user who is not yet a member, without granting
      ownership unless the caller is an owner, gets 201 with the new membership, which is
      appended together with its audit row (and the stored answer in `Reserved` mode). */
  lemma AdmitCommits(userId: string, tenantId: string, req: Request, body: Value, users: seq<Row>,
                     reserve: ReserveOutcome, t: Tables, g: Given)
    requires Permits(FindMembership(t.memberships, userId, tenantId), "canManageMembers")
    requires Schemas.ParseMemberCreate(body, g.isEmail).Valid?
    requires var caps := Schemas.ParseMemberCreate(body, g.isEmail).value.caps;
      caps.isOwner == Some(true) ==> Truthy(FieldOf(FindMembership(t.memberships, userId, tenantId).value, "isOwner"))
    requires FindUser(users, Schemas.ParseMemberCreate(body, g.isEmail).value.email).Some?
    requires !AlreadyMember(t.memberships,
                            FieldOf(FindUser(users, Schemas.ParseMemberCreate(body, g.isEmail).value.email).value, "id"),
                            tenantId)
    ensures var parsed := Schemas.ParseMemberCreate(body, g.isEmail).value;
      var user := FindUser(users, parsed.email).value;
      var created := NewMembership(FieldOf(user, "id"), tenantId, parsed.caps, g.membershipId);
      var data := MemberView(created, UserView(user));
      var r := Admit(userId, tenantId, req, body, users, reserve, t, g);
      && r.0 == RouteWrappers.Returned(Http.Ok(data, Http.Status(201), Some(req), g.generated))
      && r.1.memberships == t.memberships + [created]
      && r.1.auditLog == (if g.auditFails then t.auditLog
                          else Inserted(System, t.auditLog, MembershipAudit(tenantId, userId, created, req), g.auditId))
      && r.1.buckets == t.buckets
      && r.1.keys == if reserve.Reserved? then Persist(t.keys, reserve.fp, 201, data) else t.keys
  {
    var parsed := Schemas.ParseMemberCreate(body, g.isEmail).value;
    var user := FindUser(users, parsed.email).value;
    assert Admit(userId, tenantId, req, body, users, reserve, t, g)
        == Commit(userId, tenantId, req, user, parsed.caps, reserve, t, g);
  }

  /** The `try` block: the insert, refused by the unique index when the user is already a
      member (the `catch` answers 409), else committed. */
  function Insert(userId: string, tenantId: string, req: Request, user: Row, caps: Schemas.Caps,
                  reserve: ReserveOutcome, t: Tables, g: Given): (r: (RouteWrappers.Outcome, Tables))
    ensures AlreadyMember(t.memberships, FieldOf(user, "id"), tenantId) ==>
      r == (Rejected(409, "User is already a member of this tenant", map[], req, g.generated), t)
    ensures !AlreadyMember(t.memberships, FieldOf(user, "id"), tenantId) ==>
      r == Commit(userId, tenantId, req, user, caps, reserve, t, g)
  {
    if AlreadyMember(t.memberships, FieldOf(user, "id"), tenantId) then
      MemberConflictRecognised();
      if IsUniqueViolation(MemberConflict(), Some(MemberConstraint)) then
        (Rejected(409, "User is already a member of this tenant", map[], req, g.generated), t)
      else (RouteWrappers.Threw(RouteWrappers.Err(RouteWrappers.OtherErr, MemberConflict())), t)
    else Commit(userId, tenantId, req, user, caps, reserve, t, g)
  }

  /** The insert, the audit row and, in `Reserved` mode, the stored answer; answers 201. */
  function Commit(userId: string, tenantId: string, req: Request, user: Row, caps: Schemas.Caps,
                  reserve: ReserveOutcome, t: Tables, g: Given): (r: (RouteWrappers.Outcome, Tables))
    ensures var created := NewMembership(FieldOf(user, "id"), tenantId, caps, g.membershipId);
      var data := MemberView(created, UserView(user));
      && r.0 == RouteWrappers.Returned(Http.Ok(data, Http.Status(201), Some(req), g.generated))
      && r.0.res.status == 201
      && r.1 == Tables(if reserve.Reserved? then Persist(t.keys, reserve.fp, 201, data) else t.keys, t.buckets,
                       t.memberships + [created],
                       if g.auditFails then t.auditLog
                       else Inserted(System, t.auditLog, MembershipAudit(tenantId, userId, created, req), g.auditId))
  {
    var created := NewMembership(FieldOf(user, "id"), tenantId, caps, g.membershipId);
    var data := MemberView(created, UserView(user));
    var auditLog := if g.auditFails then t.auditLog
                    else Inserted(System, t.auditLog, MembershipAudit(tenantId, userId, created, req), g.auditId);
    var keys := if reserve.Reserved? then Persist(t.keys, reserve.fp, 201, data) else t.keys;
    (RouteWrappers.Returned(Http.Ok(data, Http.Status(201), Some(req), g.generated)),
     Tables(keys, t.buckets, t.memberships + [created], auditLog))
  }

  /** The `POST` handler: the session, the reservation, the per-user limiter, then `Admit`. */
  function Attach(userId: Option<string>, tenantId: string, req: Request, body: Value, users: seq<Row>,
                  t: Tables, g: Given): (r: (RouteWrappers.Outcome, Tables))
    ensures !SignedIn(userId) ==> r == (NoSession(), t)
    ensures SignedIn(userId) ==>
      var (reserve, keys) := Reserve(t.keys, req, Some(userId.value), Some(tenantId), g.now, g.raced, g.reserveFails);
      && (reserve.TooLong? ==> r == (RouteWrappers.Threw(RouteWrappers.Err(RouteWrappers.OtherErr, KeyTooLong)), t))
      && (reserve.Replay? ==>
            r == (RouteWrappers.Returned(Http.Ok(reserve.response, Http.Status(201), Some(req), g.generated)),
                  t.(keys := keys)))
      && (reserve.InProgress? ==>
            r == (Rejected(409, "Request already in progress", map[], req, g.generated), t.(keys := keys)))
    ensures SignedIn(userId) ==>
      var (reserve, keys) := Reserve(t.keys, req, Some(userId.value), Some(tenantId), g.now, g.raced, g.reserveFails);
      (reserve.NotRequested? || reserve.Reserved?) ==>
        r == Limited(userId.value, tenantId, req, body, users, reserve, t.(keys := keys), g)
  {
    if !SignedIn(userId) then (NoSession(), t)
    else
      var uid := userId.value;
      var (reserve, keys) := Reserve(t.keys, req, Some(uid), Some(tenantId), g.now, g.raced, g.reserveFails);
      Answer(uid, tenantId, req, body, users, reserve, t.(keys := keys), g)
  }

  /** What the handler does with the reservation's outcome; `t` holds the tables as the
      reservation left them. */
  function Answer(uid: string, tenantId: string, req: Request, body: Value, users: seq<Row>,
                  reserve: ReserveOutcome, t: Tables, g: Given): (r: (RouteWrappers.Outcome, Tables))
  {
    if reserve.TooLong? then (RouteWrappers.Threw(RouteWrappers.Err(RouteWrappers.OtherErr, KeyTooLong)), t)
    else if reserve.Replay? then
      (RouteWrappers.Returned(Http.Ok(reserve.response, Http.Status(201), Some(req), g.generated)), t)
    else if reserve.InProgress? then
      (Rejected(409, "Request already in progress", map[], req, g.generated), t)
    else Limited(uid, tenantId, req, body, users, reserve, t, g)
  }

  /** The per-user mutation limiter, then `Admit`: a refused call answers 429 and keeps only
      the limiter's update. */
  function Limited(uid: string, tenantId: string, req: Request, body: Value, users: seq<Row>,
                   reserve: ReserveOutcome, t: Tables, g: Given): (r: (RouteWrappers.Outcome, Tables))
    ensures var (stats, buckets) := Hit(t.buckets, MutationKey(uid), MutationLimit(g.limitEnv), MutationWindowMs, g.now);
      && (!stats.ok ==>
            r == (RouteWrappers.Returned(RouteWrappers.TooManyRequests(stats, req, g.generated)), t.(buckets := buckets)))
      && (stats.ok ==> r == Admit(uid, tenantId, req, body, users, reserve, t.(buckets := buckets), g))
      && (!stats.ok ==> r.0.Returned? && r.0.res.status == 429)
  {
    var (stats, buckets) := Hit(t.buckets, MutationKey(uid), MutationLimit(g.limitEnv), MutationWindowMs, g.now);
    if !stats.ok then
      (RouteWrappers.Returned(RouteWrappers.TooManyRequests(stats, req, g.generated)), t.(buckets := buckets))
    else Admit(uid, tenantId, req, body, users, reserve, t.(buckets := buckets), g)
  }

  /** The unguarded system client's membership and audit tables. */
  class SystemDb {
    var memberships: seq<Row>
    var auditLog: seq<Row>

    constructor (memberships: seq<Row>, auditLog: seq<Row>)
      ensures this.memberships == memberships && this.auditLog == auditLog
    {
      this.memberships := memberships;
      this.auditLog := auditLog;
    }

    /** `systemDb.membership.create`: the unique index on (userId, tenantId) refuses a second
        membership of the user in the tenant, and then nothing is written. */
    method CreateMembership(userId: Value, tenantId: string, caps: Schemas.Caps, freshId: string)
      returns (created: Option<Row>)
      modifies this
      ensures created.None? <==> AlreadyMember(old(memberships), userId, tenantId)
      ensures created.None? ==> memberships == old(memberships)
      ensures created.Some? ==>
        && created.value == NewMembership(userId, tenantId, caps, freshId)
        && memberships == old(memberships) + [created.value]
      ensures auditLog == old(auditLog)
    {
      if AlreadyMember(memberships, userId, tenantId) {
        return None;
      }
      var row := Run(memberships, "create", Args(Undef, MembershipData(userId, tenantId, caps), Undef, Undef), freshId);
      assert row.1 == memberships + [NewMembership(userId, tenantId, caps, freshId)];
      memberships := row.1;
      created := Some(NewMembership(userId, tenantId, caps, freshId));
    }

    /** `writeAudit(systemDb, input)`. */
    method Audit(input: AuditInput, insertFails: bool, freshId: string)
      modifies this
      ensures auditLog == if insertFails then old(auditLog) else Inserted(System, old(auditLog), input, freshId)
      ensures memberships == old(memberships)
    {
      auditLog := WriteAudit(System, auditLog, input, insertFails, freshId);
    }
  }

  /** The `POST` handler on the idempotency table, the limiter and the system client, in
      the order the route runs them. */
  method MembersPost(store: IdempotencyStore, limiter: RateLimiter, db: SystemDb, userId: Option<string>,
                     tenantId: string, req: Request, body: Value, users: seq<Row>, g: Given)
    returns (out: RouteWrappers.Outcome)
    modifies store, limiter, db
    ensures (out, Tables(store.rows, limiter.store, db.memberships, db.auditLog))
      == Attach(userId, tenantId, req, body, users,
                Tables(old(store.rows), old(limiter.store), old(db.memberships), old(db.auditLog)), g)
  {
    if !SignedIn(userId) {
      return NoSession();
    }
    var uid := userId.value;
    var reserve := store.ReserveIdempotency(req, Some(uid), Some(tenantId), g.now, g.raced, g.reserveFails);
    out := MembersAnswer(store, limiter, db, uid, tenantId, req, body, users, reserve, g);
  }

  /** The handler once the reservation has answered. */
  method MembersAnswer(store: IdempotencyStore, limiter: RateLimiter, db: SystemDb, uid: string, tenantId: string,
                       req: Request, body: Value, users: seq<Row>, reserve: ReserveOutcome, g: Given)
    returns (out: RouteWrappers.Outcome)
    modifies store, limiter, db
    ensures (out, Tables(store.rows, limiter.store, db.memberships, db.auditLog))
      == Answer(uid, tenantId, req, body, users, reserve,
                Tables(old(store.rows), old(limiter.store), old(db.memberships), old(db.auditLog)), g)
  {
    if reserve.TooLong? {
      return RouteWrappers.Threw(RouteWrappers.Err(RouteWrappers.OtherErr, KeyTooLong));
    }
    if reserve.Replay? {
      return RouteWrappers.Returned(Http.Ok(reserve.response, Http.Status(201), Some(req), g.generated));
    }
    if reserve.InProgress? {
      return Rejected(409, "Request already in progress", map[], req, g.generated);
    }
    out := MembersLimited(store, limiter, db, uid, tenantId, req, body, users, reserve, g);
  }

  /** The handler once the reservation lets the request through: the limiter, then `Admit`. */
  method MembersLimited(store: IdempotencyStore, limiter: RateLimiter, db: SystemDb, uid: string, tenantId: string,
                        req: Request, body: Value, users: seq<Row>, reserve: ReserveOutcome, g: Given)
    returns (out: RouteWrappers.Outcome)
    modifies store, limiter, db
    ensures (out, Tables(store.rows, limiter.store, db.memberships, db.auditLog))
      == Limited(uid, tenantId, req, body, users, reserve,
                 Tables(old(store.rows), old(limiter.store), old(db.memberships), old(db.auditLog)), g)
  {
    var stats := limiter.RateLimitFixedWindow(MutationKey(uid), MutationLimit(g.limitEnv), MutationWindowMs, g.now);
    if !stats.ok {
      return RouteWrappers.Returned(RouteWrappers.TooManyRequests(stats, req, g.generated));
    }
    out := MembersAdmit(store, limiter, db, uid, tenantId, req, body, users, reserve, g);
  }

  /** The handler once the reservation and the limiter let the request through. */
  method MembersAdmit(store: IdempotencyStore, limiter: RateLimiter, db: SystemDb, uid: string, tenantId: string,
                      req: Request, body: Value, users: seq<Row>, reserve: ReserveOutcome, g: Given)
    returns (out: RouteWrappers.Outcome)
    modifies store, db
    ensures (out, Tables(store.rows, limiter.store, db.memberships, db.auditLog))
      == Admit(uid, tenantId, req, body, users, reserve,
               Tables(old(store.rows), limiter.store, old(db.memberships), old(db.auditLog)), g)
  {
    var me := FindMembership(db.memberships, uid, tenantId);
    if !Permits(me, "canManageMembers") {
      return Rejected(403, "Forbidden", map[], req, g.generated);
    }
    var parsed := Schemas.ParseMemberCreate(body, g.isEmail);
    if parsed.Invalid? {
      return Rejected(422, "Invalid input", map["issues" := Issues(parsed.errors)], req, g.generated);
    }
    var caps := parsed.value.caps;
    if caps.isOwner == Some(true) && !Truthy(FieldOf(me.value, "isOwner")) {
      return Rejected(403, "Only owners can set isOwner", map[], req, g.generated);
    }
    var user := FindUser(users, parsed.value.email);
    if user.None? {
      return Rejected(404, "User not found", map[], req, g.generated);
    }
    out := MembersInsert(store, limiter, db, uid, tenantId, req, user.value, caps, reserve, g);
  }

  /** The `try` block on the system client and the idempotency table. */
  method MembersInsert(store: IdempotencyStore, limiter: RateLimiter, db: SystemDb, uid: string, tenantId: string,
                       req: Request, user: Row, caps: Schemas.Caps, reserve: ReserveOutcome, g: Given)
    returns (out: RouteWrappers.Outcome)
    modifies store, db
    ensures (out, Tables(store.rows, limiter.store, db.memberships, db.auditLog))
      == Insert(uid, tenantId, req, user, caps, reserve,
                Tables(old(store.rows), limiter.store, old(db.memberships), old(db.auditLog)), g)
  {
    ghost var t0 := Tables(store.rows, limiter.store, db.memberships, db.auditLog);
    var created := db.CreateMembership(FieldOf(user, "id"), tenantId, caps, g.membershipId);
    if created.None? {
      var e := MemberConflict();
      if IsUniqueViolation(e, Some(MemberConstraint)) {
        return Rejected(409, "User is already a member of this tenant", map[], req, g.generated);
      }
      return RouteWrappers.Threw(RouteWrappers.Err(RouteWrappers.OtherErr, e));
    }
    ghost var row := NewMembership(FieldOf(user, "id"), tenantId, caps, g.membershipId);
    assert created.value == row;
    var input := MembershipAudit(tenantId, uid, created.value, req);
    db.Audit(input, g.auditFails, g.auditId);
    var data := MemberView(created.value, UserView(user));
    if reserve.Reserved? {
      store.PersistIdempotentSuccess(reserve.fp, 201, data);
    }
    out := RouteWrappers.Returned(Http.Ok(data, Http.Status(201), Some(req), g.generated));
    ghost var c := Commit(uid, tenantId, req, user, caps, reserve, t0, g);
    assert c.0 == out;
    assert c.1 == Tables(store.rows, limiter.store, db.memberships, db.auditLog);
  }

  /** A retry of a request that created a membership under a reserved key (same key, method,
      path, user and tenant) replays the stored data with 201 and touches nothing: no second
      membership, no audit row, no limiter hit. */
  lemma RetryReplaysCreation(userId: string, tenantId: string, req: Request, again: Request, body: Value,
                             body2: Value, users: seq<Row>, users2: seq<Row>, t: Tables, g: Given, g2: Given)
    returns (data: Value)
    requires userId != ""
    requires Reserve(t.keys, req, Some(userId), Some(tenantId), g.now, g.raced, g.reserveFails).0.Reserved?
    requires var r := Attach(Some(userId), tenantId, req, body, users, t, g); r.0.Returned? && r.0.res.status == 201
    requires again.headers == req.headers && ToUpper(again.verb) == ToUpper(req.verb)
    requires again.url.pathname == req.url.pathname
    ensures var r := Attach(Some(userId), tenantId, req, body, users, t, g);
      r.0 == RouteWrappers.Returned(Http.Ok(data, Http.Status(201), Some(req), g.generated))
    ensures var r := Attach(Some(userId), tenantId, req, body, users, t, g);
      var r2 := Attach(Some(userId), tenantId, again, body2, users2, r.1, g2);
      r2 == (RouteWrappers.Returned(Http.Ok(data, Http.Status(201), Some(again), g2.generated)), r.1)
  {
    var (reserve, keys) := Reserve(t.keys, req, Some(userId), Some(tenantId), g.now, g.raced, g.reserveFails);
    var (stats, buckets) := Hit(t.buckets, MutationKey(userId), MutationLimit(g.limitEnv), MutationWindowMs, g.now);
    var t1 := t.(keys := keys, buckets := buckets);
    var r := Attach(Some(userId), tenantId, req, body, users, t, g);
    assert r == Limited(userId, tenantId, req, body, users, reserve, t.(keys := keys), g);
    assert stats.ok;
    data := AdmitStored(userId, tenantId, req, body, users, reserve, t1, g);
    ReplayAfterPersist(t.keys, req, again, Some(userId), Some(tenantId), g.now, g2.now, g.raced, g2.raced,
                       g2.reserveFails, 201, data);
    assert Reserve(r.1.keys, again, Some(userId), Some(tenantId), g2.now, g2.raced, g2.reserveFails)
      == (Replay(201, data), r.1.keys);
    ReplayAnswered(userId, tenantId, again, body2, users2, r.1, g2, data);
  }

  /** A request whose key holds a stored answer is answered with it, and nothing changes. */
  lemma ReplayAnswered(userId: string, tenantId: string, req: Request, body: Value, users: seq<Row>,
                       t: Tables, g: Given, data: Value)
    requires userId != ""
    requires Reserve(t.keys, req, Some(userId), Some(tenantId), g.now, g.raced, g.reserveFails) == (Replay(201, data), t.keys)
    ensures Attach(Some(userId), tenantId, req, body, users, t, g)
      == (RouteWrappers.Returned(Http.Ok(data, Http.Status(201), Some(req), g.generated)), t)
  {
  }

  /** A 201 from `Admit` under a reserved key answers with the data it stores under the key. */
  lemma AdmitStored(userId: string, tenantId: string, req: Request, body: Value, users: seq<Row>,
                    reserve: ReserveOutcome, t: Tables, g: Given)
    returns (data: Value)
    requires reserve.Reserved?
    requires var r := Admit(userId, tenantId, req, body, users, reserve, t, g); r.0.Returned? && r.0.res.status == 201
    ensures var r := Admit(userId, tenantId, req, body, users, reserve, t, g);
      r.0 == RouteWrappers.Returned(Http.Ok(data, Http.Status(201), Some(req), g.generated))
      && r.1.keys == Persist(t.keys, reserve.fp, 201, data)
  {
    var parsed := Schemas.ParseMemberCreate(body, g.isEmail);
    var user := FindUser(users, parsed.value.email).value;
    var created := NewMembership(FieldOf(user, "id"), tenantId, parsed.value.caps, g.membershipId);
    data := MemberView(created, UserView(user));
  }

  /** A request the limiter refuses after its key was reserved leaves the key pending: the
      same request sent again is told it is already in progress, and nothing is written. */
  lemma LimitedRequestStaysInProgress(userId: string, tenantId: string, req: Request, body: Value, body2: Value,
                                      users: seq<Row>, users2: seq<Row>, t: Tables, g: Given, g2: Given)
    requires userId != ""
    requires Reserve(t.keys, req, Some(userId), Some(tenantId), g.now, g.raced, g.reserveFails).0.Reserved?
    requires !Hit(t.buckets, MutationKey(userId), MutationLimit(g.limitEnv), MutationWindowMs, g.now).0.ok
    ensures var r := Attach(Some(userId), tenantId, req, body, users, t, g);
      r.1.memberships == t.memberships && r.1.auditLog == t.auditLog
      && Attach(Some(userId), tenantId, req, body2, users2, r.1, g2)
        == (Rejected(409, "Request already in progress", map[], req, g2.generated), r.1)
  {
    LimitedKeepsReservation(userId, tenantId, req, body, users, t, g);
    var t1 := Attach(Some(userId), tenantId, req, body, users, t, g).1;
    DuplicateWhilePending(t.keys, req, Some(userId), Some(tenantId), g.now, g2.now, g.raced, g2.raced, g2.reserveFails);
    assert Reserve(t1.keys, req, Some(userId), Some(tenantId), g2.now, g2.raced, g2.reserveFails).0.InProgress?;
  }

  /** A request the limiter refuses keeps the pending record its reservation
      added, and touches neither memberships nor the audit log. */
  lemma LimitedKeepsReservation(userId: string, tenantId: string, req: Request, body: Value,
                                users: seq<Row>, t: Tables, g: Given)
    requires userId != ""
    requires Reserve(t.keys, req, Some(userId), Some(tenantId), g.now, g.raced, g.reserveFails).0.Reserved?
    requires !Hit(t.buckets, MutationKey(userId), MutationLimit(g.limitEnv), MutationWindowMs, g.now).0.ok
    ensures var r := Attach(Some(userId), tenantId, req, body, users, t, g);
      r.0.Returned? && r.0.res.status == 429
      && r.1.keys == Reserve(t.keys, req, Some(userId), Some(tenantId), g.now, g.raced, g.reserveFails).1
      && r.1.memberships == t.memberships && r.1.auditLog == t.auditLog
  {
  }

  /** The audit row of a new membership is written through the system client, so it carries
      no tenant: the tenant's audit trail, read through the guard, never shows it. */
  lemma CreationAuditCarriesNoTenant(userId: string, tenantId: string, req: Request, body: Value, users: seq<Row>,
                                     t: Tables, g: Given)
    requires userId != ""
    ensures var r := Attach(Some(userId), tenantId, req, body, users, t, g);
      r.1.auditLog != t.auditLog ==>
        && |r.1.auditLog| == |t.auditLog| + 1 && r.1.auditLog[..|t.auditLog|] == t.auditLog
        && FieldOf(r.1.auditLog[|t.auditLog|], "tenantId") == Null
        && !OwnedBy(r.1.auditLog[|t.auditLog|], tenantId)
  {
    var (reserve, keys) := Reserve(t.keys, req, Some(userId), Some(tenantId), g.now, g.raced, g.reserveFails);
    var (stats, buckets) := Hit(t.buckets, MutationKey(userId), MutationLimit(g.limitEnv), MutationWindowMs, g.now);
    var t1 := t.(keys := keys);
    if reserve.NotRequested? || reserve.Reserved? {
      assert Attach(Some(userId), tenantId, req, body, users, t, g)
        == Limited(userId, tenantId, req, body, users, reserve, t1, g);
      if stats.ok {
        AdmitAuditUnowned(userId, tenantId, req, body, users, reserve, t1.(buckets := buckets), g);
      }
    }
  }

  /** The audit row `Admit` adds, if any, is appended and carries no tenant. */
  lemma AdmitAuditUnowned(userId: string, tenantId: string, req: Request, body: Value, users: seq<Row>,
                          reserve: ReserveOutcome, t: Tables, g: Given)
    ensures var r := Admit(userId, tenantId, req, body, users, reserve, t, g);
      r.1.auditLog != t.auditLog ==>
        && |r.1.auditLog| == |t.auditLog| + 1 && r.1.auditLog[..|t.auditLog|] == t.auditLog
        && FieldOf(r.1.auditLog[|t.auditLog|], "tenantId") == Null
        && !OwnedBy(r.1.auditLog[|t.auditLog|], tenantId)
  {
    var r := Admit(userId, tenantId, req, body, users, reserve, t, g);
    if r.1.auditLog != t.auditLog {
      var parsed := Schemas.ParseMemberCreate(body, g.isEmail);
      var user := FindUser(users, parsed.value.email).value;
      var created := NewMembership(FieldOf(user, "id"), tenantId, parsed.value.caps, g.membershipId);
      SystemAuditRowUnowned(MembershipAudit(tenantId, userId, created, req), t.auditLog, g.auditId);
    }
  }
}
