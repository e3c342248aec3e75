/** What the admin routes share: the session requirement and the actor's membership
    in the current tenant, read through the unguarded system client. */
module RouteAuth {
  import opened Common
  import opened Json
  import opened Table
  import Schemas
  import RouteWrappers

  /** The error `requireSession` throws when the session has no user id. */
  const Unauthorized := Obj(map["message" := Str("Unauthorized")])

  /** The thrown `Error("Unauthorized")` of a request without a signed-in user. */
  function NoSession(): RouteWrappers.Outcome {
    RouteWrappers.Threw(RouteWrappers.Err(RouteWrappers.OtherErr, Unauthorized))
  }

  /** `requireSession` lets the request through: the session has a user id. */
  predicate SignedIn(userId: Option<string>) {
    userId.Some? && userId.value != ""
  }

  /** `{ userId, tenantId }`. */
  function MemberFilter(userId: string, tenantId: string): Value {
    Obj(map["userId" := Str(userId), "tenantId" := Str(tenantId)])
  }

  /** A membership row of `userId` in `tenantId`. */
  predicate IsMembership(r: Row, userId: string, tenantId: string) {
    FieldOf(r, "userId") == Str(userId) && FieldOf(r, "tenantId") == Str(tenantId)
  }

  lemma MemberFilterMeaning(userId: string, tenantId: string, r: Row)
    ensures Eval(MemberFilter(userId, tenantId), r) <==> IsMembership(r, userId, tenantId)
  {
    var w := MemberFilter(userId, tenantId);
    assert w.fields.Keys == {"userId", "tenantId"};
    assert EvalKey("userId", Str(userId), r) <==> FieldOf(r, "userId") == Str(userId);
    assert EvalKey("tenantId", Str(tenantId), r) <==> FieldOf(r, "tenantId") == Str(tenantId);
  }

  /** `systemDb.membership.findFirst({ where: { userId, tenantId } })`: the first
      membership of the user in the tenant, if any. */
  function FindMembership(memberships: seq<Row>, userId: string, tenantId: string): (r: Option<Row>)
    ensures r.Some? ==> r.value in memberships && IsMembership(r.value, userId, tenantId)
    ensures r.None? <==> forall x | x in memberships :: !IsMembership(x, userId, tenantId)
  {
    var w := MemberFilter(userId, tenantId);
    var i := FirstIndex(memberships, w);
    if i < |memberships| then
      MemberFilterMeaning(userId, tenantId, memberships[i]);
      Some(memberships[i])
    else
      assert forall x | x in memberships :: !IsMembership(x, userId, tenantId) by {
        forall x | x in memberships ensures !IsMembership(x, userId, tenantId) {
          var j :| 0 <= j < |memberships| && memberships[j] == x;
          MemberFilterMeaning(userId, tenantId, x);
        }
      }
      None
  }

  /** `me && me[flag]`: the membership exists and the flag is truthy. */
  predicate Permits(me: Option<Row>, flag: string) {
    me.Some? && Truthy(FieldOf(me.value, flag))
  }

  /** `error.flatten()` of a failed validation, as far as the model keeps it: one entry per
      failing top-level key under `fieldErrors`, and the form-level issues under
      `formErrors`. Messages are not modelled. */
  function Issues(errors: set<string>): (v: Value)
    ensures v.Obj? && v.fields.Keys == {"formErrors", "fieldErrors"}
    ensures v.fields["formErrors"] == Arr(if Schemas.FormLevel in errors then [Str("invalid")] else [])
    ensures v.fields["fieldErrors"].Obj? && v.fields["fieldErrors"].fields.Keys == errors - {Schemas.FormLevel}
  {
    var fieldErrors := map k | k in errors - {Schemas.FormLevel} :: Arr([Str("invalid")]);
    Obj(map["formErrors" := Arr(if Schemas.FormLevel in errors then [Str("invalid")] else []),
            "fieldErrors" := Obj(fieldErrors)])
  }
}
