/** The tenant isolation guard: a Prisma query extension bound to one tenant id
    that rewrites or rejects every operation on a tenant-owned model before it
    reaches the database (src/lib/db/tenant-scoped.ts). */
module TenantGuard {
  import opened Common
  import opened Json
  import opened Table

  /** Models whose rows carry a `tenantId` and must always be scoped. */
  const TenantScopedModels: set<string> := {"Product", "Membership", "AuditLog"}

  const ErrPrefix: string := "[TenantGuard]"

  datatype GuardError =
    | TenantIdRequired
    | BothTenantIdAndRelation
    | RelationMismatch
    | TenantIdMismatch
    | UpsertNotTenantKeyed(model: string)
    | Disallowed(op: string, model: string)

  datatype Result<+T> = Ok(value: T) | Err(error: GuardError)

  /** The text of the thrown `Error`. */
  function Message(e: GuardError): (m: string)
    ensures ErrPrefix <= m
  {
    match e
    case TenantIdRequired => ErrPrefix + " tenantId required"
    case BothTenantIdAndRelation => ErrPrefix + " Provide either tenantId or tenant relation, not both"
    case RelationMismatch => ErrPrefix + " Data tenant.connect.id does not match context"
    case TenantIdMismatch => ErrPrefix + " Data tenantId does not match context"
    case UpsertNotTenantKeyed(model) => ErrPrefix + " upsert on " + model + " must use a composite unique that includes tenantId"
    case Disallowed(op, model) =>
      (ErrPrefix + " " + op + " on " + model + " is disallowed. "
       + "Use findFirst/updateMany/deleteMany with tenantId or a composite unique that includes tenantId.")
  }

  /** A guard is bound to one non-empty tenant id for its whole life. */
  datatype Guard = Guard(tenantId: string)

  /** `createTenantGuard`: refuses an empty tenant id. */
  function CreateTenantGuard(tenantId: string): (r: Result<Guard>)
    ensures r.Ok? <==> tenantId != ""
    ensures r.Ok? ==> r.value.tenantId == tenantId
    ensures r.Err? ==> r.error == TenantIdRequired
  {
    if tenantId == "" then Err(TenantIdRequired) else Ok(Guard(tenantId))
  }

  /** `withTenant(where, tenantId)`: AND the tenant conjunct into an object
      filter; any other filter is replaced by the conjunct alone. */
  function WithTenant(where: Value, tenantId: string): Value {
    var conjunct := Obj(map["tenantId" := Str(tenantId)]);
    if IsObject(where) then Obj(map["AND" := Arr([conjunct, where])]) else conjunct
  }

  /** The rewritten filter matches exactly the bound tenant's rows that the
      caller's filter matches: the caller cannot drop the conjunct. */
  lemma WithTenantMeaning(where: Value, tenantId: string, r: Row)
    ensures Eval(WithTenant(where, tenantId), r) <==> OwnedBy(r, tenantId) && Eval(where, r)
  {
    var conjunct := Obj(map["tenantId" := Str(tenantId)]);
    assert Eval(conjunct, r) <==> OwnedBy(r, tenantId) by {
      assert conjunct.fields.Keys == {"tenantId"};
    }
    if IsObject(where) {
      var both := Arr([conjunct, where]);
      assert Eval(both, r) <==> Eval(conjunct, r) && Eval(where, r) by {
        assert both.items[0] == conjunct && both.items[1] == where;
      }
      var w := WithTenant(where, tenantId);
      assert w.fields.Keys == {"AND"};
      assert Eval(w, r) <==> EvalKey("AND", both, r);
    }
  }

  /** The tenant id a relation payload names: `connect.id` when it is a
      non-empty string, else `connect.where.id` when that is a string. */
  function ConnectedId(rel: Value): Option<string> {
    var connect := Get(rel, "connect");
    if !Truthy(connect) then None
    else
      var id := Get(connect, "id");
      if id.Str? && id.s != "" then Some(id.s)
      else
        var w := Get(connect, "where");
        if Truthy(w) && Get(w, "id").Str? then Some(Get(w, "id").s)
        else if id.Str? then Some(id.s)
        else None
  }

  /** The relation payload that connects exactly `tenantId`. */
  function ConnectTo(tenantId: string): Value {
    Obj(map["connect" := Obj(map["id" := Str(tenantId)])])
  }

  /** `injectTenantInData`: a non-object payload passes unchanged; an object
      payload is normalised so that it names the bound tenant, or rejected. */
  function InjectTenantInData(data: Value, tenantId: string): (r: Result<Value>)
    ensures !IsObject(data) ==> r == Ok(data)
    ensures Has(data, "tenantId") && Has(data, "tenant") ==> r == Err(BothTenantIdAndRelation)
    ensures IsObject(data) && !Has(data, "tenant") && IsNullish(Get(data, "tenantId")) ==> r.Ok?
    ensures !Has(data, "tenant") && Get(data, "tenantId") == Str(tenantId) ==> r == Ok(data)
    ensures r == Err(TenantIdMismatch) ==> !IsNullish(Get(data, "tenantId")) && Get(data, "tenantId") != Str(tenantId)
    ensures r == Err(RelationMismatch) ==>
      ConnectedId(Get(data, "tenant")).Some? && ConnectedId(Get(data, "tenant")).value !in {"", tenantId}
    ensures r.Ok? && IsObject(data) ==> r.value.Obj?
    ensures r.Ok? && IsObject(data) ==> "tenantId" in Written(r.value) && Written(r.value)["tenantId"] == Str(tenantId)
    ensures r.Ok? ==> forall k | k in Entries(data) && k !in {"tenant", "tenantId"} ::
      k in Entries(r.value) && Entries(r.value)[k] == Entries(data)[k]
  {
    if !IsObject(data) then Ok(data)
    else if Has(data, "tenantId") && Has(data, "tenant") then Err(BothTenantIdAndRelation)
    else if Has(data, "tenant") && IsObject(Get(data, "tenant")) then
      var c := ConnectedId(Get(data, "tenant"));
      if c.Some? && c.value != "" && c.value != tenantId then Err(RelationMismatch)
      else
        var d := With(data, "tenant", ConnectTo(tenantId));
        assert Get(d, "tenant") == ConnectTo(tenantId);
        Ok(d)
    else if IsNullish(Get(data, "tenantId")) then
      var d := With(data, "tenantId", Str(tenantId));
      GetWith(data, "tenantId", Str(tenantId), "tenant");
      assert RelationTenant(d) == None;
      Ok(d)
    else if Get(data, "tenantId") != Str(tenantId) then Err(TenantIdMismatch)
    else Ok(data)
  }

  /** An object naming no tenant gets the bound tenant's id added. */
  lemma InjectIntoUntenanted(data: Value, tenantId: string)
    requires data.Obj? && !Has(data, "tenantId") && !Has(data, "tenant")
    ensures InjectTenantInData(data, tenantId) == Ok(With(data, "tenantId", Str(tenantId)))
  {
  }

  /** Injecting into an already injected payload changes nothing, unless the
      payload carried a `tenant` entry that is not an object (the flat rule
      then adds `tenantId` beside it, and the second pass sees both). */
  lemma InjectIdempotent(data: Value, tenantId: string)
    requires InjectTenantInData(data, tenantId).Ok?
    requires Has(data, "tenant") ==> IsObject(Get(data, "tenant"))
    ensures InjectTenantInData(InjectTenantInData(data, tenantId).value, tenantId) == InjectTenantInData(data, tenantId)
  {
    var d := InjectTenantInData(data, tenantId).value;
    if IsObject(data) && !Has(data, "tenant") && IsNullish(Get(data, "tenantId")) {
      if data.Arr? {
        ArrayHasNoNamedEntry(data.items, "tenant");
      }
      assert Get(d, "tenantId") == Str(tenantId) && !Has(d, "tenant");
    } else if IsObject(data) && Has(data, "tenant") && IsObject(Get(data, "tenant")) {
      assert d.Obj? && "tenantId" !in d.fields && Get(d, "tenant") == ConnectTo(tenantId);
      var c := ConnectedId(ConnectTo(tenantId));
      assert c.Some? && c.value == tenantId;
      assert d.fields["tenant" := ConnectTo(tenantId)] == d.fields;
      assert With(d, "tenant", ConnectTo(tenantId)) == d;
    }
  }

  /** `createMany` over an array: every element through the create rule, in
      order; the first rejection is the answer. */
  function InjectAll(xs: seq<Value>, tenantId: string): (r: Result<seq<Value>>)
    ensures r.Ok? ==> |r.value| == |xs|
    ensures r.Ok? ==> forall i | 0 <= i < |xs| :: InjectTenantInData(xs[i], tenantId) == Ok(r.value[i])
    ensures r.Err? ==> exists i | 0 <= i < |xs| ::
      InjectTenantInData(xs[i], tenantId) == Err(r.error) &&
      forall j | 0 <= j < i :: InjectTenantInData(xs[j], tenantId).Ok?
  {
    if xs == [] then Ok([])
    else match InjectTenantInData(xs[0], tenantId)
      case Err(e) => Err(e)
      case Ok(d) =>
        match InjectAll(xs[1..], tenantId)
        case Err(e) =>
          ghost var i :| 0 <= i < |xs[1..]| && InjectTenantInData(xs[1..][i], tenantId) == Err(e) &&
            forall j | 0 <= j < i :: InjectTenantInData(xs[1..][j], tenantId).Ok?;
          assert InjectTenantInData(xs[i + 1], tenantId) == Err(e);
          Err(e)
        case Ok(ds) => Ok([d] + ds)
  }

  /** `createMany`: an array payload element by element, anything else whole. */
  function InjectMany(data: Value, tenantId: string): Result<Value> {
    if data.Arr? then
      match InjectAll(data.items, tenantId)
      case Ok(ds) => Ok(Arr(ds))
      case Err(e) => Err(e)
    else InjectTenantInData(data, tenantId)
  }

  /** The operation buckets of the dispatcher. */
  datatype OpKind = ReadMany | WriteMany | CreateOne | CreateMany | Upsert | Banned | PassThrough

  /** The `switch (operation)` as written: unlisted names fall to `default`. */
  function Classify(op: string): OpKind {
    if op in {"findMany", "findFirst", "count", "aggregate", "groupBy"} then ReadMany
    else if op in {"updateMany", "deleteMany"} then WriteMany
    else if op == "create" then CreateOne
    else if op == "createMany" then CreateMany
    else if op == "upsert" then Upsert
    else if op in {"findUnique", "update", "delete"} then Banned
    else PassThrough
  }

  /** A `where` value that is an object holding `tenantId` equal to the bound id. */
  predicate NamesTenant(v: Value, tenantId: string) {
    v.Obj? && "tenantId" in v.fields && v.fields["tenantId"] == Str(tenantId)
  }

  /** The upsert test as written: some top-level value of `where ?? {}` names the tenant. */
  predicate UpsertKeyed(where: Value, tenantId: string) {
    match where
    case Obj(m) => exists k | k in m :: NamesTenant(m[k], tenantId)
    case Arr(xs) => exists i | 0 <= i < |xs| :: NamesTenant(xs[i], tenantId)
    case _ => false
  }

  /** The `$allOperations` hook as written: the rewritten arguments, or the
      rejection. Models outside the tenant-scoped set pass through untouched. */
  function Police(model: string, op: string, a: Args, tenantId: string): (r: Result<Args>)
    ensures model !in TenantScopedModels ==> r == Ok(a)
    ensures model in TenantScopedModels && Classify(op) == Banned ==> r == Err(Disallowed(op, model))
    ensures model in TenantScopedModels && Classify(op) == PassThrough ==> r == Ok(a)
    ensures model in TenantScopedModels && Classify(op) in {ReadMany, WriteMany} ==>
      r == Ok(a.(where := WithTenant(a.where, tenantId)))
    ensures model in TenantScopedModels && Classify(op) == Upsert && !UpsertKeyed(a.where, tenantId) ==>
      r == Err(UpsertNotTenantKeyed(model))
  {
    if model !in TenantScopedModels then Ok(a)
    else match Classify(op)
      case ReadMany => Ok(a.(where := WithTenant(a.where, tenantId)))
      case WriteMany => Ok(a.(where := WithTenant(a.where, tenantId)))
      case CreateOne =>
        (match InjectTenantInData(a.data, tenantId)
         case Ok(d) => Ok(a.(data := d))
         case Err(e) => Err(e))
      case CreateMany =>
        (match InjectMany(a.data, tenantId)
         case Ok(d) => Ok(a.(data := d))
         case Err(e) => Err(e))
      case Upsert => PoliceUpsert(model, a, tenantId, UpsertKeyed(a.where, tenantId))
      case Banned => Err(Disallowed(op, model))
      case PassThrough => Ok(a)
  }

  /** The upsert branch once the key test is decided: both payloads go
      through the create rule (`update` only when truthy). */
  function PoliceUpsert(model: string, a: Args, tenantId: string, keyed: bool): (r: Result<Args>)
    ensures !keyed ==> r == Err(UpsertNotTenantKeyed(model))
    ensures r.Ok? ==> r.value.where == a.where && r.value.data == a.data
    ensures r.Ok? ==> InjectTenantInData(a.create, tenantId) == Ok(r.value.create)
    ensures r.Ok? && Truthy(a.update) ==> InjectTenantInData(a.update, tenantId) == Ok(r.value.update)
    ensures r.Ok? && !Truthy(a.update) ==> r.value.update == a.update
  {
    if !keyed then Err(UpsertNotTenantKeyed(model))
    else match InjectTenantInData(a.create, tenantId)
      case Err(e) => Err(e)
      case Ok(c) =>
        if Truthy(a.update) then
          match InjectTenantInData(a.update, tenantId)
          case Err(e) => Err(e)
          case Ok(u) => Ok(a.(create := c, update := u))
        else Ok(a.(create := c))
  }

  /** `create` on a tenant-owned model: the payload through the create rule. */
  lemma PoliceCreate(model: string, a: Args, tenantId: string)
    requires model in TenantScopedModels
    ensures InjectTenantInData(a.data, tenantId).Ok? ==>
      Police(model, "create", a, tenantId) == Ok(a.(data := InjectTenantInData(a.data, tenantId).value))
    ensures InjectTenantInData(a.data, tenantId).Err? ==>
      Police(model, "create", a, tenantId) == Err(InjectTenantInData(a.data, tenantId).error)
  {
    assert Classify("create") == CreateOne;
  }

  /** What a guarded call answers. */
  datatype Answer = Rejected(error: GuardError) | Answered(outcome: Outcome)

  function AnswerRows(ans: Answer): seq<Row> {
    if ans.Answered? then Returned(ans.outcome) else []
  }

  /** A guarded call as written: the hook, then the query on table `tbl`. */
  function Execute(tbl: seq<Row>, model: string, op: string, a: Args, tenantId: string, freshId: string): (Answer, seq<Row>) {
    match Police(model, op, a, tenantId)
    case Err(e) => (Rejected(e), tbl)
    case Ok(a') => var (o, t') := Run(tbl, op, a', freshId); (Answered(o), t')
  }

  /** The arguments object the hook rewrites in place. */
  class QueryArgs {
    var where: Value
    var data: Value
    var create: Value
    var update: Value

    function Snapshot(): Args
      reads this
    {
      Args(where, data, create, update)
    }

    constructor (a: Args)
      ensures Snapshot() == a
    {
      where, data, create, update := a.where, a.data, a.create, a.update;
    }
  }

  /** `$allOperations`: rewrites `args` in place and runs the query, or throws
      before the query runs (the table is then untouched). */
  method AllOperations(g: Guard, model: string, op: string, args: QueryArgs, tbl: seq<Row>, freshId: string)
    returns (ans: Answer, tbl': seq<Row>)
    modifies args
    ensures Police(model, op, old(args.Snapshot()), g.tenantId).Ok? ==>
      args.Snapshot() == Police(model, op, old(args.Snapshot()), g.tenantId).value
    ensures (ans, tbl') == Execute(tbl, model, op, old(args.Snapshot()), g.tenantId, freshId)
  {
    var tenantId := g.tenantId;
    if model in TenantScopedModels {
      match Classify(op)
      case ReadMany | WriteMany =>
        args.where := WithTenant(args.where, tenantId);
      case CreateOne =>
        var d := InjectTenantInData(args.data, tenantId);
        if d.Err? { return Rejected(d.error), tbl; }
        args.data := d.value;
      case CreateMany =>
        var d := InjectMany(args.data, tenantId);
        if d.Err? { return Rejected(d.error), tbl; }
        args.data := d.value;
      case Upsert =>
        if !UpsertKeyed(args.where, tenantId) { return Rejected(UpsertNotTenantKeyed(model)), tbl; }
        var c := InjectTenantInData(args.create, tenantId);
        if c.Err? { return Rejected(c.error), tbl; }
        args.create := c.value;
        if Truthy(args.update) {
          var u := InjectTenantInData(args.update, tenantId);
          if u.Err? { return Rejected(u.error), tbl; }
          args.update := u.value;
        }
      case Banned =>
        return Rejected(Disallowed(op, model)), tbl;
      case PassThrough =>
    }
    var (o, t) := Run(tbl, op, args.Snapshot(), freshId);
    ans, tbl' := Answered(o), t;
  }
}
