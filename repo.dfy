/** The repository helpers: a count check that throws `NotFoundError`. */
module RepoUtils {
  import opened Common

  /** `NotFoundError`: an `Error` whose `name` is fixed. */
  datatype NotFoundError = NotFoundError(message: string)
  {
    function Name(): string { "NotFoundError" }
  }

  const DefaultNotFoundMessage: string := "Not found"
  const DefaultAssertOneMessage: string := "Expected 1 row affected"

  /** `new NotFoundError()` with no message. */
  function DefaultNotFound(): (e: NotFoundError)
    ensures e.message == "Not found" && e.Name() == "NotFoundError"
  {
    NotFoundError(DefaultNotFoundMessage)
  }

  /** `assertOne(result, msg)`: returns normally exactly when one row was
      affected, and otherwise throws `NotFoundError(msg)`. */
  function AssertOne(count: nat, msg: string): (r: Option<NotFoundError>)
    ensures r.None? <==> count == 1
    ensures r.Some? ==> r.value.message == msg && r.value.Name() == "NotFoundError"
  {
    if count != 1 then Some(NotFoundError(msg)) else None
  }
}

/** The product repository over a tenant-bound client: every read and write
    goes through the tenant guard of the client it is given. */
module ProductRepo {
  import opened Common
  import opened Json
  import opened Table
  import opened TenantGuard
  import opened GuardIsolation
  import RepoUtils

  /** `ProductCreateData`: the caller's fields; the optional ones are absent
      when `None`. */
  datatype ProductCreateData = ProductCreateData(
    sku: string,
    name: string,
    description: Option<Value>,
    priceInPence: int,
    currency: Option<string>,
    isActive: Option<bool>)

  /** The caller's fields as a record. */
  function Fields(d: ProductCreateData): (m: map<string, Value>)
    ensures m.Keys <= {"sku", "name", "description", "priceInPence", "currency", "isActive"}
    ensures "sku" in m && m["sku"] == Str(d.sku) && "name" in m && m["name"] == Str(d.name)
    ensures "priceInPence" in m && m["priceInPence"] == Num(d.priceInPence)
    ensures ("description" in m <==> d.description.Some?) && ("currency" in m <==> d.currency.Some?)
    ensures "isActive" in m <==> d.isActive.Some?
    ensures d.description.Some? ==> m["description"] == d.description.value
    ensures d.currency.Some? ==> m["currency"] == Str(d.currency.value)
    ensures d.isActive.Some? ==> m["isActive"] == Bool(d.isActive.value)
  {
    var m0 := map["sku" := Str(d.sku), "name" := Str(d.name), "priceInPence" := Num(d.priceInPence)];
    var m1 := if d.description.Some? then m0["description" := d.description.value] else m0;
    var m2 := if d.currency.Some? then m1["currency" := Str(d.currency.value)] else m1;
    if d.isActive.Some? then m2["isActive" := Bool(d.isActive.value)] else m2
  }

  /** The payload `create` sends: the caller's fields and the relation to the
      tenant the caller names. */
  function CreatePayload(tenantId: string, d: ProductCreateData): Value {
    Obj(Fields(d)["tenant" := ConnectTo(tenantId)])
  }

  /** The guard lets the repository's create payload through untouched, and
      the row it describes carries the caller's fields and the bound tenant. */
  lemma CreatePayloadAccepted(tenantId: string, d: ProductCreateData, freshId: string)
    ensures PoliceStrict("Product", "create", Args(Undef, CreatePayload(tenantId, d), Undef, Undef), tenantId)
      == Ok(Args(Undef, CreatePayload(tenantId, d), Undef, Undef))
    ensures var r := RowOf(CreatePayload(tenantId, d), freshId);
      r.fields == Fields(d)["tenantId" := Str(tenantId)]["id" := Str(freshId)]
  {
    var p := CreatePayload(tenantId, d);
    assert Has(p, "tenant") && !Has(p, "tenantId");
    assert ConnectedId(Get(p, "tenant")) == Some(tenantId);
    assert p.fields["tenant" := ConnectTo(tenantId)] == p.fields;
    assert RelationTenant(p) == Some(Str(tenantId));
    assert Written(p) == Fields(d)["tenantId" := Str(tenantId)];
  }

  /** Whether the guard refuses a payload that connects `tenantIdArg`: a
      non-empty id other than the bound one. An empty id is falsy to the
      guard, which then connects the bound tenant instead. */
  predicate ConnectsOtherTenant(tenantIdArg: string, tenantId: string) {
    tenantIdArg != "" && tenantIdArg != tenantId
  }

  /** The guard refuses a payload that connects another tenant with
      "Data tenant.connect.id does not match context", and otherwise passes on
      the payload connected to the bound tenant. */
  lemma CreatePayloadPoliced(tenantIdArg: string, tenantId: string, d: ProductCreateData)
    ensures ConnectsOtherTenant(tenantIdArg, tenantId) ==>
      PoliceStrict("Product", "create", Args(Undef, CreatePayload(tenantIdArg, d), Undef, Undef), tenantId)
        == Err(RelationMismatch)
    ensures !ConnectsOtherTenant(tenantIdArg, tenantId) ==>
      PoliceStrict("Product", "create", Args(Undef, CreatePayload(tenantIdArg, d), Undef, Undef), tenantId)
        == Ok(Args(Undef, CreatePayload(tenantId, d), Undef, Undef))
  {
    var p := CreatePayload(tenantIdArg, d);
    assert Has(p, "tenant") && !Has(p, "tenantId");
    assert ConnectedId(Get(p, "tenant")) == Some(tenantIdArg);
    assert p.fields["tenant" := ConnectTo(tenantId)] == CreatePayload(tenantId, d).fields;
  }

  /** The guarded `create(db, tenantIdArg, d)`: refused, with nothing written, when
      `tenantIdArg` names another tenant; otherwise it appends exactly the row the
      payload describes, owned by the bound tenant and carrying the caller's sku and name. */
  lemma CreateExecuted(products: seq<Row>, tenantIdArg: string, tenantId: string, d: ProductCreateData, freshId: string)
    ensures ConnectsOtherTenant(tenantIdArg, tenantId) ==>
      ExecuteStrict(products, "Product", "create", Args(Undef, CreatePayload(tenantIdArg, d), Undef, Undef), tenantId, freshId)
        == (Rejected(RelationMismatch), products)
    ensures var row := RowOf(CreatePayload(tenantId, d), freshId);
      !ConnectsOtherTenant(tenantIdArg, tenantId) ==>
      && ExecuteStrict(products, "Product", "create", Args(Undef, CreatePayload(tenantIdArg, d), Undef, Undef), tenantId, freshId)
         == (Answered(One(row)), products + [row])
      && OwnedBy(row, tenantId) && FieldOf(row, "sku") == Str(d.sku) && FieldOf(row, "name") == Str(d.name)
  {
    CreatePayloadPoliced(tenantIdArg, tenantId, d);
    CreatePayloadAccepted(tenantId, d, freshId);
    RunCreate(products, Args(Undef, CreatePayload(tenantId, d), Undef, Undef), freshId);
  }

  /** `{ id }`. */
  function IdFilter(id: string): Value {
    Obj(map["id" := Str(id)])
  }

  lemma IdFilterMeaning(id: string, tenantId: string, r: Row)
    ensures Eval(WithTenant(IdFilter(id), tenantId), r) <==> OwnedBy(r, tenantId) && FieldOf(r, "id") == Str(id)
  {
    WithTenantMeaning(IdFilter(id), tenantId, r);
    assert IdFilter(id).fields.Keys == {"id"};
  }

  /** The number of rows of `tenantId` whose id is `id`. */
  function CountById(tbl: seq<Row>, tenantId: string, id: string): nat {
    if tbl == [] then 0
    else (if OwnedBy(tbl[0], tenantId) && FieldOf(tbl[0], "id") == Str(id) then 1 else 0) + CountById(tbl[1..], tenantId, id)
  }

  /** A guarded `updateMany`/`deleteMany` by id counts exactly the tenant's
      rows with that id. */
  lemma {:induction false} FilterByIdCount(tbl: seq<Row>, tenantId: string, id: string)
    ensures |Filter(tbl, WithTenant(IdFilter(id), tenantId))| == CountById(tbl, tenantId, id)
  {
    if tbl != [] {
      IdFilterMeaning(id, tenantId, tbl[0]);
      FilterByIdCount(tbl[1..], tenantId, id);
    }
  }

  /** Why a repository call threw. */
  datatype RepoError =
    | NotFound(notFound: RepoUtils.NotFoundError)
    | GuardRejected(guard: GuardError)
    | UniqueViolation(target: seq<string>)

  datatype Attempt<+T> = Done(value: T) | Threw(error: RepoError)

  /** A client bound to one tenant (`prismaForTenant(tenantId)`), seen through
      its product table. Ids of created rows are drawn from `issued`. */
  class TenantClient {
    const tenantId: string
    var products: seq<Row>
    var issued: nat

    constructor (tenantId: string, products: seq<Row>)
      requires tenantId != ""
      ensures this.tenantId == tenantId && this.products == products && issued == 0
    {
      this.tenantId := tenantId;
      this.products := products;
      issued := 0;
    }

    function FreshId(): string
      reads this
    {
      "gen-" + NatToString(issued)
    }

    /** `byId`: a guarded `findFirst` by id, so only this tenant's row with
        that id is ever returned. */
    method ById(id: string) returns (p: Option<Row>)
      ensures ExecuteStrict(products, "Product", "findFirst", Args(IdFilter(id), Undef, Undef, Undef), tenantId, FreshId())
        == (Answered(First(p)), products)
      ensures p.Some? ==> p.value in products && OwnedBy(p.value, tenantId) && FieldOf(p.value, "id") == Str(id)
      ensures p.None? ==> forall r | r in products :: !(OwnedBy(r, tenantId) && FieldOf(r, "id") == Str(id))
    {
      var w := WithTenant(IdFilter(id), tenantId);
      var i := FirstIndex(products, w);
      p := if i < |products| then Some(products[i]) else None;
      if i < |products| {
        IdFilterMeaning(id, tenantId, products[i]);
      } else {
        forall r | r in products
          ensures !(OwnedBy(r, tenantId) && FieldOf(r, "id") == Str(id))
        {
          IdFilterMeaning(id, tenantId, r);
        }
      }
    }

    /** `requireById`: throws `NotFoundError("Product not found")` exactly when
        `byId` finds nothing. */
    method RequireById(id: string) returns (r: Attempt<Row>)
      ensures r.Done? ==> OwnedBy(r.value, tenantId) && FieldOf(r.value, "id") == Str(id) && r.value in products
      ensures r.Threw? <==> forall x | x in products :: !(OwnedBy(x, tenantId) && FieldOf(x, "id") == Str(id))
      ensures r.Threw? ==> r.error == NotFound(RepoUtils.NotFoundError("Product not found"))
    {
      var p := ById(id);
      if p.None? {
        return Threw(NotFound(RepoUtils.NotFoundError("Product not found")));
      }
      return Done(p.value);
    }

    /** `create(db, tenantIdArg, d)`: inserts the caller's fields with the relation
        to `tenantIdArg`. The guard refuses a relation to another tenant; the
        database's unique index on (tenantId, sku) refuses a second product with
        the same sku in the tenant. */
    method Create(tenantIdArg: string, d: ProductCreateData) returns (r: Attempt<Row>)
      modifies this
      ensures ConnectsOtherTenant(tenantIdArg, tenantId) ==>
        && r == Threw(GuardRejected(RelationMismatch))
        && products == old(products) && issued == old(issued)
      ensures !ConnectsOtherTenant(tenantIdArg, tenantId) ==>
        (r.Threw? <==> exists x | x in old(products) :: OwnedBy(x, tenantId) && FieldOf(x, "sku") == Str(d.sku))
      ensures !ConnectsOtherTenant(tenantIdArg, tenantId) && r.Threw? ==>
        r.error == UniqueViolation(["tenantId", "sku"]) && products == old(products) && issued == old(issued)
      ensures r.Done? ==>
        && (Answered(One(r.value)), products)
           == ExecuteStrict(old(products), "Product", "create", Args(Undef, CreatePayload(tenantIdArg, d), Undef, Undef), tenantId, old(FreshId()))
        && products == old(products) + [r.value]
        && r.value == RowOf(CreatePayload(tenantId, d), old(FreshId()))
        && OwnedBy(r.value, tenantId) && FieldOf(r.value, "sku") == Str(d.sku) && FieldOf(r.value, "name") == Str(d.name)
        && issued == old(issued) + 1
    {
      CreateExecuted(products, tenantIdArg, tenantId, d, FreshId());
      if ConnectsOtherTenant(tenantIdArg, tenantId) {
        return Threw(GuardRejected(RelationMismatch));
      }
      if exists x | x in products :: OwnedBy(x, tenantId) && FieldOf(x, "sku") == Str(d.sku) {
        return Threw(UniqueViolation(["tenantId", "sku"]));
      }
      var row := RowOf(CreatePayload(tenantId, d), FreshId());
      products := products + [row];
      issued := issued + 1;
      return Done(row);
    }

    /** `updateById`: a guarded `updateMany` by id, then `assertOne`. The
        update is applied before the count is checked. */
    method UpdateById(id: string, data: Value) returns (err: Option<RepoError>)
      modifies this
      ensures issued == old(issued)
      ensures var a := Args(IdFilter(id), data, Undef, Undef);
        PoliceStrict("Product", "updateMany", a, tenantId).Err? ==>
          err == Some(GuardRejected(PoliceStrict("Product", "updateMany", a, tenantId).error)) && products == old(products)
      ensures var a := Args(IdFilter(id), data, Undef, Undef);
        PoliceStrict("Product", "updateMany", a, tenantId).Ok? ==>
          && (Answered(Count(CountById(old(products), tenantId, id))), products)
             == ExecuteStrict(old(products), "Product", "updateMany", a, tenantId, FreshId())
          && (err.None? <==> CountById(old(products), tenantId, id) == 1)
          && (err.Some? ==> err.value == NotFound(RepoUtils.NotFoundError("Product not updated")))
      ensures forall other | other != tenantId :: Owned(products, other) == Owned(old(products), other)
    {
      var a := Args(IdFilter(id), data, Undef, Undef);
      var p := PoliceStrict("Product", "updateMany", a, tenantId);
      forall other | other != tenantId
        ensures Owned(ExecuteStrict(products, "Product", "updateMany", a, tenantId, FreshId()).1, other) == Owned(products, other)
      {
        StrictGuardIsolation(products, "Product", "updateMany", a, tenantId, other, FreshId());
      }
      if p.Err? {
        return Some(GuardRejected(p.error));
      }
      var w := WithTenant(IdFilter(id), tenantId);
      FilterByIdCount(products, tenantId, id);
      var n := |Filter(products, w)|;
      products := UpdateWhere(products, w, p.value.data);
      var check := RepoUtils.AssertOne(n, "Product not updated");
      err := if check.Some? then Some(NotFound(check.value)) else None;
    }

    /** `deleteById`: a guarded `deleteMany` by id, then `assertOne`. */
    method DeleteById(id: string) returns (err: Option<RepoError>)
      modifies this
      ensures issued == old(issued)
      ensures (Answered(Count(CountById(old(products), tenantId, id))), products)
        == ExecuteStrict(old(products), "Product", "deleteMany", Args(IdFilter(id), Undef, Undef, Undef), tenantId, FreshId())
      ensures forall x | x in products :: x in old(products) && !(OwnedBy(x, tenantId) && FieldOf(x, "id") == Str(id))
      ensures forall x | x in old(products) && !(OwnedBy(x, tenantId) && FieldOf(x, "id") == Str(id)) :: x in products
      ensures err.None? <==> CountById(old(products), tenantId, id) == 1
      ensures err.Some? ==> err.value == NotFound(RepoUtils.NotFoundError("Product not deleted"))
      ensures forall other | other != tenantId :: Owned(products, other) == Owned(old(products), other)
    {
      var a := Args(IdFilter(id), Undef, Undef, Undef);
      forall other | other != tenantId
        ensures Owned(ExecuteStrict(products, "Product", "deleteMany", a, tenantId, FreshId()).1, other) == Owned(products, other)
      {
        StrictGuardIsolation(products, "Product", "deleteMany", a, tenantId, other, FreshId());
      }
      var w := WithTenant(IdFilter(id), tenantId);
      forall x ensures Eval(w, x) <==> OwnedBy(x, tenantId) && FieldOf(x, "id") == Str(id) {
        IdFilterMeaning(id, tenantId, x);
      }
      FilterByIdCount(products, tenantId, id);
      var n := |Filter(products, w)|;
      products := RemoveWhere(products, w);
      var check := RepoUtils.AssertOne(n, "Product not deleted");
      err := if check.Some? then Some(NotFound(check.value)) else None;
    }
  }
}
