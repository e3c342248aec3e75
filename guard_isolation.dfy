/** What the tenant guard promises, and where the guard as written falls short
    of it. The guard as written lets a few operations through that reach other
    tenants' rows; `PoliceStrict` is the guard with those gaps closed, and
    `StrictGuardIsolation` is the promise proved for it. */
module GuardIsolation {
  import opened Common
  import opened Json
  import opened Table
  import opened TenantGuard

  /** A payload whose written `tenantId`, if it writes one, is `t`. */
  predicate KeepsOwner(data: Value, t: string) {
    "tenantId" in Written(data) ==> Written(data)["tenantId"] == Str(t)
  }

  /** Whatever the create rule lets through writes no owner but the bound one. */
  lemma InjectedKeepsOwner(data: Value, t: string)
    requires InjectTenantInData(data, t).Ok?
    ensures KeepsOwner(InjectTenantInData(data, t).value, t)
  {
    if !IsObject(data) {
      assert Entries(data) == map[];
    }
  }

  /** A payload that is not an object writes nothing. */
  lemma NonObjectWritesNothing(data: Value)
    requires !IsObject(data)
    ensures Written(data) == map[]
  {
    assert Entries(data) == map[];
  }

  lemma ApplyKeepsOwner(r: Row, data: Value, t: string)
    requires OwnedBy(r, t) && KeepsOwner(data, t)
    ensures OwnedBy(Apply(r, data), t)
  {
  }

  lemma RowOfKeepsOwner(data: Value, freshId: string, t: string, other: string)
    requires KeepsOwner(data, t) && t != other
    ensures !OwnedBy(RowOf(data, freshId), other)
  {
  }

  lemma {:induction false} OwnedNone(rows: seq<Row>, other: string)
    requires forall r | r in rows :: !OwnedBy(r, other)
    ensures Owned(rows, other) == []
  {
    if rows != [] {
      OwnedNone(rows[1..], other);
    }
  }

  lemma {:induction false} OwnedRemoveWhere(tbl: seq<Row>, w: Value, other: string)
    requires forall x | x in tbl && Eval(w, x) :: !OwnedBy(x, other)
    ensures Owned(RemoveWhere(tbl, w), other) == Owned(tbl, other)
  {
    if tbl != [] {
      OwnedRemoveWhere(tbl[1..], w, other);
      if !Eval(w, tbl[0]) {
        assert RemoveWhere(tbl, w) == [tbl[0]] + RemoveWhere(tbl[1..], w);
        assert ([tbl[0]] + RemoveWhere(tbl[1..], w))[1..] == RemoveWhere(tbl[1..], w);
      }
    }
  }

  lemma {:induction false} OwnedUpdateWhere(tbl: seq<Row>, w: Value, data: Value, other: string)
    requires forall x | x in tbl && Eval(w, x) :: !OwnedBy(x, other) && !OwnedBy(Apply(x, data), other)
    ensures Owned(UpdateWhere(tbl, w, data), other) == Owned(tbl, other)
  {
    if tbl != [] {
      var u := UpdateWhere(tbl, w, data);
      OwnedUpdateWhere(tbl[1..], w, data, other);
      assert u[1..] == UpdateWhere(tbl[1..], w, data);
    }
  }

  lemma OwnedReplace(tbl: seq<Row>, i: nat, r: Row, other: string)
    requires i < |tbl| && !OwnedBy(tbl[i], other) && !OwnedBy(r, other)
    ensures Owned(tbl[i := r], other) == Owned(tbl, other)
  {
    assert tbl == tbl[..i] + [tbl[i]] + tbl[i + 1..];
    assert tbl[i := r] == tbl[..i] + [r] + tbl[i + 1..];
    OwnedAppend(tbl[..i] + [tbl[i]], tbl[i + 1..], other);
    OwnedAppend(tbl[..i], [tbl[i]], other);
    OwnedAppend(tbl[..i] + [r], tbl[i + 1..], other);
    OwnedAppend(tbl[..i], [r], other);
    OwnedNone([tbl[i]], other);
    OwnedNone([r], other);
  }

  lemma AppendNotOwned(tbl: seq<Row>, rows: seq<Row>, other: string)
    requires forall r | r in rows :: !OwnedBy(r, other)
    ensures Owned(tbl + rows, other) == Owned(tbl, other)
  {
    OwnedAppend(tbl, rows, other);
    OwnedNone(rows, other);
  }

  /** The dispatcher with every gap closed: each operation the switch names
      keeps its bucket, the `...OrThrow` and `...AndReturn` variants join their
      siblings' buckets (`findUniqueOrThrow` is banned with `findUnique`), and
      any other name is refused instead of passed through. */
  function ClassifyStrict(op: string): (k: OpKind)
    ensures k != PassThrough
    ensures Classify(op) != PassThrough ==> k == Classify(op)
    ensures Classify(op) == PassThrough && k != Banned ==>
      op in {"findFirstOrThrow", "updateManyAndReturn", "createManyAndReturn"}
  {
    if op in {"findMany", "findFirst", "findFirstOrThrow", "count", "aggregate", "groupBy"} then ReadMany
    else if op in {"updateMany", "updateManyAndReturn", "deleteMany"} then WriteMany
    else if op == "create" then CreateOne
    else if op in {"createMany", "createManyAndReturn"} then CreateMany
    else if op == "upsert" then Upsert
    else Banned
  }

  /** The upsert key test without the escape through `NOT`: the object that
      names the bound tenant must sit under a key that keeps its meaning. */
  predicate UpsertKeyedStrict(where: Value, tenantId: string) {
    match where
    case Obj(m) => exists k | k in m && k != "NOT" :: NamesTenant(m[k], tenantId)
    case Arr(xs) => exists i | 0 <= i < |xs| :: NamesTenant(xs[i], tenantId)
    case _ => false
  }

  /** A filter object that names the bound tenant matches only its rows,
      under any key but `NOT`. */
  lemma NamesTenantMatchesOwn(k: string, v: Value, tenantId: string, r: Row)
    requires k != "NOT" && NamesTenant(v, tenantId) && EvalKey(k, v, r)
    ensures OwnedBy(r, tenantId)
  {
    if k == "AND" || k == "OR" {
      assert Eval(v, r);
      assert EvalKey("tenantId", v.fields["tenantId"], r);
    } else {
      assert FieldOp(k, "tenantId", v.fields, r);
    }
  }

  /** Every row an upsert that passes the strict key test can match is the
      bound tenant's. */
  lemma StrictKeyedMatchesOwn(where: Value, tenantId: string, r: Row)
    requires UpsertKeyedStrict(where, tenantId) && Eval(where, r)
    ensures OwnedBy(r, tenantId)
  {
    match where
    case Obj(m) =>
      var k :| k in m && k != "NOT" && NamesTenant(m[k], tenantId);
      NamesTenantMatchesOwn(k, m[k], tenantId, r);
    case Arr(xs) =>
      var i :| 0 <= i < |xs| && NamesTenant(xs[i], tenantId);
      assert Eval(xs[i], r);
      assert EvalKey("tenantId", xs[i].fields["tenantId"], r);
  }

  /** The hook with the gaps closed. Bulk updates also run their payload
      through the create rule, so they cannot re-home rows. */
  function PoliceStrict(model: string, op: string, a: Args, tenantId: string): (r: Result<Args>)
    ensures model !in TenantScopedModels ==> r == Ok(a)
    ensures model in TenantScopedModels && ClassifyStrict(op) == Banned ==> r == Err(Disallowed(op, model))
    ensures model in TenantScopedModels && ClassifyStrict(op) in {ReadMany, WriteMany} && r.Ok? ==>
      r.value.where == WithTenant(a.where, tenantId)
    ensures model in TenantScopedModels && ClassifyStrict(op) == WriteMany && op != "deleteMany" && r.Ok? ==>
      InjectTenantInData(a.data, tenantId) == Ok(r.value.data)
    ensures model in TenantScopedModels && ClassifyStrict(op) == Upsert && !UpsertKeyedStrict(a.where, tenantId) ==>
      r == Err(UpsertNotTenantKeyed(model))
  {
    if model !in TenantScopedModels then Ok(a)
    else match ClassifyStrict(op)
      case ReadMany => Ok(a.(where := WithTenant(a.where, tenantId)))
      case WriteMany =>
        if op == "deleteMany" then Ok(a.(where := WithTenant(a.where, tenantId)))
        else
          (match InjectTenantInData(a.data, tenantId)
           case Ok(d) => Ok(a.(where := WithTenant(a.where, tenantId), data := d))
           case Err(e) => Err(e))
      case CreateOne =>
        (match InjectTenantInData(a.data, tenantId)
         case Ok(d) => Ok(a.(data := d))
         case Err(e) => Err(e))
      case CreateMany =>
        (match InjectMany(a.data, tenantId)
         case Ok(d) => Ok(a.(data := d))
         case Err(e) => Err(e))
      case Upsert => PoliceUpsert(model, a, tenantId, UpsertKeyedStrict(a.where, tenantId))
      case _ => Err(Disallowed(op, model))
  }

  /** On every operation the switch names, except the two it gets wrong, the
      strict hook is the hook as written. */
  lemma StrictAgreesWithWritten(model: string, op: string, a: Args, tenantId: string)
    requires Classify(op) != PassThrough && op != "updateMany"
    requires op == "upsert" ==> UpsertKeyedStrict(a.where, tenantId)
    ensures PoliceStrict(model, op, a, tenantId) == Police(model, op, a, tenantId)
  {
    if op == "upsert" {
      match a.where
      case Obj(m) =>
        var k :| k in m && k != "NOT" && NamesTenant(m[k], tenantId);
        assert UpsertKeyed(a.where, tenantId);
      case Arr(xs) =>
      case _ =>
    }
  }

  /** A guarded call through the strict hook. */
  function ExecuteStrict(tbl: seq<Row>, model: string, op: string, a: Args, tenantId: string, freshId: string): (Answer, seq<Row>) {
    match PoliceStrict(model, op, a, tenantId)
    case Err(e) => (Rejected(e), tbl)
    case Ok(a') => var (o, t') := Run(tbl, op, a', freshId); (Answered(o), t')
  }

  /** Every row a filtered read returns is the bound tenant's. */
  lemma FilteredRowsOwned(tbl: seq<Row>, where: Value, tenantId: string)
    ensures forall r | r in Filter(tbl, WithTenant(where, tenantId)) :: OwnedBy(r, tenantId)
    ensures var i := FirstIndex(tbl, WithTenant(where, tenantId)); i < |tbl| ==> OwnedBy(tbl[i], tenantId)
  {
    forall r | r in Filter(tbl, WithTenant(where, tenantId))
      ensures OwnedBy(r, tenantId)
    {
      WithTenantMeaning(where, tenantId, r);
    }
    var i := FirstIndex(tbl, WithTenant(where, tenantId));
    if i < |tbl| {
      WithTenantMeaning(where, tenantId, tbl[i]);
    }
  }

  /** The guard as written isolates every read it filters: the rows answered
      are the bound tenant's, and the table is not touched. */
  lemma GuardedReadsIsolated(tbl: seq<Row>, model: string, op: string, a: Args, tenantId: string, freshId: string)
    requires model in TenantScopedModels && Classify(op) == ReadMany
    ensures var (ans, tbl') := Execute(tbl, model, op, a, tenantId, freshId);
      tbl' == tbl && forall r | r in AnswerRows(ans) :: OwnedBy(r, tenantId)
  {
    FilteredRowsOwned(tbl, a.where, tenantId);
  }

  /** An answer and a new table that leave tenant `other` alone: none of its
      rows handed back, its rows exactly as they were. */
  predicate Isolated(tbl: seq<Row>, res: (Outcome, seq<Row>), other: string) {
    (forall r | r in Returned(res.0) :: !OwnedBy(r, other)) && Owned(res.1, other) == Owned(tbl, other)
  }

  lemma ReadIsolated(tbl: seq<Row>, op: string, a: Args, tenantId: string, other: string, freshId: string)
    requires ClassifyStrict(op) == ReadMany && tenantId != other
    requires exists where :: a.where == WithTenant(where, tenantId)
    ensures Isolated(tbl, Run(tbl, op, a, freshId), other)
  {
    var where :| a.where == WithTenant(where, tenantId);
    FilteredRowsOwned(tbl, where, tenantId);
  }

  lemma WriteIsolated(tbl: seq<Row>, op: string, a: Args, where: Value, tenantId: string, other: string, freshId: string)
    requires ClassifyStrict(op) == WriteMany && tenantId != other
    requires a.where == WithTenant(where, tenantId)
    requires op != "deleteMany" ==> KeepsOwner(a.data, tenantId)
    ensures Isolated(tbl, Run(tbl, op, a, freshId), other)
  {
    MatchedRowsOwned(tbl, where, tenantId);
    if op == "deleteMany" {
      OwnedRemoveWhere(tbl, a.where, other);
      assert Run(tbl, op, a, freshId).1 == RemoveWhere(tbl, a.where);
    } else {
      UpdateIsolated(tbl, op, a, tenantId, other, freshId);
    }
  }

  /** Every row a tenant-rewritten filter matches is the bound tenant's. */
  lemma MatchedRowsOwned(tbl: seq<Row>, where: Value, tenantId: string)
    ensures forall x | x in tbl && Eval(WithTenant(where, tenantId), x) :: OwnedBy(x, tenantId)
  {
    forall x | x in tbl && Eval(WithTenant(where, tenantId), x)
      ensures OwnedBy(x, tenantId)
    {
      WithTenantMeaning(where, tenantId, x);
    }
  }

  lemma UpdateIsolated(tbl: seq<Row>, op: string, a: Args, tenantId: string, other: string, freshId: string)
    requires op in {"updateMany", "updateManyAndReturn"} && tenantId != other
    requires forall x | x in tbl && Eval(a.where, x) :: OwnedBy(x, tenantId)
    requires KeepsOwner(a.data, tenantId)
    ensures Isolated(tbl, Run(tbl, op, a, freshId), other)
  {
    forall x | x in tbl && Eval(a.where, x)
      ensures !OwnedBy(x, other) && !OwnedBy(Apply(x, a.data), other)
    {
      ApplyKeepsOwner(x, a.data, tenantId);
    }
    OwnedUpdateWhere(tbl, a.where, a.data, other);
  }

  lemma CreateIsolated(tbl: seq<Row>, op: string, a: Args, data: Value, tenantId: string, other: string, freshId: string)
    requires ClassifyStrict(op) in {CreateOne, CreateMany} && tenantId != other
    requires op == "create" ==> InjectTenantInData(data, tenantId) == Ok(a.data)
    requires op != "create" ==> InjectMany(data, tenantId) == Ok(a.data)
    ensures Isolated(tbl, Run(tbl, op, a, freshId), other)
  {
    if op == "create" {
      InjectedKeepsOwner(data, tenantId);
      RowOfKeepsOwner(a.data, freshId, tenantId, other);
      AppendNotOwned(tbl, [RowOf(a.data, freshId)], other);
    } else {
      CreatedRowsNotOwned(data, a.data, tenantId, other, freshId);
      AppendNotOwned(tbl, RowsOf(a.data, freshId), other);
    }
  }

  /** The strict guard keeps tenants apart: whatever a caller bound to
      `tenantId` asks of a tenant-scoped model, no row of another tenant is
      handed back, and that tenant's rows are exactly as they were. */
  lemma StrictGuardIsolation(tbl: seq<Row>, model: string, op: string, a: Args, tenantId: string, other: string, freshId: string)
    requires model in TenantScopedModels && tenantId != other
    ensures var (ans, tbl') := ExecuteStrict(tbl, model, op, a, tenantId, freshId);
      (forall r | r in AnswerRows(ans) :: !OwnedBy(r, other)) && Owned(tbl', other) == Owned(tbl, other)
  {
    var p := PoliceStrict(model, op, a, tenantId);
    if p.Ok? {
      var a' := p.value;
      match ClassifyStrict(op)
      case ReadMany =>
        ReadIsolated(tbl, op, a', tenantId, other, freshId);
      case WriteMany =>
        if op != "deleteMany" {
          InjectedKeepsOwner(a.data, tenantId);
        }
        WriteIsolated(tbl, op, a', a.where, tenantId, other, freshId);
      case CreateOne =>
        CreateIsolated(tbl, op, a', a.data, tenantId, other, freshId);
      case CreateMany =>
        CreateIsolated(tbl, op, a', a.data, tenantId, other, freshId);
      case Upsert =>
        UpsertNotOwned(tbl, model, a, tenantId, other, freshId);
      case Banned =>
      case PassThrough =>
    }
  }

  /** The rows `createMany` inserts after the create rule belong to no other tenant. */
  lemma CreatedRowsNotOwned(data: Value, d: Value, tenantId: string, other: string, freshId: string)
    requires InjectMany(data, tenantId) == Ok(d) && tenantId != other
    ensures forall r | r in RowsOf(d, freshId) :: !OwnedBy(r, other)
  {
    if data.Arr? {
      var ds := d.items;
      forall i | 0 <= i < |ds|
        ensures !OwnedBy(RowsOf(d, freshId)[i], other)
      {
        InjectedKeepsOwner(data.items[i], tenantId);
        RowOfKeepsOwner(ds[i], freshId + "-" + IndexKey(i), tenantId, other);
      }
    } else {
      InjectedKeepsOwner(data, tenantId);
      RowOfKeepsOwner(d, freshId, tenantId, other);
    }
  }

  /** An upsert through the strict hook touches only the bound tenant's row,
      and the row it answers with is the bound tenant's or a new one. */
  lemma UpsertNotOwned(tbl: seq<Row>, model: string, a: Args, tenantId: string, other: string, freshId: string)
    requires PoliceUpsert(model, a, tenantId, UpsertKeyedStrict(a.where, tenantId)).Ok? && tenantId != other
    ensures var a' := PoliceUpsert(model, a, tenantId, UpsertKeyedStrict(a.where, tenantId)).value;
      var (o, t') := UpsertOne(tbl, a', freshId);
      (forall r | r in Returned(o) :: !OwnedBy(r, other)) && Owned(t', other) == Owned(tbl, other)
  {
    var a' := PoliceUpsert(model, a, tenantId, UpsertKeyedStrict(a.where, tenantId)).value;
    InjectedKeepsOwner(a.create, tenantId);
    if Truthy(a.update) {
      InjectedKeepsOwner(a.update, tenantId);
    } else {
      NonObjectWritesNothing(a.update);
    }
    var i := FirstIndex(tbl, a'.where);
    if i < |tbl| {
      StrictKeyedMatchesOwn(a.where, tenantId, tbl[i]);
      ApplyKeepsOwner(tbl[i], a'.update, tenantId);
      OwnedReplace(tbl, i, Apply(tbl[i], a'.update), other);
    } else {
      RowOfKeepsOwner(a'.create, freshId, tenantId, other);
      AppendNotOwned(tbl, [RowOf(a'.create, freshId)], other);
    }
  }

  // The guard as written, on inputs that show its gaps.

  /** `findFirstOrThrow` is not in the switch, so it falls to `default` and
      reads tenant B's row for a caller bound to tenant A. */
  lemma OrThrowBypassesGuard()
    ensures var row := Row(map["id" := Str("p1"), "tenantId" := Str("B")]);
      var all := Args(Undef, Undef, Undef, Undef);
      && Execute([row], "Product", "findFirstOrThrow", all, "A", "n").0 == Answered(One(row))
      && ExecuteStrict([row], "Product", "findFirstOrThrow", all, "A", "n").0 == Answered(Failed("P2025"))
  {
    var row := Row(map["id" := Str("p1"), "tenantId" := Str("B")]);
    var w := WithTenant(Undef, "A");
    assert !Eval(w, row) by {
      assert "tenantId" in w.fields && !EvalKey("tenantId", w.fields["tenantId"], row);
    }
  }

  /** `updateMany` filters its rows but not its payload: a caller bound to
      tenant A moves its rows to tenant B. */
  lemma UpdateManyRehomesRows()
    ensures var row := Row(map["id" := Str("p1"), "tenantId" := Str("A")]);
      var a := Args(Undef, Obj(map["tenantId" := Str("B")]), Undef, Undef);
      && Owned(Execute([row], "Product", "updateMany", a, "A", "n").1, "B") != Owned([row], "B")
      && ExecuteStrict([row], "Product", "updateMany", a, "A", "n").0 == Rejected(TenantIdMismatch)
  {
    var row := Row(map["id" := Str("p1"), "tenantId" := Str("A")]);
    var data := Obj(map["tenantId" := Str("B")]);
    var w := WithTenant(Undef, "A");
    assert Eval(w, row) by {
      assert w.fields.Keys == {"tenantId"};
    }
    var moved := Apply(row, data);
    assert OwnedBy(moved, "B");
    assert UpdateWhere([row], w, data) == [moved];
    assert Owned([moved], "B") == [moved];
    assert Owned([row], "B") == [];
  }

  /** The filter `{id: "b1", NOT: {tenantId: "A"}}` passes the key test as
      written, fails the strict one, and matches tenant B's row `b1`. */
  lemma NotFilterEscapesKeyTest(row: Row, where: Value)
    requires row == Row(map["id" := Str("b1"), "tenantId" := Str("B")])
    requires where == Obj(map["id" := Str("b1"), "NOT" := Obj(map["tenantId" := Str("A")])])
    ensures UpsertKeyed(where, "A") && !UpsertKeyedStrict(where, "A")
    ensures FirstIndex([row], where) == 0
  {
    var not := where.fields["NOT"];
    assert UpsertKeyed(where, "A") by {
      assert "NOT" in where.fields && NamesTenant(not, "A");
    }
    assert where.fields.Keys == {"id", "NOT"};
    assert Eval(where, row) by {
      assert "tenantId" in not.fields && !EvalKey("tenantId", not.fields["tenantId"], row);
      assert EvalKey("NOT", not, row);
      assert EvalKey("id", Str("b1"), row);
    }
  }

  /** The upsert key test looks at every top-level value, `NOT` included, so a
      filter that excludes tenant A passes it and the upsert takes over
      tenant B's row. */
  lemma UpsertNotKeyedViaNot()
    ensures var row := Row(map["id" := Str("b1"), "tenantId" := Str("B")]);
      var where := Obj(map["id" := Str("b1"), "NOT" := Obj(map["tenantId" := Str("A")])]);
      var a := Args(where, Undef, Obj(map[]), Obj(map["name" := Str("x")]));
      Owned(Execute([row], "Product", "upsert", a, "A", "n").1, "B") != Owned([row], "B")
  {
    var row := Row(map["id" := Str("b1"), "tenantId" := Str("B")]);
    var where := Obj(map["id" := Str("b1"), "NOT" := Obj(map["tenantId" := Str("A")])]);
    var a := Args(where, Undef, Obj(map[]), Obj(map["name" := Str("x")]));
    NotFilterEscapesKeyTest(row, where);
    var a' := NotUpsertPoliced(where, a);
    var moved := UpsertMovesRow(row, a', "n");
    assert Owned([moved], "B") == [];
    assert Owned([row], "B") == [row];
  }

  /** The hook as written accepts that upsert, keeps its filter and stamps
      tenant A on its update. */
  lemma NotUpsertPoliced(where: Value, a: Args) returns (a': Args)
    requires UpsertKeyed(where, "A")
    requires a == Args(where, Undef, Obj(map[]), Obj(map["name" := Str("x")]))
    ensures Police("Product", "upsert", a, "A") == Ok(a')
    ensures a'.where == where && "tenantId" in Written(a'.update) && Written(a'.update)["tenantId"] == Str("A")
  {
    assert InjectTenantInData(a.create, "A").Ok? && InjectTenantInData(a.update, "A").Ok?;
    assert Police("Product", "upsert", a, "A") == PoliceUpsert("Product", a, "A", true);
    a' := Police("Product", "upsert", a, "A").value;
  }

  /** An upsert whose filter matches the only row rewrites that row, and a
      rewrite that stamps tenant A leaves it to A. */
  lemma UpsertMovesRow(row: Row, a': Args, freshId: string) returns (moved: Row)
    requires FirstIndex([row], a'.where) == 0
    requires "tenantId" in Written(a'.update) && Written(a'.update)["tenantId"] == Str("A")
    ensures Run([row], "upsert", a', freshId).1 == [moved] && !OwnedBy(moved, "B")
  {
    moved := Apply(row, a'.update);
    assert [row][0 := moved] == [moved];
    assert Run([row], "upsert", a', freshId) == UpsertOne([row], a', freshId);
    assert moved.fields["tenantId"] == Str("A");
  }

  /** The strict key test refuses the same upsert before it runs. */
  lemma StrictRefusesNotFilter(where: Value, a: Args)
    requires where == Obj(map["id" := Str("b1"), "NOT" := Obj(map["tenantId" := Str("A")])])
    requires a == Args(where, Undef, Obj(map[]), Obj(map["name" := Str("x")]))
    ensures PoliceStrict("Product", "upsert", a, "A") == Err(UpsertNotTenantKeyed("Product"))
  {
    NotFilterEscapesKeyTest(Row(map["id" := Str("b1"), "tenantId" := Str("B")]), where);
  }
}
