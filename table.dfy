/** One table of the shared database and the Prisma query operations on it.
    Prisma itself is foreign; this is the smallest meaning of a `where` filter and
    of each operation that lets the tenant guard's promises be stated. Every row
    of a tenant-owned table carries its owner in the `tenantId` field. */
module Table {
  import opened Common
  import opened Json

  datatype Row = Row(fields: map<string, Value>)

  /** Arguments of one Prisma model operation. Absent arguments are `Undef`. */
  datatype Args = Args(where: Value, data: Value, create: Value, update: Value)

  /** What an operation answers: rows, the first match, a count, one row, or a
      Prisma error code (`P2025`: no record to act on). */
  datatype Outcome =
    | Rows(rows: seq<Row>)
    | First(found: Option<Row>)
    | Count(n: nat)
    | One(row: Row)
    | Failed(code: string)

  function FieldOf(r: Row, k: string): Value {
    if k in r.fields then r.fields[k] else Null
  }

  predicate OwnedBy(r: Row, t: string) {
    FieldOf(r, "tenantId") == Str(t)
  }

  /** Whether row `r` satisfies filter `w`. A filter that is not an object
      matches every row (Prisma's `where: undefined`). */
  predicate Eval(w: Value, r: Row)
    decreases w, 1
  {
    match w
    case Obj(m) => forall k | k in m :: EvalKey(k, m[k], r)
    case Arr(xs) => forall i | 0 <= i < |xs| :: Eval(xs[i], r)
    case _ => true
  }

  /** One top-level entry of a filter: the logical combinators, a nested
      filter object on a field, or plain equality. */
  predicate EvalKey(k: string, v: Value, r: Row)
    decreases v, 2
  {
    if k == "AND" then Eval(v, r)
    else if k == "OR" then (if v.Arr? then exists i | 0 <= i < |v.items| :: Eval(v.items[i], r) else Eval(v, r))
    else if k == "NOT" then !Eval(v, r)
    else if v.Obj? then forall j | j in v.fields :: FieldOp(k, j, v.fields, r)
    else FieldOf(r, k) == v
  }

  /** An entry `j` of the object nested under field `k`: the operators `equals`,
      `contains` (case-insensitive under `mode: "insensitive"`) and `mode`, or a
      field of a compound unique key such as `tenantId_sku: {tenantId, sku}`. */
  predicate FieldOp(k: string, j: string, ops: map<string, Value>, r: Row)
    requires j in ops
  {
    if j == "equals" then FieldOf(r, k) == ops[j]
    else if j == "contains" then
      ops[j].Str? && FieldOf(r, k).Str? &&
      (if "mode" in ops && ops["mode"] == Str("insensitive")
       then Includes(ToLower(FieldOf(r, k).s), ToLower(ops[j].s))
       else Includes(FieldOf(r, k).s, ops[j].s))
    else if j == "mode" then true
    else FieldOf(r, j) == ops[j]
  }

  /** The rows of `tbl` matching `w`, in table order. */
  function Filter(tbl: seq<Row>, w: Value): (r: seq<Row>)
    ensures |r| <= |tbl|
  {
    if tbl == [] then []
    else if Eval(w, tbl[0]) then [tbl[0]] + Filter(tbl[1..], w)
    else Filter(tbl[1..], w)
  }

  /** `Filter` keeps exactly the rows of the table that satisfy the filter. */
  lemma {:induction false} FilterMembers(tbl: seq<Row>, w: Value)
    ensures forall x | x in Filter(tbl, w) :: x in tbl && Eval(w, x)
    ensures forall x | x in tbl && Eval(w, x) :: x in Filter(tbl, w)
  {
    if tbl != [] {
      FilterMembers(tbl[1..], w);
      assert forall x | x in tbl :: x == tbl[0] || x in tbl[1..];
    }
  }

  /** The rows of `tbl` owned by tenant `t`, in table order. */
  function Owned(tbl: seq<Row>, t: string): seq<Row> {
    if tbl == [] then []
    else if OwnedBy(tbl[0], t) then [tbl[0]] + Owned(tbl[1..], t)
    else Owned(tbl[1..], t)
  }

  lemma {:induction false} OwnedAppend(a: seq<Row>, b: seq<Row>, t: string)
    ensures Owned(a + b, t) == Owned(a, t) + Owned(b, t)
  {
    if a == [] {
      assert a + b == b;
    } else {
      assert (a + b)[0] == a[0] && (a + b)[1..] == a[1..] + b;
      OwnedAppend(a[1..], b, t);
    }
  }

  /** Index of the first row matching `w`, or `|tbl|`. */
  function FirstIndex(tbl: seq<Row>, w: Value): (i: nat)
    ensures i <= |tbl|
    ensures i < |tbl| ==> Eval(w, tbl[i])
    ensures forall j | 0 <= j < i :: !Eval(w, tbl[j])
  {
    if tbl == [] then 0 else if Eval(w, tbl[0]) then 0 else 1 + FirstIndex(tbl[1..], w)
  }

  /** The tenant a create or update payload assigns through the relation
      `tenant: {connect: {id}}`, if any. */
  function RelationTenant(data: Value): Option<Value> {
    var id := Get(Get(Get(data, "tenant"), "connect"), "id");
    if id.Str? then Some(id) else None
  }

  /** The scalar fields a payload writes: its entries without the relation,
      with the relation's tenant written as `tenantId`. */
  function Written(data: Value): map<string, Value> {
    var scalars := Entries(data) - {"tenant"};
    match RelationTenant(data)
    case Some(t) => scalars["tenantId" := t]
    case None => scalars
  }

  /** The row `create` inserts; Prisma generates the id when none is given. */
  function RowOf(data: Value, freshId: string): Row {
    var f := Written(data);
    Row(if "id" in f then f else f["id" := Str(freshId)])
  }

  function Apply(r: Row, data: Value): Row {
    Row(r.fields + Written(data))
  }

  function UpdateWhere(tbl: seq<Row>, w: Value, data: Value): (r: seq<Row>)
    ensures |r| == |tbl|
    ensures forall i | 0 <= i < |tbl| :: r[i] == if Eval(w, tbl[i]) then Apply(tbl[i], data) else tbl[i]
  {
    if tbl == [] then [] else [if Eval(w, tbl[0]) then Apply(tbl[0], data) else tbl[0]] + UpdateWhere(tbl[1..], w, data)
  }

  /** The matching rows as an update leaves them, in table order. */
  function Updated(tbl: seq<Row>, w: Value, data: Value): (r: seq<Row>)
    ensures |r| <= |tbl|
    ensures forall x | x in r :: exists y | y in tbl && Eval(w, y) :: x == Apply(y, data)
  {
    if tbl == [] then []
    else if Eval(w, tbl[0]) then [Apply(tbl[0], data)] + Updated(tbl[1..], w, data)
    else Updated(tbl[1..], w, data)
  }

  function RemoveWhere(tbl: seq<Row>, w: Value): (r: seq<Row>)
    ensures |r| <= |tbl|
    ensures forall x | x in r :: x in tbl && !Eval(w, x)
    ensures forall x | x in tbl && !Eval(w, x) :: x in r
  {
    if tbl == [] then [] else if Eval(w, tbl[0]) then RemoveWhere(tbl[1..], w) else [tbl[0]] + RemoveWhere(tbl[1..], w)
  }

  /** The rows `createMany` inserts: one per element of an array, or one. */
  function RowsOf(data: Value, freshId: string): seq<Row> {
    if data.Arr? then seq(|data.items|, i requires 0 <= i < |data.items| => RowOf(data.items[i], freshId + "-" + IndexKey(i)))
    else [RowOf(data, freshId)]
  }

  /** `upsert`: update the first row matching `where` with `update`, or
      insert the row `create` describes. */
  function UpsertOne(tbl: seq<Row>, a: Args, freshId: string): (Outcome, seq<Row>) {
    var i := FirstIndex(tbl, a.where);
    if i < |tbl| then
      var r := Apply(tbl[i], a.update);
      (One(r), tbl[i := r])
    else
      var r := RowOf(a.create, freshId);
      (One(r), tbl + [r])
  }

  /** Runs operation `op` on table `tbl`: the answer and the table afterwards. */
  function Run(tbl: seq<Row>, op: string, a: Args, freshId: string): (Outcome, seq<Row>) {
    if op in {"findMany", "aggregate", "groupBy"} then (Rows(Filter(tbl, a.where)), tbl)
    else if op in {"findFirst", "findUnique"} then
      var i := FirstIndex(tbl, a.where);
      (First(if i < |tbl| then Some(tbl[i]) else None), tbl)
    else if op in {"findFirstOrThrow", "findUniqueOrThrow"} then
      var i := FirstIndex(tbl, a.where);
      (if i < |tbl| then One(tbl[i]) else Failed("P2025"), tbl)
    else if op == "count" then (Count(|Filter(tbl, a.where)|), tbl)
    else if op == "updateMany" then (Count(|Filter(tbl, a.where)|), UpdateWhere(tbl, a.where, a.data))
    else if op == "updateManyAndReturn" then
      (Rows(Updated(tbl, a.where, a.data)), UpdateWhere(tbl, a.where, a.data))
    else if op == "deleteMany" then (Count(|Filter(tbl, a.where)|), RemoveWhere(tbl, a.where))
    else if op == "create" then
      var r := RowOf(a.data, freshId);
      (One(r), tbl + [r])
    else if op == "createMany" then (Count(|RowsOf(a.data, freshId)|), tbl + RowsOf(a.data, freshId))
    else if op == "createManyAndReturn" then (Rows(RowsOf(a.data, freshId)), tbl + RowsOf(a.data, freshId))
    else if op == "upsert" then UpsertOne(tbl, a, freshId)
    else if op == "update" then
      var i := FirstIndex(tbl, a.where);
      if i < |tbl| then
        var r := Apply(tbl[i], a.data);
        (One(r), tbl[i := r])
      else (Failed("P2025"), tbl)
    else if op == "delete" then
      var i := FirstIndex(tbl, a.where);
      if i < |tbl| then (One(tbl[i]), tbl[..i] + tbl[i + 1..]) else (Failed("P2025"), tbl)
    else (Failed("unknown operation"), tbl)
  }

  /** `create` appends the one row its payload describes. */
  lemma RunCreate(tbl: seq<Row>, a: Args, freshId: string)
    ensures Run(tbl, "create", a, freshId) == (One(RowOf(a.data, freshId)), tbl + [RowOf(a.data, freshId)])
  {
  }

  /** The rows an answer hands back to the caller. */
  function Returned(o: Outcome): seq<Row> {
    match o
    case Rows(rs) => rs
    case First(Some(r)) => [r]
    case One(r) => [r]
    case _ => []
  }
}
