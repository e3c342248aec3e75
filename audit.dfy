/** Audit trail: a shallow redaction of secret-looking fields, the small before/after
    diff of an update, and the audit row each mutation writes through the
    tenant-scoped client. */
module Audit {
  import opened Common
  import opened Json
  import opened Requests
  import opened Table
  import opened TenantGuard

  /** Property names whose values never reach the audit log. */
  const Secrets: set<string> := {"password", "token", "secret", "authorization", "cookie", "csrf"}

  predicate IsSecret(k: string) {
    ToLower(k) in Secrets
  }

  /** An array element after masking: objects and arrays become "[object]". */
  function MaskElement(v: Value): (r: Value)
    ensures IsObject(v) ==> r == Str("[object]")
    ensures !IsObject(v) ==> r == v
  {
    if Truthy(v) && IsObject(v) then Str("[object]") else v
  }

  /** One entry of a redacted object. */
  function RedactEntry(k: string, v: Value): (r: Value)
    ensures IsSecret(k) ==> r == Str("[REDACTED]")
    ensures !IsSecret(k) && IsObject(v) ==> r == Str("[object]")
    ensures !IsSecret(k) && !IsObject(v) ==> r == v
  {
    if IsSecret(k) then Str("[REDACTED]")
    else if !v.Null? && IsObject(v) then Str("[object]")
    else v
  }

  /** `redactOnce` as a value: primitives and null pass, arrays and objects are
      flattened one level, with secrets masked. */
  function Redacted(v: Value): (r: Value)
    ensures !IsObject(v) ==> r == v
    ensures v.Arr? ==> r.Arr? && |r.items| == |v.items|
    ensures v.Arr? ==> forall i | 0 <= i < |v.items| :: !IsObject(r.items[i])
    ensures v.Obj? ==> r.Obj? && r.fields.Keys == v.fields.Keys
    ensures v.Obj? ==> forall k | k in r.fields :: !IsObject(r.fields[k])
    ensures v.Obj? ==> forall k | k in r.fields && IsSecret(k) :: r.fields[k] == Str("[REDACTED]")
  {
    match v
    case Arr(xs) => Arr(seq(|xs|, i requires 0 <= i < |xs| => MaskElement(xs[i])))
    case Obj(m) => Obj(map k | k in m :: RedactEntry(k, m[k]))
    case _ => v
  }

  /** Elements that are not objects survive the array masking unchanged. */
  lemma ArrayPrimitivesKept(xs: seq<Value>, i: nat)
    requires i < |xs| && !IsObject(xs[i])
    ensures Redacted(Arr(xs)).items[i] == xs[i]
  {
  }

  /** A non-secret, non-object property is copied as it is. */
  lemma PlainFieldKept(m: map<string, Value>, k: string)
    requires k in m && !IsSecret(k) && !IsObject(m[k])
    ensures Redacted(Obj(m)).fields[k] == m[k]
  {
  }

  /** Redacting twice is redacting once. */
  lemma RedactedIdempotent(v: Value)
    ensures Redacted(Redacted(v)) == Redacted(v)
  {
    match v
    case Arr(xs) =>
      var ys := Redacted(v).items;
      assert Redacted(Redacted(v)).items == ys by {
        forall i | 0 <= i < |ys| ensures MaskElement(ys[i]) == ys[i] {}
      }
    case Obj(m) =>
      var n := Redacted(v).fields;
      assert Redacted(Redacted(v)).fields == n by {
        forall k | k in n ensures RedactEntry(k, n[k]) == n[k] {}
      }
    case _ =>
  }

  /** `redactOnce`: fills a fresh record entry by entry. */
  method RedactOnce(v: Value) returns (out: Value)
    ensures out == Redacted(v)
  {
    match v {
      case Arr(xs) =>
        var ys: seq<Value> := [];
        for i := 0 to |xs|
          invariant |ys| == i
          invariant forall j | 0 <= j < i :: ys[j] == MaskElement(xs[j])
        {
          ys := ys + [MaskElement(xs[i])];
        }
        out := Arr(ys);
      case Obj(m) =>
        var acc: map<string, Value> := map[];
        var rest := m.Keys;
        while rest != {}
          invariant rest <= m.Keys
          invariant acc.Keys == m.Keys - rest
          invariant forall k | k in acc :: acc[k] == RedactEntry(k, m[k])
          decreases rest
        {
          var k :| k in rest;
          acc := acc[k := RedactEntry(k, m[k])];
          rest := rest - {k};
        }
        out := Obj(acc);
      case _ =>
        out := v;
    }
  }

  /** The record `pick` answers: every changed key, read from `obj` (undefined when absent). */
  function Picked(obj: map<string, Value>, changedKeys: seq<string>): (r: map<string, Value>)
    ensures forall k :: k in r <==> k in changedKeys
    ensures forall k | k in r && k in obj :: r[k] == obj[k]
    ensures forall k | k in r && k !in obj :: r[k] == Undef
  {
    map k | k in changedKeys :: if k in obj then obj[k] else Undef
  }

  /** `pick`: copies the changed keys one by one. */
  method Pick(obj: map<string, Value>, changedKeys: seq<string>) returns (acc: map<string, Value>)
    ensures acc == Picked(obj, changedKeys)
  {
    acc := map[];
    for i := 0 to |changedKeys|
      invariant acc.Keys == set j | 0 <= j < i :: changedKeys[j]
      invariant forall k | k in acc :: acc[k] == if k in obj then obj[k] else Undef
    {
      var k := changedKeys[i];
      acc := acc[k := if k in obj then obj[k] else Undef];
    }
    assert acc.Keys == Picked(obj, changedKeys).Keys by {
      forall k | k in changedKeys ensures k in acc {
        var j :| 0 <= j < |changedKeys| && changedKeys[j] == k;
      }
    }
  }

  /** `diffForUpdate(before, after, changedKeys)`. */
  method DiffForUpdate(before: map<string, Value>, after: map<string, Value>, changedKeys: seq<string>)
    returns (diff: Value)
    ensures diff == Obj(map["before" := Obj(Picked(before, changedKeys)), "after" := Obj(Picked(after, changedKeys))])
  {
    var b := Pick(before, changedKeys);
    var a := Pick(after, changedKeys);
    diff := Obj(map["before" := Obj(b), "after" := Obj(a)]);
  }

  /** Keys outside `changedKeys` never reach the diff, and the two halves agree exactly when
      the records agree on every changed key. */
  lemma DiffMeaning(before: map<string, Value>, after: map<string, Value>, changedKeys: seq<string>)
    ensures Picked(before, changedKeys).Keys == Picked(after, changedKeys).Keys
    ensures Picked(before, changedKeys) == Picked(after, changedKeys) <==>
      forall k | k in changedKeys :: Get(Obj(before), k) == Get(Obj(after), k)
  {
    var b, a := Picked(before, changedKeys), Picked(after, changedKeys);
    if forall k | k in changedKeys :: Get(Obj(before), k) == Get(Obj(after), k) {
      assert b == a;
    } else {
      var k :| k in changedKeys && Get(Obj(before), k) != Get(Obj(after), k);
      assert b[k] != a[k];
    }
  }

  /** What a route hands to `writeAudit`; optional fields are `None` when null or absent. */
  datatype AuditInput = AuditInput(
    tenantId: string,
    userId: Option<string>,
    action: string,
    entityType: Option<string>,
    entityId: Option<string>,
    diff: Value,
    req: Request)

  function OrUndef(s: Option<string>): Value {
    if s.Some? then Str(s.value) else Undef
  }

  /** The client address of an audit row: the trimmed first x-forwarded-for entry when it is
      not empty, else a non-empty x-real-ip, else undefined. */
  function AuditIp(h: Headers): (ip: Value)
    ensures ip.Str? ==> ip.s != ""
  {
    var first := if "x-forwarded-for" in h then Trim(FirstToken(h["x-forwarded-for"], ',')) else "";
    if first != "" then Str(first)
    else if HasNonEmpty(h, "x-real-ip") then Str(h["x-real-ip"])
    else Undef
  }

  /** The user agent of an audit row: a non-empty user-agent header, else undefined. */
  function UserAgent(h: Headers): Value {
    if HasNonEmpty(h, "user-agent") then Str(h["user-agent"]) else Undef
  }

  /** `AuditIp` reads the first comma-separated x-forwarded-for entry, as splitting the header
      would, and falls back to x-real-ip only when that entry is blank or missing. */
  lemma AuditIpMeaning(h: Headers)
    ensures "x-forwarded-for" in h && Trim(Split(h["x-forwarded-for"], ',')[0]) != "" ==>
      AuditIp(h) == Str(Trim(Split(h["x-forwarded-for"], ',')[0]))
    ensures ("x-forwarded-for" !in h || Trim(Split(h["x-forwarded-for"], ',')[0]) == "") ==>
      AuditIp(h) == (if HasNonEmpty(h, "x-real-ip") then Str(h["x-real-ip"]) else Undef)
  {
  }

  /** The `data` of the audit insert. It carries no tenant of its own. */
  function AuditData(input: AuditInput): (d: Value)
    ensures d.Obj? && !Has(d, "tenantId") && !Has(d, "tenant")
    ensures "action" in d.fields && d.fields["action"] == Str(input.action)
    ensures "diff" in d.fields && d.fields["diff"] == if Truthy(input.diff) then Redacted(input.diff) else Undef
    ensures "ip" in d.fields && d.fields["ip"] == AuditIp(input.req.headers)
  {
    var h := input.req.headers;
    var diff := if Truthy(input.diff) then Redacted(input.diff) else Undef;
    var ip := AuditIp(h);
    var agent := UserAgent(h);
    var m := map[
      "userId" := OrUndef(input.userId),
      "entityType" := OrUndef(input.entityType),
      "entityId" := OrUndef(input.entityId),
      "userAgent" := agent,
      "action" := Str(input.action),
      "diff" := diff,
      "ip" := ip];
    assert "tenantId" !in m && "tenant" !in m;
    Obj(m)
  }

  /** The tenant guard always accepts the audit insert and stamps the bound tenant on it. */
  lemma AuditInsertAccepted(input: AuditInput, tenantId: string)
    ensures var a := Args(Undef, AuditData(input), Undef, Undef);
      Police("AuditLog", "create", a, tenantId) == Ok(a.(data := With(AuditData(input), "tenantId", Str(tenantId))))
  {
    var d := AuditData(input);
    InjectIntoUntenanted(d, tenantId);
    PoliceCreate("AuditLog", Args(Undef, d, Undef, Undef), tenantId);
  }

  /** The client a route hands to `writeAudit`: one bound to a tenant by the tenant guard,
      or the unguarded system client. */
  datatype AuditDb = Scoped(tenantId: string) | System

  /** The audit table after a successful insert through `db`. */
  function Inserted(db: AuditDb, auditLog: seq<Row>, input: AuditInput, freshId: string): seq<Row> {
    var a := Args(Undef, AuditData(input), Undef, Undef);
    match db
    case Scoped(t) => Execute(auditLog, "AuditLog", "create", a, t, freshId).1
    case System => Run(auditLog, "create", a, freshId).1
  }

  /** Through a tenant-bound client the guard accepts the insert and the new row belongs to
      the bound tenant. */
  lemma ScopedAuditRowOwned(input: AuditInput, tenantId: string, auditLog: seq<Row>, freshId: string)
    ensures var t := Inserted(Scoped(tenantId), auditLog, input, freshId);
      |t| == |auditLog| + 1 && t[..|auditLog|] == auditLog && OwnedBy(t[|auditLog|], tenantId)
      && FieldOf(t[|auditLog|], "action") == Str(input.action)
  {
    var d := AuditData(input);
    var a := Args(Undef, d, Undef, Undef);
    var injected := With(d, "tenantId", Str(tenantId));
    AuditInsertAccepted(input, tenantId);
    var r := RowOf(injected, freshId);
    assert Inserted(Scoped(tenantId), auditLog, input, freshId) == auditLog + [r] by {
      RunCreate(auditLog, a.(data := injected), freshId);
    }
    assert OwnedBy(r, tenantId) && FieldOf(r, "action") == Str(input.action) by {
      assert RelationTenant(injected) == None by {
        assert Get(injected, "tenant") == Undef;
      }
    }
  }

  /** Through the system client nothing supplies a tenant: the new row has none. */
  lemma SystemAuditRowUnowned(input: AuditInput, auditLog: seq<Row>, freshId: string)
    ensures var t := Inserted(System, auditLog, input, freshId);
      |t| == |auditLog| + 1 && t[..|auditLog|] == auditLog
      && FieldOf(t[|auditLog|], "tenantId") == Null
      && forall tenantId :: !OwnedBy(t[|auditLog|], tenantId)
  {
    var d := AuditData(input);
    assert RelationTenant(d) == None by {
      assert Get(d, "tenant") == Undef;
    }
    assert "tenantId" !in Written(d);
    RunCreate(auditLog, Args(Undef, d, Undef, Undef), freshId);
  }

  /** `writeAudit(db, input)`: `insertFails` stands for a database error, which is caught and
      logged, so the call never throws and then leaves the audit table as it was. The tenant
      of the row comes from `db` only; `input.tenantId` is not read. */
  method WriteAudit(db: AuditDb, auditLog: seq<Row>, input: AuditInput, insertFails: bool, freshId: string)
    returns (auditLog': seq<Row>)
    ensures auditLog' == if insertFails then auditLog else Inserted(db, auditLog, input, freshId)
    ensures auditLog' != auditLog ==> |auditLog'| == |auditLog| + 1 && auditLog'[..|auditLog|] == auditLog
    ensures !insertFails ==> |auditLog'| == |auditLog| + 1
    ensures !insertFails && db.Scoped? ==> OwnedBy(auditLog'[|auditLog|], db.tenantId)
  {
    if insertFails {
      return auditLog;
    }
    match db {
      case Scoped(t) => ScopedAuditRowOwned(input, t, auditLog, freshId);
      case System => SystemAuditRowUnowned(input, auditLog, freshId);
    }
    auditLog' := Inserted(db, auditLog, input, freshId);
  }
}
