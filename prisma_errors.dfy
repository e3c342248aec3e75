/** Classifying database errors: Prisma's known request errors carry a
    `code` ("P2002", …) and a `meta` record; routes map them to HTTP statuses. */
module PrismaErrors {
  import opened Common
  import opened Json

  /** `isPrismaKnownError`: a non-null object with a "code" property. */
  predicate IsPrismaKnownError(e: Value) {
    Truthy(e) && IsObject(e) && Has(e, "code")
  }

  /** `String(v)` as `Array.prototype.join` applies it to an element: null and undefined
      become the empty string, arrays are joined with ",". */
  function JoinText(v: Value): string
    decreases v
  {
    match v
    case Undef => ""
    case Null => ""
    case Bool(b) => if b then "true" else "false"
    case Num(n) => IntToString(n)
    case Str(s) => s
    case Obj(_) => "[object Object]"
    case Arr(xs) => JoinTexts(xs)
  }

  function JoinTexts(xs: seq<Value>): string
    decreases xs
  {
    if xs == [] then "" else if |xs| == 1 then JoinText(xs[0]) else JoinText(xs[0]) + "," + JoinTexts(xs[1..])
  }

  /** `meta.target` as a list: an array as it is, another truthy value as a one-element list. */
  function Targets(e: Value): seq<Value> {
    var meta := Get(e, "meta");
    var target := if IsNullish(meta) then Undef else Get(meta, "target");
    if target.Arr? then target.items else if Truthy(target) then [target] else []
  }

  /** `isUniqueViolation(e, constraintNames)`. */
  predicate IsUniqueViolation(e: Value, constraintNames: Option<seq<string>>) {
    IsPrismaKnownError(e) && Get(e, "code") == Str("P2002")
    && (constraintNames.None? || constraintNames.value == []
        || exists c | c in constraintNames.value :: Includes(JoinTexts(Targets(e)), c))
  }

  /** Without constraint names every P2002 error counts; with names, one of them must occur in
      the joined target list. */
  lemma UniqueViolationMeaning(e: Value, names: Option<seq<string>>)
    ensures !IsPrismaKnownError(e) || Get(e, "code") != Str("P2002") ==> !IsUniqueViolation(e, names)
    ensures IsPrismaKnownError(e) && Get(e, "code") == Str("P2002") && (names.None? || names.value == [])
      ==> IsUniqueViolation(e, names)
  {
  }

  /** A string target is treated as the one-element list holding it. */
  lemma StringTargetIsSingleton(code: Value, t: string, names: Option<seq<string>>)
    requires t != ""
    ensures var asString := Obj(map["code" := code, "meta" := Obj(map["target" := Str(t)])]);
      var asList := Obj(map["code" := code, "meta" := Obj(map["target" := Arr([Str(t)])])]);
      IsUniqueViolation(asString, names) == IsUniqueViolation(asList, names)
  {
    var asString := Obj(map["code" := code, "meta" := Obj(map["target" := Str(t)])]);
    var asList := Obj(map["code" := code, "meta" := Obj(map["target" := Arr([Str(t)])])]);
    assert Targets(asString) == [Str(t)] && Targets(asList) == [Str(t)];
  }

  /** The P2002 error the database raises for a unique index over the columns `target`. */
  function UniqueError(target: seq<string>): Value {
    Obj(map["code" := Str("P2002"),
            "meta" := Obj(map["target" := Arr(seq(|target|, i requires 0 <= i < |target| => Str(target[i])))])])
  }

  /** The joined target list starts with the first target. */
  lemma {:induction false} JoinTextsStartsWithFirst(xs: seq<Value>)
    requires |xs| >= 1 && xs[0].Str?
    ensures xs[0].s <= JoinTexts(xs)
  {
    if |xs| > 1 {
      assert JoinTexts(xs) == xs[0].s + ("," + JoinTexts(xs[1..]));
    }
  }

  /** A route that lists the index's first column among its constraint names recognises the
      violation of that index. */
  lemma LeadingTargetRecognised(target: seq<string>, names: seq<string>)
    requires |target| >= 1 && |names| >= 1 && names[0] == target[0]
    ensures IsUniqueViolation(UniqueError(target), Some(names))
  {
    var e := UniqueError(target);
    var items := seq(|target|, i requires 0 <= i < |target| => Str(target[i]));
    assert Get(e, "meta") == Obj(map["target" := Arr(items)]);
    assert Targets(e) == items;
    JoinTextsStartsWithFirst(items);
    var joined := JoinTexts(items);
    assert joined[0..|names[0]|] == names[0];
    assert OccursAt(joined, names[0], 0);
    assert Includes(joined, names[0]);
  }

  datatype Mapped = Mapped(status: int, message: string, code: Value, meta: Value)

  /** The codes `mapPrismaError` gives a specific status. */
  const KnownCodes: set<Value> := {Str("P2002"), Str("P2025"), Str("P2001"), Str("P2003"), Str("P2014"),
                                   Str("P2000"), Str("P2011"), Str("P2012"), Str("P2013"), Str("P2020")}

  /** The status a Prisma error code maps to. */
  function StatusOfCode(code: Value): (s: int)
    ensures s in {404, 409, 422, 500}
    ensures code == Str("P2002") ==> s == 409
    ensures code == Str("P2025") || code == Str("P2001") ==> s == 404
    ensures code == Str("P2003") || code == Str("P2014") ==> s == 409
    ensures code in {Str("P2000"), Str("P2011"), Str("P2012"), Str("P2013"), Str("P2020")} ==> s == 422
    ensures code !in KnownCodes ==> s == 500
  {
    if code == Str("P2002") then 409
    else if code == Str("P2025") || code == Str("P2001") then 404
    else if code == Str("P2003") || code == Str("P2014") then 409
    else if code in {Str("P2000"), Str("P2011"), Str("P2012"), Str("P2013"), Str("P2020")} then 422
    else 500
  }

  function MessageOfStatus(code: Value, s: int): string {
    if code == Str("P2002") then "Unique constraint violation"
    else if s == 404 then "Not found"
    else if s == 409 then "Constraint conflict"
    else if s == 422 then "Unprocessable entity"
    else "Internal Server Error"
  }

  /** `mapPrismaError`: null for anything that is not a known Prisma error. */
  function MapPrismaError(e: Value): (r: Option<Mapped>)
    ensures r.None? <==> !IsPrismaKnownError(e)
    ensures r.Some? ==> r.value.code == Get(e, "code") && r.value.meta == Get(e, "meta")
    ensures r.Some? ==> r.value.status == StatusOfCode(Get(e, "code"))
  {
    if !IsPrismaKnownError(e) then None
    else
      var code := Get(e, "code");
      var s := StatusOfCode(code);
      Some(Mapped(s, MessageOfStatus(code, s), code, Get(e, "meta")))
  }

  /** A unique violation, whatever constraint names are asked for, maps to 409. */
  lemma UniqueViolationIs409(e: Value, names: Option<seq<string>>)
    requires IsUniqueViolation(e, names)
    ensures MapPrismaError(e) == Some(Mapped(409, "Unique constraint violation", Str("P2002"), Get(e, "meta")))
  {
  }
}
