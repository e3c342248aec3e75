/** The request-body schemas of the admin API as explicit checks. A parse answers the
    normalised value (strings trimmed, defaults filled), or the set of top-level keys that
    carry an issue, with `FormLevel` standing for issues about the body as a whole
    (`error.flatten()` groups issues this way). */
module Schemas {
  import opened Common
  import opened Json
  import ProductRepo

  datatype Checked<+T> = Valid(value: T) | Invalid(errors: set<string>)

  /** The key of issues whose path is empty: a body that is not an object, unknown keys,
      and object-level refinements. */
  const FormLevel: string := ""

  function Errors<T>(c: Checked<T>): set<string> {
    if c.Invalid? then c.errors else {}
  }

  /** `z.string().trim().min(lo).max(hi)`: the trimmed text. */
  function TrimmedText(key: string, v: Value, lo: nat, hi: nat): (r: Checked<string>)
    ensures r.Valid? <==> v.Str? && lo <= |Trim(v.s)| <= hi
    ensures r.Valid? ==> r.value == Trim(v.s)
    ensures r.Invalid? ==> r.errors == {key}
  {
    if v.Str? && lo <= |Trim(v.s)| <= hi then Valid(Trim(v.s)) else Invalid({key})
  }

  /** `z.number().int().min(lo)`, with `.max(hi)` when `hi` is given. Values are integers
      here, so `.int()` adds nothing. */
  function IntIn(key: string, v: Value, lo: int, hi: Option<int>): (r: Checked<int>)
    ensures r.Valid? <==> v.Num? && lo <= v.n && (hi.None? || v.n <= hi.value)
    ensures r.Valid? ==> r.value == v.n
    ensures r.Invalid? ==> r.errors == {key}
  {
    if v.Num? && lo <= v.n && (hi.None? || v.n <= hi.value) then Valid(v.n) else Invalid({key})
  }

  /** `.optional()` around a check: `undefined` passes as `None`. */
  function OptionalOf<T>(c: Checked<T>, v: Value): (r: Checked<Option<T>>)
    ensures v.Undef? ==> r == Valid(None)
    ensures !v.Undef? && c.Valid? ==> r == Valid(Some(c.value))
    ensures !v.Undef? && c.Invalid? ==> r == Invalid(c.errors)
  {
    if v.Undef? then Valid(None)
    else if c.Valid? then Valid(Some(c.value))
    else Invalid(c.errors)
  }

  /** `z.boolean().optional()`. */
  function OptionalBool(key: string, v: Value): (r: Checked<Option<bool>>)
    ensures r.Valid? <==> v.Undef? || v.Bool?
    ensures r.Valid? ==> r.value == if v.Bool? then Some(v.b) else None
    ensures r.Invalid? ==> r.errors == {key}
  {
    if v.Undef? then Valid(None) else if v.Bool? then Valid(Some(v.b)) else Invalid({key})
  }

  predicate IsSkuChar(c: char) {
    IsUpperAscii(c) || IsLowerAscii(c) || IsDigit(c) || c == '.' || c == '_' || c == '-'
  }

  /** A SKU after trimming: 1 to 64 letters, digits, '.', '_' or '-'. */
  predicate SkuOk(s: string) {
    1 <= |s| <= 64 && forall i | 0 <= i < |s| :: IsSkuChar(s[i])
  }

  /** `SkuSchema`. */
  function Sku(key: string, v: Value): (r: Checked<string>)
    ensures r.Valid? <==> v.Str? && SkuOk(Trim(v.s))
    ensures r.Valid? ==> r.value == Trim(v.s)
    ensures r.Invalid? ==> r.errors == {key}
  {
    if v.Str? && SkuOk(Trim(v.s)) then Valid(Trim(v.s)) else Invalid({key})
  }

  /** `z.string().trim().max(hi).optional().nullable()`: absent, null, or the trimmed text. */
  function NullableText(key: string, v: Value, hi: nat): (r: Checked<Option<Value>>)
    ensures r.Valid? <==> v.Undef? || v.Null? || (v.Str? && |Trim(v.s)| <= hi)
    ensures r.Valid? ==> r.value == if v.Undef? then None else if v.Null? then Some(Null) else Some(Str(Trim(v.s)))
    ensures r.Invalid? ==> r.errors == {key}
  {
    if v.Undef? then Valid(None)
    else if v.Null? then Valid(Some(Null))
    else if v.Str? && |Trim(v.s)| <= hi then Valid(Some(Str(Trim(v.s))))
    else Invalid({key})
  }

  /** `z.literal("GBP").optional()`. */
  function OptionalGbp(key: string, v: Value): (r: Checked<Option<string>>)
    ensures r.Valid? <==> v.Undef? || v == Str("GBP")
    ensures r.Valid? ==> r.value == if v.Undef? then None else Some("GBP")
    ensures r.Invalid? ==> r.errors == {key}
  {
    if v.Undef? then Valid(None) else if v == Str("GBP") then Valid(Some("GBP")) else Invalid({key})
  }

  /** `.strict()`: keys outside `known` are one issue about the whole body. */
  function UnknownKeys(body: Value, known: set<string>): (e: set<string>)
    ensures e == {} <==> body.Obj? && body.fields.Keys <= known
  {
    if body.Obj? && body.fields.Keys <= known then {} else {FormLevel}
  }

  const ProductKeys: set<string> := {"sku", "name", "description", "priceInPence", "currency", "isActive"}

  /** What `ProductCreateSchema` accepts, on the normalised value. */
  predicate ProductOk(d: ProductRepo.ProductCreateData) {
    SkuOk(d.sku) && Trimmed(d.sku)
    && 1 <= |d.name| <= 200 && Trimmed(d.name)
    && (d.description.None? || d.description.value.Null?
        || (d.description.value.Str? && |d.description.value.s| <= 2000 && Trimmed(d.description.value.s)))
    && 0 <= d.priceInPence <= 10_000_000
    && (d.currency.None? || d.currency.value == "GBP")
  }

  /** `ProductCreateSchema.safeParse(body)`. */
  function ParseProductCreate(body: Value): (r: Checked<ProductRepo.ProductCreateData>)
    ensures r.Valid? ==> body.Obj? && body.fields.Keys <= ProductKeys && ProductOk(r.value)
    ensures r.Valid? ==> Get(body, "sku").Str? && r.value.sku == Trim(Get(body, "sku").s)
    ensures r.Valid? ==> Get(body, "name").Str? && r.value.name == Trim(Get(body, "name").s)
    ensures r.Valid? ==> Get(body, "priceInPence") == Num(r.value.priceInPence)
    ensures r.Valid? ==> IsNullish(Get(body, "description")) || Get(body, "description").Str?
    ensures r.Valid? ==> Get(body, "currency").Undef? || Get(body, "currency") == Str("GBP")
    ensures r.Valid? ==> Get(body, "isActive").Undef? || Get(body, "isActive").Bool?
    ensures !body.Obj? ==> r == Invalid({FormLevel})
    ensures body.Obj? && !(body.fields.Keys <= ProductKeys) ==> r.Invalid? && FormLevel in r.errors
    ensures r.Invalid? ==> r.errors != {}
  {
    if !body.Obj? then Invalid({FormLevel}) else
      var sku := Sku("sku", Get(body, "sku"));
      var name := TrimmedText("name", Get(body, "name"), 1, 200);
      var description := NullableText("description", Get(body, "description"), 2000);
      var price := IntIn("priceInPence", Get(body, "priceInPence"), 0, Some(10_000_000));
      var currency := OptionalGbp("currency", Get(body, "currency"));
      var isActive := OptionalBool("isActive", Get(body, "isActive"));
      var errors := UnknownKeys(body, ProductKeys) + Errors(sku) + Errors(name) + Errors(description)
                    + Errors(price) + Errors(currency) + Errors(isActive);
      if body.Obj? && body.fields.Keys <= ProductKeys && sku.Valid? && name.Valid? && description.Valid?
         && price.Valid? && currency.Valid? && isActive.Valid? then
        var d := ProductRepo.ProductCreateData(sku.value, name.value, description.value, price.value,
                                               currency.value, isActive.value);
        Valid(d)
      else Invalid(errors)
  }

  /** Every value the schema describes is accepted when sent as it is, and parses to itself. */
  lemma ProductCreateRoundTrip(d: ProductRepo.ProductCreateData)
    requires ProductOk(d)
    ensures ParseProductCreate(Obj(ProductRepo.Fields(d))) == Valid(d)
  {
    FieldsAccepted(d);
    AcceptedFieldsParse(d);
  }

  /** Each field of a value the schema describes passes its own check unchanged. */
  predicate FieldsPass(d: ProductRepo.ProductCreateData) {
    var body := Obj(ProductRepo.Fields(d));
    Sku("sku", Get(body, "sku")) == Valid(d.sku)
    && TrimmedText("name", Get(body, "name"), 1, 200) == Valid(d.name)
    && NullableText("description", Get(body, "description"), 2000) == Valid(d.description)
    && IntIn("priceInPence", Get(body, "priceInPence"), 0, Some(10_000_000)) == Valid(d.priceInPence)
    && OptionalGbp("currency", Get(body, "currency")) == Valid(d.currency)
    && OptionalBool("isActive", Get(body, "isActive")) == Valid(d.isActive)
  }

  lemma AcceptedFieldsParse(d: ProductRepo.ProductCreateData)
    requires FieldsPass(d)
    ensures ParseProductCreate(Obj(ProductRepo.Fields(d))) == Valid(d)
  {
  }

  lemma FieldsAccepted(d: ProductRepo.ProductCreateData)
    requires ProductOk(d)
    ensures FieldsPass(d)
  {
    SkuAccepted(d);
    NameAccepted(d);
    DescriptionAccepted(d);
    PriceAccepted(d);
    FlagsAccepted(d);
  }

  lemma PriceAccepted(d: ProductRepo.ProductCreateData)
    requires 0 <= d.priceInPence <= 10_000_000
    ensures IntIn("priceInPence", Get(Obj(ProductRepo.Fields(d)), "priceInPence"), 0, Some(10_000_000)) == Valid(d.priceInPence)
  {
    assert Get(Obj(ProductRepo.Fields(d)), "priceInPence") == Num(d.priceInPence);
  }

  lemma FlagsAccepted(d: ProductRepo.ProductCreateData)
    requires d.currency.None? || d.currency.value == "GBP"
    ensures OptionalGbp("currency", Get(Obj(ProductRepo.Fields(d)), "currency")) == Valid(d.currency)
    ensures OptionalBool("isActive", Get(Obj(ProductRepo.Fields(d)), "isActive")) == Valid(d.isActive)
  {
    var body := Obj(ProductRepo.Fields(d));
    assert Get(body, "currency") == if d.currency.Some? then Str(d.currency.value) else Undef;
    assert Get(body, "isActive") == if d.isActive.Some? then Bool(d.isActive.value) else Undef;
  }

  lemma SkuAccepted(d: ProductRepo.ProductCreateData)
    requires SkuOk(d.sku) && Trimmed(d.sku)
    ensures Sku("sku", Get(Obj(ProductRepo.Fields(d)), "sku")) == Valid(d.sku)
  {
    var v := Get(Obj(ProductRepo.Fields(d)), "sku");
    assert v == Str(d.sku);
    TrimTrimmed(d.sku);
  }

  lemma NameAccepted(d: ProductRepo.ProductCreateData)
    requires 1 <= |d.name| <= 200 && Trimmed(d.name)
    ensures TrimmedText("name", Get(Obj(ProductRepo.Fields(d)), "name"), 1, 200) == Valid(d.name)
  {
    assert Get(Obj(ProductRepo.Fields(d)), "name") == Str(d.name);
    TextAccepted("name", d.name, 1, 200);
  }

  /** Trimmed text within the bounds passes the text check unchanged. */
  lemma TextAccepted(key: string, s: string, lo: nat, hi: nat)
    requires lo <= |s| <= hi && Trimmed(s)
    ensures TrimmedText(key, Str(s), lo, hi) == Valid(s)
  {
    TrimTrimmed(s);
  }

  lemma DescriptionAccepted(d: ProductRepo.ProductCreateData)
    requires d.description.None? || d.description.value.Null?
      || (d.description.value.Str? && |d.description.value.s| <= 2000 && Trimmed(d.description.value.s))
    ensures NullableText("description", Get(Obj(ProductRepo.Fields(d)), "description"), 2000) == Valid(d.description)
  {
    var v := if d.description.Some? then d.description.value else Undef;
    assert Get(Obj(ProductRepo.Fields(d)), "description") == v;
    NullableTextAccepts(v);
  }

  /** Absent, null, or already trimmed text of at most 2000 characters passes unchanged. */
  lemma NullableTextAccepts(v: Value)
    requires v.Undef? || v.Null? || (v.Str? && |v.s| <= 2000 && Trimmed(v.s))
    ensures NullableText("description", v, 2000) == Valid(if v.Undef? then None else Some(v))
  {
    if v.Str? {
      TrimTrimmed(v.s);
    }
  }

  /** Parsing is a normalisation: the accepted value, sent again, is accepted unchanged. */
  lemma ProductCreateNormalises(body: Value)
    requires ParseProductCreate(body).Valid?
    ensures ParseProductCreate(Obj(ProductRepo.Fields(ParseProductCreate(body).value))) == ParseProductCreate(body)
  {
    ProductCreateRoundTrip(ParseProductCreate(body).value);
  }

  /** `ProductUpdateSchema`'s value: every base field optional, plus the expected version. */
  datatype ProductPatch = ProductPatch(
    expectedVersion: int,
    sku: Option<string>,
    name: Option<string>,
    description: Option<Value>,
    priceInPence: Option<int>,
    currency: Option<string>,
    isActive: Option<bool>)

  /** Some field besides `expectedVersion` is defined. */
  predicate HasChange(p: ProductPatch) {
    p.sku.Some? || p.name.Some? || p.description.Some? || p.priceInPence.Some? || p.currency.Some? || p.isActive.Some?
  }

  /** A field of the update body holds a value of the wrong type (a missing
      `expectedVersion` included). zod then aborts the object and does not run the
      refinement; failed ranges, lengths and patterns and unknown keys only mark the
      parse dirty, and the refinement still runs. */
  predicate UpdateTypeMismatch(body: Value) {
    || !Get(body, "expectedVersion").Num?
    || !(Get(body, "sku").Undef? || Get(body, "sku").Str?)
    || !(Get(body, "name").Undef? || Get(body, "name").Str?)
    || !(Get(body, "description").Undef? || Get(body, "description").Null? || Get(body, "description").Str?)
    || !(Get(body, "priceInPence").Undef? || Get(body, "priceInPence").Num?)
    || !(Get(body, "currency").Undef? || Get(body, "currency") == Str("GBP"))
    || !(Get(body, "isActive").Undef? || Get(body, "isActive").Bool?)
  }

  /** Some product field is defined in the body: what the "No changes provided"
      refinement asks of the parsed object. */
  predicate DefinesProductField(body: Value) {
    || !Get(body, "sku").Undef? || !Get(body, "name").Undef? || !Get(body, "description").Undef?
    || !Get(body, "priceInPence").Undef? || !Get(body, "currency").Undef? || !Get(body, "isActive").Undef?
  }

  /** The refinement's issue, when it runs and fails. */
  function NoChangeIssue(aborted: bool, defined: bool): set<string> {
    if aborted || defined then {} else {FormLevel}
  }

  /** `ProductUpdateSchema.safeParse(body)`: `ProductBase.partial()`, a positive integer
      `expectedVersion`, no unknown keys, and at least one change. */
  function ParseProductUpdate(body: Value): (r: Checked<ProductPatch>)
    ensures r.Valid? ==> body.Obj? && body.fields.Keys <= ProductKeys + {"expectedVersion"}
    ensures r.Valid? ==> r.value.expectedVersion >= 1 && Get(body, "expectedVersion") == Num(r.value.expectedVersion)
    ensures r.Valid? ==> HasChange(r.value)
    ensures r.Valid? ==> (r.value.sku.Some? ==> SkuOk(r.value.sku.value)) && (r.value.priceInPence.Some? ==> 0 <= r.value.priceInPence.value <= 10_000_000)
    ensures r.Valid? ==> (r.value.name.Some? ==> 1 <= |r.value.name.value| <= 200)
    ensures r.Invalid? ==> r.errors != {}
    ensures body.Obj? && !UpdateTypeMismatch(body) && !DefinesProductField(body) ==> r.Invalid? && FormLevel in r.errors
  {
    if !body.Obj? then Invalid({FormLevel}) else
      var version := IntIn("expectedVersion", Get(body, "expectedVersion"), 1, None);
      var sku := Sku("sku", Get(body, "sku"));
      var name := TrimmedText("name", Get(body, "name"), 1, 200);
      var description := NullableText("description", Get(body, "description"), 2000);
      var price := IntIn("priceInPence", Get(body, "priceInPence"), 0, Some(10_000_000));
      var currency := OptionalGbp("currency", Get(body, "currency"));
      var isActive := OptionalBool("isActive", Get(body, "isActive"));
      var osku := OptionalOf(sku, Get(body, "sku"));
      var oname := OptionalOf(name, Get(body, "name"));
      var oprice := OptionalOf(price, Get(body, "priceInPence"));
      var fieldErrors := Errors(version) + Errors(osku) + Errors(oname) + Errors(description)
                         + Errors(oprice) + Errors(currency) + Errors(isActive);
      var unknown := UnknownKeys(body, ProductKeys + {"expectedVersion"});
      if fieldErrors != {} then
        Invalid(unknown + fieldErrors + NoChangeIssue(UpdateTypeMismatch(body), DefinesProductField(body)))
      else
        var p := ProductPatch(version.value, osku.value, oname.value, description.value, oprice.value,
                              currency.value, isActive.value);
        if unknown != {} || !HasChange(p) then Invalid({FormLevel}) else Valid(p)
  }

  /** What the update schema refuses: a body that is not an object, a missing or non-numeric
      expected version, and a body that changes nothing. */
  lemma ParseProductUpdateRefuses(body: Value)
    ensures !body.Obj? ==> ParseProductUpdate(body) == Invalid({FormLevel})
    ensures body.Obj? && !Get(body, "expectedVersion").Num? ==>
      ParseProductUpdate(body).Invalid? && "expectedVersion" in ParseProductUpdate(body).errors
    ensures body.Obj? && body.fields.Keys <= {"expectedVersion"} ==> ParseProductUpdate(body).Invalid?
  {
    if body.Obj? && body.fields.Keys <= {"expectedVersion"} {
      assert "sku" !in body.fields && "name" !in body.fields && "description" !in body.fields;
      assert "priceInPence" !in body.fields && "currency" !in body.fields && "isActive" !in body.fields;
    }
  }

  /** A version that is not positive and no change: both the field issue and the
      refinement's issue are reported. */
  lemma UpdateReportsBothIssues()
    ensures ParseProductUpdate(Obj(map["expectedVersion" := Num(0)])) == Invalid({"expectedVersion", FormLevel})
  {
    var body := Obj(map["expectedVersion" := Num(0)]);
    assert body.fields.Keys == {"expectedVersion"};
    assert !DefinesProductField(body) && !UpdateTypeMismatch(body);
  }

  /** The patch as a request body without its sku: the version and every other defined field. */
  function PatchBody(p: ProductPatch): (m: map<string, Value>)
    ensures m.Keys <= ProductKeys + {"expectedVersion"} && "sku" !in m
    ensures "expectedVersion" in m && m["expectedVersion"] == Num(p.expectedVersion)
    ensures ("name" in m <==> p.name.Some?) && (p.name.Some? ==> m["name"] == Str(p.name.value))
    ensures ("description" in m <==> p.description.Some?) && (p.description.Some? ==> m["description"] == p.description.value)
    ensures ("priceInPence" in m <==> p.priceInPence.Some?) && (p.priceInPence.Some? ==> m["priceInPence"] == Num(p.priceInPence.value))
    ensures ("currency" in m <==> p.currency.Some?) && (p.currency.Some? ==> m["currency"] == Str(p.currency.value))
    ensures ("isActive" in m <==> p.isActive.Some?) && (p.isActive.Some? ==> m["isActive"] == Bool(p.isActive.value))
  {
    var m0 := map["expectedVersion" := Num(p.expectedVersion)];
    var m1 := if p.name.Some? then m0["name" := Str(p.name.value)] else m0;
    var m2 := if p.description.Some? then m1["description" := p.description.value] else m1;
    var m3 := if p.priceInPence.Some? then m2["priceInPence" := Num(p.priceInPence.value)] else m2;
    var m4 := if p.currency.Some? then m3["currency" := Str(p.currency.value)] else m3;
    if p.isActive.Some? then m4["isActive" := Bool(p.isActive.value)] else m4
  }

  /** The patch as a request body: the version and every defined field. */
  function UpdateBody(p: ProductPatch): (m: map<string, Value>)
    ensures m.Keys <= ProductKeys + {"expectedVersion"}
    ensures "expectedVersion" in m && m["expectedVersion"] == Num(p.expectedVersion)
    ensures ("sku" in m <==> p.sku.Some?) && (p.sku.Some? ==> m["sku"] == Str(p.sku.value))
    ensures ("name" in m <==> p.name.Some?) && (p.name.Some? ==> m["name"] == Str(p.name.value))
    ensures ("description" in m <==> p.description.Some?) && (p.description.Some? ==> m["description"] == p.description.value)
    ensures ("priceInPence" in m <==> p.priceInPence.Some?) && (p.priceInPence.Some? ==> m["priceInPence"] == Num(p.priceInPence.value))
    ensures ("currency" in m <==> p.currency.Some?) && (p.currency.Some? ==> m["currency"] == Str(p.currency.value))
    ensures ("isActive" in m <==> p.isActive.Some?) && (p.isActive.Some? ==> m["isActive"] == Bool(p.isActive.value))
  {
    var m := PatchBody(p);
    if p.sku.Some? then m["sku" := Str(p.sku.value)] else m
  }

  /** What `ProductUpdateSchema` answers, on its output. */
  predicate PatchOk(p: ProductPatch) {
    p.expectedVersion >= 1 && HasChange(p)
    && (p.sku.Some? ==> SkuOk(p.sku.value) && Trimmed(p.sku.value))
    && (p.name.Some? ==> 1 <= |p.name.value| <= 200 && Trimmed(p.name.value))
    && (p.description.Some? ==>
          p.description.value.Null?
          || (p.description.value.Str? && |p.description.value.s| <= 2000 && Trimmed(p.description.value.s)))
    && (p.priceInPence.Some? ==> 0 <= p.priceInPence.value <= 10_000_000)
    && (p.currency.Some? ==> p.currency.value == "GBP")
  }

  /** Every patch the schema describes, sent as it is, is accepted and parses to itself. */
  lemma ProductUpdateRoundTrip(p: ProductPatch)
    requires PatchOk(p)
    ensures ParseProductUpdate(Obj(UpdateBody(p))) == Valid(p)
  {
    UpdateFieldsAccepted(p);
    AcceptedUpdateParses(p);
  }

  /** Each field of the patch, written into a body, passes its own check unchanged. */
  predicate UpdateFieldsPass(p: ProductPatch) {
    var body := Obj(UpdateBody(p));
    IntIn("expectedVersion", Get(body, "expectedVersion"), 1, None) == Valid(p.expectedVersion)
    && OptionalOf(Sku("sku", Get(body, "sku")), Get(body, "sku")) == Valid(p.sku)
    && OptionalOf(TrimmedText("name", Get(body, "name"), 1, 200), Get(body, "name")) == Valid(p.name)
    && NullableText("description", Get(body, "description"), 2000) == Valid(p.description)
    && OptionalOf(IntIn("priceInPence", Get(body, "priceInPence"), 0, Some(10_000_000)), Get(body, "priceInPence")) == Valid(p.priceInPence)
    && OptionalGbp("currency", Get(body, "currency")) == Valid(p.currency)
    && OptionalBool("isActive", Get(body, "isActive")) == Valid(p.isActive)
  }

  lemma AcceptedUpdateParses(p: ProductPatch)
    requires HasChange(p) && UpdateFieldsPass(p)
    ensures ParseProductUpdate(Obj(UpdateBody(p))) == Valid(p)
  {
  }

  lemma UpdateFieldsAccepted(p: ProductPatch)
    requires PatchOk(p)
    ensures UpdateFieldsPass(p)
  {
    var m := UpdateBody(p);
    PatchSkuAccepted(p.sku, m);
    PatchNameAccepted(p.name, m);
    PatchDescriptionAccepted(p.description, m, 2000);
    PatchScalarsAccepted(p, m);
  }

  /** The version, price, currency and flag of a patch the schema describes, written into a
      body, pass their checks unchanged. */
  lemma PatchScalarsAccepted(p: ProductPatch, m: map<string, Value>)
    requires p.expectedVersion >= 1 && (p.priceInPence.Some? ==> 0 <= p.priceInPence.value <= 10_000_000)
    requires p.currency.Some? ==> p.currency.value == "GBP"
    requires "expectedVersion" in m && m["expectedVersion"] == Num(p.expectedVersion)
    requires ("priceInPence" in m <==> p.priceInPence.Some?) && (p.priceInPence.Some? ==> m["priceInPence"] == Num(p.priceInPence.value))
    requires ("currency" in m <==> p.currency.Some?) && (p.currency.Some? ==> m["currency"] == Str(p.currency.value))
    requires ("isActive" in m <==> p.isActive.Some?) && (p.isActive.Some? ==> m["isActive"] == Bool(p.isActive.value))
    ensures var body := Obj(m);
      && IntIn("expectedVersion", Get(body, "expectedVersion"), 1, None) == Valid(p.expectedVersion)
      && OptionalOf(IntIn("priceInPence", Get(body, "priceInPence"), 0, Some(10_000_000)), Get(body, "priceInPence")) == Valid(p.priceInPence)
      && OptionalGbp("currency", Get(body, "currency")) == Valid(p.currency)
      && OptionalBool("isActive", Get(body, "isActive")) == Valid(p.isActive)
  {
    var body := Obj(m);
    assert Get(body, "priceInPence") == if p.priceInPence.Some? then Num(p.priceInPence.value) else Undef;
    assert Get(body, "currency") == if p.currency.Some? then Str(p.currency.value) else Undef;
    assert Get(body, "isActive") == if p.isActive.Some? then Bool(p.isActive.value) else Undef;
  }

  /** A defined sku in a body, trimmed and well-formed, passes unchanged. */
  lemma PatchSkuAccepted(sku: Option<string>, m: map<string, Value>)
    requires sku.Some? ==> SkuOk(sku.value) && Trimmed(sku.value)
    requires ("sku" in m <==> sku.Some?) && (sku.Some? ==> m["sku"] == Str(sku.value))
    ensures OptionalOf(Sku("sku", Get(Obj(m), "sku")), Get(Obj(m), "sku")) == Valid(sku)
  {
    if sku.Some? { TrimTrimmed(sku.value); }
  }

  /** A defined name in a body, trimmed and of 1 to 200 characters, passes unchanged. */
  lemma PatchNameAccepted(name: Option<string>, m: map<string, Value>)
    requires name.Some? ==> 1 <= |name.value| <= 200 && Trimmed(name.value)
    requires ("name" in m <==> name.Some?) && (name.Some? ==> m["name"] == Str(name.value))
    ensures OptionalOf(TrimmedText("name", Get(Obj(m), "name"), 1, 200), Get(Obj(m), "name")) == Valid(name)
  {
    if name.Some? { TrimTrimmed(name.value); }
  }

  /** A defined description in a body, null or trimmed text of at most `hi` characters,
      passes unchanged. */
  lemma PatchDescriptionAccepted(description: Option<Value>, m: map<string, Value>, hi: nat)
    requires description.Some? ==>
      description.value.Null?
      || (description.value.Str? && |description.value.s| <= hi && Trimmed(description.value.s))
    requires ("description" in m <==> description.Some?) && (description.Some? ==> m["description"] == description.value)
    ensures NullableText("description", Get(Obj(m), "description"), hi) == Valid(description)
  {
    if description.Some? && description.value.Str? { TrimTrimmed(description.value.s); }
  }

  /** `MemberCapsSchema`'s value. */
  datatype Caps = Caps(isOwner: Option<bool>, canManageMembers: Option<bool>,
                       canManageProducts: Option<bool>, canViewProducts: Option<bool>)

  const CapKeys: set<string> := {"isOwner", "canManageMembers", "canManageProducts", "canViewProducts"}

  /** `MemberCapsSchema`: four optional booleans and nothing else. An issue inside `caps`
      is reported under the key `caps`. */
  function ParseCaps(v: Value): (r: Checked<Caps>)
    ensures r.Valid? <==> v.Obj? && v.fields.Keys <= CapKeys && forall k | k in v.fields :: v.fields[k].Undef? || v.fields[k].Bool?
    ensures r.Valid? ==> r.value.isOwner == (if Get(v, "isOwner").Bool? then Some(Get(v, "isOwner").b) else None)
    ensures r.Invalid? ==> r.errors == {"caps"}
  {
    var a := OptionalBool("caps", Get(v, "isOwner"));
    var b := OptionalBool("caps", Get(v, "canManageMembers"));
    var c := OptionalBool("caps", Get(v, "canManageProducts"));
    var d := OptionalBool("caps", Get(v, "canViewProducts"));
    if v.Obj? && v.fields.Keys <= CapKeys && a.Valid? && b.Valid? && c.Valid? && d.Valid? then
      assert forall k | k in v.fields :: k == "isOwner" || k == "canManageMembers" || k == "canManageProducts" || k == "canViewProducts";
      Valid(Caps(a.value, b.value, c.value, d.value))
    else Invalid({"caps"})
  }

  /** `MemberCreateSchema`'s value. */
  datatype MemberCreate = MemberCreate(email: string, caps: Caps)

  /** `MemberCreateSchema.safeParse(body)`. `isEmail` stands for zod's e-mail check. */
  function ParseMemberCreate(body: Value, isEmail: string -> bool): (r: Checked<MemberCreate>)
    ensures r.Valid? ==> body.Obj? && body.fields.Keys <= {"email", "caps"}
    ensures r.Valid? ==> Get(body, "email").Str? && r.value.email == Trim(Get(body, "email").s) && isEmail(r.value.email)
    ensures r.Valid? && Get(body, "caps").Undef? ==> r.value.caps == Caps(None, None, None, None)
    ensures r.Valid? && !Get(body, "caps").Undef? ==> Valid(r.value.caps) == ParseCaps(Get(body, "caps"))
    ensures Get(body, "caps").Null? ==> r.Invalid? && "caps" in r.errors
    ensures r.Invalid? ==> r.errors != {} && r.errors <= {FormLevel, "email", "caps"}
    ensures !body.Obj? ==> r == Invalid({FormLevel})
  {
    if !body.Obj? then Invalid({FormLevel}) else
      var e := Get(body, "email");
      var email := if e.Str? && isEmail(Trim(e.s)) then Valid(Trim(e.s)) else Invalid({"email"});
      var c := Get(body, "caps");
      var caps := if c.Undef? then Valid(Caps(None, None, None, None)) else ParseCaps(c);
      var errors := UnknownKeys(body, {"email", "caps"}) + Errors(email) + Errors(caps);
      if errors == {} then Valid(MemberCreate(email.value, caps.value)) else Invalid(errors)
  }

  /** A body with only `email` and `caps`, an e-mail address (after trimming) and absent or
      well-formed caps is accepted, with the trimmed address and the caps it names. */
  lemma MemberCreateAccepts(body: Value, isEmail: string -> bool)
    requires body.Obj? && body.fields.Keys <= {"email", "caps"}
    requires Get(body, "email").Str? && isEmail(Trim(Get(body, "email").s))
    requires Get(body, "caps").Undef? || ParseCaps(Get(body, "caps")).Valid?
    ensures var r := ParseMemberCreate(body, isEmail);
      && r.Valid? && r.value.email == Trim(Get(body, "email").s)
      && r.value.caps == if Get(body, "caps").Undef? then Caps(None, None, None, None)
                         else ParseCaps(Get(body, "caps")).value
  {
    assert UnknownKeys(body, {"email", "caps"}) == {};
  }

  /** Some capability is defined. */
  predicate AnyCap(c: Caps) {
    c.isOwner.Some? || c.canManageMembers.Some? || c.canManageProducts.Some? || c.canViewProducts.Some?
  }

  datatype MemberUpdateCaps = MemberUpdateCaps(expectedVersion: int, caps: Caps)

  /** `MemberUpdateCapsSchema.safeParse(body)`: a positive version and caps with at least
      one defined field. */
  function ParseMemberUpdateCaps(body: Value): (r: Checked<MemberUpdateCaps>)
    ensures r.Valid? ==> body.Obj? && body.fields.Keys <= {"expectedVersion", "caps"}
    ensures r.Valid? ==> Get(body, "expectedVersion") == Num(r.value.expectedVersion)
    ensures r.Valid? ==> r.value.expectedVersion >= 1 && AnyCap(r.value.caps)
    ensures r.Valid? ==> Valid(r.value.caps) == ParseCaps(Get(body, "caps"))
    ensures Get(body, "caps") == Obj(map[]) ==> r.Invalid? && "caps" in r.errors
    ensures r.Invalid? ==> r.errors != {} && r.errors <= {FormLevel, "expectedVersion", "caps"}
    ensures !body.Obj? ==> r == Invalid({FormLevel})
  {
    if !body.Obj? then Invalid({FormLevel}) else
      var version := IntIn("expectedVersion", Get(body, "expectedVersion"), 1, None);
      var parsed := ParseCaps(Get(body, "caps"));
      var caps := if parsed.Valid? && !AnyCap(parsed.value) then Invalid({"caps"}) else parsed;
      var unknown := UnknownKeys(body, {"expectedVersion", "caps"});
      if unknown == {} && version.Valid? && caps.Valid? then Valid(MemberUpdateCaps(version.value, caps.value))
      else Invalid(unknown + Errors(version) + Errors(caps))
  }

  /** A body with only `expectedVersion` and `caps`, a positive version and caps that define
      some capability is accepted, with that version and those caps. */
  lemma MemberUpdateCapsAccepts(body: Value)
    requires body.Obj? && body.fields.Keys <= {"expectedVersion", "caps"}
    requires Get(body, "expectedVersion").Num? && Get(body, "expectedVersion").n >= 1
    requires ParseCaps(Get(body, "caps")).Valid? && AnyCap(ParseCaps(Get(body, "caps")).value)
    ensures ParseMemberUpdateCaps(body)
      == Valid(MemberUpdateCaps(Get(body, "expectedVersion").n, ParseCaps(Get(body, "caps")).value))
  {
    assert UnknownKeys(body, {"expectedVersion", "caps"}) == {};
  }

  /** `TenantSelectSchema.safeParse(body)`. `isUuid` stands for zod's UUID check. */
  function ParseTenantSelect(body: Value, isUuid: string -> bool): (r: Checked<string>)
    ensures r.Valid? <==> body.Obj? && body.fields.Keys <= {"tenantId"} && Get(body, "tenantId").Str? && isUuid(Get(body, "tenantId").s)
    ensures r.Valid? ==> r.value == Get(body, "tenantId").s
    ensures !body.Obj? ==> r == Invalid({FormLevel})
  {
    if !body.Obj? then Invalid({FormLevel}) else
      var t := Get(body, "tenantId");
      var tenantId := if t.Str? && isUuid(t.s) then Valid(t.s) else Invalid({"tenantId"});
      var errors := UnknownKeys(body, {"tenantId"}) + Errors(tenantId);
      if errors == {} then Valid(tenantId.value) else Invalid(errors)
  }
}
