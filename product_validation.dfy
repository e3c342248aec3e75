/** The second, more lenient pair of product schemas: create checks lengths without
    trimming and strips unknown keys instead of refusing them; update trims and
    upper-cases the currency and asks for at least one change. */
module ProductValidation {
  import opened Common
  import opened Json
  import opened Schemas
  import ProductRepo

  /** `z.string().min(1)`: the text as sent, untrimmed. */
  function NonEmptyText(key: string, v: Value): (r: Checked<string>)
    ensures r.Valid? <==> v.Str? && |v.s| >= 1
    ensures r.Valid? ==> r.value == v.s
    ensures r.Invalid? ==> r.errors == {key}
  {
    if v.Str? && |v.s| >= 1 then Valid(v.s) else Invalid({key})
  }

  /** `z.string().nullable().optional()`: absent, null, or any text. */
  function AnyNullableText(key: string, v: Value): (r: Checked<Option<Value>>)
    ensures r.Valid? <==> v.Undef? || v.Null? || v.Str?
    ensures r.Valid? ==> r.value == if v.Undef? then None else Some(v)
    ensures r.Invalid? ==> r.errors == {key}
  {
    if v.Undef? then Valid(None) else if v.Null? || v.Str? then Valid(Some(v)) else Invalid({key})
  }

  /** `z.string().length(3).default("GBP").optional()`: the outer `.optional()` answers
      `undefined` before the default is consulted, so an absent currency stays absent. */
  function OptionalCode(key: string, v: Value): (r: Checked<Option<string>>)
    ensures r.Valid? <==> v.Undef? || (v.Str? && |v.s| == 3)
    ensures r.Valid? ==> r.value == if v.Undef? then None else Some(v.s)
    ensures r.Invalid? ==> r.errors == {key}
  {
    if v.Undef? then Valid(None) else if v.Str? && |v.s| == 3 then Valid(Some(v.s)) else Invalid({key})
  }

  /** What `ProductCreateInput` accepts, on its output. */
  predicate CreateInputOk(d: ProductRepo.ProductCreateData) {
    |d.sku| >= 1 && |d.name| >= 1
    && (d.description.None? || d.description.value.Null? || d.description.value.Str?)
    && d.priceInPence >= 0
    && (d.currency.None? || |d.currency.value| == 3)
  }

  /** The body `ProductCreateInput` accepts: each named field passes its own check;
      other keys may hold anything. */
  predicate CreateBodyOk(body: Value) {
    body.Obj?
    && Get(body, "sku").Str? && |Get(body, "sku").s| >= 1
    && Get(body, "name").Str? && |Get(body, "name").s| >= 1
    && (IsNullish(Get(body, "description")) || Get(body, "description").Str?)
    && Get(body, "priceInPence").Num? && Get(body, "priceInPence").n >= 0
    && (Get(body, "currency").Undef? || (Get(body, "currency").Str? && |Get(body, "currency").s| == 3))
    && (Get(body, "isActive").Undef? || Get(body, "isActive").Bool?)
  }

  /** `ProductCreateInput.safeParse(body)`. Keys the schema does not name are dropped. */
  function ParseCreateInput(body: Value): (r: Checked<ProductRepo.ProductCreateData>)
    ensures !body.Obj? ==> r == Invalid({FormLevel})
    ensures r.Valid? <==> CreateBodyOk(body)
    ensures r.Valid? ==> CreateInputOk(r.value)
    ensures r.Valid? ==> Get(body, "sku") == Str(r.value.sku) && Get(body, "name") == Str(r.value.name)
    ensures r.Valid? ==> Get(body, "priceInPence") == Num(r.value.priceInPence)
    ensures r.Valid? && Get(body, "currency").Undef? ==> r.value.currency.None?
    ensures r.Valid? && Get(body, "isActive").Undef? ==> r.value.isActive.None?
    ensures r.Invalid? ==> r.errors != {}
  {
    if !body.Obj? then Invalid({FormLevel}) else
    var sku := NonEmptyText("sku", Get(body, "sku"));
    var name := NonEmptyText("name", Get(body, "name"));
    var description := AnyNullableText("description", Get(body, "description"));
    var price := IntIn("priceInPence", Get(body, "priceInPence"), 0, None);
    var currency := OptionalCode("currency", Get(body, "currency"));
    var isActive := OptionalBool("isActive", Get(body, "isActive"));
    if sku.Valid? && name.Valid? && description.Valid? && price.Valid? && currency.Valid? && isActive.Valid? then
      Valid(ProductRepo.ProductCreateData(sku.value, name.value, description.value, price.value,
                                          currency.value, isActive.value))
    else
      Invalid(Errors(sku) + Errors(name) + Errors(description) + Errors(price) + Errors(currency) + Errors(isActive))
  }

  /** A key the schema does not name changes nothing: it is stripped, not refused. */
  lemma CreateInputIgnoresUnknownKey(m: map<string, Value>, k: string, v: Value)
    requires k !in ProductKeys
    ensures ParseCreateInput(Obj(m[k := v])) == ParseCreateInput(Obj(m))
  {
    var a, b := Obj(m[k := v]), Obj(m);
    assert forall f | f in ProductKeys :: Get(a, f) == Get(b, f);
    assert Get(a, "sku") == Get(b, "sku") && Get(a, "name") == Get(b, "name");
    assert Get(a, "description") == Get(b, "description") && Get(a, "priceInPence") == Get(b, "priceInPence");
    assert Get(a, "currency") == Get(b, "currency") && Get(a, "isActive") == Get(b, "isActive");
  }

  /** Every value the schema describes, sent as it is, parses to itself. */
  lemma CreateInputRoundTrip(d: ProductRepo.ProductCreateData)
    requires CreateInputOk(d)
    ensures ParseCreateInput(Obj(ProductRepo.Fields(d))) == Valid(d)
  {
    var body := Obj(ProductRepo.Fields(d));
    assert Get(body, "description") == if d.description.Some? then d.description.value else Undef;
    assert Get(body, "currency") == if d.currency.Some? then Str(d.currency.value) else Undef;
    assert Get(body, "isActive") == if d.isActive.Some? then Bool(d.isActive.value) else Undef;
  }

  /** Whatever the strict create schema accepts, this one accepts too, with the same
      price and with sku and name that trim to the strict schema's values. */
  lemma StrictCreateImpliesLenient(body: Value)
    requires ParseProductCreate(body).Valid?
    ensures ParseCreateInput(body).Valid?
    ensures Trim(ParseCreateInput(body).value.sku) == ParseProductCreate(body).value.sku
    ensures Trim(ParseCreateInput(body).value.name) == ParseProductCreate(body).value.name
    ensures ParseCreateInput(body).value.priceInPence == ParseProductCreate(body).value.priceInPence
  {
    StrictTexts(body);
    StrictOptionals(body);
    StrictBodyIsLenient(body);
    var lenient := ParseCreateInput(body).value;
    assert Str(lenient.sku) == Get(body, "sku") && Str(lenient.name) == Get(body, "name");
  }

  /** The field shapes the strict create schema leaves in an accepted body. */
  predicate StrictShape(body: Value) {
    body.Obj? && Get(body, "sku").Str? && |Get(body, "sku").s| >= 1
    && Get(body, "name").Str? && |Get(body, "name").s| >= 1
    && (IsNullish(Get(body, "description")) || Get(body, "description").Str?)
    && Get(body, "priceInPence").Num? && Get(body, "priceInPence").n >= 0
    && (Get(body, "currency").Undef? || Get(body, "currency") == Str("GBP"))
    && (Get(body, "isActive").Undef? || Get(body, "isActive").Bool?)
  }

  lemma StrictBodyIsLenient(body: Value)
    requires StrictShape(body)
    ensures CreateBodyOk(body)
  {
  }

  lemma StrictTexts(body: Value)
    requires ParseProductCreate(body).Valid?
    ensures body.Obj? && Get(body, "sku").Str? && |Get(body, "sku").s| >= 1
    ensures Get(body, "name").Str? && |Get(body, "name").s| >= 1
  {
    TrimNonEmpty(Get(body, "sku").s);
    TrimNonEmpty(Get(body, "name").s);
  }

  lemma StrictOptionals(body: Value)
    requires ParseProductCreate(body).Valid?
    ensures IsNullish(Get(body, "description")) || Get(body, "description").Str?
    ensures Get(body, "priceInPence").Num? && Get(body, "priceInPence").n >= 0
    ensures Get(body, "currency").Undef? || Get(body, "currency") == Str("GBP")
    ensures Get(body, "isActive").Undef? || Get(body, "isActive").Bool?
  {
  }

  lemma TrimNonEmpty(s: string)
    requires |Trim(s)| >= 1
    ensures |s| >= 1
  {
    assert |Trim(s)| <= |s|;
  }

  /** The converse fails: a body the strict schema accepts, with one extra key, is refused
      by the strict schema and still accepted here. */
  lemma LenientAcceptsUnknownKey(m: map<string, Value>, k: string, v: Value)
    requires ParseProductCreate(Obj(m)).Valid?
    requires k !in ProductKeys
    ensures ParseCreateInput(Obj(m[k := v])).Valid?
    ensures ParseProductCreate(Obj(m[k := v])).Invalid?
  {
    StrictCreateImpliesLenient(Obj(m));
    CreateInputIgnoresUnknownKey(m, k, v);
    assert k in Obj(m[k := v]).fields.Keys;
  }

  /** `z.string().trim().length(3).toUpperCase()`. */
  function CurrencyCode(key: string, v: Value): (r: Checked<string>)
    ensures r.Valid? <==> v.Str? && |Trim(v.s)| == 3
    ensures r.Valid? ==> r.value == ToUpper(Trim(v.s))
    ensures r.Invalid? ==> r.errors == {key}
  {
    if v.Str? && |Trim(v.s)| == 3 then Valid(ToUpper(Trim(v.s))) else Invalid({key})
  }

  /** A field of `ProductUpdateInput` holds a value of the wrong type (a missing
      `expectedVersion` included): zod aborts the object and skips the refinement. */
  predicate UpdateInputTypeMismatch(body: Value) {
    || !Get(body, "expectedVersion").Num?
    || !(Get(body, "name").Undef? || Get(body, "name").Str?)
    || !(Get(body, "description").Undef? || Get(body, "description").Null? || Get(body, "description").Str?)
    || !(Get(body, "priceInPence").Undef? || Get(body, "priceInPence").Num?)
    || !(Get(body, "currency").Undef? || Get(body, "currency").Str?)
    || !(Get(body, "isActive").Undef? || Get(body, "isActive").Bool?)
  }

  /** Some field the schema names besides `expectedVersion` is defined. */
  predicate DefinesUpdateField(body: Value) {
    || !Get(body, "name").Undef? || !Get(body, "description").Undef? || !Get(body, "priceInPence").Undef?
    || !Get(body, "currency").Undef? || !Get(body, "isActive").Undef?
  }

  /** `ProductUpdateInput.safeParse(body)`. The value has no sku; keys the schema does not
      name are dropped before the "some change" refinement looks at the fields. */
  function ParseUpdateInput(body: Value): (r: Checked<ProductPatch>)
    ensures !body.Obj? ==> r == Invalid({FormLevel})
    ensures r.Valid? ==> body.Obj? && r.value.sku.None? && HasChange(r.value)
    ensures r.Valid? ==> r.value.expectedVersion >= 1 && Get(body, "expectedVersion") == Num(r.value.expectedVersion)
    ensures r.Valid? ==> (r.value.name.Some? <==> !Get(body, "name").Undef?)
                         && (r.value.name.Some? ==> 1 <= |r.value.name.value| <= 200 && Get(body, "name").Str? && r.value.name.value == Trim(Get(body, "name").s))
    ensures r.Valid? ==> (r.value.priceInPence.Some? ==> 0 <= r.value.priceInPence.value)
    ensures r.Valid? && r.value.currency.Some? ==>
      Get(body, "currency").Str? && r.value.currency.value == ToUpper(Trim(Get(body, "currency").s))
      && |r.value.currency.value| == 3
    ensures body.Obj? && !Get(body, "expectedVersion").Num? ==> r.Invalid? && "expectedVersion" in r.errors
    ensures (Get(body, "name").Undef? && Get(body, "description").Undef? && Get(body, "priceInPence").Undef?
             && Get(body, "currency").Undef? && Get(body, "isActive").Undef?) ==> r.Invalid?
    ensures r.Invalid? ==> r.errors != {}
    ensures body.Obj? && !UpdateInputTypeMismatch(body) && !DefinesUpdateField(body) ==> r.Invalid? && FormLevel in r.errors
  {
    if !body.Obj? then Invalid({FormLevel}) else
    var version := IntIn("expectedVersion", Get(body, "expectedVersion"), 1, None);
    var name := OptionalOf(TrimmedText("name", Get(body, "name"), 1, 200), Get(body, "name"));
    var description := NullableText("description", Get(body, "description"), 1000);
    var price := OptionalOf(IntIn("priceInPence", Get(body, "priceInPence"), 0, None), Get(body, "priceInPence"));
    var currency := OptionalOf(CurrencyCode("currency", Get(body, "currency")), Get(body, "currency"));
    var isActive := OptionalBool("isActive", Get(body, "isActive"));
    var fieldErrors := Errors(version) + Errors(name) + Errors(description) + Errors(price)
                       + Errors(currency) + Errors(isActive);
    if fieldErrors != {} then Invalid(fieldErrors + NoChangeIssue(UpdateInputTypeMismatch(body), DefinesUpdateField(body)))
    else
      var p := ProductPatch(version.value, None, name.value, description.value, price.value,
                            currency.value, isActive.value);
      if !HasChange(p) then Invalid({FormLevel}) else Valid(p)
  }

  /** A version that is not positive and no change: both issues are reported. */
  lemma UpdateInputReportsBothIssues()
    ensures ParseUpdateInput(Obj(map["expectedVersion" := Num(0)])) == Invalid({"expectedVersion", FormLevel})
  {
    var body := Obj(map["expectedVersion" := Num(0)]);
    assert body.fields.Keys == {"expectedVersion"};
    assert !DefinesUpdateField(body) && !UpdateInputTypeMismatch(body);
  }

  /** What `ProductUpdateInput` answers, on its output. */
  predicate UpdateInputOk(p: ProductPatch) {
    p.expectedVersion >= 1 && p.sku.None? && HasChange(p)
    && (p.name.Some? ==> 1 <= |p.name.value| <= 200 && Trimmed(p.name.value))
    && (p.description.Some? ==>
          p.description.value.Null?
          || (p.description.value.Str? && |p.description.value.s| <= 1000 && Trimmed(p.description.value.s)))
    && (p.priceInPence.Some? ==> p.priceInPence.value >= 0)
    && (p.currency.Some? ==> |p.currency.value| == 3 && Trimmed(p.currency.value) && ToUpper(p.currency.value) == p.currency.value)
  }

  /** Every patch the schema describes, sent as it is, parses to itself. */
  lemma UpdateInputRoundTrip(p: ProductPatch)
    requires UpdateInputOk(p)
    ensures ParseUpdateInput(Obj(PatchBody(p))) == Valid(p)
  {
    PatchFieldsAccepted(p);
    AcceptedPatchParses(p);
  }

  /** Each field of the patch, written into a body, passes its own check unchanged. */
  predicate PatchFieldsPass(p: ProductPatch) {
    var body := Obj(PatchBody(p));
    IntIn("expectedVersion", Get(body, "expectedVersion"), 1, None) == Valid(p.expectedVersion)
    && OptionalOf(TrimmedText("name", Get(body, "name"), 1, 200), Get(body, "name")) == Valid(p.name)
    && NullableText("description", Get(body, "description"), 1000) == Valid(p.description)
    && OptionalOf(IntIn("priceInPence", Get(body, "priceInPence"), 0, None), Get(body, "priceInPence")) == Valid(p.priceInPence)
    && OptionalOf(CurrencyCode("currency", Get(body, "currency")), Get(body, "currency")) == Valid(p.currency)
    && OptionalBool("isActive", Get(body, "isActive")) == Valid(p.isActive)
  }

  lemma AcceptedPatchParses(p: ProductPatch)
    requires p.sku.None? && HasChange(p) && PatchFieldsPass(p)
    ensures ParseUpdateInput(Obj(PatchBody(p))) == Valid(p)
  {
  }

  lemma PatchFieldsAccepted(p: ProductPatch)
    requires UpdateInputOk(p)
    ensures PatchFieldsPass(p)
  {
    PatchTextsAccepted(p);
    PatchCurrencyAccepted(p);
    var body := Obj(PatchBody(p));
    assert Get(body, "priceInPence") == if p.priceInPence.Some? then Num(p.priceInPence.value) else Undef;
    assert Get(body, "isActive") == if p.isActive.Some? then Bool(p.isActive.value) else Undef;
  }

  lemma PatchTextsAccepted(p: ProductPatch)
    requires UpdateInputOk(p)
    ensures var body := Obj(PatchBody(p));
      OptionalOf(TrimmedText("name", Get(body, "name"), 1, 200), Get(body, "name")) == Valid(p.name)
      && NullableText("description", Get(body, "description"), 1000) == Valid(p.description)
  {
    PatchNameAccepted(p.name, PatchBody(p));
    PatchDescriptionAccepted(p.description, PatchBody(p), 1000);
  }

  lemma PatchCurrencyAccepted(p: ProductPatch)
    requires UpdateInputOk(p)
    ensures var body := Obj(PatchBody(p));
      OptionalOf(CurrencyCode("currency", Get(body, "currency")), Get(body, "currency")) == Valid(p.currency)
  {
    var body := Obj(PatchBody(p));
    assert Get(body, "currency") == if p.currency.Some? then Str(p.currency.value) else Undef;
    if p.currency.Some? { TrimTrimmed(p.currency.value); }
  }

  /** Upper-casing keeps a trimmed text trimmed and is idempotent. */
  lemma UpperTrimmed(s: string)
    requires Trimmed(s)
    ensures Trimmed(ToUpper(s)) && ToUpper(ToUpper(s)) == ToUpper(s)
  {
    if s != [] {
      assert !IsSpace(ToUpper(s)[0]) && !IsSpace(ToUpper(s)[|s| - 1]);
    }
  }

  /** Parsing is a normalisation: the accepted patch, sent again, is accepted unchanged. */
  lemma UpdateInputNormalises(body: Value)
    requires ParseUpdateInput(body).Valid?
    ensures UpdateInputOk(ParseUpdateInput(body).value)
    ensures ParseUpdateInput(Obj(PatchBody(ParseUpdateInput(body).value))) == ParseUpdateInput(body)
  {
    var p := ParseUpdateInput(body).value;
    if p.currency.Some? {
      UpperTrimmed(Trim(Get(body, "currency").s));
    }
    if p.description.Some? && p.description.value.Str? {
      assert NullableText("description", Get(body, "description"), 1000).Valid?;
    }
    UpdateInputRoundTrip(p);
  }
}
