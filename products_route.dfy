/** `GET` and `POST /api/admin/products`: the product list of the current tenant, one page
    at a time, and the creation of a product. Both need the manage-products capability;
    both reach the product table only through the tenant-bound client. */
module ProductsRoute {
  import opened Common
  import opened Json
  import opened Table
  import opened Requests
  import opened Http
  import opened TenantGuard
  import opened GuardIsolation
  import opened RouteAuth
  import RouteWrappers
  import opened PrismaErrors
  import opened Audit
  import opened ProductRepo
  import Schemas
  import opened Paging

  // ---------------------------------------------------------------------------
  // The page size

  /** A JavaScript number as `Number(text)` produces it; finite values are exact. */
  datatype JsNumber = Finite(x: real) | PosInfinity | NegInfinity | NaN

  /** The value of a digit or letter as a digit of bases up to 36; 36 for anything else. */
  function DigitValue(c: char): (v: nat)
    ensures v < 10 <==> IsDigit(c)
  {
    if IsDigit(c) then c as int - '0' as int
    else if 'a' <= c <= 'z' then c as int - 'a' as int + 10
    else if 'A' <= c <= 'Z' then c as int - 'A' as int + 10
    else 36
  }

  /** Every character of `s` is a digit of base `base`. */
  predicate DigitsIn(s: string, base: nat) {
    forall i | 0 <= i < |s| :: DigitValue(s[i]) < base
  }

  /** The value of the digits `s` in base `base`, most significant first. */
  function ValueIn(s: string, base: nat): nat
    decreases |s|
  {
    if s == [] then 0 else ValueIn(s[..|s| - 1], base) * base + DigitValue(s[|s| - 1])
  }

  /** `x * 10^e`, one factor of ten at a time. */
  function Scaled(x: real, e: int): (r: real)
    ensures e == 0 ==> r == x
    decreases if e >= 0 then e else -e
  {
    if e == 0 then x
    else if e > 0 then Scaled(x, e - 1) * 10.0
    else Scaled(x, e + 1) / 10.0
  }

  /** The exponent after "e": an optional sign and at least one decimal digit. */
  function ExponentOf(e: string): Option<int> {
    var neg := e != [] && e[0] == '-';
    var digits := if e != [] && (e[0] == '+' || e[0] == '-') then e[1..] else e;
    if digits == [] || !DigitsIn(digits, 10) then None
    else Some(if neg then -(ValueIn(digits, 10) as int) else ValueIn(digits, 10))
  }

  /** Index of the first 'e' or 'E', or `|s|`. */
  function ExponentMark(s: string): (i: nat)
    ensures i <= |s|
    ensures forall j | 0 <= j < i :: s[j] != 'e' && s[j] != 'E'
    ensures i < |s| ==> s[i] == 'e' || s[i] == 'E'
  {
    if s == [] then 0 else if s[0] == 'e' || s[0] == 'E' then 0 else 1 + ExponentMark(s[1..])
  }

  /** An unsigned decimal literal: digits with at most one '.', at least one digit, and an
      optional exponent ("12", "1.5", ".5", "5.", "1e2", "2.5E-3"). */
  function DecimalValue(body: string): Option<real> {
    var m := ExponentMark(body);
    var exponent := if m < |body| then ExponentOf(body[m + 1..]) else Some(0);
    var mantissa := MantissaValue(body[..m]);
    if exponent.None? || mantissa.None? then None
    else Some(Scaled(mantissa.value, exponent.value))
  }

  /** The part before the exponent: digits with at most one '.', and at least one digit. */
  function MantissaValue(mantissa: string): Option<real> {
    var dot := IndexOf(mantissa, '.');
    var whole := mantissa[..dot];
    var fraction := if dot < |mantissa| then mantissa[dot + 1..] else "";
    if !DigitsIn(whole, 10) || !DigitsIn(fraction, 10) || (whole == [] && fraction == []) then None
    else Some(Scaled(ValueIn(whole + fraction, 10) as real, -|fraction|))
  }

  /** `Number(text)`: surrounding blanks are ignored and the empty string is 0; "0x", "0o" and
      "0b" prefix unsigned hexadecimal, octal and binary digits; otherwise an optional sign
      precedes `Infinity` or a decimal literal; everything else is NaN. Finite values are
      the exact value of the literal. */
  function NumberOf(text: string): JsNumber {
    var t := Trim(text);
    if t == "" then Finite(0.0)
    else match PrefixedValue(t)
      case Some(v) => Finite(v)
      case None => SignedValue(t)
  }

  /** The base a "0x", "0o" or "0b" prefix selects, or 10 when there is none. */
  function Radix(t: string): nat {
    if |t| > 2 && t[0] == '0' then
      if t[1] == 'x' || t[1] == 'X' then 16
      else if t[1] == 'o' || t[1] == 'O' then 8
      else if t[1] == 'b' || t[1] == 'B' then 2
      else 10
    else 10
  }

  /** A prefixed literal followed only by digits of its base. */
  function PrefixedValue(t: string): Option<real> {
    if Radix(t) != 10 && DigitsIn(t[2..], Radix(t)) then Some(ValueIn(t[2..], Radix(t)) as real) else None
  }

  /** An optional sign followed by `Infinity` or by an unsigned decimal literal. */
  function SignedValue(t: string): JsNumber
    requires t != ""
  {
    var neg := t[0] == '-';
    var body := if t[0] == '+' || t[0] == '-' then t[1..] else t;
    if body == "Infinity" then (if neg then NegInfinity else PosInfinity)
    else match DecimalValue(body)
      case Some(v) => Finite(if neg then -v else v)
      case None => NaN
  }

  lemma {:induction false} DigitsOfNat(n: nat)
    ensures DigitsIn(NatToString(n), 10) && ValueIn(NatToString(n), 10) == n
    decreases n
  {
    var s := NatToString(n);
    if n >= 10 {
      assert s[..|s| - 1] == NatToString(n / 10);
      DigitsOfNat(n / 10);
    } else {
      assert s[..|s| - 1] == [];
    }
  }

  /** A non-empty string of decimal digits reads as its decimal value. */
  lemma NumberOfDigits(t: string)
    requires t != "" && DigitsIn(t, 10)
    ensures NumberOf(t) == Finite(ValueIn(t, 10) as real)
  {
    assert IsDigit(t[0]) && IsDigit(t[|t| - 1]);
    TrimTrimmed(t);
    assert Radix(t) == 10 by { assert |t| > 2 ==> IsDigit(t[1]); }
    DecimalOfDigits(t);
    assert t != "Infinity" by { assert "Infinity"[0] == 'I'; }
  }

  /** Digits alone are a decimal literal without fraction or exponent. */
  lemma DecimalOfDigits(t: string)
    requires DigitsIn(t, 10) && t != ""
    ensures DecimalValue(t) == Some(ValueIn(t, 10) as real)
  {
    DigitsHaveNoMarks(t);
    assert t[..|t|] == t && t + "" == t;
    assert MantissaValue(t) == Some(ValueIn(t, 10) as real);
    NoExponent(t);
  }

  /** Without an exponent mark, the literal is its mantissa. */
  lemma NoExponent(t: string)
    requires ExponentMark(t) == |t| && MantissaValue(t).Some?
    ensures DecimalValue(t) == MantissaValue(t)
  {
    assert t[..|t|] == t;
  }

  /** A string of digits has neither an exponent mark nor a '.'. */
  lemma DigitsHaveNoMarks(t: string)
    requires DigitsIn(t, 10)
    ensures ExponentMark(t) == |t| && IndexOf(t, '.') == |t|
  {
    assert forall i | 0 <= i < |t| :: IsDigit(t[i]);
  }

  /** `Number(String(n))` gives `n` back. */
  lemma NumberOfDecimal(n: nat)
    ensures NumberOf(NatToString(n)) == Finite(n as real)
  {
    DigitsOfNat(n);
    NumberOfDigits(NatToString(n));
  }

  /** `Number(limit ?? 25)`. */
  function Requested(param: Option<string>): JsNumber {
    if param.None? then Finite(25.0) else NumberOf(param.value)
  }

  /** `Math.min(Math.max(n, 1), 100)`; `None` is NaN, which both `min` and `max` propagate. */
  function Clamp(n: JsNumber): (r: Option<real>)
    ensures r.None? <==> n.NaN?
    ensures r.Some? ==> 1.0 <= r.value <= 100.0
    ensures n.PosInfinity? ==> r == Some(100.0)
    ensures n.NegInfinity? ==> r == Some(1.0)
    ensures n.Finite? && n.x <= 1.0 ==> r == Some(1.0)
    ensures n.Finite? && n.x >= 100.0 ==> r == Some(100.0)
    ensures n.Finite? && 1.0 <= n.x <= 100.0 ==> r == Some(n.x)
  {
    match n
    case Finite(x) => Some(if x < 1.0 then 1.0 else if x > 100.0 then 100.0 else x)
    case PosInfinity => Some(100.0)
    case NegInfinity => Some(1.0)
    case NaN => None
  }

  /** The page size Prisma takes: the clamped limit when it is a whole number. NaN and a
      fraction (`?limit=2.5`) are not integers, and Prisma refuses them as `take`. */
  function Limit(param: Option<string>): (r: Option<int>)
    ensures r.Some? ==> 1 <= r.value <= 100
    ensures param.None? ==> r == Some(25)
    ensures Requested(param).NaN? ==> r.None?
    ensures Requested(param).PosInfinity? ==> r == Some(100)
    ensures Requested(param).NegInfinity? ==> r == Some(1)
    ensures Requested(param).Finite? ==>
      var x := Requested(param).x;
      && (x <= 1.0 ==> r == Some(1))
      && (x >= 100.0 ==> r == Some(100))
      && (1.0 < x < 100.0 ==> (r.Some? <==> x == x.Floor as real) && (r.Some? ==> r.value as real == x))
  {
    var c := Clamp(Requested(param));
    if c.None? then None
    else if c.value == 1.0 then Some(1)
    else if c.value == 100.0 then Some(100)
    else if c.value != c.value.Floor as real then None
    else Some(c.value.Floor)
  }

  /** A decimal limit within [1, 100] is taken as it is; outside, it is clamped. */
  lemma LimitOfDecimal(n: nat)
    ensures 1 <= n <= 100 ==> Limit(Some(NatToString(n))) == Some(n)
    ensures n == 0 ==> Limit(Some(NatToString(n))) == Some(1)
    ensures n > 100 ==> Limit(Some(NatToString(n))) == Some(100)
  {
    NumberOfDecimal(n);
  }

  /** `?limit=1e2` is 100 in exponent notation. */
  lemma LimitOfExponent()
    ensures Limit(Some("1e2")) == Some(100)
  {
    ExponentLiteral();
    UnsignedLiteral("1e2", 100.0);
  }

  /** "1e2" is one hundred. */
  lemma ExponentLiteral()
    ensures DecimalValue("1e2") == Some(100.0)
  {
    var t := "1e2";
    assert ExponentMark(t) == 1;
    assert t[2..] == "2" && ExponentOf("2") == Some(2);
    assert t[..1] == "1" && MantissaValue("1") == Some(1.0) by {
      assert IndexOf("1", '.') == 1 && "1"[..1] == "1" && "1" + "" == "1";
    }
    assert Scaled(1.0, 2) == 100.0 by { assert Scaled(1.0, 1) == 10.0; }
  }

  /** `?limit=0x10` is the hexadecimal 16. */
  lemma LimitOfHex()
    ensures Limit(Some("0x10")) == Some(16)
  {
    HexLiteral();
    PrefixedLiteral("0x10", 16.0);
  }

  /** "0x10" is sixteen. */
  lemma HexLiteral()
    ensures PrefixedValue("0x10") == Some(16.0)
  {
    var t := "0x10";
    assert Radix(t) == 16;
    assert t[2..] == "10" && DigitsIn("10", 16);
    assert ValueIn("10", 16) == 16 by { assert "10"[..1] == "1" && "1"[..0] == ""; }
  }

  /** `?limit=10.0` is the whole number 10. */
  lemma LimitOfPointZero()
    ensures Limit(Some("10.0")) == Some(10)
  {
    assert "10.0" == "10" + ['.', '0'];
    assert "10" + ['0'] == "100";
    assert ValueIn("100", 10) == 100 by { assert "100"[..2] == "10" && "10"[..1] == "1" && "1"[..0] == ""; }
    PointLimit("10", '0', 10.0);
  }

  /** `?limit=0.5` is clamped up to 1. */
  lemma LimitOfHalf()
    ensures Limit(Some("0.5")) == Some(1)
  {
    assert "0.5" == "0" + ['.', '5'];
    assert "0" + ['5'] == "05";
    assert ValueIn("05", 10) == 5 by { assert "05"[..1] == "0" && "0"[..0] == ""; }
    PointLimit("0", '5', 0.5);
  }

  /** `?limit=2.5` is not a whole number, so no page size is produced. */
  lemma LimitOfFraction()
    ensures Limit(Some("2.5")).None?
  {
    assert "2.5" == "2" + ['.', '5'];
    assert "2" + ['5'] == "25";
    assert ValueIn("25", 10) == 25 by { assert "25"[..1] == "2" && "2"[..0] == ""; }
    PointLimit("2", '5', 2.5);
  }

  /** A trimmed literal starting with a digit and without a radix prefix reads as a decimal. */
  lemma UnsignedLiteral(t: string, v: real)
    requires t != "" && IsDigit(t[0]) && IsDigit(t[|t| - 1])
    requires Radix(t) == 10 && DecimalValue(t) == Some(v)
    ensures Requested(Some(t)) == Finite(v)
  {
    TrimTrimmed(t);
  }

  /** A trimmed prefixed literal reads as its digits in the prefix's base. */
  lemma PrefixedLiteral(t: string, v: real)
    requires t != "" && Trimmed(t) && PrefixedValue(t) == Some(v)
    ensures Requested(Some(t)) == Finite(v)
  {
    TrimTrimmed(t);
  }

  /** Digits, a '.' and one more digit, as the `limit` parameter. */
  lemma PointLimit(whole: string, d: char, v: real)
    requires whole != "" && DigitsIn(whole, 10) && IsDigit(d)
    requires v == (ValueIn(whole + [d], 10) as real) / 10.0
    ensures Requested(Some(whole + ['.', d])) == Finite(v)
  {
    var t := whole + ['.', d];
    PointLiteral(whole, d);
    assert DigitValue(whole[0]) < 10;
    assert t[0] == whole[0] && t[|t| - 1] == d;
    assert Radix(t) == 10 by { PointNoRadix(whole, d); }
    UnsignedLiteral(t, v);
  }

  /** A literal that starts with digits and a '.' has no radix prefix. */
  lemma PointNoRadix(whole: string, d: char)
    requires whole != "" && DigitsIn(whole, 10)
    ensures Radix(whole + ['.', d]) == 10
  {
    var t := whole + ['.', d];
    if |whole| == 1 {
      assert t[1] == '.';
    } else {
      assert t[1] == whole[1] && DigitValue(whole[1]) < 10;
    }
  }

  /** Digits, a '.', and one more digit: the value is the digits read together, over ten. */
  lemma PointLiteral(whole: string, d: char)
    requires DigitsIn(whole, 10) && IsDigit(d)
    ensures DecimalValue(whole + ['.', d]) == Some((ValueIn(whole + [d], 10) as real) / 10.0)
  {
    var t := whole + ['.', d];
    assert forall i | 0 <= i < |whole| :: t[i] == whole[i] && IsDigit(t[i]);
    assert t[|whole|] == '.' && t[|whole| + 1] == d && |t| == |whole| + 2;
    assert ExponentMark(t) == |t|;
    PointMantissa(whole, d);
    NoExponent(t);
  }

  /** The mantissa of digits, a '.' and one more digit. */
  lemma PointMantissa(whole: string, d: char)
    requires DigitsIn(whole, 10) && IsDigit(d)
    ensures MantissaValue(whole + ['.', d]) == Some((ValueIn(whole + [d], 10) as real) / 10.0)
  {
    var t := whole + ['.', d];
    assert forall i | 0 <= i < |whole| :: t[i] == whole[i] && t[i] != '.';
    assert t[|whole|] == '.';
    var dot := IndexOf(t, '.');
    assert dot == |whole|;
    assert t[..dot] == whole && t[dot + 1..] == [d];
    assert t[..dot] + t[dot + 1..] == whole + [d];
    assert DigitsIn([d], 10) by { assert DigitValue(d) < 10; }
    assert Scaled(ValueIn(whole + [d], 10) as real, -|[d]|) == (ValueIn(whole + [d], 10) as real) / 10.0;
  }

  // ---------------------------------------------------------------------------
  // The search filter

  /** `searchParams.get("q")?.trim() || undefined`. */
  function SearchTerm(query: seq<(string, string)>): (q: Option<string>)
    ensures q.Some? ==> q.value != "" && SearchParam(query, "q").Some? && q.value == Trim(SearchParam(query, "q").value)
    ensures q.None? ==> SearchParam(query, "q").None? || Trim(SearchParam(query, "q").value) == ""
  {
    var p := SearchParam(query, "q");
    if p.None? || Trim(p.value) == "" then None else Some(Trim(p.value))
  }

  /** `{ [field]: { contains: q, mode: "insensitive" } }`. */
  function ContainsFilter(field: string, q: string): Value {
    Obj(map[field := Obj(map["contains" := Str(q), "mode" := Str("insensitive")])])
  }

  /** The `where` of the listing: name or sku contains the term, ignoring letter case. */
  function SearchFilter(q: Option<string>): Value {
    if q.None? then Undef
    else Obj(map["OR" := Arr([ContainsFilter("name", q.value), ContainsFilter("sku", q.value)])])
  }

  /** Field `field` of `r` is a string containing `q`, ignoring letter case. */
  predicate ContainsIgnoringCase(r: Row, field: string, q: string) {
    FieldOf(r, field).Str? && Includes(ToLower(FieldOf(r, field).s), ToLower(q))
  }

  lemma ContainsFilterMeaning(field: string, q: string, r: Row)
    requires field !in {"AND", "OR", "NOT"}
    ensures Eval(ContainsFilter(field, q), r) <==> ContainsIgnoringCase(r, field, q)
  {
    var ops := map["contains" := Str(q), "mode" := Str("insensitive")];
    assert ContainsFilter(field, q).fields.Keys == {field};
    assert ops.Keys == {"contains", "mode"};
    assert EvalKey(field, Obj(ops), r) <==> FieldOp(field, "contains", ops, r) && FieldOp(field, "mode", ops, r);
  }

  /** Without a term every row matches; with one, a row matches when its name or its sku
      contains the term, ignoring letter case. */
  lemma SearchFilterMeaning(q: Option<string>, r: Row)
    ensures Eval(SearchFilter(q), r) <==>
      q.None? || ContainsIgnoringCase(r, "name", q.value) || ContainsIgnoringCase(r, "sku", q.value)
  {
    if q.Some? {
      var items := [ContainsFilter("name", q.value), ContainsFilter("sku", q.value)];
      ContainsFilterMeaning("name", q.value, r);
      ContainsFilterMeaning("sku", q.value, r);
      assert SearchFilter(q).fields.Keys == {"OR"};
      assert EvalKey("OR", Arr(items), r) <==> Eval(items[0], r) || Eval(items[1], r);
    }
  }

  // ---------------------------------------------------------------------------
  // The listing

  /** The fields the listing and the creation select. */
  const SelectedFields: set<string> :=
    {"id", "sku", "name", "description", "priceInPence", "currency", "isActive", "createdAt", "updatedAt"}

  /** A row as `select` returns it: the tenant and the version are not among the fields. */
  function Selected(r: Row): (v: Value)
    ensures v.Obj? && v.fields.Keys == r.fields.Keys * SelectedFields
    ensures forall k | k in v.fields :: v.fields[k] == r.fields[k]
    ensures "tenantId" !in v.fields && "version" !in v.fields
  {
    Obj(map k | k in r.fields && k in SelectedFields :: r.fields[k])
  }

  function SelectedAll(rows: seq<Row>): (vs: seq<Value>)
    ensures |vs| == |rows| && forall i | 0 <= i < |rows| :: vs[i] == Selected(rows[i])
  {
    seq(|rows|, i requires 0 <= i < |rows| => Selected(rows[i]))
  }

  /** `items.length === limit ? items[items.length - 1].id : null`. */
  function NextCursor(items: seq<Value>, limit: int): (c: Value)
    requires limit >= 1
    ensures |items| != limit ==> c == Null
    ensures |items| == limit ==> c == Get(items[|items| - 1], "id")
  {
    if |items| == limit then Get(items[|items| - 1], "id") else Null
  }

  /** The `where` the guard hands to the database for the listing. */
  function ListingFilter(q: Option<string>, tenantId: string): Value {
    WithTenant(SearchFilter(q), tenantId)
  }

  /** The rows of the page the listing returns, before `select`; `None` when the limit is
      not an integer, which Prisma refuses. */
  function ListingRows(products: seq<Row>, tenantId: string, query: seq<(string, string)>): (r: Option<seq<Row>>)
    ensures r.None? <==> Limit(SearchParam(query, "limit")).None?
    ensures r.Some? ==> |r.value| <= Limit(SearchParam(query, "limit")).value
    ensures r.Some? ==> forall x | x in r.value :: x in products && OwnedBy(x, tenantId)
  {
    var limit := Limit(SearchParam(query, "limit"));
    if limit.None? then None
    else
      var cursor := SearchParam(query, "cursor");
      var w := ListingFilter(SearchTerm(query), tenantId);
      var rows := Page(products, w, limit.value, if cursor.Some? && cursor.value != "" then cursor else None);
      assert forall x | x in rows :: OwnedBy(x, tenantId) by {
        forall x | x in rows ensures OwnedBy(x, tenantId) {
          WithTenantMeaning(SearchFilter(SearchTerm(query)), tenantId, x);
        }
      }
      Some(rows)
  }

  /** Every listed row is one of the tenant's products that the search term matches, and at
      most `limit` of them are listed; another tenant's row never appears. */
  lemma ListingIsTenantsOnly(products: seq<Row>, tenantId: string, query: seq<(string, string)>, x: Row)
    requires ListingRows(products, tenantId, query).Some? && x in ListingRows(products, tenantId, query).value
    ensures x in products && OwnedBy(x, tenantId)
    ensures var q := SearchTerm(query);
      q.None? || ContainsIgnoringCase(x, "name", q.value) || ContainsIgnoringCase(x, "sku", q.value)
  {
    var w := ListingFilter(SearchTerm(query), tenantId);
    assert Eval(w, x);
    WithTenantMeaning(SearchFilter(SearchTerm(query)), tenantId, x);
    SearchFilterMeaning(SearchTerm(query), x);
  }

  /** Without a cursor the rows are the first `limit` the guarded `findMany` returns. */
  lemma ListingIsGuardedRead(products: seq<Row>, tenantId: string, query: seq<(string, string)>, freshId: string)
    requires Limit(SearchParam(query, "limit")).Some?
    requires SearchParam(query, "cursor").None?
    ensures var a := Args(SearchFilter(SearchTerm(query)), Undef, Undef, Undef);
      var rows := AnswerRows(Execute(products, "Product", "findMany", a, tenantId, freshId).0);
      ListingRows(products, tenantId, query).value <= rows
  {
    var a := Args(SearchFilter(SearchTerm(query)), Undef, Undef, Undef);
    var w := ListingFilter(SearchTerm(query), tenantId);
    var limit := Limit(SearchParam(query, "limit")).value;
    assert ListingRows(products, tenantId, query) == Some(Page(products, w, limit, None));
    FirstPage(products, w, limit);
    assert "Product" in TenantScopedModels;
    assert Classify("findMany") == ReadMany;
    assert Police("Product", "findMany", a, tenantId) == Ok(a.(where := w));
    assert Execute(products, "Product", "findMany", a, tenantId, freshId).0 == Answered(Rows(Filter(products, w)));
  }

  /** The body of the 200 answer: the selected rows and the next cursor. */
  function ListingData(rows: seq<Row>, limit: int): (v: Value)
    requires limit >= 1
    ensures v.Obj? && v.fields.Keys == {"items", "nextCursor"}
    ensures v.fields["items"] == Arr(SelectedAll(rows))
    ensures v.fields["nextCursor"] != Null ==> |rows| == limit && rows != []
    ensures |rows| == limit && FieldOf(rows[|rows| - 1], "id").Str? ==>
      v.fields["nextCursor"] == FieldOf(rows[|rows| - 1], "id")
  {
    var items := SelectedAll(rows);
    Obj(map["items" := Arr(items), "nextCursor" := NextCursor(items, limit)])
  }

  /** Prisma refusing a `take` that is not an integer (NaN or a fraction). */
  const InvalidTake := Obj(map["name" := Str("PrismaClientValidationError")])

  /** The `GET` handler. `userId` is the session's user id and `tenantId` the current
      tenant; `generated` is the id `fail`/`ok` would generate. */
  function ProductsGet(userId: Option<string>, tenantId: string, memberships: seq<Row>, products: seq<Row>,
                       req: Request, generated: string): (out: RouteWrappers.Outcome)
    ensures !SignedIn(userId) ==> out == NoSession()
    ensures SignedIn(userId) && !Permits(FindMembership(memberships, userId.value, tenantId), "canManageProducts") ==>
      out == RouteWrappers.Returned(Fail(403, "Forbidden", map[], Some(req), None, generated))
    ensures out.Returned? && out.res.status == 200 ==>
      var rows := ListingRows(products, tenantId, req.url.query);
      && Permits(FindMembership(memberships, userId.value, tenantId), "canManageProducts")
      && rows.Some? && out.res == Http.Ok(ListingData(rows.value, Limit(SearchParam(req.url.query, "limit")).value),
                                     Status(200), Some(req), generated)
    ensures out.Threw? && SignedIn(userId) ==> ListingRows(products, tenantId, req.url.query).None?
    ensures SignedIn(userId) && Permits(FindMembership(memberships, userId.value, tenantId), "canManageProducts") ==>
      var rows := ListingRows(products, tenantId, req.url.query);
      if rows.Some? then
        out == RouteWrappers.Returned(Http.Ok(ListingData(rows.value, Limit(SearchParam(req.url.query, "limit")).value),
                                              Status(200), Some(req), generated))
      else out == RouteWrappers.Threw(RouteWrappers.Err(RouteWrappers.OtherErr, InvalidTake))
  {
    if !SignedIn(userId) then NoSession()
    else if !Permits(FindMembership(memberships, userId.value, tenantId), "canManageProducts") then
      RouteWrappers.Returned(Fail(403, "Forbidden", map[], Some(req), None, generated))
    else
      var rows := ListingRows(products, tenantId, req.url.query);
      if rows.None? then RouteWrappers.Threw(RouteWrappers.Err(RouteWrappers.OtherErr, InvalidTake))
      else RouteWrappers.Returned(Http.Ok(ListingData(rows.value, Limit(SearchParam(req.url.query, "limit")).value),
                       Status(200), Some(req), generated))
  }

  // ---------------------------------------------------------------------------
  // Creation

  /** The data of the insert: `description ?? null`, `currency ?? "GBP"`,
      `isActive ?? true`. */
  function Defaulted(d: ProductCreateData): (e: ProductCreateData)
    ensures e.sku == d.sku && e.name == d.name && e.priceInPence == d.priceInPence
    ensures e.description.Some? && e.currency.Some? && e.isActive.Some?
    ensures e.description.value == if d.description.Some? && !IsNullish(d.description.value) then d.description.value else Null
    ensures e.currency.value == if d.currency.Some? then d.currency.value else "GBP"
    ensures e.isActive.value == if d.isActive.Some? then d.isActive.value else true
  {
    ProductCreateData(
      d.sku, d.name,
      Some(if d.description.Some? && !IsNullish(d.description.value) then d.description.value else Null),
      d.priceInPence,
      Some(if d.currency.Some? then d.currency.value else "GBP"),
      Some(if d.isActive.Some? then d.isActive.value else true))
  }

  /** The row the insert adds. */
  function NewProduct(tenantId: string, d: ProductCreateData, freshId: string): Row {
    RowOf(CreatePayload(tenantId, Defaulted(d)), freshId)
  }

  /** The new row belongs to the tenant, has every field filled (with the defaults where the
      caller gave nothing) and the generated id. */
  lemma NewProductFields(tenantId: string, d: ProductCreateData, freshId: string)
    ensures var r := NewProduct(tenantId, d, freshId);
      && OwnedBy(r, tenantId) && FieldOf(r, "id") == Str(freshId)
      && FieldOf(r, "sku") == Str(d.sku) && FieldOf(r, "name") == Str(d.name)
      && FieldOf(r, "priceInPence") == Num(d.priceInPence)
      && FieldOf(r, "description") == (if d.description.Some? && !IsNullish(d.description.value) then d.description.value else Null)
      && FieldOf(r, "currency") == Str(if d.currency.Some? then d.currency.value else "GBP")
      && FieldOf(r, "isActive") == Bool(if d.isActive.Some? then d.isActive.value else true)
  {
    CreatePayloadAccepted(tenantId, Defaulted(d), freshId);
  }

  /** The record `writeAudit` receives after the insert. */
  function CreationAudit(tenantId: string, userId: string, created: Row, req: Request): (a: AuditInput)
    ensures a.tenantId == tenantId && a.userId == Some(userId) && a.action == "PRODUCT_CREATE"
    ensures a.entityType == Some("Product")
  {
    var after := Obj(map[
      "id" := FieldOf(created, "id"), "sku" := FieldOf(created, "sku"), "name" := FieldOf(created, "name"),
      "priceInPence" := FieldOf(created, "priceInPence"), "currency" := FieldOf(created, "currency"),
      "isActive" := FieldOf(created, "isActive")]);
    AuditInput(tenantId, Some(userId), "PRODUCT_CREATE", Some("Product"),
               if FieldOf(created, "id").Str? then Some(FieldOf(created, "id").s) else None,
               Obj(map["after" := after]), req)
  }

  /** The constraint names the route recognises. */
  const SkuConstraint: seq<string> := ["tenantId", "sku", "tenantId_sku", "Product_tenantId_sku_key"]

  /** The sku conflict the insert raises is the one the route recognises. */
  lemma SkuConflictRecognised()
    ensures IsUniqueViolation(UniqueError(["tenantId", "sku"]), Some(SkuConstraint))
  {
    LeadingTargetRecognised(["tenantId", "sku"], SkuConstraint);
  }

  /** A product with this sku already belongs to the tenant. */
  predicate SkuTaken(products: seq<Row>, tenantId: string, sku: string) {
    exists x | x in products :: OwnedBy(x, tenantId) && FieldOf(x, "sku") == Str(sku)
  }

  /** Proof step for `Creation`: `ok(data, 201, req)` answers 201. */
  lemma CreatedStatus(data: Value, req: Request, generated: string)
    ensures Http.Ok(data, Status(201), Some(req), generated).status == 201
  {
  }

  /** What the `POST` handler answers and leaves behind: the answer, the product table and
      the audit table. `freshId` is the id the insert would take; `auditFails` stands for a
      failing audit insert, which `writeAudit` swallows. */
  function Creation(tenantId: string, products: seq<Row>, freshId: string, auditLog: seq<Row>,
                    userId: Option<string>, memberships: seq<Row>, body: Value, req: Request,
                    auditFails: bool, auditId: string, generated: string)
    : (r: (RouteWrappers.Outcome, seq<Row>, seq<Row>))
    ensures !SignedIn(userId) ==> r.0 == NoSession()
    ensures SignedIn(userId) && !Permits(FindMembership(memberships, userId.value, tenantId), "canManageProducts") ==>
      r.0 == RouteWrappers.Returned(Fail(403, "Forbidden", map[], Some(req), None, generated))
    ensures (SignedIn(userId) && Permits(FindMembership(memberships, userId.value, tenantId), "canManageProducts")
             && Schemas.ParseProductCreate(body).Invalid?) ==>
      r.0 == RouteWrappers.Returned(Fail(422, "Invalid input", map["issues" := Issues(Schemas.ParseProductCreate(body).errors)],
                                         Some(req), None, generated))
    ensures (SignedIn(userId) && Permits(FindMembership(memberships, userId.value, tenantId), "canManageProducts")
             && Schemas.ParseProductCreate(body).Valid?
             && SkuTaken(products, tenantId, Schemas.ParseProductCreate(body).value.sku)) ==>
      r.0 == RouteWrappers.Returned(Fail(409, "SKU already exists for this tenant", map[], Some(req), None, generated))
    ensures !(r.0.Returned? && r.0.res.status == 201) ==> r.1 == products && r.2 == auditLog
    ensures (SignedIn(userId) && Permits(FindMembership(memberships, userId.value, tenantId), "canManageProducts")
             && Schemas.ParseProductCreate(body).Valid?
             && !SkuTaken(products, tenantId, Schemas.ParseProductCreate(body).value.sku)) ==>
      r.0.Returned? && r.0.res.status == 201
    ensures r.0.Returned? && r.0.res.status == 201 ==>
      && SignedIn(userId) && Permits(FindMembership(memberships, userId.value, tenantId), "canManageProducts")
      && Schemas.ParseProductCreate(body).Valid?
      && !SkuTaken(products, tenantId, Schemas.ParseProductCreate(body).value.sku)
      && var created := NewProduct(tenantId, Schemas.ParseProductCreate(body).value, freshId);
         && r.1 == products + [created]
         && r.0.res == Http.Ok(Selected(created), Status(201), Some(req), generated)
         && r.2 == if auditFails then auditLog
                   else Inserted(Scoped(tenantId), auditLog, CreationAudit(tenantId, userId.value, created, req), auditId)
  {
    if !SignedIn(userId) then (NoSession(), products, auditLog)
    else if !Permits(FindMembership(memberships, userId.value, tenantId), "canManageProducts") then
      (RouteWrappers.Returned(Fail(403, "Forbidden", map[], Some(req), None, generated)), products, auditLog)
    else
      var parsed := Schemas.ParseProductCreate(body);
      if parsed.Invalid? then
        (RouteWrappers.Returned(Fail(422, "Invalid input", map["issues" := Issues(parsed.errors)], Some(req), None, generated)),
         products, auditLog)
      else if SkuTaken(products, tenantId, parsed.value.sku) then
        (RouteWrappers.Returned(Fail(409, "SKU already exists for this tenant", map[], Some(req), None, generated)),
         products, auditLog)
      else
        var created := NewProduct(tenantId, parsed.value, freshId);
        var res := Http.Ok(Selected(created), Status(201), Some(req), generated);
        CreatedStatus(Selected(created), req, generated);
        (RouteWrappers.Returned(res), products + [created],
         if auditFails then auditLog
         else Inserted(Scoped(tenantId), auditLog, CreationAudit(tenantId, userId.value, created, req), auditId))
  }

  /** The `POST` handler, on the tenant-bound `client` and the audit table. */
  method ProductsPost(client: TenantClient, auditLog: seq<Row>, userId: Option<string>, memberships: seq<Row>,
                      body: Value, req: Request, auditFails: bool, auditId: string, generated: string)
    returns (out: RouteWrappers.Outcome, auditLog': seq<Row>)
    modifies client
    ensures (out, client.products, auditLog') == Creation(client.tenantId, old(client.products), old(client.FreshId()),
                                                          auditLog, userId, memberships, body, req, auditFails, auditId, generated)
    ensures client.issued == if client.products == old(client.products) then old(client.issued) else old(client.issued) + 1
  {
    ghost var want := Creation(client.tenantId, client.products, client.FreshId(), auditLog, userId, memberships, body,
                               req, auditFails, auditId, generated);
    auditLog' := auditLog;
    if !SignedIn(userId) {
      return NoSession(), auditLog';
    }
    var me := FindMembership(memberships, userId.value, client.tenantId);
    if !Permits(me, "canManageProducts") {
      return RouteWrappers.Returned(Fail(403, "Forbidden", map[], Some(req), None, generated)), auditLog';
    }
    var parsed := Schemas.ParseProductCreate(body);
    if parsed.Invalid? {
      return RouteWrappers.Returned(Fail(422, "Invalid input", map["issues" := Issues(parsed.errors)], Some(req), None, generated)), auditLog';
    }
    var created := client.Create(client.tenantId, Defaulted(parsed.value));
    if created.Threw? {
      return RouteWrappers.Returned(Fail(409, "SKU already exists for this tenant", map[], Some(req), None, generated)), auditLog';
    }
    var row := created.value;
    assert row == NewProduct(client.tenantId, parsed.value, old(client.FreshId()));
    auditLog' := WriteAudit(Scoped(client.tenantId), auditLog, CreationAudit(client.tenantId, userId.value, row, req),
                            auditFails, auditId);
    out := RouteWrappers.Returned(Http.Ok(Selected(row), Status(201), Some(req), generated));
  }

  /** The sku conflict the insert raises is the one the route recognises, so a taken sku is
      answered with 409 and nothing is written. */
  lemma SkuConflictAnswered(tenantId: string, products: seq<Row>, freshId: string, auditLog: seq<Row>,
                            userId: string, memberships: seq<Row>, body: Value, req: Request,
                            auditFails: bool, auditId: string, generated: string)
    requires userId != "" && Permits(FindMembership(memberships, userId, tenantId), "canManageProducts")
    requires Schemas.ParseProductCreate(body).Valid?
    requires SkuTaken(products, tenantId, Schemas.ParseProductCreate(body).value.sku)
    ensures var r := Creation(tenantId, products, freshId, auditLog, Some(userId), memberships, body, req,
                              auditFails, auditId, generated);
      r.0.Returned? && r.0.res.status == 409 && r.1 == products && r.2 == auditLog
      && IsUniqueViolation(UniqueError(["tenantId", "sku"]), Some(SkuConstraint))
  {
    SkuConflictRecognised();
  }
}
