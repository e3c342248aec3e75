/** JavaScript values as the request-safety layer sees them: request bodies,
    Prisma argument objects and stored rows. Numbers are integers here. */
module Json {
  import opened Common

  datatype Value =
    | Undef
    | Null
    | Bool(b: bool)
    | Num(n: int)
    | Str(s: string)
    | Arr(items: seq<Value>)
    | Obj(fields: map<string, Value>)

  /** JavaScript truthiness. */
  predicate Truthy(v: Value) {
    match v
    case Undef => false
    case Null => false
    case Bool(b) => b
    case Num(n) => n != 0
    case Str(s) => s != ""
    case Arr(_) => true
    case Obj(_) => true
  }

  /** `v && typeof v === "object"`: arrays count as objects, null does not. */
  predicate IsObject(v: Value) {
    v.Arr? || v.Obj?
  }

  /** `v == null`: null or undefined. */
  predicate IsNullish(v: Value) {
    v.Undef? || v.Null?
  }

  /** `k in v` for a plain object. */
  predicate Has(v: Value, k: string) {
    v.Obj? && k in v.fields
  }

  /** `v[k]`, undefined when absent or when `v` is not a plain object. */
  function Get(v: Value, k: string): (r: Value)
    ensures Has(v, k) ==> r == v.fields[k]
    ensures !Has(v, k) ==> r == Undef
  {
    if Has(v, k) then v.fields[k] else Undef
  }

  /** The string held by `v`, when `typeof v === "string"`. */
  function AsString(v: Value): Option<string> {
    if v.Str? then Some(v.s) else None
  }

  /** Property name of array index `i`, as `Object.keys` reports it. */
  function IndexKey(i: nat): string {
    NatToString(i)
  }

  /** The own enumerable properties of `v` as a record (`{...v}`): arrays give
      their indices as keys, everything else that is not a plain object gives none. */
  function Entries(v: Value): map<string, Value> {
    match v
    case Obj(m) => m
    case Arr(xs) =>
      assert forall i: nat, j: nat | IndexKey(i) == IndexKey(j) :: i == j by {
        forall i: nat, j: nat | IndexKey(i) == IndexKey(j) ensures i == j {
          NatToStringInjective(i, j);
        }
      }
      map i | 0 <= i < |xs| :: IndexKey(i) := xs[i]
    case _ => map[]
  }

  /** `{...v, [k]: x}`. */
  function With(v: Value, k: string, x: Value): (r: Value)
    ensures r.Obj? && k in r.fields && r.fields[k] == x
    ensures forall j | j in Entries(v) && j != k :: j in r.fields && r.fields[j] == Entries(v)[j]
    ensures forall j | j in r.fields :: j == k || j in Entries(v)
  {
    Obj(Entries(v)[k := x])
  }

  /** A property name that starts with a letter is never an array index. */
  predicate IsNamedKey(k: string) {
    k != [] && !IsDigit(k[0])
  }

  lemma ArrayHasNoNamedEntry(xs: seq<Value>, k: string)
    requires IsNamedKey(k)
    ensures k !in Entries(Arr(xs))
  {
    forall i | 0 <= i < |xs|
      ensures IndexKey(i) != k
    {
      assert IsDigit(IndexKey(i)[0]);
    }
  }

  /** Spreading an object into a new one and setting `k` leaves every other
      named property readable as before. */
  lemma {:induction false} GetWith(v: Value, k: string, x: Value, j: string)
    requires IsObject(v) && j != k && IsNamedKey(j)
    ensures Get(With(v, k, x), j) == Get(v, j)
  {
    if v.Arr? {
      ArrayHasNoNamedEntry(v.items, j);
    }
  }
}
