/** A customer record as loaded from the JSON dataset: a flat object from
    field name to a scalar JSON value, and JavaScript's `String(...)` and
    truthiness on those values. */
module Customer {
  import opened Wrappers

  /** A scalar JSON value. A number carries the text JavaScript's
      `String(n)` gives for it (number formatting is not modelled). */
  datatype Value = Str(s: string) | Num(text: string) | Bool(b: bool) | Null

  /** A record; a field the object does not have is absent from the map. */
  type Record = map<string, Value>

  const CustomerNumber := "Customer number"
  const NativeCustomerName := "Native Customer Name"
  const InvoicingScName := "Invoicing SC Name"
  const CompanyCode := "Company Code"
  const OracleCode := "Oracle Code"
  const NativeCustomerSource := "Native Customer (Source System)"
  const PlanningUnit := "Planning Unit"

  /** `c[name]`: `None` stands for `undefined`. */
  function Field(c: Record, name: string): (r: Option<Value>)
    ensures r.None? <==> name !in c
    ensures r.Some? ==> r.value == c[name]
  {
    if name in c then Some(c[name]) else None
  }

  /** JavaScript's `String(v)` on a field value: text is kept, a number gives
      its own text, and `undefined`, `null` and the booleans give their names. */
  function ToText(v: Option<Value>): (r: string)
    ensures v.None? ==> r == "undefined"
    ensures v == Some(Null) ==> r == "null"
    ensures v.Some? && v.value.Str? ==> r == v.value.s
    ensures v.Some? && v.value.Num? ==> r == v.value.text
    ensures v.Some? && v.value.Bool? ==> r == (if v.value.b then "true" else "false")
  {
    match v
    case None => "undefined"
    case Some(Str(s)) => s
    case Some(Num(text)) => text
    case Some(Bool(b)) => if b then "true" else "false"
    case Some(Null) => "null"
  }

  /** JavaScript truthiness: `undefined`, `null`, `""`, `false`, `0`, `-0`
      and `NaN` are falsy (`String(-0)` is `"0"`). */
  function Truthy(v: Option<Value>): (r: bool)
    ensures v.None? || v == Some(Null) ==> !r
    ensures v.Some? && v.value.Str? ==> (r <==> v.value.s != "")
    ensures v.Some? && v.value.Num? ==> (r <==> v.value.text !in {"0", "NaN"})
    ensures v.Some? && v.value.Bool? ==> r == v.value.b
  {
    match v
    case None => false
    case Some(Str(s)) => s != ""
    case Some(Num(text)) => text != "0" && text != "NaN"
    case Some(Bool(b)) => b
    case Some(Null) => false
  }
}
