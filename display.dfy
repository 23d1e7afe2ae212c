/** The two display rules of the result card: the header name falls back
    from the native name to the invoicing name to a fixed text, and every
    field shown falls back to a dash when its value is falsy. */
module Display {
  import opened Wrappers
  import opened Customer

  /** The header text used when a record has neither name. */
  const NoName := Str("Sin Nombre")

  /** The text shown for a falsy field value. */
  const Placeholder := Str("-")

  /** The fields of the result card, in the order they are shown. */
  const CardFields := [CustomerNumber, CompanyCode, OracleCode, InvoicingScName,
                       NativeCustomerSource, PlanningUnit]

  /** `value || '-'`: a truthy value is shown as it is, anything falsy as
      the dash; what is shown is never falsy. */
  function InfoValue(v: Option<Value>): (r: Value)
    ensures Truthy(v) ==> Some(r) == v
    ensures !Truthy(v) ==> r == Placeholder
    ensures Truthy(Some(r))
  {
    if Truthy(v) then v.value else Placeholder
  }

  /** `native || invoicing || 'Sin Nombre'`: the first truthy name, else the
      fixed text; the header is never falsy. */
  function HeaderName(c: Record): (r: Value)
    ensures Truthy(Field(c, NativeCustomerName)) ==> Some(r) == Field(c, NativeCustomerName)
    ensures !Truthy(Field(c, NativeCustomerName)) && Truthy(Field(c, InvoicingScName)) ==>
              Some(r) == Field(c, InvoicingScName)
    ensures !Truthy(Field(c, NativeCustomerName)) && !Truthy(Field(c, InvoicingScName)) ==>
              r == NoName
    ensures Truthy(Some(r))
  {
    var native := Field(c, NativeCustomerName);
    var invoicing := Field(c, InvoicingScName);
    if Truthy(native) then native.value
    else if Truthy(invoicing) then invoicing.value
    else NoName
  }

  /** The six values of the result card: each is the record's own value when
      that is truthy and the dash otherwise. */
  function CardValues(c: Record): (r: seq<Value>)
    ensures |r| == |CardFields|
    ensures forall k :: 0 <= k < |r| ==>
              (Truthy(Field(c, CardFields[k])) ==> Some(r[k]) == Field(c, CardFields[k]))
              && (!Truthy(Field(c, CardFields[k])) ==> r[k] == Placeholder)
  {
    seq(|CardFields|, k requires 0 <= k < |CardFields| => InfoValue(Field(c, CardFields[k])))
  }

  /** A record holding only empty strings, which is what blank spreadsheet
      cells become in the dataset, shows a dash in every card field. */
  lemma {:induction false} EmptyCellsShowDashes(c: Record)
    requires forall name :: name in c ==> c[name] == Str("")
    ensures forall k :: 0 <= k < |CardFields| ==> CardValues(c)[k] == Placeholder
  {
    forall k | 0 <= k < |CardFields|
      ensures CardValues(c)[k] == Placeholder
    {
      assert !Truthy(Field(c, CardFields[k]));
    }
  }
}
