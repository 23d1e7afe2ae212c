/** Concrete lookups that pin down the tier order and the edge cases of the
    customer search on small record lists. Each scenario is proved in two
    steps: first the lookup by the normalised term on the records, then the
    query's normalisation to that term. */
module Scenarios {
  import opened Wrappers
  import opened Text
  import opened Customer
  import opened Matcher
  import opened ArrayFind

  /** The query normalises to `term` and the term lookup gives `r`, so the
      search gives `r`. */
  lemma SearchFromTerm(cs: seq<Record>, query: string, term: string, r: Option<Record>)
    requires !Blank(query) && Term(query) == term
    requires FindByTerm(cs, term) == r
    ensures Search(cs, query) == r
  {
  }

  // One string fact per lemma: each literal is unfolded on its own.

  lemma QueryIsTerm100() ensures Term("100") == "100" && !Blank("100") { PlainTerm("100"); }
  lemma QueryIsTerm123() ensures Term("123") == "123" && !Blank("123") { PlainTerm("123"); }
  lemma QueryIsTermMarquez() ensures Term("marquez") == "marquez" && !Blank("marquez") { PlainTerm("marquez"); }
  lemma QueryIsTermUnd() ensures Term("und") == "und" && !Blank("und") { PlainTerm("und"); }
  lemma QueryIsTermFine() ensures Term("fine") == "fine" && !Blank("fine") { PlainTerm("fine"); }
  lemma QueryIsTerm4711() ensures Term("4711") == "4711" && !Blank("4711") { PlainTerm("4711"); }

  lemma NumberText(c: Record, n: string)
    requires Field(c, CustomerNumber) == Some(Str(n))
    requires forall i :: 0 <= i < |n| ==> !IsUpper(n[i])
    ensures FieldText(c, CustomerNumber) == n
  {
    LowerUnchanged(n);
  }

  lemma Number1000(c: Record)
    requires Field(c, CustomerNumber) == Some(Str("1000"))
    ensures FieldText(c, CustomerNumber) == "1000"
  { NumberText(c, "1000"); }

  lemma Number100(c: Record)
    requires Field(c, CustomerNumber) == Some(Str("100"))
    ensures FieldText(c, CustomerNumber) == "100"
  { NumberText(c, "100"); }

  lemma Number12345(c: Record)
    requires Field(c, CustomerNumber) == Some(Str("12345"))
    ensures FieldText(c, CustomerNumber) == "12345"
  { NumberText(c, "12345"); }

  lemma Number7(c: Record)
    requires Field(c, CustomerNumber) == Some(Str("7"))
    ensures FieldText(c, CustomerNumber) == "7"
  { NumberText(c, "7"); }

  lemma Number4711(c: Record)
    requires Field(c, CustomerNumber) == Some(Num("4711"))
    ensures FieldText(c, CustomerNumber) == "4711"
  { LowerUnchanged("4711"); }

  lemma NumberUndefined(c: Record)
    requires CustomerNumber !in c
    ensures FieldText(c, CustomerNumber) == "undefined"
  { LowerUnchanged("undefined"); }

  lemma NameUndefined(c: Record)
    requires NativeCustomerName !in c
    ensures FieldText(c, NativeCustomerName) == "undefined"
  { LowerUnchanged("undefined"); }

  lemma NameJuanMarquez(c: Record)
    requires Field(c, NativeCustomerName) == Some(Str("Juan Marquez"))
    ensures FieldText(c, NativeCustomerName) == "juan marquez"
  { }

  lemma IncludesMarquez() ensures Includes("juan marquez", "marquez")
  {
    assert OccursAt("juan marquez", "marquez", 5);
    IncludesAt("juan marquez", "marquez");
  }

  lemma IncludesFine() ensures Includes("undefined", "fine")
  {
    assert OccursAt("undefined", "fine", 4);
    IncludesAt("undefined", "fine");
  }

  lemma StartsWith123() ensures StartsWith("12345", "123") { }
  lemma StartsWithUnd() ensures StartsWith("undefined", "und") { }

  lemma ExactBeatsEarlierPrefixByTerm(a: Record, b: Record, rest: seq<Record>)
    requires Field(a, CustomerNumber) == Some(Str("1000"))
    requires Field(b, CustomerNumber) == Some(Str("100"))
    ensures FindByTerm([a, b] + rest, "100") == Some(b)
  {
    Number1000(a);
    Number100(b);
    var cs := [a, b] + rest;
    var p1 := Test(Exact, "100");
    assert FirstWith(cs, p1, 1);
    FindFirstOfIsPreferred(cs, p1, Test(Prefix, "100"), Test(Name, "100"), 1);
  }

  /** "100" is an exact match for the second record and only a prefix of the
      first; the exact match wins although it comes later. */
  lemma ExactBeatsEarlierPrefix(a: Record, b: Record, rest: seq<Record>)
    requires Field(a, CustomerNumber) == Some(Str("1000"))
    requires Field(b, CustomerNumber) == Some(Str("100"))
    ensures Search([a, b] + rest, "100") == Some(b)
  {
    QueryIsTerm100();
    ExactBeatsEarlierPrefixByTerm(a, b, rest);
    SearchFromTerm([a, b] + rest, "100", "100", Some(b));
  }

  lemma PrefixFindsRecordByTerm(c: Record)
    requires Field(c, CustomerNumber) == Some(Str("12345"))
    ensures FindByTerm([c], "123") == Some(c)
  {
    Number12345(c);
    StartsWith123();
    SingleRecordByTerm(c, "123");
  }

  /** A query that only starts a customer number finds that record. */
  lemma PrefixFindsRecord(c: Record)
    requires Field(c, CustomerNumber) == Some(Str("12345"))
    ensures Search([c], "123") == Some(c)
  {
    QueryIsTerm123();
    PrefixFindsRecordByTerm(c);
    SearchFromTerm([c], "123", "123", Some(c));
  }

  lemma NameFindsRecordByTerm(c: Record)
    requires Field(c, CustomerNumber) == Some(Str("7"))
    requires Field(c, NativeCustomerName) == Some(Str("Juan Marquez"))
    ensures FindByTerm([c], "marquez") == Some(c)
  {
    Number7(c);
    NameJuanMarquez(c);
    IncludesMarquez();
    SingleRecordByTerm(c, "marquez");
  }

  /** A query matching no customer number falls back to the names: a record
      whose native name is "Juan Marquez" is found by "marquez", because the
      stored name is lower-cased before the comparison. */
  lemma NameFindsRecord(c: Record)
    requires Field(c, CustomerNumber) == Some(Str("7"))
    requires Field(c, NativeCustomerName) == Some(Str("Juan Marquez"))
    ensures Search([c], "marquez") == Some(c)
  {
    QueryIsTermMarquez();
    NameFindsRecordByTerm(c);
    SearchFromTerm([c], "marquez", "marquez", Some(c));
  }

  lemma MissingNumberMatchesUndefinedByTerm(c: Record)
    requires CustomerNumber !in c
    ensures FindByTerm([c], "und") == Some(c)
  {
    NumberUndefined(c);
    StartsWithUnd();
    SingleRecordByTerm(c, "und");
  }

  /** A record without a customer number stringifies it as "undefined", so
      the query "und" finds it by prefix. */
  lemma MissingNumberMatchesUndefined(c: Record)
    requires CustomerNumber !in c
    ensures Search([c], "und") == Some(c)
  {
    QueryIsTermUnd();
    MissingNumberMatchesUndefinedByTerm(c);
    SearchFromTerm([c], "und", "und", Some(c));
  }

  lemma MissingNameMatchesUndefinedByTerm(c: Record)
    requires Field(c, CustomerNumber) == Some(Str("7"))
    requires NativeCustomerName !in c
    ensures FindByTerm([c], "fine") == Some(c)
  {
    Number7(c);
    NameUndefined(c);
    IncludesFine();
    SingleRecordByTerm(c, "fine");
  }

  /** A record without a native name stringifies it as "undefined", so the
      query "fine" finds it through the name tier. */
  lemma MissingNameMatchesUndefined(c: Record)
    requires Field(c, CustomerNumber) == Some(Str("7"))
    requires NativeCustomerName !in c
    ensures Search([c], "fine") == Some(c)
  {
    QueryIsTermFine();
    MissingNameMatchesUndefinedByTerm(c);
    SearchFromTerm([c], "fine", "fine", Some(c));
  }

  lemma NumericNumberMatchesTextByTerm(c: Record)
    requires Field(c, CustomerNumber) == Some(Num("4711"))
    ensures FindByTerm([c], "4711") == Some(c)
  {
    Number4711(c);
    assert Satisfies(Exact, c, "4711");
    SingleRecordByTerm(c, "4711");
  }

  /** A customer number held as a number is compared through its text. */
  lemma NumericNumberMatchesText(c: Record)
    requires Field(c, CustomerNumber) == Some(Num("4711"))
    ensures Search([c], "4711") == Some(c)
  {
    QueryIsTerm4711();
    NumericNumberMatchesTextByTerm(c);
    SearchFromTerm([c], "4711", "4711", Some(c));
  }
}
