/** The customer lookup of the search form: given the loaded records and the
    raw query text, pick at most one record by a three-tier, first-found rule
    (exact customer number, then customer-number prefix, then a name that
    contains the query). */
module Matcher {
  import opened Wrappers
  import opened Text
  import opened Customer
  import opened ArrayFind

  /** The three predicates tried in turn. */
  datatype Tier = Exact | Prefix | Name

  /** `!searchTerm.trim()`: the query has nothing but whitespace. */
  function Blank(query: string): (r: bool)
    ensures r <==> AllSpace(query)
  {
    Trim(query) == []
  }

  /** The normalised search term: the query lower-cased, then trimmed. It is
      empty exactly for a blank query, and otherwise has no whitespace at
      either end. */
  function Term(query: string): (r: string)
    ensures |r| <= |query|
    ensures r == [] <==> AllSpace(query)
    ensures r != [] ==> !IsSpace(r[0]) && !IsSpace(r[|r| - 1])
  {
    var lower := Lower(query);
    assert AllSpace(lower) <==> AllSpace(query) by {
      assert forall i :: 0 <= i < |query| ==> lower[i] == LowerChar(query[i]);
    }
    Trim(lower)
  }

  /** The lower-cased text of one field. */
  function FieldText(c: Record, name: string): string {
    Lower(ToText(Field(c, name)))
  }

  /** Whether record `c` satisfies tier `t` for the normalised `term`. A term
      longer than the customer number text meets neither number tier, and
      an exact match is also a prefix match. */
  function Satisfies(t: Tier, c: Record, term: string): (r: bool)
    ensures r && !t.Name? ==> |term| <= |FieldText(c, CustomerNumber)|
    ensures r && t.Exact? ==> StartsWith(FieldText(c, CustomerNumber), term)
  {
    match t
    case Exact => FieldText(c, CustomerNumber) == term
    case Prefix => StartsWith(FieldText(c, CustomerNumber), term)
    case Name =>
      Includes(FieldText(c, NativeCustomerName), term)
      || Includes(FieldText(c, InvoicingScName), term)
  }

  /** The callback handed to `find` for tier `t`. */
  function Test(t: Tier, term: string): Record -> bool {
    (c: Record) => Satisfies(t, c, term)
  }

  /** The three `find` calls for an already normalised term: the first
      record of the first tier that any record meets. */
  function FindByTerm(cs: seq<Record>, term: string): (r: Option<Record>)
    ensures r.Some? ==> r.value in cs
    ensures r.Some? ==> Satisfies(Exact, r.value, term) || Satisfies(Prefix, r.value, term)
                        || Satisfies(Name, r.value, term)
  {
    FindFirstOf(cs, Test(Exact, term), Test(Prefix, term), Test(Name, term))
  }

  /** The record the search form shows for `query`, or none. */
  function Search(cs: seq<Record>, query: string): (r: Option<Record>)
    ensures Blank(query) ==> r.None?
    ensures r.Some? ==> r.value in cs
  {
    if Blank(query) then None else FindByTerm(cs, Term(query))
  }

  /** The reference definition of the lookup, stated without any scan:
      index `i` is the answer exactly when the query is not blank and `i` is
      the first record of the highest-priority tier that any record meets. */
  ghost predicate Chosen(cs: seq<Record>, query: string, i: int) {
    && !Blank(query)
    && var term := Term(query);
       Preferred(cs, Test(Exact, term), Test(Prefix, term), Test(Name, term), i)
  }

  /** No record meets any of the three tiers. */
  ghost predicate NoTierMatches(cs: seq<Record>, term: string) {
    && !AnyWith(cs, Test(Exact, term))
    && !AnyWith(cs, Test(Prefix, term))
    && !AnyWith(cs, Test(Name, term))
  }

  /** With a single record, the term finds it exactly when the record meets
      the prefix or the name tier (an exact match being a prefix match). */
  lemma SingleRecordByTerm(c: Record, term: string)
    ensures FindByTerm([c], term) ==
      if Satisfies(Prefix, c, term) || Satisfies(Name, c, term) then Some(c) else None
  {
    var p1, p2, p3 := Test(Exact, term), Test(Prefix, term), Test(Name, term);
    var cs := [c];
    if p1(c) {
      assert FirstWith(cs, p1, 0);
      FindFirstOfIsPreferred(cs, p1, p2, p3, 0);
    } else if p2(c) {
      assert FirstWith(cs, p2, 0);
      FindFirstOfIsPreferred(cs, p1, p2, p3, 0);
    } else if p3(c) {
      assert FirstWith(cs, p3, 0);
      FindFirstOfIsPreferred(cs, p1, p2, p3, 0);
    } else {
      FindFirstOfPreferred(cs, p1, p2, p3);
    }
  }

  /** Search agrees with the reference definition: it returns the chosen
      record whenever one is chosen. */
  lemma SearchIsChosen(cs: seq<Record>, query: string, i: int)
    requires 0 <= i < |cs| && Chosen(cs, query, i)
    ensures Search(cs, query) == Some(cs[i])
  {
    var term := Term(query);
    FindFirstOfIsPreferred(cs, Test(Exact, term), Test(Prefix, term), Test(Name, term), i);
  }

  /** ... and it returns none exactly when the query is blank or no record
      meets any tier, which is exactly when nothing is chosen. */
  lemma SearchNone(cs: seq<Record>, query: string)
    ensures Search(cs, query).None? <==> Blank(query) || NoTierMatches(cs, Term(query))
    ensures Search(cs, query).None? <==> forall i :: !Chosen(cs, query, i)
  {
    if !Blank(query) {
      var term := Term(query);
      var p1, p2, p3 := Test(Exact, term), Test(Prefix, term), Test(Name, term);
      FindFirstOfPreferred(cs, p1, p2, p3);
      if Search(cs, query).Some? {
        var i :| Preferred(cs, p1, p2, p3, i) && Search(cs, query).value == cs[i];
        assert Chosen(cs, query, i);
      }
    }
  }

  /** Tier 1: when some record's customer number text equals the term, the
      first such record is the result, whatever prefix or name matches come
      before it. */
  lemma ExactMatchWins(cs: seq<Record>, query: string, i: int)
    requires !Blank(query)
    requires 0 <= i < |cs| && Satisfies(Exact, cs[i], Term(query))
    requires forall j :: 0 <= j < i ==> !Satisfies(Exact, cs[j], Term(query))
    ensures Search(cs, query) == Some(cs[i])
  {
    var term := Term(query);
    assert FirstWith(cs, Test(Exact, term), i);
    SearchIsChosen(cs, query, i);
  }

  /** Tier 2: with no exact match, the first record whose customer number
      text starts with the term is the result. */
  lemma PrefixMatchFallback(cs: seq<Record>, query: string, i: int)
    requires !Blank(query)
    requires forall j :: 0 <= j < |cs| ==> !Satisfies(Exact, cs[j], Term(query))
    requires 0 <= i < |cs| && Satisfies(Prefix, cs[i], Term(query))
    requires forall j :: 0 <= j < i ==> !Satisfies(Prefix, cs[j], Term(query))
    ensures Search(cs, query) == Some(cs[i])
  {
    var term := Term(query);
    assert !AnyWith(cs, Test(Exact, term));
    assert FirstWith(cs, Test(Prefix, term), i);
    SearchIsChosen(cs, query, i);
  }

  /** Tier 3: with neither an exact nor a prefix match, the first record
      whose native or invoicing name contains the term is the result. */
  lemma NameMatchFallback(cs: seq<Record>, query: string, i: int)
    requires !Blank(query)
    requires forall j :: 0 <= j < |cs| ==> !Satisfies(Exact, cs[j], Term(query))
    requires forall j :: 0 <= j < |cs| ==> !Satisfies(Prefix, cs[j], Term(query))
    requires 0 <= i < |cs| && Satisfies(Name, cs[i], Term(query))
    requires forall j :: 0 <= j < i ==> !Satisfies(Name, cs[j], Term(query))
    ensures Search(cs, query) == Some(cs[i])
  {
    var term := Term(query);
    assert !AnyWith(cs, Test(Exact, term));
    assert !AnyWith(cs, Test(Prefix, term));
    assert FirstWith(cs, Test(Name, term), i);
    SearchIsChosen(cs, query, i);
  }

  /** Since an exact match is also a prefix match, the result is none exactly
      when the query is blank or no record meets the prefix or the name
      tier. */
  lemma NoMatchExactly(cs: seq<Record>, query: string)
    ensures Search(cs, query).None? <==>
      Blank(query)
      || forall j :: 0 <= j < |cs| ==>
           !Satisfies(Prefix, cs[j], Term(query)) && !Satisfies(Name, cs[j], Term(query))
  {
    SearchNone(cs, query);
    var term := Term(query);
    var exact, prefix, name := Test(Exact, term), Test(Prefix, term), Test(Name, term);
    assert forall j :: 0 <= j < |cs| && exact(cs[j]) ==> prefix(cs[j]);
    assert NoTierMatches(cs, term) <==> !AnyWith(cs, prefix) && !AnyWith(cs, name);
  }

  /** A query with no upper-case letters and no whitespace at either end is
      not blank and is its own normalised term. */
  lemma PlainTerm(query: string)
    requires query != [] && !IsSpace(query[0]) && !IsSpace(query[|query| - 1])
    requires forall i :: 0 <= i < |query| ==> !IsUpper(query[i])
    ensures Term(query) == query && !Blank(query)
  {
    LowerUnchanged(query);
    TrimUnchanged(query);
  }

  /** Whether a query is blank depends only on its normalised term. */
  lemma BlankIffEmptyTerm(query: string)
    ensures Blank(query) <==> Term(query) == []
  {
    TrimLower(query);
  }

  /** The result depends on the query only through its lower-cased,
      trimmed text. */
  lemma SearchDependsOnlyOnTerm(cs: seq<Record>, q1: string, q2: string)
    requires Lower(Trim(q1)) == Lower(Trim(q2))
    ensures Search(cs, q1) == Search(cs, q2)
  {
    TrimLower(q1);
    TrimLower(q2);
    BlankIffEmptyTerm(q1);
    BlankIffEmptyTerm(q2);
  }

  /** Changing the letter case of the query does not change the result. */
  lemma SearchIgnoresCase(cs: seq<Record>, q1: string, q2: string)
    requires Lower(q1) == Lower(q2)
    ensures Search(cs, q1) == Search(cs, q2)
  {
    TrimLower(q1);
    TrimLower(q2);
    SearchDependsOnlyOnTerm(cs, q1, q2);
  }

  /** Whitespace around the query does not change the result. */
  lemma SearchIgnoresPadding(cs: seq<Record>, pre: string, query: string, post: string)
    requires AllSpace(pre) && AllSpace(post)
    ensures Search(cs, pre + query + post) == Search(cs, query)
  {
    TrimPadding(pre, query, post);
    SearchDependsOnlyOnTerm(cs, pre + query + post, query);
  }

  /** Searching for the normalised term itself gives the same result as
      searching for the raw query. */
  lemma SearchTermIdempotent(cs: seq<Record>, query: string)
    ensures Search(cs, Term(query)) == Search(cs, query)
  {
    var t := Lower(query);
    TrimIdempotent(t);
    TrimLower(query);
    LowerIdempotent(Trim(query));
    SearchDependsOnlyOnTerm(cs, Term(query), query);
  }

  /** An empty or whitespace-only query yields none, whatever the records. */
  lemma BlankQueryFindsNothing(cs: seq<Record>, query: string)
    requires AllSpace(query)
    ensures Search(cs, query) == None
  {
  }

  /** With no records loaded, every search yields none. */
  lemma NoRecordsFindNothing(query: string)
    ensures Search([], query) == None
  {
    SearchNone([], query);
  }
}
