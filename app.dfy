/** The state of the search page: the query being typed, the loaded records,
    the record on display, and the loading and error flags, with the events
    that change them. */
module App {
  import opened Wrappers
  import opened Text
  import opened Customer
  import opened ArrayFind
  import opened Matcher

  /** The message shown when the dataset cannot be loaded. */
  const LoadErrorMessage := "No se pudo cargar la base de datos de clientes."

  /** Where the one-time load of the dataset stands. */
  datatype Phase = Loading | Ready | Failed

  /** The body of the submit handler: the query is trimmed and lower-cased,
      and each tier's `find` runs only while nothing has been found. */
  method Lookup(customers: seq<Record>, query: string) returns (found: Option<Record>)
    ensures found == Search(customers, query)
    ensures customers == [] ==> found.None?
  {
    if customers == [] {
      NoRecordsFindNothing(query);
    }
    if Trim(query) == [] {
      return None;
    }
    var term := Trim(Lower(query));
    found := Find(customers, Test(Exact, term));
    if found.None? {
      found := Find(customers, Test(Prefix, term));
    }
    if found.None? {
      found := Find(customers, Test(Name, term));
    }
  }

  class SearchApp {
    var searchTerm: string
    var allCustomers: seq<Record>
    var result: Option<Record>
    var loading: bool
    var error: Option<string>

    /** The load happens once: while it is pending there are no records and
        no error, and a failed load leaves no records behind. */
    ghost predicate Valid()
      reads this`loading, this`allCustomers, this`error
    {
      && (loading ==> allCustomers == [] && error.None?)
      && (error.Some? ==> !loading && allCustomers == [] && error == Some(LoadErrorMessage))
    }

    ghost function Phase(): Phase
      reads this`loading, this`error
    {
      if loading then Loading else if error.Some? then Failed else Ready
    }

    /** The initial state: an empty query, no records, no result, loading. */
    constructor ()
      ensures Valid() && Phase() == Loading
      ensures searchTerm == [] && allCustomers == [] && result.None?
      ensures loading && error.None?
    {
      searchTerm := [];
      allCustomers := [];
      result := None;
      loading := true;
      error := None;
    }

    /** The records arrived: they are stored and loading ends. */
    method LoadSucceeded(data: seq<Record>)
      requires Valid() && loading
      modifies this
      ensures Valid() && Phase() == Ready
      ensures allCustomers == data && !loading && error.None?
      ensures searchTerm == old(searchTerm) && result == old(result)
    {
      allCustomers := data;
      loading := false;
    }

    /** The load failed: the error message is set, loading ends, and the
        record list stays empty. */
    method LoadFailed()
      requires Valid() && loading
      modifies this
      ensures Valid() && Phase() == Failed
      ensures error == Some(LoadErrorMessage) && !loading && allCustomers == []
      ensures searchTerm == old(searchTerm) && result == old(result)
    {
      error := Some(LoadErrorMessage);
      loading := false;
    }

    /** Typing into the search box replaces the query and nothing else. */
    method Type(text: string)
      requires Valid()
      modifies this`searchTerm
      ensures Valid() && searchTerm == text
    {
      searchTerm := text;
    }

    /** Submitting the form: a blank query clears the result; otherwise the
        three tiers are tried in turn and the first record found, or none,
        becomes the result. Nothing but the result changes, and before a
        successful load nothing is ever found. */
    method HandleSearch()
      requires Valid()
      modifies this`result
      ensures Valid()
      ensures result == Search(allCustomers, searchTerm)
      ensures Phase() != Ready ==> result.None?
    {
      result := Lookup(allCustomers, searchTerm);
    }

    /** The clear button empties the query and the result and changes
        nothing else. */
    method ClearSearch()
      requires Valid()
      modifies this`searchTerm, this`result
      ensures Valid()
      ensures searchTerm == [] && result.None?
      ensures allCustomers == old(allCustomers) && loading == old(loading)
      ensures error == old(error)
    {
      searchTerm := [];
      result := None;
    }
  }
}
