# BuscadorNA customer search — a Dafny model

BuscadorNA is a single-page customer lookup. Once, at start-up, the page loads
the customer dataset: a JSON array of flat records exported from a spreadsheet.
The user types a customer number (or part of a name) and presses Enter. The page
then shows at most one record in a result card.

This project models the page component `search-app/src/App.jsx`:

- **The lookup** (`handleSearch`).
  - A blank query clears the result.
  - Otherwise the query is lower-cased and trimmed.
  - Three `find` calls are then tried in turn:
    1. a customer number whose text equals the term;
    2. a customer number that starts with the term;
    3. a native or invoicing name that contains the term.
  - The first record found becomes the result; if none is found, the result is null.
  - The lookup is a pure function, `Matcher.Search`, over an explicit model of
    JavaScript's `String(...)`, `toLowerCase`, `trim`, `startsWith`, `includes`
    and `Array.prototype.find`.
  - It has a scan-free reference definition, `Matcher.Chosen`. Lemmas tie the
    two together in both directions.
- **The page state** (`App.SearchApp`). This class holds the query, the loaded
  records, the result, and the loading and error flags. Its methods are the
  events that update them:
  - load success;
  - load failure;
  - typing;
  - submit;
  - clear.

  Every method keeps the invariant that the page loads once: while the load is
  pending, and after it has failed, there are no records.
- **The result card** (`Display`).
  - The header name falls back from the native name, to the invoicing name, to
    `'Sin Nombre'`.
  - Each of the six card fields shows `'-'` for a falsy value.

Modules and files:

- `Wrappers` (`wrappers.dfy`): `Option`.
- `Text` (`text.dfy`): the string primitives.
- `Customer` (`customer.dfy`): records, JavaScript `String(...)` and truthiness.
- `ArrayFind` (`find.dfy`): `find` and the try-in-turn cascade, for any predicates.
- `Matcher` (`matcher.dfy`): the lookup and its properties.
- `Scenarios` (`scenarios.dfy`): concrete lookups.
- `Display` (`display.dfy`): the card fallbacks.
- `App` (`app.dfy`): the page state.

Three consequences of the code are easy to miss:

- **A record without a `Customer number`.** `String(undefined)` is
  `"undefined"`. So such a record is a prefix match for `"u"`, `"und"`, … and an
  exact match for `"undefined"`. `Scenarios.MissingNumberMatchesUndefined`
  shows this.
- **A record without a name.** In the same way, a missing `Native Customer Name`
  or `Invoicing SC Name` is the text `"undefined"`. The name tier then finds the
  record for any part of that word, such as `"fine"` or `"def"`.
  `Scenarios.MissingNameMatchesUndefined` shows this.
- **A failed load.** After a failed load the search form still works, and
  `handleSearch` runs over the empty record list, so every search shows
  nothing. `App.SearchApp.HandleSearch` states this as
  `Phase() != Ready ==> result.None?`.

## Model

| member | source | states |
|---|---|---|
| Customer.ToText | search-app/src/App.jsx:45 | `String(v)` of a field: an absent field gives `"undefined"`, `null` gives `"null"`, a string is kept, a number gives its decimal text, and a boolean gives `"true"` or `"false"` |
| Customer.Field | search-app/src/App.jsx:45 | `c[name]` is undefined exactly when the record has no such key, and otherwise it is the stored value |
| Customer.Truthy | search-app/src/App.jsx:166 | JavaScript truthiness of a field: undefined and `null` are falsy, a string is truthy exactly when it is non-empty, a number exactly when its text is neither `"0"` nor `"NaN"`, a boolean is its own value |
| Text.Lower | search-app/src/App.jsx:41 | `toLowerCase` keeps the length and lower-cases each character |
| Text.TrimStart | search-app/src/App.jsx:41 | the leading-whitespace trim is no longer than its input, and a non-empty result does not start with whitespace |
| Text.TrimEnd | search-app/src/App.jsx:41 | the trailing-whitespace trim is no longer than its input, and a non-empty result does not end with whitespace |
| Text.TrimStartSuffix | search-app/src/App.jsx:41 | the leading-whitespace trim is the suffix of the text that starts at its first non-whitespace character; everything dropped is whitespace |
| Text.TrimEndPrefix | search-app/src/App.jsx:41 | the trailing-whitespace trim is the prefix of the text that ends at its last non-whitespace character; everything dropped is whitespace |
| Text.Trim | search-app/src/App.jsx:31 | `trim()` is the slice of the text that lies between a whitespace-only prefix and a whitespace-only suffix; it is empty exactly when the text is all whitespace, and otherwise it neither starts nor ends with whitespace |
| Text.StartsWith | search-app/src/App.jsx:51 | `s.startsWith(p)` holds exactly when `p` occurs in `s` at position 0 |
| Text.Includes | search-app/src/App.jsx:60-61 | `s.includes(t)` holds whenever `s` starts with `t`, and only when `t` is no longer than `s` |
| Text.IncludesAt | search-app/src/App.jsx:60-61 | `includes(t)` holds exactly when `t` occurs at some position |
| Text.LowerIdempotent | search-app/src/App.jsx:41 | lower-casing twice equals lower-casing once |
| Text.TrimLower | search-app/src/App.jsx:31-41 | lower-casing and trimming commute |
| Text.TrimIdempotent | search-app/src/App.jsx:41 | trimming twice equals trimming once |
| Text.TrimPadding | search-app/src/App.jsx:41 | whitespace added at either end does not change what a text trims to |
| Text.LowerUnchanged | search-app/src/App.jsx:41 | a text with no upper-case letters is its own lower-case form |
| Text.TrimUnchanged | search-app/src/App.jsx:41 | a text with no whitespace at either end is its own trimmed form |
| ArrayFind.FindIndex | search-app/src/App.jsx:44-46 | `find` stops at the lowest index that satisfies the callback, and finds nothing exactly when no element does |
| ArrayFind.Find | search-app/src/App.jsx:44-46 | `find` returns the element at that lowest index, and `undefined` exactly when no element satisfies the callback |
| ArrayFind.FindFirstOf | search-app/src/App.jsx:44-63 | the three-step cascade returns, if anything, an element of the list that meets one of the three callbacks |
| ArrayFind.FindFirstOfPreferred | search-app/src/App.jsx:44-63 | the three-step `if (!found)` cascade returns the first match of the first callback that any element satisfies, and nothing exactly when none does |
| ArrayFind.FindFirstOfIsPreferred | search-app/src/App.jsx:44-63 | whenever an index is preferred, the cascade returns that element |
| ArrayFind.PreferredUnique | search-app/src/App.jsx:44-63 | at most one index is preferred |
| Matcher.Search | search-app/src/App.jsx:29-66 | a blank query gives null; any result is an element of the loaded records |
| Matcher.Blank | search-app/src/App.jsx:31 | `!searchTerm.trim()` holds exactly when the query is whitespace only |
| Matcher.Term | search-app/src/App.jsx:41 | the term is no longer than the query; it is empty exactly when the query is whitespace only, and otherwise neither starts nor ends with whitespace |
| Matcher.Satisfies | search-app/src/App.jsx:44-63 | a number-tier match means the term is no longer than the number text, and an exact match is also a prefix match |
| Matcher.FindByTerm | search-app/src/App.jsx:44-63 | the three `find` steps for a term return, if anything, a loaded record that meets one of the three tests |
| Matcher.SingleRecordByTerm | search-app/src/App.jsx:44-63 | over a single record, the lookup finds it exactly when it meets the prefix tier or the name tier |
| Matcher.SearchIsChosen | search-app/src/App.jsx:29-66 | when the reference definition chooses index `i`, the lookup returns record `i` |
| Matcher.SearchNone | search-app/src/App.jsx:31-65 | the lookup returns null exactly when the query is blank or no record meets any tier, which is exactly when the reference definition chooses nothing |
| Matcher.ExactMatchWins | search-app/src/App.jsx:44-46 | the first record whose number text equals the term is the result, whatever prefix or name matches come before it |
| Matcher.PrefixMatchFallback | search-app/src/App.jsx:48-53 | with no exact match, the first record whose number text starts with the term is the result |
| Matcher.NameMatchFallback | search-app/src/App.jsx:58-63 | with no number match, the first record whose native or invoicing name contains the term is the result |
| Matcher.NoMatchExactly | search-app/src/App.jsx:58-65 | the result is null exactly when the query is blank or no record meets the prefix tier or the name tier |
| Matcher.PlainTerm | search-app/src/App.jsx:41 | a query with no upper-case letters and no whitespace at either end is not blank and is its own term |
| Matcher.BlankIffEmptyTerm | search-app/src/App.jsx:31-41 | the blank test on the raw query agrees with the term being empty |
| Matcher.SearchDependsOnlyOnTerm | search-app/src/App.jsx:41 | two queries with the same lower-cased, trimmed text give the same result |
| Matcher.SearchIgnoresCase | search-app/src/App.jsx:41 | queries that differ only in letter case give the same result |
| Matcher.SearchIgnoresPadding | search-app/src/App.jsx:41 | whitespace around the query does not change the result |
| Matcher.SearchTermIdempotent | search-app/src/App.jsx:41 | searching for the normalised term gives the same result as the raw query |
| Matcher.BlankQueryFindsNothing | search-app/src/App.jsx:31-34 | an empty or whitespace-only query gives null, whatever the records |
| Matcher.NoRecordsFindNothing | search-app/src/App.jsx:7 | with the initial empty record list, every search gives null |
| Scenarios.ExactBeatsEarlierPrefix | search-app/src/App.jsx:44-46 | with records numbered "1000" then "100", the query "100" finds the second one |
| Scenarios.PrefixFindsRecord | search-app/src/App.jsx:48-53 | the query "123" finds the record numbered "12345" |
| Scenarios.NameFindsRecord | search-app/src/App.jsx:58-63 | the query "marquez" finds a record whose native name is "Juan Marquez" (lower-cased before the test) and whose number does not match |
| Scenarios.MissingNumberMatchesUndefined | search-app/src/App.jsx:50-52 | a record with no `Customer number` is found by the query "und" |
| Scenarios.MissingNameMatchesUndefined | search-app/src/App.jsx:58-63 | a record with no native name is found by the query "fine", a part of "undefined", through the name tier |
| Scenarios.NumericNumberMatchesText | search-app/src/App.jsx:44-46 | a number-typed customer number is compared through its text |
| Display.InfoValue | search-app/src/App.jsx:166 | `value \|\| '-'`: a truthy value is shown as it is, anything falsy as `'-'`; what is shown is never falsy |
| Display.HeaderName | search-app/src/App.jsx:115 | the native name if truthy, else the invoicing name if truthy, else `'Sin Nombre'`; the header is never falsy |
| Display.CardValues | search-app/src/App.jsx:120-152 | the six card fields, in display order, each the record's value when truthy and `'-'` otherwise |
| Display.EmptyCellsShowDashes | search-app/src/App.jsx:121-166 | a record holding only empty strings (blank spreadsheet cells) shows `'-'` in every card field |
| App.Lookup | search-app/src/App.jsx:31-65 | the submit handler's trim test and three `find` steps compute exactly `Matcher.Search` |
| App.SearchApp.constructor | search-app/src/App.jsx:6-10 | the initial state: empty query, no records, null result, loading, no error |
| App.SearchApp.LoadSucceeded | search-app/src/App.jsx:18-21 | the records are stored, loading ends, no error; the query and result are untouched |
| App.SearchApp.LoadFailed | search-app/src/App.jsx:22-26 | the fixed error message is set, loading ends, the record list stays empty; the query and result are untouched |
| App.SearchApp.Type | search-app/src/App.jsx:89 | typing replaces the query and nothing else |
| App.SearchApp.HandleSearch | search-app/src/App.jsx:29-66 | only the result changes, and it becomes `Search(allCustomers, searchTerm)`; before a successful load the result is null |
| App.SearchApp.ClearSearch | search-app/src/App.jsx:68-71 | the query becomes empty and the result null; records, loading and error are unchanged |

## Left out

- Loading the dataset (`fetch('/data.json')`, the HTTP status check, JSON parsing; search-app/src/App.jsx:12-17) is network I/O. Only its two outcomes are modelled, as the events `LoadSucceeded(data)` and `LoadFailed()`.
- The `console.error` call on a failed load (search-app/src/App.jsx:23) is I/O.
- `e.preventDefault()` (search-app/src/App.jsx:30) concerns the browser event and changes no state.
- Rendering is not modelled: React hooks, JSX, icons, CSS classes, the loading, error and "Presiona Enter para buscar" status lines (search-app/src/App.jsx:73-106), and the clear button appearing only for a non-empty query (search-app/src/App.jsx:92). None of it changes state; the card's two fallbacks are modelled in `Display`.
- The React state updates are applied at once. Batching and re-rendering are not modelled.
- Text.Lower: only ASCII letters are lower-cased. JavaScript's full Unicode case mapping (accented capitals, for example) is not modelled.
- Customer.ToText: a number is represented by the text JavaScript's `String(n)` gives for it. Number formatting itself is not modelled.
- Customer.ToText: only scalar JSON values are modelled (strings, numbers, booleans, `null`). Nested arrays and objects, which the dataset does not contain, are not.
- A dataset that is not a JSON array is not modelled. `LoadSucceeded` takes a list of records.
- React would not render a value of `true` in a card field. `Display.InfoValue` models only the `value || '-'` choice, not how React renders the chosen value.
- The Python scripts `convert_data.py` and `analyze_excel.py` are not part of this model. They read the spreadsheet with pandas and write the JSON; `fillna('')` there is why real records hold empty strings rather than missing fields, which `Display.EmptyCellsShowDashes` covers.
