# Fuzzy name search: filtering, ranking and dashboard result handling

This project models the sequential logic around the fuzzy name search of a police
record lookup system. The similarity metric is a library call and is not modelled.
The model covers:

- **Ranked search** (`backend/utils/search.py`, module `RankedSearch`). The query is
  lower-cased. Each record's seven name columns are joined and lower-cased, and the
  record is scored against the query. Records scoring at or above the threshold
  (70 by default) become uniform results. Missing metadata becomes `"Unknown"`, the
  gender is mapped, and the names have their outer whitespace stripped. The list
  is then stably sorted by confidence, highest first.
- **Service search** (`backend/app.py`, module `SearchService`). This is the earlier
  variant that the `/search` endpoint runs. It keeps rows scoring strictly above 70,
  in table order, without sorting. The handler refuses an empty or missing name with
  status 400, and otherwise wraps the list under `results`. The loaded table is an
  explicit parameter instead of a process-wide global.
- **Dashboard result handling** (`frontend/src/components/PoliceDashboard.jsx`,
  module `Dashboard`). It covers the blank-input guard, the location / case-type
  filter, `toggleFilter` and `resetFilters`, five-per-page slicing, `totalPages` and
  the Previous / Next guards. The component state is a value, each user action is a
  transition, and the page-range invariant holds in every reachable state.
- **String normaliser** (`fuzzy_app/fuzzy-name-dashboard/src/utils/helpers.ts`, module
  `Normalize`). It lower-cases the input, then deletes everything that is neither an
  ASCII letter nor whitespace.

Supporting modules:

- `Strings` holds the character classes, both whitespace sets, stripping, substring
  search and integer rendering.
- `Seqs` holds order-preserving filtering, stated through the list of kept positions.
- `StableSort` holds the stable descending insertion sort.
- `Values` holds table cells, records as dictionaries, and the scorer type.

The scorer is a parameter of type `Values.Scorer`. That type admits every total
function from a pair of strings to a whole number in 0..100. So every property below
holds for any metric the library might compute.

## Model

| member | source | states |
|---|---|---|
| `RankedSearch.SearchName` | backend/utils/search.py:3-46 | every result has threshold <= confidence <= 100; the count equals the number of records reaching the threshold, so it is at most the number of records; results are ordered by confidence, never increasing; the output is a permutation of the unsorted per-record results; for every confidence value, the results with that value appear in record order (stable sort) |
| `RankedSearch.SearchNameDefault` | backend/utils/search.py:3 | with the default threshold every result has confidence at least 70, and the list is sorted highest first |
| `RankedSearch.SearchText` | backend/utils/search.py:18-26 | the scored text is the seven name columns joined by single spaces, character for character, with `A`-`Z` lower-cased and nothing else changed; it holds no upper-case letter, and it starts with the lower-cased first Roman name followed by a space |
| `RankedSearch.Matches` | backend/utils/search.py:12-41 | before sorting there is exactly one result per record whose score reaches the threshold (inclusive), in record order; each carries that record's projection and the scorer's value for the lower-cased query and the record's lower-cased joined name columns |
| `RankedSearch.Project` | backend/utils/search.py:32-41 | `name` and `nameDevanagari` are the joined first/middle/last names with only the outer whitespace removed, so neither starts or ends with whitespace; gender is "Male" exactly when the record's `Gender` is the integer 1, otherwise "Female", including when it is missing; a missing `age`, `caseType`, `caseFIR` or `location` becomes "Unknown", and a present one is copied; confidence is the given score |
| `RankedSearch.SearchIgnoresQueryCase` | backend/utils/search.py:14 | searching for a query and for its lower-cased form gives the same results |
| `RankedSearch.AcceptedRecordIsReturned` | backend/utils/search.py:29-41 | every record whose score reaches the threshold has its result in the output |
| `RankedSearch.ReturnedResultIsAccepted` | backend/utils/search.py:31-41 | every result in the output is the projection of some record whose score reaches the threshold, with that score |
| `StableSort.SortDesc` | backend/utils/search.py:44 | the sorted list is a permutation of the input with keys never increasing |
| `StableSort.SortDescStable` | backend/utils/search.py:44 | for every key, the elements with that key keep their input order, as a stable sort with `reverse=True` guarantees |
| `StableSort.InsertSorted` | backend/utils/search.py:44 | inserting an element into a sorted list keeps it sorted |
| `StableSort.InsertKeepsKeyOrder` | backend/utils/search.py:44 | an inserted element lands before every element with the same key that was already present; it is the earlier input element, so this is what stability needs |
| `SearchService.SearchRows` | backend/app.py:14-31 | one result per row scoring strictly above 70, so the count is at most the number of rows; results follow strictly increasing row positions, so there is no reordering; each result copies the row's first and last name, age, case type, FIR and location; its confidence is the scorer's value for the query and the row's first name, last name and alternative spellings |
| `SearchService.SearchText` | backend/app.py:19 | the scored text is the first name, a space, the last name, a space and the alternative spellings, not lower-cased |
| `SearchService.ToMatch` | backend/app.py:23-30 | a result copies the row's age, case type, FIR and location, carries the row's score as confidence, and its name is the first name followed by a space and the last name |
| `SearchService.SearchRowsSelectsExactly` | backend/app.py:17-22 | a row is represented in the results if and only if its score is above 70 |
| `SearchService.HandleSearch` | backend/app.py:34-42 | the status is 400 with error "Name is required" exactly when the name is absent, null or empty, and then no search runs; otherwise the status is 200 and the body holds the search's list under `results` |
| `Normalize.NormalizeString` | fuzzy_app/fuzzy-name-dashboard/src/utils/helpers.ts:7-9 | the output holds only lower-case `a`-`z` and whitespace and is no longer than the input |
| `Normalize.NormalizeIdempotent` | fuzzy_app/fuzzy-name-dashboard/src/utils/helpers.ts:8 | normalising twice is the same as normalising once |
| `Normalize.NormalizeFixpoint` | fuzzy_app/fuzzy-name-dashboard/src/utils/helpers.ts:8 | a string is unchanged by normalising if and only if it holds only lower-case ASCII letters and whitespace |
| `Normalize.NormalizeIsSubsequence` | fuzzy_app/fuzzy-name-dashboard/src/utils/helpers.ts:8 | the output is a subsequence of the lower-cased input |
| `Normalize.NormalizeKeepsWhitespace` | fuzzy_app/fuzzy-name-dashboard/src/utils/helpers.ts:8 | the input's whitespace characters all survive, in order, with no trimming or collapsing |
| `Normalize.NormalizeKeepsLetters` | fuzzy_app/fuzzy-name-dashboard/src/utils/helpers.ts:8 | the ASCII letters of the input survive, lower-cased and in order |
| `Normalize.NormalizeDropsOthers` | fuzzy_app/fuzzy-name-dashboard/src/utils/helpers.ts:8 | a character that is neither an ASCII letter nor whitespace, such as a digit, punctuation or Devanagari, never appears in the output |
| `Normalize.FilterLowerCommute` | fuzzy_app/fuzzy-name-dashboard/src/utils/helpers.ts:8 | deleting by a case-blind character class before or after lower-casing gives the same string |
| `Dashboard.HandleSearch` | frontend/src/components/PoliceDashboard.jsx:35-67 | an empty or whitespace-only name, or a failed call, leaves the state unchanged; otherwise the j-th new result is the fetched record at the j-th position the filter keeps, so there is one result per kept position, duplicates included, in fetched order, and the page is 1; the name and filters never change |
| `Dashboard.Keep` | frontend/src/components/PoliceDashboard.jsx:47-56 | a record is kept exactly when its case type equals the chosen one or "All Types" is chosen, and its location contains the chosen location at some offset or "All Stations" is chosen; a missing location property is searched for as the text "undefined", and a missing case type keeps nothing |
| `Dashboard.InitialFiltersKeepAll` | frontend/src/components/PoliceDashboard.jsx:47-56 | with the initial filters ("All Stations", "All Types") every fetched record is kept |
| `Dashboard.TimeframeIgnored` | frontend/src/components/PoliceDashboard.jsx:47-56 | the timeframe filter never changes which records are kept |
| `Dashboard.ToggleFilter` | frontend/src/components/PoliceDashboard.jsx:69-74 | the named property gets the value, every other property keeps its value, and results, page and name are untouched |
| `Dashboard.ResetFilters` | frontend/src/components/PoliceDashboard.jsx:76-82 | the filters are the initial ones set at lines 20-24 again ("1 Year", "All Stations", "All Types"), with exactly those three keys, and keep every record; results, page and name are untouched |
| `Dashboard.ResetUndoesToggle` | frontend/src/components/PoliceDashboard.jsx:69-82 | resetting after a toggle gives the same state as resetting without it |
| `Dashboard.TotalPages` | frontend/src/components/PoliceDashboard.jsx:89 | the page count is at least 1; it is 1 for no results and the least t with n <= 5t otherwise |
| `Dashboard.Page` | frontend/src/components/PoliceDashboard.jsx:84-87 | the shown page is the contiguous slice from (p-1)*5 to p*5 of the results, clamped to their length; it never holds more than 5 results, and it is non-empty in a valid state with results |
| `Dashboard.PrevDisabled` | frontend/src/components/PoliceDashboard.jsx:265 | with no results the button is disabled; in a valid state with results it is disabled exactly on page 1 |
| `Dashboard.NextDisabled` | frontend/src/components/PoliceDashboard.jsx:274-276 | with no results the button is disabled; in a valid state with results it is disabled exactly on the last page |
| `Dashboard.PrevPage` | frontend/src/components/PoliceDashboard.jsx:264-268 | only the page changes, by at most one step back, and the page range 1..totalPages is preserved |
| `Dashboard.NextPage` | frontend/src/components/PoliceDashboard.jsx:273-280 | only the page changes, by at most one step on, and the page range 1..totalPages is preserved |
| `Dashboard.PagingMovesExceptAtEnds` | frontend/src/components/PoliceDashboard.jsx:264-280 | with results, Previous moves back exactly when the page is above 1, and Next moves on exactly when the page is below totalPages |
| `Dashboard.Step` | frontend/src/components/PoliceDashboard.jsx:19-89 | every user action preserves the page-range and filter-shape invariant, both with the option buttons as wired and with the corrected wiring |
| `Dashboard.Run` | frontend/src/components/PoliceDashboard.jsx:19-89 | any sequence of actions preserves the invariant, under either wiring |
| `Dashboard.ReachableStatesValid` | frontend/src/components/PoliceDashboard.jsx:19-89 | in every state reachable from the initial one, as wired or corrected, 1 <= currentPage <= totalPages |
| `Dashboard.ClickOptionAsWritten` | frontend/src/components/PoliceDashboard.jsx:154-174 | a filter button sets the property named after its option group and never changes which records the search keeps |
| `Dashboard.LocationButtonIgnored` | frontend/src/components/PoliceDashboard.jsx:154-174 | as wired, choosing "Mumbai" and then searching still shows a record located in Delhi |
| `Dashboard.ClickOption` | frontend/src/components/PoliceDashboard.jsx:69-74 | the corrected button sets the filter property the search reads; a chosen location or case type then restricts the kept records to matching ones |
| `Dashboard.LocationButtonApplied` | frontend/src/components/PoliceDashboard.jsx:47-56 | with the corrected wiring, choosing "Mumbai" and then searching drops the Delhi record |
| `Strings.AsciiLower` | backend/utils/search.py:14 | lower-casing keeps the length and maps each character on its own: `A`-`Z` to `a`-`z`, everything else unchanged |
| `Strings.PyStrip` | backend/utils/search.py:33-34 | Python's `strip()` removes exactly the leading and trailing whitespace (the `str.isspace` set) and keeps the rest as one contiguous slice |
| `Strings.JsTrim` | frontend/src/components/PoliceDashboard.jsx:36 | `trim()` removes exactly the leading and trailing ECMAScript whitespace and keeps the rest as one contiguous slice |
| `Strings.StripEmptyIff` | frontend/src/components/PoliceDashboard.jsx:36 | stripping gives the empty string if and only if the input is all whitespace |
| `Strings.Contains` | frontend/src/components/PoliceDashboard.jsx:50 | `includes` is true if and only if the text occurs at some offset |
| `Values.Render` | backend/utils/search.py:19-25 | interpolating a text cell gives the text, a NaN cell gives "nan", a non-negative integer cell gives one or more decimal digits without a leading zero that read back as the number, and a negative one gives a minus sign followed by the digits of its magnitude, again without a leading zero |

## Findings

| source | as written | input that shows it | evidently intended | confidence | as-written member | corrected member |
|---|---|---|---|---|---|---|
| frontend/src/components/PoliceDashboard.jsx:154-174 | each filter button calls `toggleFilter` with the key of its option group (`timeframes`, `locations`, `caseTypes`); `handleSearch` reads `location` and `caseType`, so the choice is stored under a key nobody reads | choose "Mumbai" under locations, type "ravi" and search; the service answers with one record located in "Delhi", and that record is still listed | the button sets the singular property (`location`, `caseType`, `timeframe`) that the filter reads | high; not executed | `Dashboard.ClickOptionAsWritten` | `Dashboard.ClickOption` |

`Dashboard.LocationButtonIgnored` proves the as-written behaviour on that input.
`Dashboard.LocationButtonApplied` proves that the corrected wiring drops the record.
`Dashboard.Step` takes the wiring as a parameter, and the reachable-state invariant is proved for both.

## Left out

- The similarity metric: fuzzywuzzy's `token_sort_ratio` in the utility and the default `WRatio` and processing in the service. It is a foreign library, replaced by an arbitrary scorer bounded to 0..100. `extractOne` over a one-element list with its default cutoff of 0 always returns a pair, so the `match and` guard never fails, and the model drops it.
- Unicode case mapping in Python's `lower()` and JavaScript's `toLowerCase()`: only `A`-`Z` are mapped. For example, the Kelvin sign lower-cases to `k` in both languages, so the normaliser would keep it; the model deletes it.
- Floating-point cells: pandas may read numeric columns as floats, which render as, e.g., `25.0`, and a `Gender` of `1.0` or `True` also equals 1. Cells are text, integers or NaN (rendered `nan`).
- CSV loading, Flask routing, CORS and the development server are I/O plumbing. So are a request body that is not JSON and a `name` that is a JSON non-string (a `0` or `false` would also be refused by `not`); the model takes the name as an optional string.
- `SearchService.Row`: the loaded table is assumed to have the seven columns the service reads (first and last Roman name, alternative spellings, age, case type, FIR, location). A missing column makes the row lookup raise `KeyError`, and Flask answers with status 500; the model has no such outcome.
- The HTTP client: the dashboard's call to the service is the `Fetch` parameter of `Dashboard.HandleSearch`.
- `Dashboard.HandleSearch`: the search is one atomic step. In the component it is asynchronous: while the call is pending the user can page, change filters, or start a second search with Enter, and the answer is then filtered with the filters read when the search started. Interleavings of those actions with a pending search are not modelled.
- `isLoading`: besides the spinner, it disables the Search button while a search is pending, but not the Enter key. This only matters for the interleavings above, so it is not part of the state.
- Dashboard state that only affects rendering: `showFilters`, the alerts and the console logs. Also all rendering, including the results table, which reads `case_type` and `fir` fields that the service does not send.
- `Dashboard.ApiRecord`: location and case type are strings. A non-string location would make `includes` throw.
- `formatSimilarityScore` (floating point) and `delay` (a timer) in the normaliser's file.
- Transliteration, phonetic codes, partial ratio and prefix bonus: none of these exist in the modelled code.
