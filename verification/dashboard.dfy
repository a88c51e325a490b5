/**
 The result handling of the police dashboard (frontend/src/components/PoliceDashboard.jsx),
 without its rendering: the search guard, the location / case-type filter applied
 to the service's answer, the filter panel's state updates, and five-per-page
 pagination with its Previous / Next guards.

 The component's React state is a `State` value and each user action a pure
 transition. The network call is not modelled: its outcome is a parameter of
 the search transition.
 */
module Dashboard {
  import opened Strings
  import opened Seqs
  import opened Values

  const ResultsPerPage: int := 5

  const AllStations := "All Stations"
  const AllTypes := "All Types"

  /** The fields of a service result that the model keeps: those the filter reads, plus name, FIR and score. */
  datatype ApiRecord = ApiRecord(name: string, caseType: string, caseFIR: string, location: string, confidence: int)

  /** The `activeFilters` object: filter name to chosen option. */
  type Filters = map<string, string>

  const InitialFilters: Filters := map["timeframe" := "1 Year", "location" := AllStations, "caseType" := AllTypes]

  /** The option groups of the filter panel, keyed as in `filterOptions`. */
  const FilterOptions: map<string, seq<string>> := map[
    "timeframes" := ["1 Month", "3 Months", "1 Year", "5 Years"],
    "locations" := [AllStations, "Delhi", "Mumbai", "Bangalore", "Kolkata"],
    "caseTypes" := [AllTypes, "Criminal", "Witness", "Suspect", "Victim"]]

  datatype State = State(inputName: string, searchResults: seq<ApiRecord>, currentPage: int, activeFilters: Filters)

  const Initial := State("", [], 1, InitialFilters)

  /** Reading a property of `activeFilters`; `None` is JavaScript's `undefined`. */
  function FilterValue(f: Filters, key: string): Option<string> {
    if key in f then Some(f[key]) else None
  }

  /** `location === "All Stations" || record.location.includes(location)`; `includes(undefined)` searches for the text "undefined". */
  predicate MatchesLocation(f: Filters, rec: ApiRecord) {
    match FilterValue(f, "location")
    case None => Contains(rec.location, "undefined")
    case Some(loc) => loc == AllStations || Contains(rec.location, loc)
  }

  /** `caseType === "All Types" || record.caseType === caseType`. */
  predicate MatchesCaseType(f: Filters, rec: ApiRecord) {
    match FilterValue(f, "caseType")
    case None => false
    case Some(ct) => ct == AllTypes || rec.caseType == ct
  }

  /**
   The predicate `handleSearch` filters the service's results with: the record's
   location contains the chosen location unless that is "All Stations" (a missing
   property is looked for as the text "undefined"), and its case type is the
   chosen one unless that is "All Types" (a missing property matches nothing).
   */
  function Keep(f: Filters, rec: ApiRecord): (b: bool)
    ensures b ==> "caseType" in f
    ensures b <==>
      && ("caseType" in f && (f["caseType"] == AllTypes || rec.caseType == f["caseType"]))
      && (if "location" in f then f["location"] == AllStations || exists i :: OccursAt(rec.location, f["location"], i)
          else exists i :: OccursAt(rec.location, "undefined", i))
  {
    MatchesLocation(f, rec) && MatchesCaseType(f, rec)
  }

  function Keeps(f: Filters): ApiRecord -> bool {
    rec => Keep(f, rec)
  }

  /** The page-range and filter-shape invariant every reachable state keeps. */
  ghost predicate Valid(st: State) {
    && 1 <= st.currentPage <= TotalPages(|st.searchResults|)
    && "timeframe" in st.activeFilters
    && "location" in st.activeFilters
    && "caseType" in st.activeFilters
  }

  /** `Math.ceil(n / 5) || 1`. */
  function TotalPages(n: nat): (t: int)
    ensures t >= 1
    ensures n == 0 ==> t == 1
    ensures n > 0 ==> (t - 1) * ResultsPerPage < n <= t * ResultsPerPage
  {
    var pages := (n + ResultsPerPage - 1) / ResultsPerPage;
    if pages == 0 then 1 else pages
  }

  function Min(a: int, b: int): int { if a <= b then a else b }

  function Max(a: int, b: int): int { if a <= b then b else a }

  /** A `slice` position: negative counts from the end, and the result is clamped to `0..len`. */
  function SlicePosition(pos: int, len: nat): (r: nat)
    ensures r <= len
  {
    if pos < 0 then Max(len + pos, 0) else Min(pos, len)
  }

  /** `Array.prototype.slice(start, end)`. */
  function JsSlice<T>(s: seq<T>, start: int, end: int): seq<T> {
    var from := SlicePosition(start, |s|);
    var to := SlicePosition(end, |s|);
    if from < to then s[from..to] else []
  }

  /** `paginatedResults`: the results shown on the current page. */
  function Page(st: State): (page: seq<ApiRecord>)
    ensures |page| <= ResultsPerPage
    ensures 1 <= st.currentPage ==>
      var n := |st.searchResults|;
      page == st.searchResults[Min((st.currentPage - 1) * ResultsPerPage, n)..Min(st.currentPage * ResultsPerPage, n)]
    ensures Valid(st) && |st.searchResults| > 0 ==> |page| >= 1
  {
    var p := st.currentPage;
    var n := |st.searchResults|;
    var from := SlicePosition((p - 1) * ResultsPerPage, n);
    var to := SlicePosition(p * ResultsPerPage, n);
    assert to - from <= ResultsPerPage;
    JsSlice(st.searchResults, (p - 1) * ResultsPerPage, p * ResultsPerPage)
  }

  /** The outcome of the call to the search service. */
  datatype Fetch = Fetched(results: seq<ApiRecord>) | FetchFailed

  /**
   `handleSearch`: a name that trims to nothing only raises an alert; a failed
   call only raises an alert; otherwise the filtered results replace the old
   ones and the first page is shown.
   */
  function HandleSearch(st: State, fetch: Fetch): (st': State)
    ensures (forall i :: 0 <= i < |st.inputName| ==> IsJsSpace(st.inputName[i])) ==> st' == st
    ensures fetch.FetchFailed? ==> st' == st
    ensures st'.inputName == st.inputName && st'.activeFilters == st.activeFilters
    ensures st' != st ==> st'.currentPage == 1
    ensures (exists i :: 0 <= i < |st.inputName| && !IsJsSpace(st.inputName[i])) && fetch.Fetched? ==>
      && st'.currentPage == 1
      && |st'.searchResults| == |Indices(fetch.results, Keeps(st.activeFilters))|
      && (forall j :: 0 <= j < |st'.searchResults| ==>
            st'.searchResults[j] == fetch.results[Indices(fetch.results, Keeps(st.activeFilters))[j]])
      && IsSubsequence(st'.searchResults, fetch.results)
      && (forall i :: 0 <= i < |st'.searchResults| ==> Keep(st.activeFilters, st'.searchResults[i]))
      && (forall i :: 0 <= i < |fetch.results| && Keep(st.activeFilters, fetch.results[i]) ==> fetch.results[i] in st'.searchResults)
  {
    StripEmptyIff(st.inputName, IsJsSpace);
    if JsTrim(st.inputName) == [] then st
    else
      match fetch
      case FetchFailed => st
      case Fetched(results) =>
        var kept := Filter(results, Keeps(st.activeFilters));
        FilterMembers(results, Keeps(st.activeFilters));
        FilterIsSubsequence(results, Keeps(st.activeFilters));
        FilterAt(results, Keeps(st.activeFilters));
        st.(searchResults := kept, currentPage := 1)
  }

  /** `toggleFilter(filterType, value)`: set one property, keep the others. */
  function ToggleFilter(st: State, key: string, value: string): (st': State)
    ensures key in st'.activeFilters && st'.activeFilters[key] == value
    ensures st'.activeFilters.Keys == st.activeFilters.Keys + {key}
    ensures forall k :: k in st.activeFilters && k != key ==> st'.activeFilters[k] == st.activeFilters[k]
    ensures st'.searchResults == st.searchResults && st'.currentPage == st.currentPage && st'.inputName == st.inputName
  {
    st.(activeFilters := st.activeFilters[key := value])
  }

  /** `resetFilters()`: back to the initial filter object. */
  function ResetFilters(st: State): (st': State)
    ensures st'.activeFilters == Initial.activeFilters
    ensures forall rec :: Keep(st'.activeFilters, rec)
    ensures st'.activeFilters.Keys == {"timeframe", "location", "caseType"}
    ensures st'.searchResults == st.searchResults && st'.currentPage == st.currentPage && st'.inputName == st.inputName
  {
    st.(activeFilters := InitialFilters)
  }

  /** `disabled={currentPage === 1 || paginatedResults.length === 0}`. */
  function PrevDisabled(st: State): (b: bool)
    ensures Valid(st) && |st.searchResults| > 0 ==> (b <==> st.currentPage <= 1)
    ensures |st.searchResults| == 0 ==> b
  {
    st.currentPage == 1 || |Page(st)| == 0
  }

  /** `disabled={currentPage === totalPages || paginatedResults.length === 0}`. */
  function NextDisabled(st: State): (b: bool)
    ensures Valid(st) && |st.searchResults| > 0 ==> (b <==> st.currentPage >= TotalPages(|st.searchResults|))
    ensures |st.searchResults| == 0 ==> b
  {
    st.currentPage == TotalPages(|st.searchResults|) || |Page(st)| == 0
  }

  /** The Previous button: one page back unless disabled. */
  function PrevPage(st: State): (st': State)
    ensures st' == st.(currentPage := st'.currentPage)
    ensures Valid(st) ==> Valid(st')
    ensures st'.currentPage == st.currentPage || st'.currentPage == st.currentPage - 1
  {
    if PrevDisabled(st) then st else st.(currentPage := st.currentPage - 1)
  }

  /** The Next button: one page on unless disabled. */
  function NextPage(st: State): (st': State)
    ensures st' == st.(currentPage := st'.currentPage)
    ensures Valid(st) ==> Valid(st')
    ensures st'.currentPage == st.currentPage || st'.currentPage == st.currentPage + 1
  {
    if NextDisabled(st) then st else st.(currentPage := st.currentPage + 1)
  }

  /** On a non-empty result list the buttons are disabled only at the ends. */
  lemma PagingMovesExceptAtEnds(st: State)
    requires Valid(st) && |st.searchResults| > 0
    ensures PrevPage(st).currentPage == st.currentPage - 1 <==> st.currentPage > 1
    ensures NextPage(st).currentPage == st.currentPage + 1 <==> st.currentPage < TotalPages(|st.searchResults|)
  {
  }

  /**
   The option group whose buttons were clicked, mapped to the filter property
   that `handleSearch` reads.
   */
  function FilterKeyOf(group: string): (key: string)
    requires group in FilterOptions
    ensures key in InitialFilters
  {
    if group == "timeframes" then "timeframe"
    else if group == "locations" then "location"
    else "caseType"
  }

  /**
   A click on an option button as the component wires it: the button hands the
   option group's own key (`timeframes`, `locations`, `caseTypes`) to
   `toggleFilter`.
   */
  function ClickOptionAsWritten(st: State, group: string, option: string): (st': State)
    requires group in FilterOptions && option in FilterOptions[group]
    ensures group in st'.activeFilters && st'.activeFilters[group] == option
    ensures forall rec :: Keep(st'.activeFilters, rec) == Keep(st.activeFilters, rec)
  {
    ToggleFilter(st, group, option)
  }

  /** A click on an option button that sets the filter property the search reads. */
  function ClickOption(st: State, group: string, option: string): (st': State)
    requires group in FilterOptions && option in FilterOptions[group]
    ensures FilterKeyOf(group) in st'.activeFilters && st'.activeFilters[FilterKeyOf(group)] == option
    ensures group == "locations" && option != AllStations ==>
      forall rec :: Keep(st'.activeFilters, rec) ==> Contains(rec.location, option)
    ensures group == "caseTypes" && option != AllTypes ==>
      forall rec :: Keep(st'.activeFilters, rec) ==> rec.caseType == option
  {
    ToggleFilter(st, FilterKeyOf(group), option)
  }

  const DelhiRecord := ApiRecord("Ravi Kumar", "Criminal", "FIR-1", "Delhi", 90)

  /** As wired, choosing "Mumbai" and searching still shows a Delhi record. */
  lemma LocationButtonIgnored()
    ensures var st := ClickOptionAsWritten(Initial.(inputName := "ravi"), "locations", "Mumbai");
            HandleSearch(st, Fetched([DelhiRecord])).searchResults == [DelhiRecord]
  {
    var st := ClickOptionAsWritten(Initial.(inputName := "ravi"), "locations", "Mumbai");
    assert Keep(st.activeFilters, DelhiRecord);
    assert !IsJsSpace(st.inputName[0]);
    assert [DelhiRecord][..0] == [];
  }

  /** With the property corrected, choosing "Mumbai" and searching drops the Delhi record. */
  lemma LocationButtonApplied()
    ensures var st := ClickOption(Initial.(inputName := "ravi"), "locations", "Mumbai");
            HandleSearch(st, Fetched([DelhiRecord])).searchResults == []
  {
    var st := ClickOption(Initial.(inputName := "ravi"), "locations", "Mumbai");
    assert !Contains("Delhi", "Mumbai");
    assert !Keep(st.activeFilters, DelhiRecord);
    assert [DelhiRecord][..0] == [];
  }

  /** With the initial filters every result is kept. */
  lemma InitialFiltersKeepAll(results: seq<ApiRecord>)
    ensures Filter(results, Keeps(InitialFilters)) == results
  {
    FilterKeepsAll(results, Keeps(InitialFilters));
  }

  /** The timeframe filter never affects which results are kept. */
  lemma TimeframeIgnored(f: Filters, timeframe: string, rec: ApiRecord)
    ensures Keep(f["timeframe" := timeframe], rec) == Keep(f, rec)
  {
    assert FilterValue(f["timeframe" := timeframe], "location") == FilterValue(f, "location");
    assert FilterValue(f["timeframe" := timeframe], "caseType") == FilterValue(f, "caseType");
  }

  /** Resetting forgets every earlier filter choice. */
  lemma ResetUndoesToggle(st: State, key: string, value: string)
    ensures ResetFilters(ToggleFilter(st, key, value)) == ResetFilters(st)
  {
  }

  /** The user's actions on the dashboard. */
  datatype Event =
    | TypeName(text: string)
    | Search(fetch: Fetch)
    | ChooseOption(group: string, option: string)
    | Reset
    | Previous
    | Next

  /**
   How the option buttons are connected to `toggleFilter`: as the component
   wires them (the option group's key) or corrected (the property the search reads).
   */
  datatype Wiring = AsWritten | Corrected

  /** One user action, under either wiring of the option buttons. */
  function Step(st: State, e: Event, wiring: Wiring): (st': State)
    ensures Valid(st) ==> Valid(st')
  {
    match e
    case TypeName(text) => st.(inputName := text)
    case Search(fetch) => HandleSearch(st, fetch)
    case ChooseOption(group, option) =>
      if group in FilterOptions && option in FilterOptions[group] then
        match wiring
        case AsWritten => ClickOptionAsWritten(st, group, option)
        case Corrected => ClickOption(st, group, option)
      else st
    case Reset => ResetFilters(st)
    case Previous => PrevPage(st)
    case Next => NextPage(st)
  }

  /** The state after a sequence of actions. */
  function Run(st: State, events: seq<Event>, wiring: Wiring): (st': State)
    ensures Valid(st) ==> Valid(st')
    decreases |events|
  {
    if events == [] then st else Run(Step(st, events[0], wiring), events[1..], wiring)
  }

  /** The page range holds in every state the dashboard can reach, as wired and as corrected. */
  lemma ReachableStatesValid(events: seq<Event>, wiring: Wiring)
    ensures Valid(Run(Initial, events, wiring))
    ensures 1 <= Run(Initial, events, wiring).currentPage <= TotalPages(|Run(Initial, events, wiring).searchResults|)
  {
  }
}
