/**
 The earlier search of the Flask service (backend/app.py): its own
 `search_name`, which scores every row of the loaded table and keeps rows
 scoring strictly above 70 in table order without sorting, and the `/search`
 handler, which refuses a request without a name.

 The table, a process-wide global in the service, is an explicit parameter.
 */
module SearchService {
  import opened Seqs
  import opened Values

  /** Rows must score strictly above this to be returned. */
  const Threshold: int := 70

  /** The columns of the loaded table that the search reads. */
  datatype Row = Row(
    firstRoman: Value,
    lastRoman: Value,
    alternativeRoman: Value,
    age: Value,
    caseType: Value,
    caseFIR: Value,
    location: Value)

  datatype ServiceMatch = ServiceMatch(
    name: string,
    age: Value,
    caseType: Value,
    caseFIR: Value,
    location: Value,
    confidence: int)

  /** First name, last name and alternative spellings, space-separated, as given. */
  function SearchText(row: Row): (t: string)
    ensures |t| == |Render(row.firstRoman)| + |Render(row.lastRoman)| + |Render(row.alternativeRoman)| + 2
    ensures t[..|Render(row.firstRoman)|] == Render(row.firstRoman)
    ensures t[|Render(row.firstRoman)|] == ' '
    ensures t[|t| - |Render(row.alternativeRoman)| - 1] == ' '
    ensures t[|t| - |Render(row.alternativeRoman)|..] == Render(row.alternativeRoman)
    ensures t[|Render(row.firstRoman)| + 1..|t| - |Render(row.alternativeRoman)| - 1] == Render(row.lastRoman)
  {
    var first := Render(row.firstRoman);
    var last := Render(row.lastRoman);
    var alt := Render(row.alternativeRoman);
    var withLast := first + " " + last;
    var t := withLast + " " + alt;
    assert t[..|withLast|] == withLast;
    assert withLast[..|first|] == first;
    assert withLast[|first| + 1..] == last;
    assert t[|first| + 1..|withLast|] == withLast[|first| + 1..];
    assert t[|t| - |alt|..] == alt;
    t
  }

  /** The score of a row against the query exactly as typed. */
  function Confidence(input: string, row: Row, scorer: Scorer): int {
    scorer(input, SearchText(row))
  }

  function Accepts(input: string, scorer: Scorer): Row -> bool {
    (row: Row) => Confidence(input, row, scorer) > Threshold
  }

  /** The dictionary built for a kept row: the columns copied, the score as confidence. */
  function ToMatch(input: string, scorer: Scorer): (f: Row -> ServiceMatch)
    ensures forall row :: f(row).age == row.age && f(row).caseType == row.caseType
                       && f(row).caseFIR == row.caseFIR && f(row).location == row.location
    ensures forall row :: f(row).confidence == Confidence(input, row, scorer)
    ensures forall row :: |f(row).name| == |Render(row.firstRoman)| + 1 + |Render(row.lastRoman)|
    ensures forall row :: f(row).name[..|Render(row.firstRoman)|] == Render(row.firstRoman)
    ensures forall row :: f(row).name[|Render(row.firstRoman)|] == ' '
    ensures forall row :: f(row).name[|Render(row.firstRoman)| + 1..] == Render(row.lastRoman)
  {
    (row: Row) => ServiceMatch(
      Render(row.firstRoman) + " " + Render(row.lastRoman),
      row.age, row.caseType, row.caseFIR, row.location,
      Confidence(input, row, scorer))
  }

  /**
   `search_name(input_name)`: one result per row scoring above 70, in row order,
   with the row's columns copied and its score as confidence.
   */
  function SearchRows(input: string, rows: seq<Row>, scorer: Scorer): (ms: seq<ServiceMatch>)
    ensures |ms| == |Indices(rows, Accepts(input, scorer))| <= |rows|
    ensures forall j :: 0 <= j < |ms| ==> Threshold < ms[j].confidence <= 100
    ensures forall j :: 0 <= j < |ms| ==>
      var row := rows[Indices(rows, Accepts(input, scorer))[j]];
      && ms[j].name == Render(row.firstRoman) + " " + Render(row.lastRoman)
      && ms[j].age == row.age && ms[j].caseType == row.caseType
      && ms[j].caseFIR == row.caseFIR && ms[j].location == row.location
      && ms[j].confidence == Confidence(input, row, scorer)
  {
    var accepts := Accepts(input, scorer);
    FilterAt(rows, accepts);
    Map(Filter(rows, accepts), ToMatch(input, scorer))
  }

  /** A row is represented in the results exactly when it scores above 70. */
  lemma SearchRowsSelectsExactly(input: string, rows: seq<Row>, scorer: Scorer, i: int)
    requires 0 <= i < |rows|
    ensures i in Indices(rows, Accepts(input, scorer)) <==> Confidence(input, rows[i], scorer) > Threshold
  {
    var idx := Indices(rows, Accepts(input, scorer));
    if Confidence(input, rows[i], scorer) > Threshold {
      assert Accepts(input, scorer)(rows[i]);
    } else {
      forall j | 0 <= j < |idx| ensures idx[j] != i {
        assert Accepts(input, scorer)(rows[idx[j]]);
      }
    }
  }

  /** The JSON body of a `/search` response. */
  datatype Body = ErrorBody(error: string) | ResultsBody(results: seq<ServiceMatch>)

  datatype Response = Response(status: int, body: Body)

  /**
   The `/search` handler. `name` is the request's `name` field; `None` stands
   for a field that is absent or JSON `null`. Both, and the empty string, are
   refused with status 400 before any row is scored.
   */
  function HandleSearch(name: Option<string>, rows: seq<Row>, scorer: Scorer): (resp: Response)
    ensures resp.status == 400 <==> name == None || name == Some("")
    ensures resp.status == 400 ==> resp.body == ErrorBody("Name is required")
    ensures resp.status != 400 ==> resp.status == 200 && resp.body.ResultsBody?
    ensures resp.status != 400 ==> resp.body.results == SearchRows(name.value, rows, scorer)
  {
    match name
    case None => Response(400, ErrorBody("Name is required"))
    case Some(input) =>
      if input == "" then Response(400, ErrorBody("Name is required"))
      else Response(200, ResultsBody(SearchRows(input, rows, scorer)))
  }
}
