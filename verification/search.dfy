/**
 The ranked name search of the back end's search utility (backend/utils/search.py).

 The query is lower-cased once. Each record's seven name columns (first, middle
 and last Roman names, the alternative Roman spellings, and first, middle and
 last Devanagari names) are joined by single spaces and lower-cased, and the
 scorer compares the two. Records scoring at or above the threshold (70 unless
 the caller says otherwise) are projected into uniform results, and the list is
 stably sorted by confidence, highest first.
 */
module RankedSearch {
  import opened Strings
  import opened Seqs
  import opened StableSort
  import opened Values

  const DefaultThreshold: int := 70

  const FirstRoman := "First Name (Roman)"
  const MiddleRoman := "Middle Name (Roman)"
  const LastRoman := "Last Name (Roman)"
  const AlternativeRoman := "Alternative Roman Spellings"
  const FirstDevanagari := "First Name (Devanagari)"
  const MiddleDevanagari := "Middle Name (Devanagari)"
  const LastDevanagari := "Last Name (Devanagari)"

  /** The placeholder for a metadata column the record lacks. */
  const Unknown := Str("Unknown")

  /** One search result as returned to the caller. */
  datatype Match = Match(
    name: string,
    nameDevanagari: string,
    gender: string,
    age: Value,
    caseType: Value,
    caseFIR: Value,
    location: Value,
    confidence: int)

  function ConfidenceOf(m: Match): int { m.confidence }

  /** `record.get(column, '')` interpolated into an f-string. */
  function Field(r: Record, column: string): string {
    Render(Get(r, column, Str("")))
  }

  /** The seven name columns of a record, space-separated, as interpolated. */
  function NameColumns(r: Record): string {
    Field(r, FirstRoman) + " " + OtherNameColumns(r)
  }

  /** The six name columns after the first Roman name, space-separated. */
  function OtherNameColumns(r: Record): string {
    Field(r, MiddleRoman) + " " + Field(r, LastRoman) + " "
    + Field(r, AlternativeRoman) + " "
    + Field(r, FirstDevanagari) + " " + Field(r, MiddleDevanagari) + " " + Field(r, LastDevanagari)
  }

  /** The lower-cased text a record is scored against. */
  function SearchText(r: Record): (t: string)
    ensures |t| == |NameColumns(r)|
    ensures forall i :: 0 <= i < |t| ==> !IsUpper(t[i])
    ensures forall i :: 0 <= i < |t| ==> t[i] == LowerChar(NameColumns(r)[i])
    ensures |Field(r, FirstRoman)| < |t| && t[|Field(r, FirstRoman)|] == ' '
    ensures t[..|Field(r, FirstRoman)|] == AsciiLower(Field(r, FirstRoman))
  {
    var first := Field(r, FirstRoman);
    var joined := first + " " + OtherNameColumns(r);
    var t := AsciiLower(joined);
    assert joined[|first|] == ' ';
    assert forall i :: 0 <= i < |first| ==> joined[i] == first[i];
    assert t[..|first|] == AsciiLower(first);
    t
  }

  /** The score of a record against the already lower-cased query. */
  function Confidence(loweredQuery: string, r: Record, scorer: Scorer): int {
    scorer(loweredQuery, SearchText(r))
  }

  /** First, middle and last name, space-separated, before stripping. */
  function JoinedName(r: Record, first: string, middle: string, last: string): string {
    Field(r, first) + " " + Field(r, middle) + " " + Field(r, last)
  }

  /** The result built for an accepted record with the given confidence. */
  function Project(r: Record, confidence: int): (m: Match)
    ensures NoOuterSpace(m.name, IsPySpace) && NoOuterSpace(m.nameDevanagari, IsPySpace)
    ensures exists i :: IsStripAt(m.name, JoinedName(r, FirstRoman, MiddleRoman, LastRoman), IsPySpace, i)
    ensures exists i :: IsStripAt(m.nameDevanagari, JoinedName(r, FirstDevanagari, MiddleDevanagari, LastDevanagari), IsPySpace, i)
    ensures m.gender == "Male" || m.gender == "Female"
    ensures m.gender == "Male" <==> Lookup(r, "Gender") == Some(Int(1))
    ensures "age" in r ==> m.age == r["age"]
    ensures "age" !in r ==> m.age == Unknown
    ensures "caseType" in r ==> m.caseType == r["caseType"]
    ensures "caseType" !in r ==> m.caseType == Unknown
    ensures "caseFIR" in r ==> m.caseFIR == r["caseFIR"]
    ensures "caseFIR" !in r ==> m.caseFIR == Unknown
    ensures "location" in r ==> m.location == r["location"]
    ensures "location" !in r ==> m.location == Unknown
    ensures m.confidence == confidence
  {
    Match(
      name := PyStrip(JoinedName(r, FirstRoman, MiddleRoman, LastRoman)),
      nameDevanagari := PyStrip(JoinedName(r, FirstDevanagari, MiddleDevanagari, LastDevanagari)),
      gender := if Lookup(r, "Gender") == Some(Int(1)) then "Male" else "Female",
      age := Get(r, "age", Unknown),
      caseType := Get(r, "caseType", Unknown),
      caseFIR := Get(r, "caseFIR", Unknown),
      location := Get(r, "location", Unknown),
      confidence := confidence)
  }

  /** The threshold test, inclusive. */
  function Accepts(loweredQuery: string, threshold: int, scorer: Scorer): Record -> bool {
    r => Confidence(loweredQuery, r, scorer) >= threshold
  }

  function ScoredProjection(loweredQuery: string, scorer: Scorer): Record -> Match {
    r => Project(r, Confidence(loweredQuery, r, scorer))
  }

  /**
   The results list the loop builds before sorting: exactly one result per
   accepted record, in record order, carrying that record's score.
   */
  function Matches(loweredQuery: string, data: seq<Record>, threshold: int, scorer: Scorer): (ms: seq<Match>)
    ensures |ms| == |Indices(data, Accepts(loweredQuery, threshold, scorer))| <= |data|
    ensures forall j :: 0 <= j < |ms| ==>
      var i := Indices(data, Accepts(loweredQuery, threshold, scorer))[j];
      ms[j] == Project(data[i], Confidence(loweredQuery, data[i], scorer))
    ensures forall j :: 0 <= j < |ms| ==> threshold <= ms[j].confidence <= 100
  {
    var accepts := Accepts(loweredQuery, threshold, scorer);
    FilterAt(data, accepts);
    Map(Filter(data, accepts), ScoredProjection(loweredQuery, scorer))
  }

  /**
   `search_name(input_name, data, confidence_threshold)`: the accepted records'
   results, sorted by confidence with the highest first and with records of
   equal confidence in their original order.
   */
  function SearchName(query: string, data: seq<Record>, threshold: int, scorer: Scorer): (results: seq<Match>)
    ensures |results| == |Indices(data, Accepts(AsciiLower(query), threshold, scorer))| <= |data|
    ensures forall j :: 0 <= j < |results| ==> threshold <= results[j].confidence <= 100
    ensures SortedDesc(results, ConfidenceOf)
    ensures multiset(results) == multiset(Matches(AsciiLower(query), data, threshold, scorer))
    ensures forall k :: Filter(results, KeyIs(ConfidenceOf, k))
                     == Filter(Matches(AsciiLower(query), data, threshold, scorer), KeyIs(ConfidenceOf, k))
  {
    var ms := Matches(AsciiLower(query), data, threshold, scorer);
    SortDescStable(ms, ConfidenceOf);
    var results := SortDesc(ms, ConfidenceOf);
    assert |results| == |ms| by {
      assert |multiset(results)| == |multiset(ms)|;
    }
    forall j | 0 <= j < |results| ensures threshold <= results[j].confidence <= 100 {
      assert results[j] in multiset(ms);
    }
    results
  }

  /** The search with the default threshold of 70. */
  function SearchNameDefault(query: string, data: seq<Record>, scorer: Scorer): (results: seq<Match>)
    ensures forall j :: 0 <= j < |results| ==> 70 <= results[j].confidence <= 100
    ensures SortedDesc(results, ConfidenceOf)
  {
    SearchName(query, data, DefaultThreshold, scorer)
  }

  /** The query's letter case does not matter. */
  lemma SearchIgnoresQueryCase(query: string, data: seq<Record>, threshold: int, scorer: Scorer)
    ensures SearchName(query, data, threshold, scorer) == SearchName(AsciiLower(query), data, threshold, scorer)
  {
    LowerIdempotent(query);
  }

  /** Every record that reaches the threshold has its result in the output. */
  lemma AcceptedRecordIsReturned(query: string, data: seq<Record>, threshold: int, scorer: Scorer, i: int)
    requires 0 <= i < |data|
    requires Confidence(AsciiLower(query), data[i], scorer) >= threshold
    ensures Project(data[i], Confidence(AsciiLower(query), data[i], scorer)) in SearchName(query, data, threshold, scorer)
  {
    var q := AsciiLower(query);
    var accepts := Accepts(q, threshold, scorer);
    var idx := Indices(data, accepts);
    assert accepts(data[i]);
    var j :| 0 <= j < |idx| && idx[j] == i;
    var ms := Matches(q, data, threshold, scorer);
    assert ms[j] in multiset(ms);
  }

  /** `m` is the result of some record of `data` whose score reaches the threshold. */
  ghost predicate FromAcceptedRecord(loweredQuery: string, data: seq<Record>, threshold: int, scorer: Scorer, m: Match) {
    exists i :: 0 <= i < |data| && Confidence(loweredQuery, data[i], scorer) >= threshold
                && m == Project(data[i], Confidence(loweredQuery, data[i], scorer))
  }

  /** Each unsorted result comes from an accepted record. */
  lemma MatchIsFromAcceptedRecord(loweredQuery: string, data: seq<Record>, threshold: int, scorer: Scorer, j: int)
    requires 0 <= j < |Matches(loweredQuery, data, threshold, scorer)|
    ensures FromAcceptedRecord(loweredQuery, data, threshold, scorer, Matches(loweredQuery, data, threshold, scorer)[j])
  {
    var i := Indices(data, Accepts(loweredQuery, threshold, scorer))[j];
    assert Accepts(loweredQuery, threshold, scorer)(data[i]);
  }

  /** Every result comes from a record that reaches the threshold. */
  lemma ReturnedResultIsAccepted(query: string, data: seq<Record>, threshold: int, scorer: Scorer, m: Match)
    requires m in SearchName(query, data, threshold, scorer)
    ensures FromAcceptedRecord(AsciiLower(query), data, threshold, scorer, m)
  {
    var ms := Matches(AsciiLower(query), data, threshold, scorer);
    assert m in multiset(SearchName(query, data, threshold, scorer));
    assert m in ms;
    var j :| 0 <= j < |ms| && ms[j] == m;
    MatchIsFromAcceptedRecord(AsciiLower(query), data, threshold, scorer, j);
  }
}
