/**
 Cell values of the person table, records as dictionaries from column name to
 value, and the similarity scorer the searches are parameterised over.
 */
module Values {
  import opened Strings

  datatype Option<T> = None | Some(value: T)

  /** A table cell: text, an integer, or a missing cell read by pandas as NaN. */
  datatype Value = Str(text: string) | Int(number: int) | NaN

  /** What an f-string interpolation `{v}` produces for a cell. */
  function Render(v: Value): (s: string)
    ensures v.Str? ==> s == v.text
    ensures v.NaN? ==> s == "nan"
    ensures v.Int? && v.number >= 0 ==>
      && |s| >= 1
      && (forall i :: 0 <= i < |s| ==> IsDigit(s[i]))
      && ParseDigits(s) == v.number
      && (|s| > 1 ==> s[0] != '0')
    ensures v.Int? && v.number < 0 ==>
      && |s| >= 2 && s[0] == '-'
      && (forall i :: 1 <= i < |s| ==> IsDigit(s[i]))
      && ParseDigits(s[1..]) == -v.number
      && (|s| > 2 ==> s[1] != '0')
  {
    match v
    case Str(t) => t
    case Int(n) =>
      var m: nat := if n < 0 then -n else n;
      NatToStringRoundTrip(m);
      assert ("-" + NatToString(m))[1..] == NatToString(m);
      IntToString(n)
    case NaN => "nan"
  }

  /** One row of the person table as a Python dictionary. */
  type Record = map<string, Value>

  /** `record.get(key)`: the cell, or `None` when the column is absent. */
  function Lookup(r: Record, key: string): Option<Value> {
    if key in r then Some(r[key]) else None
  }

  /** `record.get(key, default)`. */
  function Get(r: Record, key: string, default: Value): Value {
    if key in r then r[key] else default
  }

  /**
   The similarity of a query to a candidate string, as a whole-number percentage.
   The concrete metric (fuzzywuzzy's ratios) is a library outside this model;
   every total function into 0..100 is admitted.
   */
  type Scorer = f: (string, string) -> int | forall a, b :: 0 <= f(a, b) <= 100
    witness (a: string, b: string) => 0
}
