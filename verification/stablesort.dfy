/**
 Stable sorting by an integer key, highest key first: the behaviour of Python's
 `list.sort(key=..., reverse=True)`, which keeps elements with equal keys in
 their original order. The three properties sortedness, permutation and
 "the elements with any one key appear in their original order" together pin
 the result down.
 */
module StableSort {
  import opened Seqs

  /** Keys never increase from left to right. */
  ghost predicate SortedDesc<T>(s: seq<T>, key: T -> int) {
    forall i, j :: 0 <= i < j < |s| ==> key(s[i]) >= key(s[j])
  }

  /** The predicate "has key `k`". */
  function KeyIs<T>(key: T -> int, k: int): T -> bool {
    x => key(x) == k
  }

  /** Places `x` in front of the first element whose key is not larger than its own. */
  function Insert<T>(x: T, t: seq<T>, key: T -> int): (r: seq<T>)
    ensures multiset(r) == multiset(t) + multiset{x}
  {
    if t == [] || key(x) >= key(t[0]) then
      [x] + t
    else
      assert t == [t[0]] + t[1..];
      [t[0]] + Insert(x, t[1..], key)
  }

  /** Inserting into a sorted sequence keeps it sorted. */
  lemma {:induction false} InsertSorted<T>(x: T, t: seq<T>, key: T -> int)
    requires SortedDesc(t, key)
    ensures SortedDesc(Insert(x, t, key), key)
  {
    if t != [] && key(x) < key(t[0]) {
      var tail := t[1..];
      var rest := Insert(x, tail, key);
      InsertSorted(x, tail, key);
      forall j | 0 <= j < |rest| ensures key(rest[j]) <= key(t[0]) {
        assert rest[j] in multiset(rest);
        if rest[j] != x {
          assert rest[j] in multiset(tail);
          var m :| 0 <= m < |tail| && tail[m] == rest[j];
          assert tail[m] == t[m + 1];
        }
      }
      var r := [t[0]] + rest;
      forall i, j | 0 <= i < j < |r| ensures key(r[i]) >= key(r[j]) {
        if i > 0 {
          assert r[i] == rest[i - 1] && r[j] == rest[j - 1];
        } else {
          assert r[j] == rest[j - 1];
        }
      }
    }
  }

  /** Insertion sort, highest key first; earlier elements win ties. */
  function SortDesc<T>(s: seq<T>, key: T -> int): (r: seq<T>)
    ensures SortedDesc(r, key)
    ensures multiset(r) == multiset(s)
  {
    if s == [] then []
    else
      assert s == [s[0]] + s[1..];
      var t := SortDesc(s[1..], key);
      InsertSorted(s[0], t, key);
      Insert(s[0], t, key)
  }

  /** Inserting `x` puts it before every element with its key that was already in `t`. */
  lemma {:induction false} InsertKeepsKeyOrder<T>(x: T, t: seq<T>, key: T -> int, k: int)
    ensures Filter(Insert(x, t, key), KeyIs(key, k)) == (if key(x) == k then [x] else []) + Filter(t, KeyIs(key, k))
  {
    var p := KeyIs(key, k);
    var own: seq<T> := if key(x) == k then [x] else [];
    assert p(x) == (key(x) == k);
    if t == [] || key(x) >= key(t[0]) {
      FilterCons(x, t, p);
    } else {
      var tail := t[1..];
      var rest := Insert(x, tail, key);
      assert Insert(x, t, key) == [t[0]] + rest;
      var head: seq<T> := if p(t[0]) then [t[0]] else [];
      InsertKeepsKeyOrder(x, tail, key, k);
      assert Filter(rest, p) == own + Filter(tail, p);
      FilterCons(t[0], rest, p);
      assert Filter([t[0]] + rest, p) == head + Filter(rest, p);
      assert t == [t[0]] + tail;
      FilterCons(t[0], tail, p);
      assert Filter(t, p) == head + Filter(tail, p);
      assert head == [] || own == [] by {
        assert p(t[0]) == (key(t[0]) == k);
      }
      if own == [] {
        assert own + Filter(tail, p) == Filter(tail, p);
        assert own + (head + Filter(tail, p)) == head + Filter(tail, p);
      } else {
        assert head + (own + Filter(tail, p)) == own + Filter(tail, p);
        assert head + Filter(tail, p) == Filter(tail, p);
      }
    }
  }

  /** Stability: for every key, the elements with that key keep their input order. */
  lemma {:induction false} SortDescStable<T>(s: seq<T>, key: T -> int)
    ensures forall k :: Filter(SortDesc(s, key), KeyIs(key, k)) == Filter(s, KeyIs(key, k))
  {
    if s != [] {
      SortDescStable(s[1..], key);
      forall k ensures Filter(SortDesc(s, key), KeyIs(key, k)) == Filter(s, KeyIs(key, k)) {
        InsertKeepsKeyOrder(s[0], SortDesc(s[1..], key), key, k);
        FilterCons(s[0], s[1..], KeyIs(key, k));
        assert s == [s[0]] + s[1..];
      }
    }
  }
}
