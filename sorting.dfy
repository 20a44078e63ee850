/** A stable sort by a lexicographic pair of integer keys.

    Both sorts in the front end go through JavaScript's `Array.prototype.sort`,
    which is stable, with a comparator that is a difference of integer keys:
    `a.y - b.y` for page corners and `(a.y - b.y) || (a.x - b.x)` for bubble
    rectangles. Any stable sort gives the same result for such a comparator, so
    the model uses an insertion sort that places each element before the first
    element with a key at least as large. */
module Sorting {
  import opened Common

  /** Lexicographic order on (primary, secondary) keys. */
  predicate KeyLe(a: (int, int), b: (int, int))
  {
    a.0 < b.0 || (a.0 == b.0 && a.1 <= b.1)
  }

  predicate SortedBy<T>(s: seq<T>, key: T -> (int, int))
  {
    forall i, j :: 0 <= i < j < |s| ==> KeyLe(key(s[i]), key(s[j]))
  }

  function Insert<T>(x: T, s: seq<T>, key: T -> (int, int)): (r: seq<T>)
    requires SortedBy(s, key)
    ensures |r| == |s| + 1
    ensures SortedBy(r, key)
    ensures multiset(r) == multiset(s) + multiset{x}
  {
    if |s| == 0 then [x]
    else if KeyLe(key(x), key(s[0])) then [x] + s
    else
      var tail := Insert(x, s[1..], key);
      assert s == [s[0]] + s[1..];
      assert forall j :: 0 <= j < |tail| ==> KeyLe(key(s[0]), key(tail[j])) by {
        forall j | 0 <= j < |tail|
          ensures KeyLe(key(s[0]), key(tail[j]))
        {
          assert tail[j] in multiset(tail);
          if tail[j] in multiset(s[1..]) {
            var m :| 0 <= m < |s[1..]| && s[1..][m] == tail[j];
            assert s[1 + m] == tail[j];
          }
        }
      }
      [s[0]] + tail
  }

  /** A permutation of `s` in key order; equal keys keep their order. */
  function SortByKey<T>(s: seq<T>, key: T -> (int, int)): (r: seq<T>)
    ensures |r| == |s|
    ensures SortedBy(r, key)
    ensures multiset(r) == multiset(s)
  {
    if |s| == 0 then []
    else
      assert s == [s[0]] + s[1..];
      Insert(s[0], SortByKey(s[1..], key), key)
  }

  /** The elements whose key is `k`. */
  function SameKey<T>(key: T -> (int, int), k: (int, int)): T -> bool
  {
    y => key(y) == k
  }

  /** Inserting `x` puts it before every element of equal key. */
  lemma {:induction false} InsertKeepsTies<T(!new)>(x: T, s: seq<T>, key: T -> (int, int), k: (int, int))
    requires SortedBy(s, key)
    ensures Filter(Insert(x, s, key), SameKey(key, k)) == Filter([x], SameKey(key, k)) + Filter(s, SameKey(key, k))
  {
    var p := SameKey(key, k);
    if |s| == 0 {
      assert [x] + s == [x];
    } else if KeyLe(key(x), key(s[0])) {
      FilterConcat([x], s, p);
    } else {
      var tail := Insert(x, s[1..], key);
      assert Insert(x, s, key) == [s[0]] + tail;
      assert s == [s[0]] + s[1..];
      FilterConcat([s[0]], tail, p);
      InsertKeepsTies(x, s[1..], key, k);
      FilterConcat([s[0]], s[1..], p);
      // `s[0]` has a smaller key than `x`, so at most one of them has key `k`.
      FilterSingle(x, p);
      FilterSingle(s[0], p);
      SwapEmpty(Filter([s[0]], p), Filter([x], p), Filter(s[1..], p));
    }
  }

  lemma FilterSingle<T(!new)>(x: T, p: T -> bool)
    ensures Filter([x], p) == if p(x) then [x] else []
  {
    assert [x][..0] == [];
  }

  lemma SwapEmpty<T>(a: seq<T>, b: seq<T>, c: seq<T>)
    requires a == [] || b == []
    ensures a + (b + c) == b + (a + c)
  {
  }

  /** Stability: the elements of any one key come out in their input order. */
  lemma {:induction false} SortByKeyStable<T(!new)>(s: seq<T>, key: T -> (int, int), k: (int, int))
    ensures Filter(SortByKey(s, key), SameKey(key, k)) == Filter(s, SameKey(key, k))
  {
    if |s| > 0 {
      SortByKeyStable(s[1..], key, k);
      InsertKeepsTies(s[0], SortByKey(s[1..], key), key, k);
      assert s == [s[0]] + s[1..];
      FilterConcat([s[0]], s[1..], SameKey(key, k));
    }
  }
}
