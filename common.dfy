/** Value types and sequence helpers shared by every part of the bubble-sheet model. */
module Common {

  datatype Option<T> = None | Some(value: T)

  /** An axis-aligned rectangle in integer pixel units: OpenCV's `cv.Rect`
      and the `{x, y, w, h}` records of the front end. */
  datatype Rect = Rect(x: int, y: int, w: int, h: int)

  /** The six answer letters that every component indexes into. */
  const ChoiceLetters: seq<char> := ['A', 'B', 'C', 'D', 'E', 'F']

  function Abs(n: int): nat { if n < 0 then -n else n }

  function Min(a: int, b: int): int { if a <= b then a else b }

  function Max(a: int, b: int): int { if a >= b then a else b }

  /** `letters[idx] || null`: the letter for an index into A..F; nothing for -1
      or for an index past F (JavaScript reads `undefined` there). */
  function LabelAt(idx: int): (r: Option<char>)
    ensures r.Some? <==> 0 <= idx < |ChoiceLetters|
    ensures r.Some? ==> r.value == ChoiceLetters[idx]
  {
    if 0 <= idx < |ChoiceLetters| then Some(ChoiceLetters[idx]) else None
  }

  /** Concatenation of a sequence of rows. */
  function Flatten<T>(rows: seq<seq<T>>): seq<T>
  {
    if |rows| == 0 then [] else Flatten(rows[..|rows| - 1]) + rows[|rows| - 1]
  }

  lemma FlattenAppend<T>(rows: seq<seq<T>>, row: seq<T>)
    ensures Flatten(rows + [row]) == Flatten(rows) + row
  {
    assert (rows + [row])[..|rows|] == rows;
  }

  /** `a.filter(p)`: the elements of `s` that satisfy `p`, in their order. */
  function Filter<T(!new)>(s: seq<T>, p: T -> bool): (r: seq<T>)
    ensures |r| <= |s|
    ensures forall x :: x in r <==> x in s && p(x)
  {
    if |s| == 0 then []
    else
      var init := Filter(s[..|s| - 1], p);
      assert s == s[..|s| - 1] + [s[|s| - 1]];
      if p(s[|s| - 1]) then init + [s[|s| - 1]] else init
  }

  /** One more element: the filter of a prefix grows by that element or not at all. */
  lemma FilterStep<T(!new)>(s: seq<T>, i: nat, p: T -> bool)
    requires i < |s|
    ensures Filter(s[..i + 1], p) == Filter(s[..i], p) + (if p(s[i]) then [s[i]] else [])
  {
    assert s[..i + 1][..i] == s[..i];
  }

  /** Filtering distributes over concatenation, so it keeps the relative order. */
  lemma {:induction false} FilterConcat<T(!new)>(a: seq<T>, b: seq<T>, p: T -> bool)
    ensures Filter(a + b, p) == Filter(a, p) + Filter(b, p)
    decreases |b|
  {
    if |b| == 0 {
      assert a + b == a;
    } else {
      var b' := b[..|b| - 1];
      assert (a + b)[..|a + b| - 1] == a + b';
      FilterConcat(a, b', p);
    }
  }

  /** A filter drops nothing exactly when every element passes. */
  lemma {:induction false} FilterKeepsAll<T(!new)>(s: seq<T>, p: T -> bool)
    ensures |Filter(s, p)| == |s| <==> forall x :: x in s ==> p(x)
  {
    if |s| > 0 {
      var init := s[..|s| - 1];
      FilterKeepsAll(init, p);
      assert s == init + [s[|s| - 1]];
      if !p(s[|s| - 1]) {
        assert |Filter(s, p)| == |Filter(init, p)| <= |init|;
      }
    }
  }

  /** `s.slice(0, n)` in JavaScript and `s[:n]` in Python: the first `n`
      elements, where a negative `n` leaves off that many from the end. */
  function PrefixSlice<T>(s: seq<T>, n: int): (r: seq<T>)
    ensures |r| == (if n >= 0 then Min(n, |s|) else Max(0, |s| + n))
    ensures r == s[..|r|]
  {
    if n >= 0 then s[..Min(n, |s|)] else s[..Max(0, |s| + n)]
  }

  /** The integers `a`, `a + 1`, ..., `b - 1`. */
  function Range(a: int, b: int): (r: seq<int>)
    ensures |r| == Max(0, b - a)
    ensures forall i :: 0 <= i < |r| ==> r[i] == a + i
  {
    seq(Max(0, b - a), i requires 0 <= i < Max(0, b - a) => a + i)
  }

  lemma RangeAppend(a: int, b: int, c: int)
    requires a <= b <= c
    ensures Range(a, b) + Range(b, c) == Range(a, c)
  {
  }

  predicate Distinct<T(==)>(s: seq<T>)
  {
    forall i, j :: 0 <= i < j < |s| ==> s[i] != s[j]
  }
}
