/**
 * Python's `sorted`/`list.sort`: a stable sort under a total preorder,
 * written as an insertion sort. Equal elements keep their input order.
 */
module Sorting {

  /** Every two elements are comparable one way or the other. */
  ghost predicate Total<T(!new)>(le: (T, T) -> bool) {
    forall a, b :: le(a, b) || le(b, a)
  }

  predicate SortedBy<T>(s: seq<T>, le: (T, T) -> bool) {
    forall i :: 0 < i < |s| ==> le(s[i - 1], s[i])
  }

  /** Insert `x` before the first element it is not greater than. */
  function Insert<T(!new)>(x: T, s: seq<T>, le: (T, T) -> bool): (r: seq<T>)
    requires Total(le)
    ensures |r| == |s| + 1
    ensures multiset(r) == multiset(s) + multiset{x}
    ensures r[0] == x || (s != [] && r[0] == s[0])
    ensures SortedBy(s, le) ==> SortedBy(r, le)
  {
    if s == [] || le(x, s[0]) then [x] + s
    else
      assert s == [s[0]] + s[1..];
      assert le(s[0], x);
      [s[0]] + Insert(x, s[1..], le)
  }

  /** `sorted(s, key=…)`: sorted and a permutation of the input. */
  function SortBy<T(!new)>(s: seq<T>, le: (T, T) -> bool): (r: seq<T>)
    requires Total(le)
    ensures |r| == |s|
    ensures multiset(r) == multiset(s)
    ensures SortedBy(r, le)
  {
    if s == [] then []
    else
      assert s == [s[0]] + s[1..];
      Insert(s[0], SortBy(s[1..], le), le)
  }

  /** The elements that compare equal to `k`, in order. */
  function Ties<T>(s: seq<T>, k: T, le: (T, T) -> bool): seq<T> {
    if s == [] then []
    else (if le(s[0], k) && le(k, s[0]) then [s[0]] else []) + Ties(s[1..], k, le)
  }

  /** Transitive as well as total. */
  ghost predicate Preorder<T(!new)>(le: (T, T) -> bool) {
    Total(le) && forall a, b, c :: le(a, b) && le(b, c) ==> le(a, c)
  }

  /** Inserting `x` in front of a run it ties with or is below keeps the tie order `x` first. */
  lemma {:induction false} TiesInsert<T(!new)>(x: T, s: seq<T>, k: T, le: (T, T) -> bool)
    requires Preorder(le)
    ensures Ties(Insert(x, s, le), k, le) == Ties([x] + s, k, le)
    decreases |s|
  {
    if s == [] || le(x, s[0]) {
    } else {
      var r := Insert(x, s[1..], le);
      assert Insert(x, s, le) == [s[0]] + r;
      TiesInsert(x, s[1..], k, le);
      if le(x, k) && le(k, x) {
        TieExcludes(x, s[0], k, le);
      }
      assert s == [s[0]] + s[1..];
      TiesStep(x, s[0], r, s[1..], k, le);
    }
  }

  /** One step of the insertion: `y` passes in front of `x` without changing the ties when they do not both tie with `k`. */
  lemma TiesStep<T>(x: T, y: T, r: seq<T>, t: seq<T>, k: T, le: (T, T) -> bool)
    requires Ties(r, k, le) == Ties([x] + t, k, le)
    requires !(le(x, k) && le(k, x) && le(y, k) && le(k, y))
    ensures Ties([y] + r, k, le) == Ties([x] + ([y] + t), k, le)
  {
    var hx := if le(x, k) && le(k, x) then [x] else [];
    var hy := if le(y, k) && le(k, y) then [y] else [];
    var rest := Ties(t, k, le);
    TiesCons(y, r, k, le);
    TiesCons(x, t, k, le);
    TiesCons(x, [y] + t, k, le);
    TiesCons(y, t, k, le);
    SwapHeads(hy, hx, rest);
  }

  /** `x` sorts strictly after `y`: if `x` ties with `k`, `y` does not. */
  lemma TieExcludes<T(!new)>(x: T, y: T, k: T, le: (T, T) -> bool)
    requires Preorder(le) && !le(x, y) && le(x, k) && le(k, x)
    ensures !(le(y, k) && le(k, y))
  {
  }

  lemma SwapHeads<T>(h0: seq<T>, hx: seq<T>, rest: seq<T>)
    requires h0 == [] || hx == []
    ensures h0 + (hx + rest) == hx + (h0 + rest)
  {
    if h0 == [] {
      assert h0 + (hx + rest) == hx + rest;
    } else {
      assert hx + (h0 + rest) == h0 + rest;
    }
  }

  lemma TiesCons<T>(y: T, t: seq<T>, k: T, le: (T, T) -> bool)
    ensures Ties([y] + t, k, le) == (if le(y, k) && le(k, y) then [y] else []) + Ties(t, k, le)
  {
    assert ([y] + t)[1..] == t;
  }

  /** The sort is stable: the elements that tie with any `k` come out in their input order. */
  lemma {:induction false} SortByStable<T(!new)>(s: seq<T>, k: T, le: (T, T) -> bool)
    requires Preorder(le)
    ensures Ties(SortBy(s, le), k, le) == Ties(s, k, le)
    decreases |s|
  {
    if s != [] {
      SortByStable(s[1..], k, le);
      TiesInsert(s[0], SortBy(s[1..], le), k, le);
      assert ([s[0]] + SortBy(s[1..], le))[1..] == SortBy(s[1..], le);
      assert Ties([s[0]] + SortBy(s[1..], le), k, le)
        == (if le(s[0], k) && le(k, s[0]) then [s[0]] else []) + Ties(SortBy(s[1..], le), k, le);
    }
  }
}
