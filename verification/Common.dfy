/** Small datatypes and sequence facts shared by the modules of this project. */
module Common {

  datatype Option<+T> = None | Some(value: T)

  ghost predicate NoDup<T>(s: seq<T>) {
    forall i, j :: 0 <= i < j < |s| ==> s[i] != s[j]
  }

  /** The elements of a sequence, as a set. */
  function Elems<T>(s: seq<T>): set<T> {
    set x | x in s
  }

  /** A listing of a set: every element exactly once, in some order. */
  ghost predicate Lists<T>(rows: seq<T>, s: set<T>) {
    NoDup(rows) && Elems(rows) == s
  }

  /** The rows of a SELECT without ORDER BY, or the keys of a Go map range: any order at all. */
  method AnyOrder<T(==)>(s: set<T>) returns (rows: seq<T>)
    ensures Lists(rows, s)
  {
    rows := [];
    var rest := s;
    while rest != {}
      invariant NoDup(rows)
      invariant Elems(rows) + rest == s
      invariant Elems(rows) !! rest
    {
      var x :| x in rest;
      rest := rest - {x};
      assert Elems(rows + [x]) == Elems(rows) + {x};
      rows := rows + [x];
    }
  }

  lemma {:induction false} NoDupCardinality<T>(s: seq<T>)
    requires NoDup(s)
    ensures |Elems(s)| == |s|
  {
    if s == [] {
      assert Elems(s) == {};
    } else {
      var front := s[..|s| - 1];
      NoDupCardinality(front);
      assert Elems(s) == Elems(front) + {s[|s| - 1]};
      assert s[|s| - 1] !in Elems(front);
    }
  }

  // ---------- Filtering ----------

  function Filter<T>(s: seq<T>, keep: T -> bool): seq<T> {
    if s == [] then []
    else (if keep(s[0]) then [s[0]] else []) + Filter(s[1..], keep)
  }

  lemma {:induction false} FilterConcat<T>(a: seq<T>, b: seq<T>, keep: T -> bool)
    ensures Filter(a + b, keep) == Filter(a, keep) + Filter(b, keep)
  {
    if a == [] {
      assert a + b == b;
    } else {
      var first: seq<T> := if keep(a[0]) then [a[0]] else [];
      assert (a + b)[0] == a[0] && (a + b)[1..] == a[1..] + b;
      FilterConcat(a[1..], b, keep);
      assert first + (Filter(a[1..], keep) + Filter(b, keep)) == (first + Filter(a[1..], keep)) + Filter(b, keep);
    }
  }

  // ---------- Sizes of sets ----------

  lemma SubsetCard<T>(a: set<T>, b: set<T>)
    requires a <= b
    ensures |a| <= |b|
    ensures a != b ==> |a| < |b|
  {
    assert b == a + (b - a);
  }

  lemma RemoveCard<T>(all: set<T>, some: set<T>)
    requires some <= all
    ensures |all - some| == |all| - |some|
  {
  }

  lemma Pick<T>(s: set<T>) returns (x: T)
    requires |s| > 0
    ensures x in s
  {
    x :| x in s;
  }

  lemma KeysPut<K, V>(m: map<K, V>, k: K, v: V)
    ensures m[k := v].Keys == m.Keys + {k}
  {
  }

  lemma KeysMinus<K, V>(m: map<K, V>, gone: set<K>)
    ensures (m - gone).Keys == m.Keys - gone
  {
  }

  // ---------- Sorting ----------

  /** "Not after" is transitive and total: what a comparison function has to satisfy. */
  ghost predicate IsOrder<T(!new)>(less: (T, T) -> bool) {
    && (forall x, y :: less(x, y) ==> !less(y, x))
    && (forall x, y, z :: !less(y, x) && !less(z, y) ==> !less(z, x))
  }

  ghost predicate Sorted<T>(s: seq<T>, less: (T, T) -> bool) {
    forall i, j :: 0 <= i < j < |s| ==> !less(s[j], s[i])
  }

  /** x goes after every element that it is not less than. */
  function InsertBy<T>(s: seq<T>, x: T, less: (T, T) -> bool): seq<T> {
    if s == [] then [x]
    else if less(x, s[|s| - 1]) then InsertBy(s[..|s| - 1], x, less) + [s[|s| - 1]]
    else s + [x]
  }

  /** A stable sort. */
  function SortBy<T>(s: seq<T>, less: (T, T) -> bool): seq<T> {
    if s == [] then [] else InsertBy(SortBy(s[..|s| - 1], less), s[|s| - 1], less)
  }

  lemma {:induction false} InsertBySorted<T(!new)>(s: seq<T>, x: T, less: (T, T) -> bool)
    requires IsOrder(less) && Sorted(s, less)
    ensures Sorted(InsertBy(s, x, less), less)
    ensures multiset(InsertBy(s, x, less)) == multiset(s) + multiset{x}
  {
    if s != [] {
      var front, last := s[..|s| - 1], s[|s| - 1];
      assert s == front + [last];
      if less(x, last) {
        InsertBySorted(front, x, less);
        var t := InsertBy(front, x, less);
        forall y | y in t
          ensures !less(last, y)
        {
          assert y in multiset(t);
          assert y in front || y == x;
        }
      } else {
        forall i | 0 <= i < |s|
          ensures !less(x, s[i])
        {
          assert !less(last, s[i]);
        }
      }
    }
  }

  lemma {:induction false} SortBySorts<T(!new)>(s: seq<T>, less: (T, T) -> bool)
    requires IsOrder(less)
    ensures Sorted(SortBy(s, less), less)
    ensures multiset(SortBy(s, less)) == multiset(s)
    ensures |SortBy(s, less)| == |s| && Elems(SortBy(s, less)) == Elems(s)
  {
    if s != [] {
      var front, last := s[..|s| - 1], s[|s| - 1];
      assert s == front + [last];
      SortBySorts(front, less);
      InsertBySorted(SortBy(front, less), last, less);
    }
    var t := SortBy(s, less);
    assert |t| == |multiset(t)| == |multiset(s)| == |s|;
    forall x
      ensures x in t <==> x in s
    {
      assert x in t <==> x in multiset(t);
      assert x in s <==> x in multiset(s);
    }
  }

  /** Sorting a listing of a set gives a listing of the same set. */
  lemma SortByLists<T(!new)>(rows: seq<T>, all: set<T>, less: (T, T) -> bool)
    requires IsOrder(less) && Lists(rows, all)
    ensures Lists(SortBy(rows, less), all) && Sorted(SortBy(rows, less), less)
    ensures |SortBy(rows, less)| == |all|
  {
    SortBySorts(rows, less);
    NoDupCardinality(rows);
    var t := SortBy(rows, less);
    forall i, j | 0 <= i < j < |t|
      ensures t[i] != t[j]
    {
      if t[i] == t[j] {
        TwiceCounts(t, i, j);
        OnceCounts(rows, t[i]);
      }
    }
  }

  lemma TwiceCounts<T>(s: seq<T>, i: int, j: int)
    requires 0 <= i < j < |s| && s[i] == s[j]
    ensures multiset(s)[s[i]] >= 2
  {
    assert s == s[..i] + ([s[i]] + s[i + 1..]);
    assert s[i + 1..] == s[i + 1..j] + ([s[j]] + s[j + 1..]);
  }

  lemma {:induction false} OnceCounts<T>(s: seq<T>, x: T)
    requires NoDup(s)
    ensures multiset(s)[x] <= 1
  {
    if s != [] {
      var front, last := s[..|s| - 1], s[|s| - 1];
      assert s == front + [last];
      OnceCounts(front, x);
      if x == last {
        assert x !in front;
      }
    }
  }

  /** The elements that stand level with x. */
  function LevelWith<T>(x: T, less: (T, T) -> bool): T -> bool {
    (y: T) => !less(x, y) && !less(y, x)
  }

  /** Of two elements that are not both kept, the order does not matter. */
  lemma SwapApart<T>(kept: seq<T>, x: T, y: T, keep: T -> bool)
    requires !(keep(x) && keep(y))
    ensures kept + Filter([x], keep) + Filter([y], keep) == kept + Filter([y], keep) + Filter([x], keep)
  {
    assert Filter([x], keep) == if keep(x) then [x] else [];
    assert Filter([y], keep) == if keep(y) then [y] else [];
  }

  lemma {:induction false} InsertByStable<T(!new)>(s: seq<T>, x: T, less: (T, T) -> bool, z: T)
    requires IsOrder(less)
    ensures Filter(InsertBy(s, x, less), LevelWith(z, less)) == Filter(s + [x], LevelWith(z, less))
  {
    var level := LevelWith(z, less);
    if s != [] && less(x, s[|s| - 1]) {
      var front, last := s[..|s| - 1], s[|s| - 1];
      InsertByStable(front, x, less, z);
      FilterConcat(InsertBy(front, x, less), [last], level);
      FilterConcat(front, [x], level);
      assert s + [x] == front + [last] + [x];
      FilterConcat(front + [last], [x], level);
      FilterConcat(front, [last], level);
      SwapApart(Filter(front, level), x, last, level);
    }
  }

  /** Level elements keep their order. */
  lemma {:induction false} SortByStable<T(!new)>(s: seq<T>, less: (T, T) -> bool, z: T)
    requires IsOrder(less)
    ensures Filter(SortBy(s, less), LevelWith(z, less)) == Filter(s, LevelWith(z, less))
  {
    if s != [] {
      var front, last := s[..|s| - 1], s[|s| - 1];
      assert s == front + [last];
      SortByStable(front, less, z);
      InsertByStable(SortBy(front, less), last, less, z);
      FilterConcat(SortBy(front, less), [last], LevelWith(z, less));
      FilterConcat(front, [last], LevelWith(z, less));
    }
  }

  lemma {:induction false} SortBySorted<T>(s: seq<T>, less: (T, T) -> bool)
    requires Sorted(s, less)
    ensures SortBy(s, less) == s
  {
    if s != [] {
      SortBySorted(s[..|s| - 1], less);
      assert s == s[..|s| - 1] + [s[|s| - 1]];
    }
  }
}
