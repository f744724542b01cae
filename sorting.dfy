/** Python's `sorted` over a strict total order: the result is ascending, a
    permutation of the input, and the only ascending permutation, so it
    does not depend on the order the input came in. */
module Sorting {

  ghost predicate StrictTotal<T(!new)>(lt: (T, T) -> bool)
  {
    && (forall a :: !lt(a, a))
    && (forall a, b, c :: lt(a, b) && lt(b, c) ==> lt(a, c))
    && (forall a, b :: a != b ==> lt(a, b) || lt(b, a))
  }

  predicate SortedBy<T(==)>(s: seq<T>, lt: (T, T) -> bool)
  {
    forall i, j :: 0 <= i < j < |s| ==> s[i] == s[j] || lt(s[i], s[j])
  }

  function Insert<T(==)>(x: T, s: seq<T>, lt: (T, T) -> bool): (r: seq<T>)
    ensures multiset(r) == multiset(s) + multiset{x}
    ensures |r| == |s| + 1
    decreases |s|
  {
    if s == [] then [x]
    else if x == s[0] || lt(x, s[0]) then [x] + s
    else
      assert s == [s[0]] + s[1..];
      [s[0]] + Insert(x, s[1..], lt)
  }

  /** `sorted(s)`: insertion sort. */
  function Sort<T(==)>(s: seq<T>, lt: (T, T) -> bool): (r: seq<T>)
    ensures multiset(r) == multiset(s)
    ensures |r| == |s|
    decreases |s|
  {
    if s == [] then []
    else
      assert s == [s[0]] + s[1..];
      Insert(s[0], Sort(s[1..], lt), lt)
  }

  lemma {:induction false} InsertSorted<T(!new)>(x: T, s: seq<T>, lt: (T, T) -> bool)
    requires StrictTotal(lt)
    requires SortedBy(s, lt)
    ensures SortedBy(Insert(x, s, lt), lt)
    decreases |s|
  {
    if s != [] && !(x == s[0] || lt(x, s[0])) {
      InsertSorted(x, s[1..], lt);
      var t := Insert(x, s[1..], lt);
      var r := [s[0]] + t;
      assert lt(s[0], x);
      forall j | 0 < j < |r|
        ensures r[0] == r[j] || lt(r[0], r[j])
      {
        assert r[j] in multiset(t);
        assert r[j] == x || r[j] in multiset(s[1..]);
        if r[j] != x {
          var k :| 0 <= k < |s[1..]| && s[1..][k] == r[j];
          assert s[k + 1] == r[j];
        }
      }
    } else if s != [] {
      var r := [x] + s;
      forall j | 0 < j < |r|
        ensures r[0] == r[j] || lt(r[0], r[j])
      {
        assert r[j] == s[j - 1];
        assert s[0] == s[j - 1] || lt(s[0], s[j - 1]);
      }
    }
  }

  lemma {:induction false} SortSorted<T(!new)>(s: seq<T>, lt: (T, T) -> bool)
    requires StrictTotal(lt)
    ensures SortedBy(Sort(s, lt), lt)
    decreases |s|
  {
    if s != [] {
      SortSorted(s[1..], lt);
      InsertSorted(s[0], Sort(s[1..], lt), lt);
    }
  }

  /** The head of an ascending sequence is at or below each of its elements. */
  lemma HeadIsLeast<T>(a: seq<T>, x: T, lt: (T, T) -> bool)
    requires SortedBy(a, lt) && x in a
    ensures a[0] == x || lt(a[0], x)
  {
    var i :| 0 <= i < |a| && a[i] == x;
    if i > 0 {
      assert a[0] == a[i] || lt(a[0], a[i]);
    }
  }

  lemma Antisymmetric<T(!new)>(x: T, y: T, lt: (T, T) -> bool)
    requires StrictTotal(lt)
    requires x == y || lt(x, y)
    requires y == x || lt(y, x)
    ensures x == y
  {
  }

  lemma SortedTail<T>(a: seq<T>, lt: (T, T) -> bool)
    requires SortedBy(a, lt) && a != []
    ensures SortedBy(a[1..], lt)
  {
    forall i, j | 0 <= i < j < |a| - 1
      ensures a[1..][i] == a[1..][j] || lt(a[1..][i], a[1..][j])
    {
      assert a[1..][i] == a[i + 1] && a[1..][j] == a[j + 1];
    }
  }

  /** Two ascending sequences with the same elements are equal. */
  lemma {:induction false} SortedUnique<T(!new)>(a: seq<T>, b: seq<T>, lt: (T, T) -> bool)
    requires StrictTotal(lt)
    requires SortedBy(a, lt) && SortedBy(b, lt)
    requires multiset(a) == multiset(b)
    ensures a == b
    decreases |a|
  {
    if a != [] {
      SameHead(a, b, lt);
      TailMultiset(a);
      TailMultiset(b);
      SortedTail(a, lt);
      SortedTail(b, lt);
      SortedUnique(a[1..], b[1..], lt);
      SameHeadAndTail(a, b);
    }
  }

  /** Two ascending sequences with the same elements start alike. */
  lemma SameHead<T(!new)>(a: seq<T>, b: seq<T>, lt: (T, T) -> bool)
    requires StrictTotal(lt)
    requires SortedBy(a, lt) && SortedBy(b, lt)
    requires multiset(a) == multiset(b) && a != []
    ensures b != [] && a[0] == b[0]
  {
    assert |b| == |a| by { assert |multiset(a)| == |multiset(b)|; }
    assert a[0] in multiset(b) && b[0] in multiset(a);
    HeadIsLeast(a, b[0], lt);
    HeadIsLeast(b, a[0], lt);
    Antisymmetric(a[0], b[0], lt);
  }

  lemma TailMultiset<T>(a: seq<T>)
    requires a != []
    ensures multiset(a[1..]) == multiset(a) - multiset{a[0]}
  {
    assert a == [a[0]] + a[1..];
  }

  lemma SameHeadAndTail<T>(a: seq<T>, b: seq<T>)
    requires a != [] && b != [] && a[0] == b[0] && a[1..] == b[1..]
    ensures a == b
  {
    assert a == [a[0]] + a[1..] && b == [b[0]] + b[1..];
  }

  /** The sorted result depends only on the elements, not their order. */
  lemma SortPermutationInvariant<T(!new)>(s1: seq<T>, s2: seq<T>, lt: (T, T) -> bool)
    requires StrictTotal(lt)
    requires multiset(s1) == multiset(s2)
    ensures Sort(s1, lt) == Sort(s2, lt)
  {
    SortSorted(s1, lt);
    SortSorted(s2, lt);
    SortedUnique(Sort(s1, lt), Sort(s2, lt), lt);
  }
}
