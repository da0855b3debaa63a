/**
 * JavaScript's `Array.prototype.sort`, which is stable: elements are ordered by a
 * comparator and elements the comparator calls equal keep their input order. The
 * comparator is given as the relation `le(a, b)` ("a may come before b"), and the
 * stable result is the insertion sort that puts each element before the first later
 * one it may precede.
 */
module Sorting {
  import Strings
  import opened Wrappers

  /** `le` is total and transitive, as every comparator the scheduler passes to sort. */
  ghost predicate TotalPreorder<T(!new)>(le: (T, T) -> bool)
  {
    (forall a, b :: le(a, b) || le(b, a))
    && (forall a, b, c :: le(a, b) && le(b, c) ==> le(a, c))
  }

  predicate SortedBy<T>(s: seq<T>, le: (T, T) -> bool)
  {
    forall i, j :: 0 <= i < j < |s| ==> le(s[i], s[j])
  }

  function Insert<T>(x: T, s: seq<T>, le: (T, T) -> bool): (r: seq<T>)
    ensures multiset(r) == multiset(s) + multiset{x}
    ensures |r| == |s| + 1
  {
    if s == [] || le(x, s[0]) then [x] + s
    else
      assert s == [s[0]] + s[1..];
      [s[0]] + Insert(x, s[1..], le)
  }

  /** The stable sort of `s` under `le`. */
  function SortBy<T>(s: seq<T>, le: (T, T) -> bool): (r: seq<T>)
    ensures multiset(r) == multiset(s)
    ensures |r| == |s|
  {
    if s == [] then []
    else
      assert s == [s[0]] + s[1..];
      Insert(s[0], SortBy(s[1..], le), le)
  }

  /** A sequence ordered by `le` stays ordered under a new head that may precede all of it. */
  lemma ConsSorted<T>(y: T, t: seq<T>, le: (T, T) -> bool)
    requires SortedBy(t, le)
    requires forall k :: 0 <= k < |t| ==> le(y, t[k])
    ensures SortedBy([y] + t, le)
  {
    var r := [y] + t;
    forall i, j | 0 <= i < j < |r| ensures le(r[i], r[j]) {
      if i == 0 { assert r[j] == t[j - 1]; } else { assert r[i] == t[i - 1] && r[j] == t[j - 1]; }
    }
  }

  /** A bound on every element of `u` and on `x` bounds every element of a rearrangement of both. */
  lemma LowerBoundAll<T>(y: T, t: seq<T>, u: seq<T>, x: T, le: (T, T) -> bool)
    requires multiset(t) == multiset(u) + multiset{x}
    requires le(y, x) && forall k :: 0 <= k < |u| ==> le(y, u[k])
    ensures forall k :: 0 <= k < |t| ==> le(y, t[k])
  {
    forall k | 0 <= k < |t| ensures le(y, t[k]) {
      assert t[k] in multiset(t);
      if t[k] != x {
        assert t[k] in multiset(u);
        var m :| 0 <= m < |u| && u[m] == t[k];
      }
    }
  }

  lemma {:induction false} InsertSorted<T(!new)>(x: T, s: seq<T>, le: (T, T) -> bool)
    requires TotalPreorder(le) && SortedBy(s, le)
    ensures SortedBy(Insert(x, s, le), le)
  {
    if s == [] || le(x, s[0]) {
      forall k | 0 <= k < |s| ensures le(x, s[k]) {
        if k > 0 { assert le(s[0], s[k]); }
      }
      ConsSorted(x, s, le);
    } else {
      var u := s[1..];
      assert SortedBy(u, le);
      InsertSorted(x, u, le);
      assert le(s[0], x);
      forall k | 0 <= k < |u| ensures le(s[0], u[k]) { assert u[k] == s[k + 1]; }
      LowerBoundAll(s[0], Insert(x, u, le), u, x, le);
      ConsSorted(s[0], Insert(x, u, le), le);
    }
  }

  /** The result of SortBy is ordered by `le`. */
  lemma {:induction false} SortBySorted<T(!new)>(s: seq<T>, le: (T, T) -> bool)
    requires TotalPreorder(le)
    ensures SortedBy(SortBy(s, le), le)
  {
    if s != [] {
      SortBySorted(s[1..], le);
      InsertSorted(s[0], SortBy(s[1..], le), le);
    }
  }

  /** Sorting an already ordered sequence leaves it as it is (stability). */
  lemma {:induction false} SortBySortedIdentity<T>(s: seq<T>, le: (T, T) -> bool)
    requires SortedBy(s, le)
    ensures SortBy(s, le) == s
  {
    if s != [] {
      assert SortedBy(s[1..], le);
      SortBySortedIdentity(s[1..], le);
      if |s| > 1 {
        assert le(s[0], s[1]);
      }
      assert s == [s[0]] + s[1..];
    }
  }

  /** Keeps the elements satisfying `p`, in order (`Array.prototype.filter`). */
  function Filter<T>(s: seq<T>, p: T -> bool): (r: seq<T>)
    ensures |r| <= |s|
    ensures forall i :: 0 <= i < |r| ==> r[i] in s && p(r[i])
    ensures forall i :: 0 <= i < |s| && p(s[i]) ==> s[i] in r
  {
    if s == [] then []
    else
      assert s == [s[0]] + s[1..];
      (if p(s[0]) then [s[0]] else []) + Filter(s[1..], p)
  }

  /** Filtering keeps an ordered sequence ordered. */
  lemma {:induction false} FilterSorted<T>(s: seq<T>, p: T -> bool, le: (T, T) -> bool)
    requires SortedBy(s, le)
    ensures SortedBy(Filter(s, p), le)
  {
    if s != [] {
      assert SortedBy(s[1..], le);
      FilterSorted(s[1..], p, le);
      var rest := Filter(s[1..], p);
      if p(s[0]) {
        forall k | 0 <= k < |rest| ensures le(s[0], rest[k]) {
          var m :| 0 <= m < |s[1..]| && s[1..][m] == rest[k];
          assert s[1 + m] == rest[k];
        }
        ConsSorted(s[0], rest, le);
      }
    }
  }

  /** Strings under code-unit order, the comparator of a default `sort()`. */
  lemma StringOrderTotalPreorder()
    ensures TotalPreorder((a: string, b: string) => Strings.LexLeq(a, b))
  {
    forall a: string, b: string ensures Strings.LexLeq(a, b) || Strings.LexLeq(b, a) {
      Strings.LexLeqTotal(a, b);
    }
    forall a: string, b: string, c: string | Strings.LexLeq(a, b) && Strings.LexLeq(b, c)
      ensures Strings.LexLeq(a, c)
    {
      Strings.LexLeqTransitive(a, b, c);
    }
  }

  /** Ordering by an integer key, ascending. */
  lemma IntKeyTotalPreorder<T(!new)>(key: T -> int)
    ensures TotalPreorder((a: T, b: T) => key(a) <= key(b))
  {
  }

  /** Ordering by an integer key, descending (`b.score - a.score`). */
  lemma IntKeyDescTotalPreorder<T(!new)>(key: T -> int)
    ensures TotalPreorder((a: T, b: T) => key(a) >= key(b))
  {
  }

  /** The index of the first element satisfying `p` (`Array.prototype.findIndex`, or the early-return loop). */
  function FindFirst<T>(s: seq<T>, p: T -> bool): (r: Option<nat>)
    ensures r.Some? ==> r.value < |s| && p(s[r.value]) && forall j :: 0 <= j < r.value ==> !p(s[j])
    ensures r.None? ==> forall j :: 0 <= j < |s| ==> !p(s[j])
  {
    if s == [] then None
    else if p(s[0]) then Some(0)
    else match FindFirst(s[1..], p)
      case None => None
      case Some(i) => Some(i + 1)
  }

  /** The first element satisfying `p` (`Array.prototype.find`). */
  function Find<T>(s: seq<T>, p: T -> bool): (r: Option<T>)
    ensures r.Some? ==> exists i :: 0 <= i < |s| && s[i] == r.value && p(s[i]) && forall j :: 0 <= j < i ==> !p(s[j])
    ensures r.None? <==> forall x :: x in s ==> !p(x)
  {
    match FindFirst(s, p)
    case None => None
    case Some(i) => Some(s[i])
  }

  /** Searching the filtered list finds the element a search for both conditions finds in the whole list. */
  lemma {:induction false} FindFirstFilter<T>(s: seq<T>, p: T -> bool, q: T -> bool)
    ensures FilterSearchAgrees(s, p, q)
  {
    if s != [] {
      FindFirstFilter(s[1..], p, q);
      FindFirstFilterStep(s, p, q);
    }
  }

  /** The search in the filtered list and the search for both conditions agree on `s`. */
  ghost predicate FilterSearchAgrees<T>(s: seq<T>, p: T -> bool, q: T -> bool)
  {
    && FindFirst(Filter(s, p), q).None? == FindFirst(s, x => p(x) && q(x)).None?
    && (FindFirst(Filter(s, p), q).Some? ==>
         Filter(s, p)[FindFirst(Filter(s, p), q).value] == s[FindFirst(s, x => p(x) && q(x)).value])
  }

  lemma FindFirstFilterStep<T>(s: seq<T>, p: T -> bool, q: T -> bool)
    requires s != [] && FilterSearchAgrees(s[1..], p, q)
    ensures FilterSearchAgrees(s, p, q)
  {
    assert s == [s[0]] + s[1..];
    if p(s[0]) {
      FindFirstFilterKept(s, p, q);
    } else {
      FindFirstFilterDropped(s, p, q);
    }
  }

  /** A head that passes the filter is the head of the filtered list. */
  lemma FindFirstFilterKept<T>(s: seq<T>, p: T -> bool, q: T -> bool)
    requires s != [] && p(s[0]) && FilterSearchAgrees(s[1..], p, q)
    ensures FilterSearchAgrees(s, p, q)
  {
    var pq := x => p(x) && q(x);
    var f, f' := Filter(s, p), Filter(s[1..], p);
    assert f == [s[0]] + f';
    assert f[1..] == f';
    if !q(s[0]) {
      var a, a' := FindFirst(s, pq), FindFirst(s[1..], pq);
      var b, b' := FindFirst(f, q), FindFirst(f', q);
      assert a == (if a'.Some? then Some(a'.value + 1) else None);
      assert b == (if b'.Some? then Some(b'.value + 1) else None);
    }
  }

  /** A head that fails the filter is not in the filtered list and cannot satisfy both conditions. */
  lemma FindFirstFilterDropped<T>(s: seq<T>, p: T -> bool, q: T -> bool)
    requires s != [] && !p(s[0]) && FilterSearchAgrees(s[1..], p, q)
    ensures FilterSearchAgrees(s, p, q)
  {
    var pq := x => p(x) && q(x);
    assert Filter(s, p) == Filter(s[1..], p);
    var a, a' := FindFirst(s, pq), FindFirst(s[1..], pq);
    assert a == (if a'.Some? then Some(a'.value + 1) else None);
  }

  /**
   * Searching the elements that satisfy `p` for one that satisfies `q`: nothing is found exactly when no
   * element satisfies both, and what is found is the first element of `s` that does.
   */
  lemma FindFirstFilterFirst<T>(s: seq<T>, p: T -> bool, q: T -> bool)
    ensures FindFirst(Filter(s, p), q).None? <==> forall i :: 0 <= i < |s| && p(s[i]) ==> !q(s[i])
    ensures FindFirst(Filter(s, p), q).Some? ==>
      exists i :: 0 <= i < |s| && s[i] == Filter(s, p)[FindFirst(Filter(s, p), q).value]
        && p(s[i]) && q(s[i]) && forall j :: 0 <= j < i && p(s[j]) ==> !q(s[j])
  {
    FindFirstFilter(s, p, q);
    var r := FindFirst(s, x => p(x) && q(x));
    if r.Some? {
      assert 0 <= r.value < |s| && p(s[r.value]) && q(s[r.value]);
    }
  }
  /** No element occurs twice. */
  predicate Distinct<T(==)>(s: seq<T>)
  {
    forall i, j :: 0 <= i < j < |s| ==> s[i] != s[j]
  }

  lemma {:induction false} DistinctMultiplicity<T>(s: seq<T>, x: T)
    requires Distinct(s)
    ensures multiset(s)[x] <= 1
  {
    if s != [] {
      assert Distinct(s[1..]);
      DistinctMultiplicity(s[1..], x);
      assert s == [s[0]] + s[1..];
      if s[0] == x {
        forall k | 0 <= k < |s[1..]| ensures s[1..][k] != x {
          assert s[k + 1] != s[0];
        }
      }
    }
  }

  /** An element occurring at most once is not repeated at a later index. */
  lemma NoRepeat<T>(r: seq<T>, i: int, j: int)
    requires 0 <= i < j < |r|
    requires multiset(r)[r[i]] <= 1
    ensures r[j] != r[i]
  {
    assert r == r[..j] + [r[j]] + r[j + 1..];
    assert r[..j][i] == r[i];
    assert multiset(r)[r[i]] == multiset(r[..j])[r[i]] + multiset([r[j]])[r[i]] + multiset(r[j + 1..])[r[i]];
  }

  /** A rearrangement of a duplicate-free sequence is duplicate-free. */
  lemma DistinctPermutation<T>(u: seq<T>, r: seq<T>)
    requires Distinct(u) && multiset(r) == multiset(u)
    ensures Distinct(r)
  {
    forall i, j | 0 <= i < j < |r| ensures r[i] != r[j] {
      DistinctMultiplicity(u, r[i]);
      NoRepeat(r, i, j);
    }
  }

  /** Concatenating two duplicate-free sequences with no common element is duplicate-free. */
  lemma DistinctAppend<T>(a: seq<T>, b: seq<T>)
    requires Distinct(a) && Distinct(b) && forall x :: x in a ==> x !in b
    ensures Distinct(a + b)
  {
    var s := a + b;
    forall i, j | 0 <= i < j < |s| ensures s[i] != s[j] {
      if j < |a| {
        assert s[i] == a[i] && s[j] == a[j];
      } else if i >= |a| {
        assert s[i] == b[i - |a|] && s[j] == b[j - |a|];
      } else {
        assert s[i] == a[i] && s[j] == b[j - |a|] && a[i] in a;
      }
    }
  }

  /** How often Filter keeps an element: every copy when it passes, none otherwise. */
  lemma {:induction false} FilterMultiset<T>(s: seq<T>, p: T -> bool, x: T)
    ensures multiset(Filter(s, p))[x] == if p(x) then multiset(s)[x] else 0
  {
    if s != [] {
      FilterMultiset(s[1..], p, x);
      assert s == [s[0]] + s[1..];
    }
  }

  /** Filtering a duplicate-free sequence keeps it duplicate-free. */
  lemma FilterDistinct<T>(s: seq<T>, p: T -> bool)
    requires Distinct(s)
    ensures Distinct(Filter(s, p))
  {
    var r := Filter(s, p);
    forall i, j | 0 <= i < j < |r| ensures r[i] != r[j] {
      FilterMultiset(s, p, r[i]);
      DistinctMultiplicity(s, r[i]);
      NoRepeat(r, i, j);
    }
  }

  /** Filtering with a condition no element satisfies leaves nothing. */
  lemma {:induction false} FilterNone<T>(s: seq<T>, p: T -> bool)
    requires forall x :: x in s ==> !p(x)
    ensures Filter(s, p) == []
  {
    if s != [] {
      FilterNone(s[1..], p);
    }
  }

  /** Filtering with a condition every element satisfies changes nothing. */
  lemma {:induction false} FilterAll<T>(s: seq<T>, p: T -> bool)
    requires forall x :: x in s ==> p(x)
    ensures Filter(s, p) == s
  {
    if s != [] {
      assert s == [s[0]] + s[1..];
      FilterAll(s[1..], p);
    }
  }

  /**
   * Under an antisymmetric order, two ordered rearrangements of the same elements are
   * equal: the sorted form of a list is unique.
   */
  lemma TailMultiset<T>(a: seq<T>)
    requires a != []
    ensures multiset(a[1..]) == multiset(a) - multiset{a[0]}
  {
    assert a == [a[0]] + a[1..];
  }

  lemma SortedTail<T>(a: seq<T>, le: (T, T) -> bool)
    requires a != [] && SortedBy(a, le)
    ensures SortedBy(a[1..], le)
  {
    forall i, j | 0 <= i < j < |a| - 1 ensures le(a[1..][i], a[1..][j]) {
      assert a[1..][i] == a[i + 1] && a[1..][j] == a[j + 1];
    }
  }

  /** Two sorted rearrangements of each other start with the same element. */
  lemma SortedSameHead<T>(a: seq<T>, b: seq<T>, le: (T, T) -> bool)
    requires forall x, y :: le(x, y) && le(y, x) ==> x == y
    requires SortedBy(a, le) && SortedBy(b, le) && multiset(a) == multiset(b) && a != [] && b != []
    ensures a[0] == b[0]
  {
    assert a[0] in multiset(b) && b[0] in multiset(a);
    var k :| 0 <= k < |b| && b[k] == a[0];
    var m :| 0 <= m < |a| && a[m] == b[0];
    if k != 0 && m != 0 {
      assert le(a[0], a[m]) && le(b[0], b[k]);
    }
  }

  lemma {:induction false} SortedUnique<T>(a: seq<T>, b: seq<T>, le: (T, T) -> bool)
    requires forall x, y :: le(x, y) && le(y, x) ==> x == y
    requires SortedBy(a, le) && SortedBy(b, le) && multiset(a) == multiset(b)
    ensures a == b
    decreases |a|
  {
    assert |a| == |multiset(a)| == |multiset(b)| == |b|;
    if a != [] {
      SortedSameHead(a, b, le);
      TailMultiset(a);
      TailMultiset(b);
      SortedTail(a, le);
      SortedTail(b, le);
      SortedUnique(a[1..], b[1..], le);
      assert a == [a[0]] + a[1..] && b == [b[0]] + b[1..];
    }
  }
  /** Two duplicate-free sequences with the same elements are rearrangements of each other. */
  lemma SameMembersSameMultiset<T>(a: seq<T>, b: seq<T>)
    requires Distinct(a) && Distinct(b) && forall x :: x in a <==> x in b
    ensures multiset(a) == multiset(b)
  {
    forall x ensures multiset(a)[x] == multiset(b)[x] {
      DistinctMultiplicity(a, x);
      DistinctMultiplicity(b, x);
      assert x in a <==> x in multiset(a);
      assert x in b <==> x in multiset(b);
    }
  }
  /** An element failing the condition, appended at the end, is filtered away. */
  lemma {:induction false} FilterDropsLast<T>(s: seq<T>, x: T, p: T -> bool)
    requires !p(x)
    ensures Filter(s + [x], p) == Filter(s, p)
  {
    if s == [] {
      assert [x][1..] == [];
    } else {
      FilterDropsLast(s[1..], x, p);
      assert (s + [x])[1..] == s[1..] + [x];
    }
  }


  /** Filtering a sequence with one more element at the end. */
  lemma {:induction false} FilterSnoc<T>(s: seq<T>, x: T, p: T -> bool)
    ensures Filter(s + [x], p) == Filter(s, p) + (if p(x) then [x] else [])
  {
    var t := s + [x];
    if s == [] {
      assert t == [x] && t[1..] == [];
    } else {
      assert t[0] == s[0] && t[1..] == s[1..] + [x];
      FilterSnoc(s[1..], x, p);
      assert Filter(t, p) == (if p(s[0]) then [s[0]] else []) + Filter(s[1..] + [x], p);
    }
  }

  /** Filtering a concatenation filters each part. */
  lemma {:induction false} FilterAppend<T>(a: seq<T>, b: seq<T>, p: T -> bool)
    ensures Filter(a + b, p) == Filter(a, p) + Filter(b, p)
  {
    if a == [] {
      assert a + b == b;
    } else {
      var h := if p(a[0]) then [a[0]] else [];
      var fa, fb := Filter(a[1..], p), Filter(b, p);
      FilterAppend(a[1..], b, p);
      assert (a + b)[0] == a[0] && (a + b)[1..] == a[1..] + b;
      assert Filter(a + b, p) == h + (fa + fb);
      assert Filter(a, p) == h + fa;
      assert h + (fa + fb) == (h + fa) + fb;
    }
  }

  /** Filtering twice is filtering once by both conditions. */
  lemma {:induction false} FilterFilter<T>(s: seq<T>, p: T -> bool, q: T -> bool, r: T -> bool)
    requires forall x :: r(x) == (p(x) && q(x))
    ensures Filter(Filter(s, p), q) == Filter(s, r)
  {
    if s != [] {
      FilterFilter(s[1..], p, q, r);
      FilterAppend(if p(s[0]) then [s[0]] else [], Filter(s[1..], p), q);
      if p(s[0]) {
        assert [s[0]][1..] == [];
      }
    }
  }

  /** The elements passing `p` split into those that also pass `q` and those that do not. */
  lemma {:induction false} FilterPartition<T>(s: seq<T>, p: T -> bool, q: T -> bool, r: T -> bool)
    requires forall x :: q(x) ==> p(x)
    requires forall x :: r(x) == (p(x) && !q(x))
    ensures |Filter(s, r)| + |Filter(s, q)| == |Filter(s, p)|
  {
    if s != [] {
      FilterPartition(s[1..], p, q, r);
    }
  }
}
