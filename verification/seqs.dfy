/**
 * The array operations the pages lean on — Array.prototype.filter, find and a
 * sort driven by a comparator — as functions and methods over sequences.
 */
module Seqs {
  import opened Base

  // ---------------------------------------------------------------------------
  // filter

  /** The elements of s that pass p, in their original order. */
  function Filter<T(!new)>(s: seq<T>, p: T -> bool): (r: seq<T>)
    ensures |r| <= |s|
    ensures forall x :: x in r <==> x in s && p(x)
    ensures multiset(r) <= multiset(s)
    ensures forall i :: 0 <= i < |r| ==> p(r[i])
  {
    if s == [] then []
    else
      assert s == [s[0]] + s[1..];
      (if p(s[0]) then [s[0]] else []) + Filter(s[1..], p)
  }

  /** Filtering a longer list: the old result plus the new element if it passes. */
  lemma {:induction false} FilterSnoc<T(!new)>(s: seq<T>, x: T, p: T -> bool)
    ensures Filter(s + [x], p) == Filter(s, p) + (if p(x) then [x] else [])
  {
    if s == [] {
      assert [x][1..] == [];
    } else {
      assert (s + [x])[1..] == s[1..] + [x];
      FilterSnoc(s[1..], x, p);
    }
  }

  /** Filtering keeps every copy of a passing element and no copy of a failing one. */
  lemma {:induction false} FilterCount<T(!new)>(s: seq<T>, p: T -> bool, x: T)
    ensures multiset(Filter(s, p))[x] == if p(x) then multiset(s)[x] else 0
  {
    if s != [] {
      assert s == [s[0]] + s[1..];
      FilterCount(s[1..], p, x);
    }
  }

  /** Nothing is dropped exactly when every element passes; nothing is kept exactly when none does. */
  lemma {:induction false} FilterLength<T(!new)>(s: seq<T>, p: T -> bool)
    ensures |Filter(s, p)| == |s| <==> forall x :: x in s ==> p(x)
    ensures |Filter(s, p)| == 0 <==> forall x :: x in s ==> !p(x)
  {
    if s != [] {
      assert s == [s[0]] + s[1..];
      FilterLength(s[1..], p);
      assert forall x :: x in s ==> x == s[0] || x in s[1..];
    }
  }

  /** A test that keeps every element keeps the list; one that keeps none empties it. */
  lemma FilterAllOrNone<T(!new)>(s: seq<T>, p: T -> bool)
    ensures (forall x :: x in s ==> p(x)) ==> Filter(s, p) == s
    ensures (forall x :: x in s ==> !p(x)) ==> Filter(s, p) == []
  {
    if forall x :: x in s ==> p(x) {
      FilterAll(s, p);
    }
    if forall x :: x in s ==> !p(x) {
      FilterNone(s, p);
    }
  }

  /** The first half of FilterAllOrNone, by induction. */
  lemma {:induction false} FilterAll<T(!new)>(s: seq<T>, p: T -> bool)
    requires forall x :: x in s ==> p(x)
    ensures Filter(s, p) == s
  {
    if s != [] {
      assert s[0] in s;
      FilterAll(s[1..], p);
      assert s == [s[0]] + s[1..];
    }
  }

  /** The second half of FilterAllOrNone, by induction. */
  lemma {:induction false} FilterNone<T(!new)>(s: seq<T>, p: T -> bool)
    requires forall x :: x in s ==> !p(x)
    ensures Filter(s, p) == []
  {
    if s != [] {
      FilterNone(s[1..], p);
    }
  }

  /** Two complementary tests split a list: their results together are a permutation of it. */
  lemma {:induction false} FilterComplement<T(!new)>(s: seq<T>, p: T -> bool, q: T -> bool)
    requires forall x :: q(x) == !p(x)
    ensures |Filter(s, p)| + |Filter(s, q)| == |s|
    ensures multiset(Filter(s, p)) + multiset(Filter(s, q)) == multiset(s)
  {
    if s != [] {
      var x, rest := s[0], s[1..];
      FilterComplement(rest, p, q);
      assert s == [x] + rest;
      assert multiset(s) == multiset{x} + multiset(rest);
    }
  }

  /** A weaker test keeps at least what a stronger one keeps. */
  lemma {:induction false} FilterMonotone<T(!new)>(s: seq<T>, p: T -> bool, q: T -> bool)
    requires forall x :: p(x) ==> q(x)
    ensures multiset(Filter(s, p)) <= multiset(Filter(s, q))
    ensures |Filter(s, p)| <= |Filter(s, q)|
  {
    if s != [] {
      FilterMonotone(s[1..], p, q);
    }
  }

  /** Filtering by p and then by q is filtering by both at once. */
  lemma {:induction false} FilterOfFilter<T(!new)>(s: seq<T>, p: T -> bool, q: T -> bool, both: T -> bool)
    requires forall x :: both(x) == (p(x) && q(x))
    ensures Filter(s, both) == Filter(Filter(s, p), q)
  {
    if s != [] {
      var x, rest := s[0], s[1..];
      FilterOfFilter(rest, p, q, both);
      var fp := Filter(rest, p);
      if p(x) {
        assert Filter(s, p) == [x] + fp;
        assert ([x] + fp)[1..] == fp;
        assert Filter([x] + fp, q) == (if q(x) then [x] else []) + Filter(fp, q);
      } else {
        assert Filter(s, p) == fp;
      }
    }
  }

  /** The positions of s whose element passes p. */
  ghost function IndicesWhere<T>(s: seq<T>, p: T -> bool): set<int> {
    set i | 0 <= i < |s| && p(s[i])
  }

  /** Extending a list by one element adds its position when it passes. */
  lemma IndicesSnoc<T>(s: seq<T>, x: T, p: T -> bool)
    ensures IndicesWhere(s + [x], p) == IndicesWhere(s, p) + (if p(x) then {|s|} else {})
  {
    var t := s + [x];
    forall i | 0 <= i < |s| ensures t[i] == s[i] { }
  }

  /** `filter(p).length` is the number of positions whose element passes p. */
  lemma {:induction false} FilterLengthCountsIndices<T(!new)>(s: seq<T>, p: T -> bool)
    ensures |Filter(s, p)| == |IndicesWhere(s, p)|
  {
    if s != [] {
      var init, x := s[..|s| - 1], s[|s| - 1];
      assert s == init + [x];
      FilterSnoc(init, x, p);
      FilterLengthCountsIndices(init, p);
      IndicesSnoc(init, x, p);
      assert |init| !in IndicesWhere(init, p);
    }
  }

  // ---------------------------------------------------------------------------
  // find

  /** Index of the first element that passes p, if any. */
  function FirstIndex<T>(s: seq<T>, p: T -> bool): (r: Option<nat>)
    ensures r.None? <==> forall i :: 0 <= i < |s| ==> !p(s[i])
    ensures r.Some? ==> r.value < |s| && p(s[r.value])
                        && forall j :: 0 <= j < r.value ==> !p(s[j])
  {
    if s == [] then None
    else if p(s[0]) then Some(0)
    else match FirstIndex(s[1..], p)
      case None => None
      case Some(i) => Some(i + 1)
  }

  /** Array.prototype.find: the first element that passes p, or nothing. */
  function Find<T>(s: seq<T>, p: T -> bool): (r: Option<T>)
    ensures r.None? <==> forall i :: 0 <= i < |s| ==> !p(s[i])
    ensures r.Some? ==> r.value in s && p(r.value)
    ensures r.Some? ==> exists i :: 0 <= i < |s| && s[i] == r.value
                                    && forall j :: 0 <= j < i ==> !p(s[j])
  {
    match FirstIndex(s, p)
    case None => None
    case Some(i) => Some(s[i])
  }

  // ---------------------------------------------------------------------------
  // sort

  /**
   * Lexicographic order on sort keys. A comparator that compares a sequence of
   * numeric criteria in turn, returning the first nonzero difference, orders
   * elements exactly as their keys are ordered here.
   */
  predicate LexLeq(a: seq<int>, b: seq<int>)
    decreases |a|
  {
    a == [] || (b != [] && (a[0] < b[0] || (a[0] == b[0] && LexLeq(a[1..], b[1..]))))
  }

  lemma {:induction false} LexLeqTotal(a: seq<int>, b: seq<int>)
    ensures LexLeq(a, b) || LexLeq(b, a)
    decreases |a|
  {
    if a != [] && b != [] && a[0] == b[0] {
      LexLeqTotal(a[1..], b[1..]);
    }
  }

  lemma {:induction false} LexLeqTransitive(a: seq<int>, b: seq<int>, c: seq<int>)
    requires LexLeq(a, b) && LexLeq(b, c)
    ensures LexLeq(a, c)
    decreases |a|
  {
    if a != [] && a[0] == b[0] && b[0] == c[0] {
      LexLeqTransitive(a[1..], b[1..], c[1..]);
    }
  }

  ghost predicate SortedBy<T>(s: seq<T>, key: T -> seq<int>) {
    forall i, j :: 0 <= i < j < |s| ==> LexLeq(key(s[i]), key(s[j]))
  }

  /** Places x after every element whose key is not greater than its own. */
  function Insert<T(==)>(x: T, s: seq<T>, key: T -> seq<int>): (r: seq<T>)
    ensures multiset(r) == multiset(s) + multiset{x}
    ensures |r| == |s| + 1
  {
    if s == [] then [x]
    else if !LexLeq(key(s[0]), key(x)) then [x] + s
    else
      assert s == [s[0]] + s[1..];
      [s[0]] + Insert(x, s[1..], key)
  }

  lemma {:induction false} InsertSorted<T>(x: T, s: seq<T>, key: T -> seq<int>)
    requires SortedBy(s, key)
    ensures SortedBy(Insert(x, s, key), key)
  {
    if s == [] {
    } else if !LexLeq(key(s[0]), key(x)) {
      LexLeqTotal(key(s[0]), key(x));
      forall j | 0 <= j < |s| ensures LexLeq(key(x), key(s[j])) {
        if j > 0 {
          LexLeqTransitive(key(x), key(s[0]), key(s[j]));
        }
      }
    } else {
      var tail := Insert(x, s[1..], key);
      InsertSorted(x, s[1..], key);
      forall j | 0 <= j < |tail| ensures LexLeq(key(s[0]), key(tail[j])) {
        assert tail[j] in multiset(tail);
        assert tail[j] == x || tail[j] in multiset(s[1..]);
        if tail[j] != x {
          var k :| 0 <= k < |s[1..]| && s[1..][k] == tail[j];
          assert s[k + 1] == tail[j];
        }
      }
      var r := [s[0]] + tail;
      forall i, j | 0 <= i < j < |r| ensures LexLeq(key(r[i]), key(r[j])) {
        if i > 0 {
          assert r[i] == tail[i - 1] && r[j] == tail[j - 1];
        } else {
          assert r[j] == tail[j - 1];
        }
      }
    }
  }

  /** The elements whose key is k. */
  function KeyIs<T>(key: T -> seq<int>, k: seq<int>): T -> bool {
    (x: T) => key(x) == k
  }

  /** In a sorted list that starts above x, no element has x's key. */
  lemma NoTieAfterGreater<T>(x: T, s: seq<T>, key: T -> seq<int>)
    requires SortedBy(s, key) && s != [] && !LexLeq(key(s[0]), key(x))
    ensures forall y :: y in s ==> key(y) != key(x)
  {
    forall j | 0 <= j < |s| ensures key(s[j]) != key(x) {
      if j > 0 {
        assert LexLeq(key(s[0]), key(s[j]));
      } else {
        LexLeqTotal(key(x), key(x));
      }
    }
  }

  /** Concatenation regroups freely. */
  lemma ConcatAssoc<T>(a: seq<T>, b: seq<T>, c: seq<T>)
    ensures a + (b + c) == (a + b) + c
  {
  }

  /** Filtering a list with one element in front. */
  lemma FilterCons<T(!new)>(x: T, s: seq<T>, p: T -> bool)
    ensures Filter([x] + s, p) == (if p(x) then [x] else []) + Filter(s, p)
  {
    assert ([x] + s)[1..] == s;
  }

  /** The tail of a sorted list is sorted. */
  lemma SortedTail<T>(s: seq<T>, key: T -> seq<int>)
    requires SortedBy(s, key) && s != []
    ensures SortedBy(s[1..], key)
  {
    var rest := s[1..];
    forall i, j | 0 <= i < j < |rest| ensures LexLeq(key(rest[i]), key(rest[j])) {
      assert rest[i] == s[i + 1] && rest[j] == s[j + 1];
    }
  }

  /** r lists the elements of each key in the order s lists them. */
  ghost predicate TiesInOrder<T(!new)>(r: seq<T>, s: seq<T>, key: T -> seq<int>) {
    forall k :: Filter(r, KeyIs(key, k)) == Filter(s, KeyIs(key, k))
  }

  /** Inserting into a sorted list puts x after every element with the same key. */
  lemma {:induction false} InsertStable<T(!new)>(x: T, s: seq<T>, key: T -> seq<int>, k: seq<int>)
    requires SortedBy(s, key)
    ensures key(x) == k ==> Filter(Insert(x, s, key), KeyIs(key, k)) == Filter(s, KeyIs(key, k)) + [x]
    ensures key(x) != k ==> Filter(Insert(x, s, key), KeyIs(key, k)) == Filter(s, KeyIs(key, k))
  {
    var p := KeyIs(key, k);
    if s == [] {
    } else if !LexLeq(key(s[0]), key(x)) {
      FilterCons(x, s, p);
      if key(x) == k {
        NoTieAfterGreater(x, s, key);
        FilterAllOrNone(s, p);
      }
    } else {
      var rest := s[1..];
      SortedTail(s, key);
      InsertStable(x, rest, key, k);
      InsertStep(x, s, key, p);
      var h, e := (if p(s[0]) then [s[0]] else []), (if key(x) == k then [x] else []);
      assert Filter(s, p) == h + Filter(rest, p);
      ConcatAssoc(h, Filter(rest, p), e);
    }
  }

  /** Past an element not above x, insertion recurses into the tail. */
  lemma InsertStep<T(!new)>(x: T, s: seq<T>, key: T -> seq<int>, p: T -> bool)
    requires s != [] && LexLeq(key(s[0]), key(x))
    ensures Filter(Insert(x, s, key), p) == (if p(s[0]) then [s[0]] else []) + Filter(Insert(x, s[1..], key), p)
  {
    FilterCons(s[0], Insert(x, s[1..], key), p);
  }

  /** One insertion step keeps equal-key elements in the order they arrived. */
  lemma InsertKeepsTies<T(!new)>(x: T, r: seq<T>, s: seq<T>, key: T -> seq<int>)
    requires SortedBy(r, key)
    requires TiesInOrder(r, s, key)
    ensures TiesInOrder(Insert(x, r, key), s + [x], key)
  {
    forall k ensures Filter(Insert(x, r, key), KeyIs(key, k)) == Filter(s + [x], KeyIs(key, k)) {
      InsertStable(x, r, key, k);
      FilterSnoc(s, x, KeyIs(key, k));
    }
  }

  /**
   * Array.prototype.sort with a comparator whose order is that of `key`: the
   * result is ordered by key, holds exactly the input's elements, and keeps
   * elements with equal keys in their input order, as a stable sort does.
   */
  method SortBy<T(==,!new)>(s: seq<T>, key: T -> seq<int>) returns (r: seq<T>)
    ensures SortedBy(r, key)
    ensures multiset(r) == multiset(s)
    ensures TiesInOrder(r, s, key)
  {
    r := [];
    for i := 0 to |s|
      invariant SortedBy(r, key)
      invariant multiset(r) == multiset(s[..i])
      invariant TiesInOrder(r, s[..i], key)
    {
      assert s[..i + 1] == s[..i] + [s[i]];
      InsertKeepsTies(s[i], r, s[..i], key);
      InsertSorted(s[i], r, key);
      r := Insert(s[i], r, key);
      assert s[..i + 1] == s[..i] + [s[i]];
    }
    assert s[..|s|] == s;
  }

  // ---------------------------------------------------------------------------
  // permutations

  ghost predicate Distinct<T>(s: seq<T>) {
    forall i, j :: 0 <= i < j < |s| ==> s[i] != s[j]
  }

  lemma {:induction false} DistinctCountsOnce<T>(s: seq<T>, x: T)
    requires Distinct(s)
    ensures multiset(s)[x] <= 1
  {
    if s != [] {
      assert s == [s[0]] + s[1..];
      DistinctCountsOnce(s[1..], x);
      if x == s[0] {
        assert x !in s[1..];
      }
    }
  }

  /** Reordering a list without repetitions cannot create one. */
  lemma PermutationKeepsDistinct<T>(s: seq<T>, r: seq<T>)
    requires Distinct(s) && multiset(r) == multiset(s)
    ensures Distinct(r)
  {
    forall i, j | 0 <= i < j < |r| ensures r[i] != r[j] {
      if r[i] == r[j] {
        var x := r[i];
        assert r == r[..i] + [x] + r[i + 1..j] + [x] + r[j + 1..];
        assert multiset(r)[x] >= 2;
        DistinctCountsOnce(s, x);
      }
    }
  }
}
