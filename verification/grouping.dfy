/**
 * Grouping a list by a label, as the pages' `reduce` into a `groups` object
 * does: one bucket per distinct label, created when its first element arrives,
 * elements appended in list order. Then the buckets are ordered by their first
 * element and each bucket is sorted, as the pages do before rendering.
 */
module Grouping {
  import opened Seqs

  /** One entry of the `groups` object: a label and the array pushed under it. */
  datatype Bucket<T, K> = Bucket(key: K, items: seq<T>)

  function HasLabel<T, K(==)>(labelOf: T -> K, k: K): T -> bool {
    x => labelOf(x) == k
  }

  /** The elements of s carrying label k, in list order. */
  function Select<T(==,!new), K(==)>(s: seq<T>, labelOf: T -> K, k: K): seq<T> {
    Filter(s, HasLabel(labelOf, k))
  }

  /** The buckets' contents one after the other. */
  function Flatten<T, K>(groups: seq<Bucket<T, K>>): seq<T> {
    if groups == [] then [] else groups[0].items + Flatten(groups[1..])
  }

  /** Each bucket holds exactly the elements with its label, in list order, and is non-empty. */
  ghost predicate BucketsExact<T(!new), K>(s: seq<T>, labelOf: T -> K, groups: seq<Bucket<T, K>>) {
    && (forall i :: 0 <= i < |groups| ==> groups[i].items == Select(s, labelOf, groups[i].key))
    && (forall i :: 0 <= i < |groups| ==> groups[i].items != [])
  }

  /** No label has two buckets. */
  ghost predicate KeysDistinct<T, K>(groups: seq<Bucket<T, K>>) {
    forall i, j :: 0 <= i < j < |groups| ==> groups[i].key != groups[j].key
  }

  /** Every element's label has a bucket. */
  ghost predicate Covers<T, K>(s: seq<T>, labelOf: T -> K, groups: seq<Bucket<T, K>>) {
    forall x :: x in s ==> exists i :: 0 <= i < |groups| && groups[i].key == labelOf(x)
  }

  /** `groups` is the grouping of s. */
  ghost predicate GroupsOf<T(!new), K>(s: seq<T>, labelOf: T -> K, groups: seq<Bucket<T, K>>) {
    BucketsExact(s, labelOf, groups) && KeysDistinct(groups) && Covers(s, labelOf, groups)
  }

  lemma {:induction false} FlattenConcat<T, K>(a: seq<Bucket<T, K>>, b: seq<Bucket<T, K>>)
    ensures Flatten(a + b) == Flatten(a) + Flatten(b)
  {
    if a != [] {
      assert (a + b)[0] == a[0];
      assert (a + b)[1..] == a[1..] + b;
      FlattenConcat(a[1..], b);
    } else {
      assert a + b == b;
    }
  }

  lemma {:induction false} FlattenAround<T, K>(groups: seq<Bucket<T, K>>, j: int)
    requires 0 <= j < |groups|
    ensures multiset(Flatten(groups))
            == multiset(Flatten(groups[..j])) + multiset(groups[j].items) + multiset(Flatten(groups[j + 1..]))
  {
    if j == 0 {
      assert groups[..0] == [];
    } else {
      var tail := groups[1..];
      FlattenAround(tail, j - 1);
      assert tail[..j - 1] == groups[..j][1..];
      assert tail[j - 1] == groups[j];
      assert tail[j..] == groups[j + 1..];
    }
  }

  /** Reordering the buckets reorders the flattened contents and nothing else. */
  lemma {:induction false} FlattenPermutation<T, K>(a: seq<Bucket<T, K>>, b: seq<Bucket<T, K>>)
    requires multiset(a) == multiset(b)
    ensures multiset(Flatten(a)) == multiset(Flatten(b))
    decreases |a|
  {
    if a == [] {
      assert |b| == |multiset(b)| == 0;
    } else {
      var x := a[0];
      assert x in multiset(b);
      var k :| 0 <= k < |b| && b[k] == x;
      var b' := b[..k] + b[k + 1..];
      assert b == b[..k] + [x] + b[k + 1..];
      assert a == [x] + a[1..];
      assert multiset(a[1..]) == multiset(a) - multiset{x};
      assert multiset(b') == multiset(b) - multiset{x};
      FlattenPermutation(a[1..], b');
      FlattenAround(b, k);
      FlattenConcat(b[..k], b[k + 1..]);
    }
  }

  /** Permuting inside every bucket permutes the flattened contents. */
  lemma {:induction false} FlattenPointwise<T, K>(a: seq<Bucket<T, K>>, b: seq<Bucket<T, K>>)
    requires |a| == |b|
    requires forall i :: 0 <= i < |a| ==> multiset(a[i].items) == multiset(b[i].items)
    ensures multiset(Flatten(a)) == multiset(Flatten(b))
  {
    if a != [] {
      FlattenPointwise(a[1..], b[1..]);
    }
  }

  /** Position of the bucket labelled k, or |groups| when there is none (`!groups[dateKey]`). */
  function KeyIndex<T, K(==)>(groups: seq<Bucket<T, K>>, k: K): (r: nat)
    ensures r <= |groups|
    ensures r < |groups| ==> groups[r].key == k
    ensures r == |groups| ==> forall i :: 0 <= i < |groups| ==> groups[i].key != k
  {
    if groups == [] then 0
    else if groups[0].key == k then 0
    else 1 + KeyIndex(groups[1..], k)
  }

  lemma AppendExact<T(!new), K>(s: seq<T>, x: T, labelOf: T -> K, groups: seq<Bucket<T, K>>, j: nat)
    requires BucketsExact(s, labelOf, groups) && KeysDistinct(groups)
    requires j < |groups| && groups[j].key == labelOf(x)
    ensures BucketsExact(s + [x], labelOf, groups[j := Bucket(labelOf(x), groups[j].items + [x])])
  {
    var g' := groups[j := Bucket(labelOf(x), groups[j].items + [x])];
    forall i | 0 <= i < |g'| ensures g'[i].items == Select(s + [x], labelOf, g'[i].key) {
      FilterSnoc(s, x, HasLabel(labelOf, g'[i].key));
      if i != j {
        assert groups[i].key != groups[j].key;
        assert g'[i] == groups[i];
      }
    }
  }

  lemma AppendCovers<T, K>(s: seq<T>, x: T, labelOf: T -> K, groups: seq<Bucket<T, K>>, g': seq<Bucket<T, K>>, j: nat)
    requires Covers(s, labelOf, groups)
    requires |groups| <= |g'| && forall i :: 0 <= i < |groups| ==> g'[i].key == groups[i].key
    requires j < |g'| && g'[j].key == labelOf(x)
    ensures Covers(s + [x], labelOf, g')
  {
    forall y | y in s + [x] ensures exists i :: 0 <= i < |g'| && g'[i].key == labelOf(y) {
      if y == x {
        assert g'[j].key == labelOf(y);
      } else {
        assert y in s;
        var i :| 0 <= i < |groups| && groups[i].key == labelOf(y);
        assert g'[i].key == labelOf(y);
      }
    }
  }

  lemma NewExact<T(!new), K>(s: seq<T>, x: T, labelOf: T -> K, groups: seq<Bucket<T, K>>)
    requires BucketsExact(s, labelOf, groups)
    requires forall i :: 0 <= i < |groups| ==> groups[i].key != labelOf(x)
    requires Covers(s, labelOf, groups)
    ensures BucketsExact(s + [x], labelOf, groups + [Bucket(labelOf(x), [x])])
  {
    var g' := groups + [Bucket(labelOf(x), [x])];
    forall i | 0 <= i < |g'| ensures g'[i].items == Select(s + [x], labelOf, g'[i].key) {
      FilterSnoc(s, x, HasLabel(labelOf, g'[i].key));
      if i == |groups| {
        forall y | y in s ensures !HasLabel(labelOf, labelOf(x))(y) {
          var k :| 0 <= k < |groups| && groups[k].key == labelOf(y);
        }
        FilterAllOrNone(s, HasLabel(labelOf, labelOf(x)));
      }
    }
  }

  /** `groups[dateKey].push(task)` on an existing bucket keeps the grouping. */
  lemma PushExisting<T(!new), K>(s: seq<T>, x: T, labelOf: T -> K, groups: seq<Bucket<T, K>>, j: nat)
    requires GroupsOf(s, labelOf, groups)
    requires j < |groups| && groups[j].key == labelOf(x)
    ensures GroupsOf(s + [x], labelOf, groups[j := Bucket(labelOf(x), groups[j].items + [x])])
  {
    var g' := groups[j := Bucket(labelOf(x), groups[j].items + [x])];
    AppendExact(s, x, labelOf, groups, j);
    AppendCovers(s, x, labelOf, groups, g', j);
  }

  lemma NewKeyDistinct<T, K>(groups: seq<Bucket<T, K>>, b: Bucket<T, K>)
    requires KeysDistinct(groups)
    requires forall i :: 0 <= i < |groups| ==> groups[i].key != b.key
    ensures KeysDistinct(groups + [b])
  {
    var g' := groups + [b];
    forall i, j | 0 <= i < j < |g'| ensures g'[i].key != g'[j].key {
      assert g'[i] == groups[i];
      if j < |groups| {
        assert g'[j] == groups[j];
      }
    }
  }

  /** A new bucket `[task]` for a label not seen before keeps the grouping. */
  lemma PushNew<T(!new), K>(s: seq<T>, x: T, labelOf: T -> K, groups: seq<Bucket<T, K>>)
    requires GroupsOf(s, labelOf, groups)
    requires forall i :: 0 <= i < |groups| ==> groups[i].key != labelOf(x)
    ensures GroupsOf(s + [x], labelOf, groups + [Bucket(labelOf(x), [x])])
  {
    var g' := groups + [Bucket(labelOf(x), [x])];
    NewExact(s, x, labelOf, groups);
    AppendCovers(s, x, labelOf, groups, g', |groups|);
    NewKeyDistinct(groups, Bucket(labelOf(x), [x]));
  }

  /** Dropping the first bucket leaves a grouping of what the other buckets hold. */
  lemma GroupsTail<T(!new), K>(s: seq<T>, labelOf: T -> K, groups: seq<Bucket<T, K>>)
    requires BucketsExact(s, labelOf, groups) && KeysDistinct(groups) && groups != []
    ensures BucketsExact(s, labelOf, groups[1..]) && KeysDistinct(groups[1..])
    ensures forall i :: 0 <= i < |groups| - 1 ==> groups[1..][i].key != groups[0].key
  {
    var rest := groups[1..];
    forall i | 0 <= i < |rest| ensures rest[i].items == Select(s, labelOf, rest[i].key) && rest[i].items != [] {
      assert rest[i] == groups[i + 1];
    }
    forall i, j | 0 <= i < j < |rest| ensures rest[i].key != rest[j].key {
      assert rest[i] == groups[i + 1] && rest[j] == groups[j + 1];
    }
    forall i | 0 <= i < |rest| ensures rest[i].key != groups[0].key {
      assert rest[i] == groups[i + 1];
    }
  }

  /** Counting x across buckets: the copies of x in s when x's label has a bucket, else none. */
  lemma {:induction false} FlattenCount<T(!new), K>(s: seq<T>, labelOf: T -> K, groups: seq<Bucket<T, K>>, x: T)
    requires BucketsExact(s, labelOf, groups) && KeysDistinct(groups)
    ensures multiset(Flatten(groups))[x] == if KeyIndex(groups, labelOf(x)) < |groups| then multiset(s)[x] else 0
  {
    if groups != [] {
      GroupsTail(s, labelOf, groups);
      FlattenCount(s, labelOf, groups[1..], x);
      FilterCount(s, HasLabel(labelOf, groups[0].key), x);
    }
  }

  /** A grouping is a partition: the buckets together hold exactly the elements of s. */
  lemma GroupingPartitions<T(!new), K>(s: seq<T>, labelOf: T -> K, groups: seq<Bucket<T, K>>)
    requires GroupsOf(s, labelOf, groups)
    ensures multiset(Flatten(groups)) == multiset(s)
  {
    forall x ensures multiset(Flatten(groups))[x] == multiset(s)[x] {
      FlattenCount(s, labelOf, groups, x);
      if x in s {
        var i :| 0 <= i < |groups| && groups[i].key == labelOf(x);
        assert KeyIndex(groups, labelOf(x)) < |groups|;
      }
    }
  }

  /** One step of the `reduce`: the grouping of s[..n] becomes that of s[..n + 1]. */
  lemma PushStep<T(!new), K>(s: seq<T>, n: nat, labelOf: T -> K, groups: seq<Bucket<T, K>>, g': seq<Bucket<T, K>>, j: nat)
    requires n < |s| && GroupsOf(s[..n], labelOf, groups)
    requires j <= |groups|
    requires j < |groups| ==> groups[j].key == labelOf(s[n]) && g' == groups[j := Bucket(labelOf(s[n]), groups[j].items + [s[n]])]
    requires j == |groups| ==> (forall i :: 0 <= i < |groups| ==> groups[i].key != labelOf(s[n]))
                               && g' == groups + [Bucket(labelOf(s[n]), [s[n]])]
    ensures GroupsOf(s[..n + 1], labelOf, g')
  {
    assert s[..n + 1] == s[..n] + [s[n]];
    if j < |groups| {
      PushExisting(s[..n], s[n], labelOf, groups, j);
    } else {
      PushNew(s[..n], s[n], labelOf, groups);
    }
  }

  /**
   * The `reduce` that builds `groupedTasks`: each element is pushed onto the
   * bucket of its label, a new bucket being created the first time a label is
   * seen. Every element lands in exactly one bucket.
   */
  method GroupBy<T(==,!new), K(==)>(s: seq<T>, labelOf: T -> K) returns (groups: seq<Bucket<T, K>>)
    ensures GroupsOf(s, labelOf, groups)
    ensures multiset(Flatten(groups)) == multiset(s)
  {
    groups := [];
    for n := 0 to |s|
      invariant GroupsOf(s[..n], labelOf, groups)
    {
      var x := s[n];
      var k := labelOf(x);
      var j := KeyIndex(groups, k);
      if j < |groups| {
        var g' := groups[j := Bucket(k, groups[j].items + [x])];
        PushStep(s, n, labelOf, groups, g', j);
        groups := g';
      } else {
        var g' := groups + [Bucket(k, [x])];
        PushStep(s, n, labelOf, groups, g', j);
        groups := g';
      }
    }
    assert s[..|s|] == s;
    GroupingPartitions(s, labelOf, groups);
  }

  /** The sort key of a bucket: that of the element pushed into it first. */
  function FirstKey<T, K>(itemKey: T -> seq<int>): Bucket<T, K> -> seq<int> {
    (b: Bucket<T, K>) => if b.items == [] then [] else itemKey(b.items[0])
  }

  /** The key of the first element of s labelled k. */
  function GroupRank<T(==,!new), K(==)>(s: seq<T>, labelOf: T -> K, itemKey: T -> seq<int>, k: K): seq<int> {
    var sel := Select(s, labelOf, k);
    if sel == [] then [] else itemKey(sel[0])
  }

  lemma PermutedGroups<T(!new), K>(s: seq<T>, labelOf: T -> K, groups: seq<Bucket<T, K>>, ordered: seq<Bucket<T, K>>)
    requires GroupsOf(s, labelOf, groups)
    requires multiset(ordered) == multiset(groups)
    ensures GroupsOf(s, labelOf, ordered)
  {
    forall i | 0 <= i < |ordered| ensures ordered[i] in groups {
      assert ordered[i] in multiset(ordered);
    }
    assert Distinct(groups) by {
      forall i, j | 0 <= i < j < |groups| ensures groups[i] != groups[j] {
        assert groups[i].key != groups[j].key;
      }
    }
    PermutationKeepsDistinct(groups, ordered);
    forall i, j | 0 <= i < j < |ordered| ensures ordered[i].key != ordered[j].key {
      var a :| 0 <= a < |groups| && groups[a] == ordered[i];
      var b :| 0 <= b < |groups| && groups[b] == ordered[j];
      assert a != b;
    }
    forall x | x in s ensures exists i :: 0 <= i < |ordered| && ordered[i].key == labelOf(x) {
      var g :| 0 <= g < |groups| && groups[g].key == labelOf(x);
      assert groups[g] in multiset(ordered);
      var i :| 0 <= i < |ordered| && ordered[i] == groups[g];
    }
  }

  /**
   * `Object.keys(groups).sort(...)`: the buckets ordered by the key of the element
   * that was pushed into each first.
   */
  method OrderGroups<T(==,!new), K(==,!new)>(s: seq<T>, labelOf: T -> K, groups: seq<Bucket<T, K>>, groupKey: T -> seq<int>)
    returns (ordered: seq<Bucket<T, K>>)
    requires GroupsOf(s, labelOf, groups)
    ensures GroupsOf(s, labelOf, ordered)
    ensures multiset(ordered) == multiset(groups)
    ensures forall i, j :: 0 <= i < j < |ordered|
              ==> LexLeq(GroupRank(s, labelOf, groupKey, ordered[i].key), GroupRank(s, labelOf, groupKey, ordered[j].key))
    ensures TiesInOrder(ordered, groups, FirstKey(groupKey))
  {
    ordered := SortBy(groups, FirstKey(groupKey));
    PermutedGroups(s, labelOf, groups, ordered);
    forall i | 0 <= i < |ordered|
      ensures FirstKey(groupKey)(ordered[i]) == GroupRank(s, labelOf, groupKey, ordered[i].key)
    {
    }
  }

  /** b is bucket g sorted by key: same label, same elements, ordered, equal keys in g's order. */
  ghost predicate SortedBucket<T(!new), K>(b: Bucket<T, K>, g: Bucket<T, K>, key: T -> seq<int>) {
    && b.key == g.key
    && multiset(b.items) == multiset(g.items)
    && SortedBy(b.items, key)
    && TiesInOrder(b.items, g.items, key)
  }

  /** `groupedTasks[dateKey].sort(...)` for every bucket; elements with equal keys keep their order. */
  method SortEachGroup<T(==,!new), K>(groups: seq<Bucket<T, K>>, itemKey: T -> seq<int>) returns (sorted: seq<Bucket<T, K>>)
    ensures |sorted| == |groups|
    ensures forall i :: 0 <= i < |sorted| ==> sorted[i].key == groups[i].key
    ensures forall i :: 0 <= i < |sorted| ==> multiset(sorted[i].items) == multiset(groups[i].items)
    ensures forall i :: 0 <= i < |sorted| ==> SortedBy(sorted[i].items, itemKey)
    ensures forall i :: 0 <= i < |sorted| ==> TiesInOrder(sorted[i].items, groups[i].items, itemKey)
  {
    sorted := [];
    for n := 0 to |groups|
      invariant |sorted| == n
      invariant forall i :: 0 <= i < n ==> SortedBucket(sorted[i], groups[i], itemKey)
    {
      var items := SortBy(groups[n].items, itemKey);
      assert SortedBucket(Bucket(groups[n].key, items), groups[n], itemKey);
      sorted := sorted + [Bucket(groups[n].key, items)];
    }
  }

  /**
   * What a page renders from s: each bucket holds a non-empty reordering of exactly
   * the elements of its label, no label has two buckets and every element's label
   * has one, the buckets are ordered by the `groupKey` of the element pushed into
   * each first, each bucket is sorted by `itemKey` with elements of equal key in
   * list order, and all buckets together are a permutation of s.
   */
  ghost predicate GroupedViewOf<T(!new), K>(s: seq<T>, labelOf: T -> K, groupKey: T -> seq<int>, itemKey: T -> seq<int>,
                                            view: seq<Bucket<T, K>>)
  {
    && (forall i :: 0 <= i < |view| ==> multiset(view[i].items) == multiset(Select(s, labelOf, view[i].key)))
    && (forall i :: 0 <= i < |view| ==> view[i].items != [])
    && KeysDistinct(view)
    && Covers(s, labelOf, view)
    && (forall i, j :: 0 <= i < j < |view|
          ==> LexLeq(GroupRank(s, labelOf, groupKey, view[i].key), GroupRank(s, labelOf, groupKey, view[j].key)))
    && (forall i :: 0 <= i < |view| ==> SortedBy(view[i].items, itemKey))
    && (forall i :: 0 <= i < |view| ==> TiesInOrder(view[i].items, Select(s, labelOf, view[i].key), itemKey))
    && multiset(Flatten(view)) == multiset(s)
  }

  /** Groups s, orders the buckets and sorts each one. */
  method GroupedView<T(==,!new), K(==,!new)>(s: seq<T>, labelOf: T -> K, groupKey: T -> seq<int>, itemKey: T -> seq<int>)
    returns (view: seq<Bucket<T, K>>)
    ensures GroupedViewOf(s, labelOf, groupKey, itemKey, view)
  {
    var groups := GroupBy(s, labelOf);
    var ordered := OrderGroups(s, labelOf, groups, groupKey);
    view := SortEachGroup(ordered, itemKey);
    forall i | 0 <= i < |view| ensures view[i].items != [] {
      assert multiset(ordered[i].items) != multiset{};
    }
    forall x | x in s ensures exists i :: 0 <= i < |view| && view[i].key == labelOf(x) {
      var i :| 0 <= i < |ordered| && ordered[i].key == labelOf(x);
      assert view[i].key == labelOf(x);
    }
    FlattenPointwise(view, ordered);
    FlattenPermutation(ordered, groups);
  }
}
