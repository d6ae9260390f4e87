/**
 * The array pipeline the pages use on their lists: `filter`, `filter(...).length`,
 * `find`/`some`, and a stable `sort` by a numeric key in non-increasing order
 * (`sort((a, b) => key(b) - key(a))`).
 */
module Sequences {
  import opened Wrappers

  /** The positions of the elements `filter(p)` keeps, in increasing order. */
  function Indices<T>(s: seq<T>, p: T -> bool): (r: seq<nat>)
    ensures |r| <= |s|
    ensures forall k :: 0 <= k < |r| ==> r[k] < |s| && p(s[r[k]])
    ensures forall k, l :: 0 <= k < l < |r| ==> r[k] < r[l]
    ensures forall i :: 0 <= i < |s| && p(s[i]) ==> i in r
    decreases |s|
  {
    if |s| == 0 then []
    else
      var prev := Indices(s[..|s| - 1], p);
      if p(s[|s| - 1]) then prev + [|s| - 1] else prev
  }

  /** `s.filter(p)`: the elements satisfying `p`, in their order in `s`. */
  function Filter<T>(s: seq<T>, p: T -> bool): (r: seq<T>)
    ensures |r| == |Indices(s, p)|
    ensures forall k :: 0 <= k < |r| ==> r[k] == s[Indices(s, p)[k]] && p(r[k])
  {
    var idx := Indices(s, p);
    seq(|idx|, k requires 0 <= k < |idx| => s[idx[k]])
  }

  /** `s.filter(p).length` */
  function Count<T>(s: seq<T>, p: T -> bool): (n: nat)
    ensures n <= |s|
  {
    |Filter(s, p)|
  }

  /** Nothing is counted exactly when no element satisfies `p`. */
  lemma CountZeroIff<T>(s: seq<T>, p: T -> bool)
    ensures Count(s, p) == 0 <==> forall i :: 0 <= i < |s| ==> !p(s[i])
  {
    if Count(s, p) != 0 {
      assert p(Filter(s, p)[0]);
    }
  }

  /** An element is kept exactly when it is in `s` and satisfies `p`. */
  lemma FilterMembers<T>(s: seq<T>, p: T -> bool, x: T)
    ensures x in Filter(s, p) <==> x in s && p(x)
  {
    var idx := Indices(s, p);
    if x in s && p(x) {
      var i :| 0 <= i < |s| && s[i] == x;
      var k :| 0 <= k < |idx| && idx[k] == i;
      assert Filter(s, p)[k] == x;
    }
  }

  /** When every element satisfies `p`, every position is kept. */
  lemma {:induction false} IndicesAll<T>(s: seq<T>, p: T -> bool)
    requires forall i :: 0 <= i < |s| ==> p(s[i])
    ensures Indices(s, p) == seq(|s|, i => i)
    decreases |s|
  {
    if |s| > 0 {
      IndicesAll(s[..|s| - 1], p);
    }
  }

  lemma FilterAll<T>(s: seq<T>, p: T -> bool)
    requires forall i :: 0 <= i < |s| ==> p(s[i])
    ensures Filter(s, p) == s
  {
    IndicesAll(s, p);
  }

  /** Counting over a longer list: the last element adds one when it satisfies `p`. */
  lemma CountSnoc<T>(s: seq<T>, p: T -> bool)
    requires |s| > 0
    ensures Count(s, p) == Count(s[..|s| - 1], p) + (if p(s[|s| - 1]) then 1 else 0)
  {
  }

  /**
   * Two predicates no element satisfies at once count, together, the
   * elements satisfying either.
   */
  lemma {:induction false} CountDisjoint<T>(s: seq<T>, p: T -> bool, q: T -> bool, pq: T -> bool)
    requires forall x :: pq(x) == (p(x) || q(x))
    requires forall i :: 0 <= i < |s| ==> !(p(s[i]) && q(s[i]))
    ensures Count(s, p) + Count(s, q) == Count(s, pq)
    decreases |s|
  {
    if |s| > 0 {
      CountDisjoint(s[..|s| - 1], p, q, pq);
      CountSnoc(s, p);
      CountSnoc(s, q);
      CountSnoc(s, pq);
    }
  }

  /** Filtering a filtered list is filtering by both predicates. */
  lemma {:induction false} FilterFilter<T>(s: seq<T>, p: T -> bool, q: T -> bool, pq: T -> bool)
    requires forall x :: pq(x) == (p(x) && q(x))
    ensures Filter(Filter(s, p), q) == Filter(s, pq)
    decreases |s|
  {
    if |s| > 0 {
      var init := s[..|s| - 1];
      var last := s[|s| - 1];
      FilterFilter(init, p, q, pq);
      FilterSnoc(s, p);
      FilterSnoc(s, pq);
      if p(last) {
        var fs := Filter(s, p);
        FilterSnoc(fs, q);
        assert fs == Filter(init, p) + [last];
        assert fs[..|fs| - 1] == Filter(init, p) && fs[|fs| - 1] == last;
        assert Filter(fs, q) == Filter(Filter(init, p), q) + (if q(last) then [last] else []);
        assert pq(last) == q(last);
        assert Filter(s, pq) == Filter(init, pq) + (if q(last) then [last] else []);
      } else {
        assert Filter(s, p) == Filter(init, p);
        assert !pq(last);
      }
    }
  }

  /** `Filter` of a list is `Filter` of its first part, plus the last element when kept. */
  lemma FilterSnoc<T>(s: seq<T>, p: T -> bool)
    requires |s| > 0
    ensures Filter(s, p) == Filter(s[..|s| - 1], p) + (if p(s[|s| - 1]) then [s[|s| - 1]] else [])
  {
    var init := s[..|s| - 1];
    var a := Filter(s, p);
    var b := Filter(init, p) + (if p(s[|s| - 1]) then [s[|s| - 1]] else []);
    assert |a| == |b|;
    forall k | 0 <= k < |a| ensures a[k] == b[k] {
      if k < |Filter(init, p)| {
        assert Indices(s, p)[k] == Indices(init, p)[k];
      }
    }
  }

  /** `s.find(p)`'s position: the first element satisfying `p`. */
  function FindIndex<T>(s: seq<T>, p: T -> bool): (r: Option<nat>)
    ensures r.Some? ==> r.value < |s| && p(s[r.value]) && forall j :: 0 <= j < r.value ==> !p(s[j])
    ensures r.None? ==> forall j :: 0 <= j < |s| ==> !p(s[j])
    decreases |s|
  {
    if |s| == 0 then None
    else if p(s[0]) then Some(0)
    else match FindIndex(s[1..], p)
      case None => None
      case Some(i) => Some(i + 1)
  }

  // ---------------------------------------------------------------- sorting

  predicate SortedDesc<T>(s: seq<T>, key: T -> int) {
    forall i, j :: 0 <= i < j < |s| ==> key(s[i]) >= key(s[j])
  }

  /**
   * Places `x` into a list sorted by `key`, after every element whose key is
   * at least `key(x)`: the element that came later stays later among equals.
   */
  function Insert<T>(sorted: seq<T>, x: T, key: T -> int): (r: seq<T>)
    requires SortedDesc(sorted, key)
    ensures SortedDesc(r, key)
    ensures multiset(r) == multiset(sorted) + multiset{x}
    decreases |sorted|
  {
    if |sorted| == 0 then [x]
    else if key(sorted[|sorted| - 1]) >= key(x) then sorted + [x]
    else
      var init := sorted[..|sorted| - 1];
      var last := sorted[|sorted| - 1];
      assert sorted == init + [last];
      var r := Insert(init, x, key);
      forall i | 0 <= i < |r| ensures key(r[i]) >= key(last) {
        assert r[i] in multiset(r);
        if r[i] != x {
          assert r[i] in multiset(init);
          KeyAtLeastLast(sorted, r[i], key);
        }
      }
      r + [last]
  }

  /** Every element before the last of a sorted list has a key at least the last's. */
  lemma KeyAtLeastLast<T>(sorted: seq<T>, y: T, key: T -> int)
    requires SortedDesc(sorted, key) && |sorted| > 0 && y in sorted[..|sorted| - 1]
    ensures key(y) >= key(sorted[|sorted| - 1])
  {
    var j :| 0 <= j < |sorted| - 1 && sorted[..|sorted| - 1][j] == y;
    assert sorted[j] == y;
  }

  /** The stable sort the pages run, by non-increasing key. */
  function SortDesc<T>(s: seq<T>, key: T -> int): (r: seq<T>)
    ensures SortedDesc(r, key)
    ensures multiset(r) == multiset(s)
    ensures |r| == |s|
    decreases |s|
  {
    if |s| == 0 then []
    else
      var init := s[..|s| - 1];
      assert s == init + [s[|s| - 1]];
      var r := Insert(SortDesc(init, key), s[|s| - 1], key);
      assert |r| == |multiset(r)| == |multiset(s)| == |s|;
      r
  }

  /** A list already in order comes back from the sort unchanged. */
  lemma {:induction false} SortKeepsOrderedList<T>(s: seq<T>, key: T -> int)
    requires SortedDesc(s, key)
    ensures SortDesc(s, key) == s
    decreases |s|
  {
    if |s| > 0 {
      var init := s[..|s| - 1];
      var last := s[|s| - 1];
      SortedPrefix(s, key);
      SortKeepsOrderedList(init, key);
      SortDescSnoc(s, key);
      InsertAtEnd(init, last, key);
      assert init + [last] == s;
    }
  }

  /** The sort of a non-empty list inserts its last element into the sorted rest. */
  lemma SortDescSnoc<T>(s: seq<T>, key: T -> int)
    requires |s| > 0
    ensures SortDesc(s, key) == Insert(SortDesc(s[..|s| - 1], key), s[|s| - 1], key)
  {
  }

  /** A list without its last element is still sorted. */
  lemma SortedPrefix<T>(s: seq<T>, key: T -> int)
    requires |s| > 0 && SortedDesc(s, key)
    ensures SortedDesc(s[..|s| - 1], key)
    ensures |s| > 1 ==> key(s[|s| - 2]) >= key(s[|s| - 1])
  {
    var init := s[..|s| - 1];
    forall i, j | 0 <= i < j < |init| ensures key(init[i]) >= key(init[j]) {
      assert init[i] == s[i] && init[j] == s[j];
    }
  }

  /** An element with a key no larger than the last goes at the end. */
  lemma InsertAtEnd<T>(sorted: seq<T>, x: T, key: T -> int)
    requires SortedDesc(sorted, key)
    requires |sorted| > 0 ==> key(sorted[|sorted| - 1]) >= key(x)
    ensures Insert(sorted, x, key) == sorted + [x]
  {
  }

  /**
   * The first `k` elements of a sorted list: again sorted, and every element
   * after them has a key no larger than any of theirs.
   */
  lemma TakeSorted<T>(s: seq<T>, key: T -> int, k: nat)
    requires SortedDesc(s, key) && k <= |s|
    ensures SortedDesc(s[..k], key)
    ensures multiset(s[..k]) <= multiset(s)
    ensures forall x, i :: x in multiset(s) - multiset(s[..k]) && 0 <= i < k ==> key(x) <= key(s[i])
  {
    assert s == s[..k] + s[k..];
    assert multiset(s) == multiset(s[..k]) + multiset(s[k..]);
    forall x, i | x in multiset(s) - multiset(s[..k]) && 0 <= i < k ensures key(x) <= key(s[i]) {
      assert x in multiset(s[k..]);
      var j :| 0 <= j < |s[k..]| && s[k..][j] == x;
      assert s[k + j] == x;
    }
  }
}
