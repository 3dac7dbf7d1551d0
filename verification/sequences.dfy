/** The list operations the handlers are built from: the store's filtered
    `find(...)`, `find_one(...)` (the first match in store order) and
    `sort("-created_at")` (newest first). */
module Sequences {
  import opened Outcomes

  /** The elements of `xs` that satisfy `p`, in their original order. */
  function Filter<T(!new)>(xs: seq<T>, p: T -> bool): (r: seq<T>)
    ensures |r| <= |xs|
    ensures forall x :: x in r <==> x in xs && p(x)
    ensures multiset(r) <= multiset(xs)
  {
    if xs == [] then []
    else
      assert xs == [xs[0]] + xs[1..];
      if p(xs[0]) then [xs[0]] + Filter(xs[1..], p) else Filter(xs[1..], p)
  }

  /** The positions of `xs` whose element satisfies `p`. */
  function MatchingPositions<T>(xs: seq<T>, p: T -> bool): set<nat> {
    set k: nat | k < |xs| && p(xs[k])
  }

  /** Filtering a list with one more element at the end. */
  lemma {:induction false} FilterAppendOne<T(!new)>(xs: seq<T>, x: T, p: T -> bool)
    ensures Filter(xs + [x], p) == Filter(xs, p) + (if p(x) then [x] else [])
  {
    if xs == [] {
      assert [x][1..] == [];
    } else {
      assert (xs + [x])[1..] == xs[1..] + [x];
      FilterAppendOne(xs[1..], x, p);
    }
  }

  /** The matching positions of a list with one more element at the end. */
  lemma MatchingPositionsAppendOne<T>(xs: seq<T>, x: T, p: T -> bool)
    ensures MatchingPositions(xs + [x], p)
         == MatchingPositions(xs, p) + (if p(x) then {|xs|} else {})
  {
    var ys := xs + [x];
    forall k: nat | k < |xs|
      ensures ys[k] == xs[k]
    {
    }
  }

  /** A filter keeps one element per matching position: the size of a
      `find(...)` answer is the number of stored documents that match. */
  lemma {:induction false} FilterSizeIsMatchCount<T(!new)>(xs: seq<T>, p: T -> bool)
    ensures |Filter(xs, p)| == |MatchingPositions(xs, p)|
  {
    if xs == [] {
      assert MatchingPositions(xs, p) == {};
    } else {
      var init, last := xs[..|xs| - 1], xs[|xs| - 1];
      assert xs == init + [last];
      FilterAppendOne(init, last, p);
      FilterSizeIsMatchCount(init, p);
      MatchingPositionsAppendOne(init, last, p);
      assert |init| !in MatchingPositions(init, p);
    }
  }

  /** Replacing one element that satisfies `p` by one that does not removes
      exactly one element from the filtered list. */
  lemma {:induction false} FilterReplaceDropsOne<T(!new)>(xs: seq<T>, i: nat, x: T, p: T -> bool)
    requires i < |xs| && p(xs[i]) && !p(x)
    ensures |Filter(xs[i := x], p)| == |Filter(xs, p)| - 1
  {
    if i == 0 {
      assert xs[i := x][1..] == xs[1..];
    } else {
      assert xs[i := x][1..] == xs[1..][i - 1 := x];
      FilterReplaceDropsOne(xs[1..], i - 1, x, p);
    }
  }

  /** Replacing one element by one on the same side of `p` keeps the size
      of the filtered list. */
  lemma {:induction false} FilterReplaceKeepsSize<T(!new)>(xs: seq<T>, i: nat, x: T, p: T -> bool)
    requires i < |xs| && p(xs[i]) == p(x)
    ensures |Filter(xs[i := x], p)| == |Filter(xs, p)|
  {
    if i == 0 {
      assert xs[i := x][1..] == xs[1..];
    } else {
      assert xs[i := x][1..] == xs[1..][i - 1 := x];
      FilterReplaceKeepsSize(xs[1..], i - 1, x, p);
    }
  }

  /** A filter and the filter of the complementary condition split the
      list between them. */
  lemma {:induction false} FilterComplementSizes<T(!new)>(xs: seq<T>, p: T -> bool, q: T -> bool)
    requires forall x :: x in xs ==> (q(x) <==> !p(x))
    ensures |Filter(xs, p)| + |Filter(xs, q)| == |xs|
  {
    if xs != [] {
      assert xs[0] in xs;
      assert forall x :: x in xs[1..] ==> x in xs;
      FilterComplementSizes(xs[1..], p, q);
    }
  }

  /** A query that no element matches is empty. */
  lemma {:induction false} FilterNoneMatch<T(!new)>(xs: seq<T>, p: T -> bool)
    requires forall x :: x in xs ==> !p(x)
    ensures Filter(xs, p) == []
  {
    if xs != [] {
      assert xs[0] in xs;
      assert forall x :: x in xs[1..] ==> x in xs;
      FilterNoneMatch(xs[1..], p);
    }
  }

  /** The index of the first element satisfying `p`, if any. */
  function FirstWhere<T>(xs: seq<T>, p: T -> bool): (r: Option<nat>)
    ensures r.Some? ==> r.value < |xs| && p(xs[r.value])
    ensures r.Some? ==> forall k :: 0 <= k < r.value ==> !p(xs[k])
    ensures r.None? <==> forall k :: 0 <= k < |xs| ==> !p(xs[k])
  {
    if xs == [] then None
    else if p(xs[0]) then Some(0)
    else match FirstWhere(xs[1..], p)
      case None => None
      case Some(i) => Some(i + 1)
  }

  /** Every element has a key no smaller than the next one's. */
  predicate NewestFirst<T>(xs: seq<T>, key: T -> nat) {
    |xs| <= 1 || (key(xs[0]) >= key(xs[1]) && NewestFirst(xs[1..], key))
  }

  /** Keys that never increase from one element to the next never increase
      over any distance. */
  lemma {:induction false} NewestFirstPairwise<T>(xs: seq<T>, key: T -> nat)
    requires NewestFirst(xs, key)
    ensures forall i, j :: 0 <= i < j < |xs| ==> key(xs[i]) >= key(xs[j])
  {
    if |xs| > 1 {
      var tail := xs[1..];
      NewestFirstPairwise(tail, key);
      forall i, j | 0 <= i < j < |xs|
        ensures key(xs[i]) >= key(xs[j])
      {
        assert xs[j] == tail[j - 1];
        if i > 0 {
          assert xs[i] == tail[i - 1];
        } else if j > 1 {
          assert key(tail[0]) >= key(tail[j - 1]);
        }
      }
    }
  }

  /** Inserts `x` before the first element with a key not above its own,
      so that among equal keys the earlier insertions stay first. */
  function InsertNewest<T>(x: T, xs: seq<T>, key: T -> nat): (r: seq<T>)
    requires NewestFirst(xs, key)
    ensures |r| == |xs| + 1
    ensures multiset(r) == multiset(xs) + multiset{x}
    ensures r[0] == x || (xs != [] && r[0] == xs[0])
    ensures NewestFirst(r, key)
  {
    if xs == [] || key(x) >= key(xs[0]) then
      assert ([x] + xs)[1..] == xs;
      [x] + xs
    else
      var rest := InsertNewest(x, xs[1..], key);
      assert xs == [xs[0]] + xs[1..];
      assert ([xs[0]] + rest)[1..] == rest;
      [xs[0]] + rest
  }

  /** A stable sort by descending key: the model of `sort("-created_at")`,
      with records of equal timestamp left in store order. */
  function SortNewestFirst<T>(xs: seq<T>, key: T -> nat): (r: seq<T>)
    ensures multiset(r) == multiset(xs)
    ensures NewestFirst(r, key)
  {
    if xs == [] then []
    else
      assert xs == [xs[0]] + xs[1..];
      InsertNewest(xs[0], SortNewestFirst(xs[1..], key), key)
  }

  /** Sorting keeps exactly the elements of the input. */
  lemma SortedSameElements<T>(xs: seq<T>, key: T -> nat)
    ensures |SortNewestFirst(xs, key)| == |xs|
    ensures forall x :: x in SortNewestFirst(xs, key) <==> x in xs
  {
    var r := SortNewestFirst(xs, key);
    assert |r| == |multiset(r)| == |multiset(xs)| == |xs|;
    forall x ensures x in r <==> x in xs {
      assert x in r <==> x in multiset(r);
      assert x in xs <==> x in multiset(xs);
    }
  }

  /** One step of the sort: the head is inserted into the sorted tail. */
  lemma SortStep<T>(xs: seq<T>, key: T -> nat)
    requires xs != []
    ensures SortNewestFirst(xs, key) == InsertNewest(xs[0], SortNewestFirst(xs[1..], key), key)
  {
  }

  /** An element whose key is not below the head's goes in front. */
  lemma InsertInFront<T>(x: T, xs: seq<T>, key: T -> nat)
    requires NewestFirst(xs, key) && (xs == [] || key(x) >= key(xs[0]))
    ensures InsertNewest(x, xs, key) == [x] + xs
  {
  }

  /** When every key is the same, the sort leaves the list as it is. */
  lemma {:induction false} SameKeyKeepsOrder<T>(xs: seq<T>, key: T -> nat, t: nat)
    requires forall k :: 0 <= k < |xs| ==> key(xs[k]) == t
    ensures SortNewestFirst(xs, key) == xs
  {
    if xs != [] {
      var tail := xs[1..];
      assert forall k :: 0 <= k < |tail| ==> tail[k] == xs[k + 1];
      SameKeyKeepsOrder(tail, key, t);
      SortStep(xs, key);
      InsertInFront(xs[0], tail, key);
      assert xs == [xs[0]] + tail;
    }
  }
}
