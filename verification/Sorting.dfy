/** Stable sorting by an arbitrary total preorder, as done by `sort_by_key` and by SQL `ORDER BY`. */
module Sorting {
  import opened Core

  ghost predicate TotalPreorder<T(!new)>(leq: (T, T) -> bool) {
    && (forall a, b :: leq(a, b) || leq(b, a))
    && (forall a, b, c :: leq(a, b) && leq(b, c) ==> leq(a, c))
  }

  ghost predicate Sorted<T>(xs: seq<T>, leq: (T, T) -> bool) {
    forall i, j | 0 <= i < j < |xs| :: leq(xs[i], xs[j])
  }

  /** Places `x` in front of the first element it does not exceed. */
  function Insert<T>(x: T, xs: seq<T>, leq: (T, T) -> bool): seq<T> {
    if xs == [] || leq(x, xs[0]) then [x] + xs
    else [xs[0]] + Insert(x, xs[1..], leq)
  }

  /** Insertion sort; equal keys keep their input order. */
  function Sort<T>(xs: seq<T>, leq: (T, T) -> bool): seq<T> {
    if xs == [] then [] else Insert(xs[0], Sort(xs[1..], leq), leq)
  }

  /** Every element of a list is bounded below by `x`. */
  ghost predicate Floor<T>(x: T, xs: seq<T>, leq: (T, T) -> bool) {
    forall i | 0 <= i < |xs| :: leq(x, xs[i])
  }

  lemma {:induction false} SortedCons<T>(x: T, xs: seq<T>, leq: (T, T) -> bool)
    requires Sorted(xs, leq) && Floor(x, xs, leq)
    ensures Sorted([x] + xs, leq)
  {}

  lemma {:induction false} FloorPermuted<T>(x: T, xs: seq<T>, ys: seq<T>, leq: (T, T) -> bool)
    requires Floor(x, xs, leq) && multiset(xs) == multiset(ys)
    ensures Floor(x, ys, leq)
  {
    forall i | 0 <= i < |ys| ensures leq(x, ys[i]) { assert ys[i] in multiset(xs); }
  }

  lemma {:induction false} InsertPermutes<T>(x: T, xs: seq<T>, leq: (T, T) -> bool)
    ensures multiset(Insert(x, xs, leq)) == multiset([x] + xs)
  {
    if xs != [] && !leq(x, xs[0]) {
      InsertPermutes(x, xs[1..], leq);
      assert xs == [xs[0]] + xs[1..];
    }
  }

  lemma {:induction false} InsertSorts<T(!new)>(x: T, xs: seq<T>, leq: (T, T) -> bool)
    requires TotalPreorder(leq) && Sorted(xs, leq)
    ensures Sorted(Insert(x, xs, leq), leq)
  {
    if xs != [] && !leq(x, xs[0]) {
      InsertSorts(x, xs[1..], leq);
      InsertPermutes(x, xs[1..], leq);
      assert Floor(xs[0], [x] + xs[1..], leq);
      FloorPermuted(xs[0], [x] + xs[1..], Insert(x, xs[1..], leq), leq);
      SortedCons(xs[0], Insert(x, xs[1..], leq), leq);
    } else {
      assert Floor(x, xs, leq);
      SortedCons(x, xs, leq);
    }
  }

  /** Sorting orders the list and only permutes it. */
  lemma {:induction false} SortSorts<T(!new)>(xs: seq<T>, leq: (T, T) -> bool)
    requires TotalPreorder(leq)
    ensures Sorted(Sort(xs, leq), leq)
    ensures multiset(Sort(xs, leq)) == multiset(xs)
    ensures |Sort(xs, leq)| == |xs|
  {
    if xs != [] {
      SortSorts(xs[1..], leq);
      InsertSorts(xs[0], Sort(xs[1..], leq), leq);
      InsertPermutes(xs[0], Sort(xs[1..], leq), leq);
      assert xs == [xs[0]] + xs[1..];
    }
    SameLength(Sort(xs, leq), xs);
  }

  ghost predicate NoTies<T(!new)>(m: multiset<T>, leq: (T, T) -> bool) {
    forall a, b | a in m && b in m && leq(a, b) && leq(b, a) :: a == b
  }

  lemma {:induction false} MultisetTail<T>(xs: seq<T>)
    requires xs != []
    ensures multiset(xs[1..]) == multiset(xs) - multiset{xs[0]}
  {
    assert xs == [xs[0]] + xs[1..];
  }

  lemma {:induction false} SameLength<T>(xs: seq<T>, ys: seq<T>)
    requires multiset(xs) == multiset(ys)
    ensures |xs| == |ys|
  {
    assert |multiset(xs)| == |xs| && |multiset(ys)| == |ys|;
  }

  lemma {:induction false} SortedFirst<T(!new)>(xs: seq<T>, leq: (T, T) -> bool, y: T)
    requires Sorted(xs, leq) && y in xs
    ensures y == xs[0] || leq(xs[0], y)
  {
    var i :| 0 <= i < |xs| && xs[i] == y;
    if i > 0 { assert leq(xs[0], xs[i]); }
  }

  lemma {:induction false} SortedHead<T(!new)>(xs: seq<T>, ys: seq<T>, leq: (T, T) -> bool)
    requires Sorted(xs, leq) && Sorted(ys, leq) && xs != [] && ys != []
    requires multiset(xs) == multiset(ys)
    requires NoTies(multiset(xs), leq)
    ensures xs[0] == ys[0]
  {
    var x, y := xs[0], ys[0];
    assert x in multiset(xs) && y in multiset(ys);
    assert x in ys && y in xs;
    SortedFirst(xs, leq, y);
    SortedFirst(ys, leq, x);
    assert x == y || (leq(x, y) && leq(y, x));
  }

  lemma {:induction false} SortedTail<T>(xs: seq<T>, leq: (T, T) -> bool)
    requires xs != [] && Sorted(xs, leq)
    ensures Sorted(xs[1..], leq)
  {}

  lemma {:induction false} NoTiesTail<T(!new)>(xs: seq<T>, leq: (T, T) -> bool)
    requires xs != [] && NoTies(multiset(xs), leq)
    ensures NoTies(multiset(xs[1..]), leq)
  {}

  /** Two sorted arrangements of the same elements agree when no two distinct elements tie. */
  lemma {:induction false} SortedUnique<T(!new)>(xs: seq<T>, ys: seq<T>, leq: (T, T) -> bool)
    requires Sorted(xs, leq) && Sorted(ys, leq)
    requires multiset(xs) == multiset(ys)
    requires NoTies(multiset(xs), leq)
    ensures xs == ys
  {
    SameLength(xs, ys);
    if xs != [] {
      SortedHead(xs, ys, leq);
      SameTails(xs, ys);
      NoTiesTail(xs, leq);
      SortedTail(xs, leq);
      SortedTail(ys, leq);
      SortedUnique(xs[1..], ys[1..], leq);
      assert xs == [xs[0]] + xs[1..] && ys == [ys[0]] + ys[1..];
    }
  }

  lemma {:induction false} SameTails<T>(xs: seq<T>, ys: seq<T>)
    requires xs != [] && ys != [] && xs[0] == ys[0] && multiset(xs) == multiset(ys)
    ensures multiset(xs[1..]) == multiset(ys[1..])
  {
    MultisetTail(xs);
    MultisetTail(ys);
  }

  /** A list that is already sorted is left alone. */
  lemma {:induction false} SortFixed<T(!new)>(xs: seq<T>, leq: (T, T) -> bool)
    requires Sorted(xs, leq)
    ensures Sort(xs, leq) == xs
  {
    if xs != [] {
      SortFixed(xs[1..], leq);
      assert xs == [xs[0]] + xs[1..];
    }
  }

  lemma {:induction false} RepeatedElement<T>(xs: seq<T>, i: nat, j: nat)
    requires i < j < |xs| && xs[i] == xs[j]
    ensures multiset(xs)[xs[i]] >= 2
  {
    assert xs == xs[..j] + [xs[j]] + xs[j + 1..];
    assert xs[i] in multiset(xs[..j]) by {
      assert xs[..j][i] == xs[i];
    }
  }

  lemma {:induction false} DistinctMultiplicity<T>(xs: seq<T>, x: T)
    requires forall i, j | 0 <= i < j < |xs| :: xs[i] != xs[j]
    requires x in xs
    ensures multiset(xs)[x] == 1
  {
    assert xs == [xs[0]] + xs[1..];
    if x == xs[0] {
      assert x !in xs[1..];
    } else {
      DistinctMultiplicity(xs[1..], x);
    }
  }

  // ---------------------------------------------------------------------
  // Strictly ordered lists, and lists without repeated keys
  // ---------------------------------------------------------------------

  ghost predicate Strict<T>(xs: seq<T>, less: (T, T) -> bool) {
    forall i, j | 0 <= i < j < |xs| :: less(xs[i], xs[j])
  }

  ghost predicate Asymmetric<T(!new)>(less: (T, T) -> bool) {
    forall a, b :: less(a, b) ==> !less(b, a)
  }

  lemma {:induction false} StrictFirst<T>(xs: seq<T>, less: (T, T) -> bool, y: T)
    requires Strict(xs, less) && y in xs
    ensures y == xs[0] || less(xs[0], y)
  {
    var i :| 0 <= i < |xs| && xs[i] == y;
    if i > 0 { assert less(xs[0], xs[i]); }
  }

  lemma {:induction false} StrictHead<T(!new)>(xs: seq<T>, ys: seq<T>, less: (T, T) -> bool)
    requires Strict(xs, less) && Strict(ys, less) && Asymmetric(less) && xs != [] && ys != []
    requires xs[0] in ys && ys[0] in xs
    ensures xs[0] == ys[0]
  {
    StrictFirst(xs, less, ys[0]);
    StrictFirst(ys, less, xs[0]);
  }

  lemma {:induction false} TailMembers<T>(xs: seq<T>, less: (T, T) -> bool, t: T)
    requires Strict(xs, less) && xs != [] && !less(xs[0], xs[0])
    ensures t in xs[1..] <==> t in xs && t != xs[0]
  {
    assert xs == [xs[0]] + xs[1..];
    if t in xs[1..] {
      var i :| 0 <= i < |xs[1..]| && xs[1..][i] == t;
      assert less(xs[0], xs[i + 1]);
    }
  }

  /** Two strictly ordered lists with the same members are the same list. */
  lemma {:induction false} StrictUnique<T(!new)>(xs: seq<T>, ys: seq<T>, less: (T, T) -> bool)
    requires Strict(xs, less) && Strict(ys, less) && Asymmetric(less)
    requires forall t :: t in xs <==> t in ys
    ensures xs == ys
  {
    if xs != [] || ys != [] {
      assert xs != [] ==> xs[0] in ys;
      assert ys != [] ==> ys[0] in xs;
      StrictHead(xs, ys, less);
      forall t ensures t in xs[1..] <==> t in ys[1..] {
        TailMembers(xs, less, t);
        TailMembers(ys, less, t);
      }
      StrictUnique(xs[1..], ys[1..], less);
      assert xs == [xs[0]] + xs[1..] && ys == [ys[0]] + ys[1..];
    }
  }

  ghost predicate DistinctBy<T, K>(xs: seq<T>, key: T -> K) {
    forall i, j | 0 <= i < j < |xs| :: key(xs[i]) != key(xs[j])
  }

  lemma {:induction false} FilterDistinct<T(!new), K>(xs: seq<T>, keep: T -> bool, key: T -> K)
    requires DistinctBy(xs, key)
    ensures DistinctBy(Filter(xs, keep), key)
  {
    if xs != [] {
      var rest := xs[1..];
      FilterDistinct(rest, keep, key);
      FilterMembers(rest, keep);
      forall x | x in Filter(rest, keep) ensures key(x) != key(xs[0]) {
        assert x in rest;
        var i :| 0 <= i < |rest| && rest[i] == x;
        assert xs[i + 1] == x;
      }
    }
  }

  lemma {:induction false} PermutedDistinct<T, K>(xs: seq<T>, ys: seq<T>, key: T -> K)
    requires DistinctBy(xs, key) && multiset(xs) == multiset(ys)
    ensures DistinctBy(ys, key)
  {
    forall i, j | 0 <= i < j < |ys| ensures key(ys[i]) != key(ys[j]) {
      assert ys[i] in multiset(xs) && ys[j] in multiset(xs);
      if ys[i] == ys[j] {
        RepeatedElement(ys, i, j);
        DistinctMultiplicity(xs, ys[i]);
      }
      assert ys[i] in xs && ys[j] in xs;
    }
  }

  /** Taking out one element changes a filtered list by that element alone. */
  lemma {:induction false} FilterWithout<T>(xs: seq<T>, j: nat, keep: T -> bool)
    requires j < |xs|
    ensures |Filter(xs, keep)| == |Filter(xs[..j] + xs[j + 1..], keep)| + (if keep(xs[j]) then 1 else 0)
  {
    assert xs == xs[..j] + ([xs[j]] + xs[j + 1..]);
    FilterAppend(xs[..j], [xs[j]] + xs[j + 1..], keep);
    FilterCons(xs[j], xs[j + 1..], keep);
    FilterAppend(xs[..j], xs[j + 1..], keep);
  }

  lemma {:induction false} MultisetWithout<T>(xs: seq<T>, j: nat)
    requires j < |xs|
    ensures multiset(xs[..j] + xs[j + 1..]) == multiset(xs) - multiset{xs[j]}
  {
    assert xs == xs[..j] + [xs[j]] + xs[j + 1..];
  }

  /** Two orders of one list have equally many elements to keep. */
  lemma {:induction false} FilterPermuted<T>(xs: seq<T>, ys: seq<T>, keep: T -> bool)
    requires multiset(xs) == multiset(ys)
    ensures |Filter(xs, keep)| == |Filter(ys, keep)|
  {
    SameLength(xs, ys);
    if xs != [] {
      assert xs[0] in multiset(ys);
      var j :| 0 <= j < |ys| && ys[j] == xs[0];
      MultisetTail(xs);
      MultisetWithout(ys, j);
      FilterWithout(ys, j, keep);
      FilterPermuted(xs[1..], ys[..j] + ys[j + 1..], keep);
    }
  }
}
