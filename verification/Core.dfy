/** Vocabulary shared by every component: optional values, results and time. */
module Core {

  datatype Option<+T> = None | Some(value: T)

  datatype Result<+T, +E> = Ok(value: T) | Err(error: E)

  /** Timestamps are whole nanoseconds since the Unix epoch, the finest the clock can be read. */
  type Time = int

  const SECOND: int := 1_000_000_000

  const DAY: int := 86_400_000_000_000

  /** A UTC calendar day, counted from the epoch. */
  type DayNumber = int

  function DayOf(t: Time): DayNumber { t / DAY }

  function Max(a: int, b: int): int { if a >= b then a else b }

  function Min(a: int, b: int): int { if a <= b then a else b }

  /** The elements of `s` that satisfy `keep`, in order. */
  function Filter<T>(s: seq<T>, keep: T -> bool): seq<T> {
    if s == [] then []
    else (if keep(s[0]) then [s[0]] else []) + Filter(s[1..], keep)
  }

  lemma {:induction false} FilterAppend<T>(a: seq<T>, b: seq<T>, keep: T -> bool)
    ensures Filter(a + b, keep) == Filter(a, keep) + Filter(b, keep)
  {
    if a == [] {
      assert a + b == b;
    } else {
      var x, rest := a[0], a[1..];
      var head := if keep(x) then [x] else [];
      FilterAppend(rest, b, keep);
      FilterCons(x, rest + b, keep);
      Associative([x], rest, b);
      assert a == [x] + rest;
      Associative(head, Filter(rest, keep), Filter(b, keep));
    }
  }

  lemma {:induction false} Associative<T>(a: seq<T>, b: seq<T>, c: seq<T>)
    ensures (a + b) + c == a + (b + c)
  {}

  lemma {:induction false} FilterCons<T>(x: T, s: seq<T>, keep: T -> bool)
    ensures Filter([x] + s, keep) == (if keep(x) then [x] else []) + Filter(s, keep)
  {
    assert ([x] + s)[1..] == s;
  }

  lemma {:induction false} FilterMembers<T(!new)>(s: seq<T>, keep: T -> bool)
    ensures forall x :: x in Filter(s, keep) <==> x in s && keep(x)
  {
    if s != [] {
      FilterMembers(s[1..], keep);
      assert s == [s[0]] + s[1..];
    }
  }

  /** Filtering twice keeps exactly what both predicates keep. */
  lemma {:induction false} FilterTwice<T>(s: seq<T>, p: T -> bool, q: T -> bool)
    requires forall x | x in s :: q(x) ==> p(x)
    ensures Filter(Filter(s, p), q) == Filter(s, q)
  {
    if s != [] {
      FilterTwice(s[1..], p, q);
      FilterAppend(if p(s[0]) then [s[0]] else [], Filter(s[1..], p), q);
    }
  }

  lemma {:induction false} FilterBoth<T>(s: seq<T>, p: T -> bool, q: T -> bool, both: T -> bool)
    requires forall x | x in s :: both(x) <==> p(x) && q(x)
    ensures Filter(Filter(s, p), q) == Filter(s, both)
  {
    if s != [] {
      FilterBoth(s[1..], p, q, both);
      FilterAppend(if p(s[0]) then [s[0]] else [], Filter(s[1..], p), q);
    }
  }

  function Sum(s: seq<int>): int {
    if s == [] then 0 else Sum(s[..|s| - 1]) + s[|s| - 1]
  }

  lemma {:induction false} SubsetSize<T>(a: set<T>, b: set<T>)
    requires a <= b
    ensures |a| <= |b|
  {
    if a != {} {
      var x :| x in a;
      SubsetSize(a - {x}, b - {x});
    }
  }

  /** Steps taken one after the other. */
  function Fold<S, M>(s: S, ms: seq<M>, step: (S, M) -> S): S {
    if ms == [] then s else step(Fold(s, ms[..|ms| - 1], step), ms[|ms| - 1])
  }

  lemma {:induction false} FoldSnoc<S, M>(s: S, ms: seq<M>, m: M, step: (S, M) -> S)
    ensures Fold(s, ms + [m], step) == step(Fold(s, ms, step), m)
  {
    assert (ms + [m])[..|ms|] == ms;
  }

  lemma {:induction false} FoldAppend<S, M>(s: S, a: seq<M>, b: seq<M>, step: (S, M) -> S)
    ensures Fold(s, a + b, step) == Fold(Fold(s, a, step), b, step)
  {
    if b == [] {
      assert a + b == a;
    } else {
      var init, m := b[..|b| - 1], b[|b| - 1];
      FoldAppend(s, a, init, step);
      FoldSnoc(s, a + init, m, step);
      assert a + b == a + init + [m];
    }
  }

  /** The positions of the elements that satisfy `keep`. */
  ghost function Hits<T>(s: seq<T>, keep: T -> bool): set<nat> { set i: nat | i < |s| && keep(s[i]) }

  lemma {:induction false} FilterCounts<T>(s: seq<T>, keep: T -> bool)
    ensures |Filter(s, keep)| == |Hits(s, keep)|
  {
    if s != [] {
      var n := |s| - 1;
      FilterCounts(s[..n], keep);
      FilterAppend(s[..n], [s[n]], keep);
      assert s == s[..n] + [s[n]];
      assert Hits(s, keep) == Hits(s[..n], keep) + if keep(s[n]) then {n} else {};
    }
  }
}
