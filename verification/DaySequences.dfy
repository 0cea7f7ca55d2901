/** Lists of days: when they come back to a day they have left, and what is left when repetitions are merged. */
module DaySequences {

  /** Between two occurrences of a day lies nothing but that day. */
  ghost predicate NeverReturns(days: seq<int>) {
    forall i, j, k | 0 <= i < j < k < |days| && days[i] == days[k] :: days[j] == days[i]
  }

  ghost predicate InOrder(days: seq<int>) {
    forall i, j | 0 <= i < j < |days| :: days[i] <= days[j]
  }

  ghost predicate Distinct(days: seq<int>) {
    forall i, j | 0 <= i < j < |days| :: days[i] != days[j]
  }

  predicate Differs(days: seq<int>, i: nat)
    requires i + 1 < |days|
  {
    days[i] != days[i + 1]
  }

  ghost predicate NeighboursDiffer(days: seq<int>) {
    forall i | 0 <= i < |days| - 1 :: Differs(days, i)
  }

  /** The days `xs` occur in `days`, in this order, at the positions `at`. */
  ghost predicate Placed(xs: seq<int>, at: seq<nat>, days: seq<int>) {
    && |at| == |xs|
    && (forall i | 0 <= i < |xs| :: at[i] < |days| && days[at[i]] == xs[i])
    && (forall i, j | 0 <= i < j < |xs| :: at[i] < at[j])
  }

  lemma {:induction false} NextDiffers(xs: seq<int>, i: nat)
    requires NeighboursDiffer(xs) && i + 1 < |xs|
    ensures xs[i] != xs[i + 1]
  {
    assert Differs(xs, i);
  }

  /** Days picked in order from a list that never returns, no two neighbours alike, are all different. */
  lemma {:induction false} DistinctIfNeverReturns(xs: seq<int>, at: seq<nat>, days: seq<int>)
    requires NeighboursDiffer(xs) && Placed(xs, at, days) && NeverReturns(days)
    ensures Distinct(xs)
  {
    forall i, j | 0 <= i < j < |xs| ensures xs[i] != xs[j] {
      NextDiffers(xs, i);
      if i + 1 < j { assert at[i] < at[i + 1] < at[j]; }
    }
  }

  /** Picked from a list in order, they ascend. */
  lemma {:induction false} AscendingIfInOrder(xs: seq<int>, at: seq<nat>, days: seq<int>)
    requires NeighboursDiffer(xs) && Placed(xs, at, days) && InOrder(days)
    ensures forall i, j | 0 <= i < j < |xs| :: xs[i] < xs[j]
  {
    forall i, j | 0 <= i < j < |xs| ensures xs[i] < xs[j] {
      NextDiffers(xs, i);
      assert at[i] < at[i + 1];
      if i + 1 < j { assert at[i + 1] < at[j]; }
    }
  }

  /** The list with runs of the same day merged into one. */
  function Changes(days: seq<int>): seq<int> {
    if days == [] then []
    else
      var init, last := days[..|days| - 1], days[|days| - 1];
      if init != [] && init[|init| - 1] == last then Changes(init) else Changes(init) + [last]
  }

  lemma {:induction false} ChangesLast(days: seq<int>)
    requires days != []
    ensures Changes(days) != [] && Changes(days)[|Changes(days)| - 1] == days[|days| - 1]
  {
    var init, last := days[..|days| - 1], days[|days| - 1];
    if init != [] && init[|init| - 1] == last { ChangesLast(init); }
  }

  lemma {:induction false} ChangesPrefix(days: seq<int>, n: nat)
    requires n <= |days|
    ensures Changes(days[..n]) <= Changes(days)
  {
    if n == |days| {
      assert days[..n] == days;
    } else {
      var init := days[..|days| - 1];
      assert init[..n] == days[..n];
      ChangesPrefix(init, n);
    }
  }

  /** Where the `i`-th day ends up. */
  function Block(days: seq<int>, i: nat): int
    requires i < |days|
  {
    |Changes(days[..i + 1])| - 1
  }

  lemma {:induction false} BlockHolds(days: seq<int>, i: nat)
    requires i < |days|
    ensures 0 <= Block(days, i) < |Changes(days)| && Changes(days)[Block(days, i)] == days[i]
  {
    ChangesLast(days[..i + 1]);
    ChangesPrefix(days, i + 1);
  }

  lemma {:induction false} BlocksAscend(days: seq<int>, i: nat, j: nat)
    requires i < j < |days|
    ensures Block(days, i) <= Block(days, j)
  {
    assert days[..j + 1][..i + 1] == days[..i + 1];
    ChangesPrefix(days[..j + 1], i + 1);
  }

  /** A list that returns to a day keeps that day twice. */
  lemma {:induction false} ReturnRepeats(days: seq<int>)
    requires !NeverReturns(days)
    ensures !Distinct(Changes(days))
  {
    var i, j, k :| 0 <= i < j < k < |days| && days[i] == days[k] && days[j] != days[i];
    BlockHolds(days, i);
    BlockHolds(days, j);
    BlockHolds(days, k);
    BlocksAscend(days, i, j);
    BlocksAscend(days, j, k);
    assert Block(days, i) < Block(days, k);
  }

  lemma {:induction false} ThreeChanges(a: int, b: int, c: int)
    requires a != b && b != c
    ensures Changes([a, b, c]) == [a, b, c]
  {
    assert [a, b, c][..2] == [a, b] && [a, b][..1] == [a] && [a][..0] == [];
    assert Changes([a]) == [a] && Changes([a, b]) == [a, b];
  }
}
