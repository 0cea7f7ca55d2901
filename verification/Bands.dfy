/**
 * Lists of entries that each cover an interval of numbers, as level and rank lists do: chains of
 * intervals, looking a number up, and what makes such a list acceptable in any order.
 */
module Bands {
  import opened Core
  import Sorting

  /** An interval that starts at `lo` and ends at `hi`, or never. */
  datatype Band = Band(lo: int, hi: Option<int>) {
    predicate Covers(x: int) { lo <= x && (hi.Some? ==> x <= hi.value) }

    predicate EndsBefore(b: Band) { hi.Some? && hi.value < b.lo }

    predicate Proper() { 0 <= lo && (hi.Some? ==> lo <= hi.value) }
  }

  /** Proper bands, each ending before every later one begins; so only the last may be open-ended. */
  ghost predicate Chain(bs: seq<Band>) {
    && (forall i | 0 <= i < |bs| :: bs[i].Proper())
    && (forall i, j | 0 <= i < j < |bs| :: bs[i].EndsBefore(bs[j]))
  }

  predicate Follows(bs: seq<Band>, i: nat)
    requires i + 1 < |bs|
  {
    bs[i].EndsBefore(bs[i + 1])
  }

  /** Comparing neighbours is enough. */
  lemma {:induction false} ChainFromNeighbours(bs: seq<Band>)
    requires forall i | 0 <= i < |bs| :: bs[i].Proper()
    requires forall i | 0 <= i < |bs| - 1 :: Follows(bs, i)
    ensures Chain(bs)
  {
    forall i, j | 0 <= i < j < |bs| ensures bs[i].EndsBefore(bs[j]) { NeighboursApart(bs, i, j); }
  }

  lemma {:induction false} NeighboursApart(bs: seq<Band>, i: nat, j: nat)
    requires forall i | 0 <= i < |bs| :: bs[i].Proper()
    requires forall i | 0 <= i < |bs| - 1 :: Follows(bs, i)
    requires i < j < |bs|
    ensures bs[i].EndsBefore(bs[j])
    decreases j - i
  {
    assert Follows(bs, j - 1);
    if i + 1 < j {
      NeighboursApart(bs, i, j - 1);
      assert bs[j - 1].Proper();
    }
  }

  /** The index of the first band covering `x`, or of the last band when none does. */
  function FindBand(bs: seq<Band>, x: int): (i: nat)
    requires bs != []
    ensures i < |bs|
  {
    if |bs| == 1 || bs[0].Covers(x) then 0 else 1 + FindBand(bs[1..], x)
  }

  /** In a chain at most one band covers a value; the scan finds it, or stops at the last. */
  lemma {:induction false} FindBandUnique(bs: seq<Band>, x: int)
    requires bs != [] && Chain(bs)
    ensures forall i | 0 <= i < |bs| && bs[i].Covers(x) :: FindBand(bs, x) == i
    ensures (forall i | 0 <= i < |bs| :: !bs[i].Covers(x)) ==> FindBand(bs, x) == |bs| - 1
  {
    if |bs| > 1 && !bs[0].Covers(x) {
      var tail := bs[1..];
      assert Chain(tail);
      FindBandUnique(tail, x);
      assert forall i | 0 < i < |bs| :: bs[i] == tail[i - 1];
      assert forall i | 0 <= i < |tail| :: tail[i] == bs[i + 1];
    }
  }

  predicate Meets(bs: seq<Band>, i: nat)
    requires i + 1 < |bs|
  {
    bs[i].hi.Some? && bs[i].hi.value + 1 == bs[i + 1].lo
  }

  /** No gap: each band begins right after the one before it, and the last is open-ended. */
  ghost predicate Gapless(bs: seq<Band>) {
    && bs != [] && bs[0].lo == 0 && bs[|bs| - 1].hi.None?
    && (forall i | 0 <= i < |bs| - 1 :: Meets(bs, i))
  }

  /** Without gaps the band found is a covering one, and it moves up with the value. */
  lemma {:induction false} FindBandMonotone(bs: seq<Band>, x: int, y: int)
    requires Chain(bs) && Gapless(bs) && 0 <= x <= y
    ensures bs[FindBand(bs, x)].Covers(x)
    ensures FindBand(bs, x) <= FindBand(bs, y)
  {
    var i := GaplessCovered(bs, x);
    var j := GaplessCovered(bs, y);
    FindBandUnique(bs, x);
    FindBandUnique(bs, y);
    assert j < i ==> bs[j].EndsBefore(bs[i]);
  }

  lemma {:induction false} GaplessCovered(bs: seq<Band>, x: int) returns (i: nat)
    requires Chain(bs) && Gapless(bs) && 0 <= x
    ensures i < |bs| && bs[i].Covers(x)
  {
    i := 0;
    while !bs[i].Covers(x)
      invariant 0 <= i < |bs| && bs[i].lo <= x
      decreases |bs| - i
    {
      assert Meets(bs, i);
      i := i + 1;
    }
  }

  // ---------------------------------------------------------------------
  // Lists of entries with a key and a band
  // ---------------------------------------------------------------------

  /** Orders entries by where their bands start. */
  function ByStart<T>(band: T -> Band): (T, T) -> bool { (a: T, b: T) => band(a).lo <= band(b).lo }

  lemma {:induction false} ByStartIsOrder<T(!new)>(band: T -> Band)
    ensures Sorting.TotalPreorder(ByStart(band))
  {}

  /** The first objection in a list of verdicts, one per entry. */
  function FirstFault<E>(faults: seq<Option<E>>): Option<E> {
    if faults == [] then None else if faults[0].Some? then faults[0] else FirstFault(faults[1..])
  }

  lemma {:induction false} NoFault<E>(faults: seq<Option<E>>)
    ensures FirstFault(faults).None? <==> forall i | 0 <= i < |faults| :: faults[i].None?
  {
    if faults != [] {
      NoFault(faults[1..]);
      assert forall i | 1 <= i < |faults| :: faults[i] == faults[1..][i - 1];
    }
  }

  lemma {:induction false} FirstFaultAt<E>(faults: seq<Option<E>>) returns (i: nat)
    requires FirstFault(faults).Some?
    ensures i < |faults| && faults[i] == FirstFault(faults) && forall j | 0 <= j < i :: faults[j].None?
  {
    if faults[0].Some? {
      i := 0;
    } else {
      var k := FirstFaultAt(faults[1..]);
      i := k + 1;
      assert forall j | 1 <= j < |faults| :: faults[j] == faults[1..][j - 1];
    }
  }

  /** What a validation loop asks of the `i`-th entry: only earlier keys and the next neighbour are looked at. */
  ghost predicate EntryFits<T, K>(es: seq<T>, i: nat, key: T -> K, band: T -> Band, sound: T -> bool)
    requires i < |es|
  {
    && sound(es[i])
    && (forall j | 0 <= j < i :: key(es[j]) != key(es[i]))
    && (i + 1 < |es| ==> band(es[i]).EndsBefore(band(es[i + 1])))
  }

  /** A list in order: sound entries with distinct keys, each band ending before every later one begins. */
  ghost predicate InOrder<T, K>(es: seq<T>, key: T -> K, band: T -> Band, sound: T -> bool) {
    && (forall i | 0 <= i < |es| :: sound(es[i]))
    && (forall i, j | 0 <= i < j < |es| :: key(es[i]) != key(es[j]))
    && (forall i, j | 0 <= i < j < |es| :: band(es[i]).EndsBefore(band(es[j])))
  }

  ghost predicate Apart(a: Band, b: Band) { a.EndsBefore(b) || b.EndsBefore(a) }

  /** The same without reference to order: sound entries with distinct keys and disjoint bands. */
  ghost predicate Compatible<T(!new), K>(m: multiset<T>, key: T -> K, band: T -> Band, sound: T -> bool) {
    && (forall e | e in m :: sound(e) && m[e] == 1)
    && (forall a, b | a in m && b in m && a != b :: key(a) != key(b) && Apart(band(a), band(b)))
  }

  /** Soundness includes that the band is a proper one. */
  ghost predicate SoundIsProper<T(!new)>(band: T -> Band, sound: T -> bool) {
    forall e :: sound(e) ==> band(e).Proper()
  }

  /** Looking at neighbours and earlier keys is enough. */
  lemma {:induction false} LoopAccepts<T(!new), K>(es: seq<T>, key: T -> K, band: T -> Band, sound: T -> bool)
    requires SoundIsProper(band, sound)
    ensures (forall i | 0 <= i < |es| :: EntryFits(es, i, key, band, sound)) <==> InOrder(es, key, band, sound)
  {
    if forall i | 0 <= i < |es| :: EntryFits(es, i, key, band, sound) {
      var bs := seq(|es|, i requires 0 <= i < |es| => band(es[i]));
      forall i | 0 <= i < |es| ensures sound(es[i]) && bs[i].Proper() { assert EntryFits(es, i, key, band, sound); }
      forall i | 0 <= i < |bs| - 1 ensures Follows(bs, i) { assert EntryFits(es, i, key, band, sound); }
      ChainFromNeighbours(bs);
      forall i, j | 0 <= i < j < |es| ensures key(es[i]) != key(es[j]) && band(es[i]).EndsBefore(band(es[j])) {
        assert EntryFits(es, j, key, band, sound);
        assert bs[i].EndsBefore(bs[j]);
      }
    }
  }

  lemma {:induction false} InOrderIsCompatible<T(!new), K>(es: seq<T>, key: T -> K, band: T -> Band, sound: T -> bool)
    requires InOrder(es, key, band, sound)
    ensures Compatible(multiset(es), key, band, sound)
  {
    var m := multiset(es);
    forall e | e in m ensures sound(e) && m[e] == 1 {
      assert e in es;
      Sorting.DistinctMultiplicity(es, e);
    }
    forall a, b | a in m && b in m && a != b ensures key(a) != key(b) && Apart(band(a), band(b)) {
      assert a in es && b in es;
      var i :| 0 <= i < |es| && es[i] == a;
      var j :| 0 <= j < |es| && es[j] == b;
      assert i < j || j < i;
    }
  }

  lemma {:induction false} CompatiblePair<T(!new), K>(es: seq<T>, key: T -> K, band: T -> Band, sound: T -> bool, i: nat, j: nat)
    requires SoundIsProper(band, sound) && Compatible(multiset(es), key, band, sound)
    requires i < j < |es| && band(es[i]).lo <= band(es[j]).lo
    ensures key(es[i]) != key(es[j]) && band(es[i]).EndsBefore(band(es[j]))
  {
    var a, b := es[i], es[j];
    assert a in multiset(es) && b in multiset(es);
    if a == b { Sorting.RepeatedElement(es, i, j); }
    assert Apart(band(a), band(b)) && band(b).Proper();
  }

  lemma {:induction false} CompatibleIsInOrder<T(!new), K>(es: seq<T>, key: T -> K, band: T -> Band, sound: T -> bool)
    requires SoundIsProper(band, sound) && Sorting.Sorted(es, ByStart(band))
    requires Compatible(multiset(es), key, band, sound)
    ensures InOrder(es, key, band, sound)
  {
    forall i | 0 <= i < |es| ensures sound(es[i]) { assert es[i] in multiset(es); }
    forall i, j | 0 <= i < j < |es| ensures key(es[i]) != key(es[j]) && band(es[i]).EndsBefore(band(es[j])) {
      assert ByStart(band)(es[i], es[j]);
      CompatiblePair(es, key, band, sound, i, j);
    }
  }

  /** For a sorted list, being in order is a property of the entries alone. */
  lemma {:induction false} InOrderIffCompatible<T(!new), K>(es: seq<T>, key: T -> K, band: T -> Band, sound: T -> bool)
    requires SoundIsProper(band, sound) && Sorting.Sorted(es, ByStart(band))
    ensures InOrder(es, key, band, sound) <==> Compatible(multiset(es), key, band, sound)
  {
    if InOrder(es, key, band, sound) { InOrderIsCompatible(es, key, band, sound); }
    if Compatible(multiset(es), key, band, sound) { CompatibleIsInOrder(es, key, band, sound); }
  }

  lemma {:induction false} CompatibleNoTies<T(!new), K>(m: multiset<T>, key: T -> K, band: T -> Band, sound: T -> bool)
    requires SoundIsProper(band, sound) && Compatible(m, key, band, sound)
    ensures Sorting.NoTies(m, ByStart(band))
  {
    forall a, b | a in m && b in m && ByStart(band)(a, b) && ByStart(band)(b, a) ensures a == b {
      assert band(a).Proper() && band(b).Proper();
    }
  }

  lemma {:induction false} InOrderIsSorted<T(!new), K>(es: seq<T>, key: T -> K, band: T -> Band, sound: T -> bool)
    requires SoundIsProper(band, sound) && InOrder(es, key, band, sound)
    ensures Sorting.Sorted(es, ByStart(band))
  {
    forall i, j | 0 <= i < j < |es| ensures ByStart(band)(es[i], es[j]) { assert band(es[i]).Proper(); }
  }

  /** The lowest start of a sorted list is where its first entry starts. */
  lemma {:induction false} StartsAtZero<T(!new)>(es: seq<T>, band: T -> Band)
    requires es != [] && Sorting.Sorted(es, ByStart(band)) && forall i | 0 <= i < |es| :: band(es[i]).Proper()
    ensures band(es[0]).lo == 0 <==> exists e :: e in multiset(es) && band(e).lo == 0
  {
    assert es[0] in multiset(es);
    if e :| e in multiset(es) && band(e).lo == 0 {
      assert e in es;
      var k :| 0 <= k < |es| && es[k] == e;
      if k > 0 { assert ByStart(band)(es[0], es[k]); }
    }
  }
}
