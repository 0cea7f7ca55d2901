/**
 * The per-address limit on new accounts: a trimmed list of timestamps that stands in for the whole
 * history. The clock is read to the nanosecond, and the list keeps whole seconds.
 */
module RegistrationLimiter {
  import opened Core

  const WINDOW: int := 3600
  const MAX_PER_WINDOW: int := 5

  type Address = string

  /** A reading of the clock in whole seconds, rounded down. */
  type Stamp = int

  type Timestamps = map<Address, seq<Stamp>>

  function StampOf(t: Time): Stamp { t / SECOND }

  function Recent(now: Stamp): Stamp -> bool { t => now - t < WINDOW }

  function Listed(store: Timestamps, ip: Address): seq<Stamp> {
    if ip in store then store[ip] else []
  }

  /**
   * One request that would create an account: it is checked at `checkedAt`, and
   * if it passes and the account is created, recorded at `recordedAt`.
   */
  datatype Attempt = Attempt(ip: Address, checkedAt: Time, created: bool, recordedAt: Time)

  /** `is_registration_rate_limited` on a list that has just been trimmed. */
  predicate Refused(trimmed: seq<Stamp>) { |trimmed| >= MAX_PER_WINDOW }

  /** The store after a request, and whether the request was refused. */
  function Step(store: Timestamps, a: Attempt): (Timestamps, bool) {
    var trimmed := Filter(Listed(store, a.ip), Recent(StampOf(a.checkedAt)));
    if Refused(trimmed) then (store[a.ip := trimmed], true)
    else if a.created then (store[a.ip := trimmed + [StampOf(a.recordedAt)]], false)
    else (store[a.ip := trimmed], false)
  }

  function After(run: seq<Attempt>): Timestamps {
    if run == [] then map[] else Step(After(run[..|run| - 1]), run[|run| - 1]).0
  }

  predicate Records(run: seq<Attempt>, ip: Address, a: Attempt) {
    a.ip == ip && a.created && !Step(After(run), a).1
  }

  /** When every account ever recorded for `ip` was recorded, oldest first. */
  function History(run: seq<Attempt>, ip: Address): seq<Time> {
    if run == [] then []
    else
      var init, a := run[..|run| - 1], run[|run| - 1];
      History(init, ip) + if Records(init, ip, a) then [a.recordedAt] else []
  }

  /** The full history as the source's clock calls would have listed it. */
  function Stamps(times: seq<Time>): (r: seq<Stamp>)
    ensures |r| == |times|
  {
    seq(|times|, i requires 0 <= i < |times| => StampOf(times[i]))
  }

  /** Requests of one address follow each other; requests of other addresses may overlap them in any way. */
  ghost predicate Serial(run: seq<Attempt>, ip: Address) {
    && (forall i | 0 <= i < |run| && run[i].ip == ip :: run[i].checkedAt <= run[i].recordedAt)
    && (forall i, j | 0 <= i < j < |run| && run[i].ip == ip && run[j].ip == ip :: run[i].recordedAt <= run[j].checkedAt)
  }

  lemma {:induction false} SerialPrefix(run: seq<Attempt>, ip: Address)
    requires Serial(run, ip) && run != []
    ensures Serial(run[..|run| - 1], ip)
    ensures var a := run[|run| - 1];
            a.ip == ip ==> a.checkedAt <= a.recordedAt && EndsBy(run[..|run| - 1], ip, a.checkedAt)
  {
    var init := run[..|run| - 1];
    assert forall i | 0 <= i < |init| :: init[i] == run[i];
  }

  lemma {:induction false} FilterCountMonotone(s: seq<Stamp>, p: Stamp -> bool, q: Stamp -> bool)
    requires forall i | 0 <= i < |s| :: p(s[i]) ==> q(s[i])
    ensures |Filter(s, p)| <= |Filter(s, q)|
  {
    if s != [] { FilterCountMonotone(s[1..], p, q); }
  }

  lemma {:induction false} StampsAppend(times: seq<Time>, t: Time)
    ensures Stamps(times + [t]) == Stamps(times) + [StampOf(t)]
  {}

  /** The list holds exactly the part of the history that was recent at some moment not after `now`. */
  ghost predicate Stands(listed: seq<Stamp>, history: seq<Stamp>, cut: Stamp, now: Stamp) {
    cut <= now && listed == Filter(history, Recent(cut))
  }

  /** Every request of the address is over by `now`. */
  ghost predicate EndsBy(run: seq<Attempt>, ip: Address, now: Time) {
    forall i | 0 <= i < |run| && run[i].ip == ip :: run[i].recordedAt <= now
  }

  /** At any later moment the trimmed list and the full history keep the same recent timestamps. */
  lemma {:induction false} TrimmedListStandsForHistory(run: seq<Attempt>, ip: Address, now: Time)
    requires Serial(run, ip) && EndsBy(run, ip, now)
    ensures Filter(Listed(After(run), ip), Recent(StampOf(now))) == Filter(Stamps(History(run, ip)), Recent(StampOf(now)))
    decreases |run|, 1
  {
    var cut := StoredCut(run, ip, now);
    FilterTwice(Stamps(History(run, ip)), Recent(cut), Recent(StampOf(now)));
  }

  lemma {:induction false} StoredCut(run: seq<Attempt>, ip: Address, now: Time) returns (cut: Stamp)
    requires Serial(run, ip) && EndsBy(run, ip, now)
    ensures Stands(Listed(After(run), ip), Stamps(History(run, ip)), cut, StampOf(now))
    decreases |run|, 0
  {
    if run == [] {
      cut := StampOf(now);
    } else {
      var init, a := run[..|run| - 1], run[|run| - 1];
      SerialPrefix(run, ip);
      assert EndsBy(init, ip, now) by { assert forall i | 0 <= i < |init| :: init[i] == run[i]; }
      var h := History(init, ip);
      assert h + [] == h;
      if a.ip == ip {
        cut := StampOf(a.checkedAt);
        TrimmedListStandsForHistory(init, ip, a.checkedAt);
        StampsAppend(h, a.recordedAt);
        FilterAppend(Stamps(h), [StampOf(a.recordedAt)], Recent(cut));
        assert Filter([StampOf(a.recordedAt)], Recent(cut)) == [StampOf(a.recordedAt)];
      } else {
        cut := StoredCut(init, ip, now);
      }
    }
  }

  /** So a request is refused exactly when the full history shows five accounts in the last hour. */
  lemma {:induction false} RefusalMatchesHistory(run: seq<Attempt>, a: Attempt)
    requires Serial(run + [a], a.ip)
    ensures Step(After(run), a).1 <==> |Filter(Stamps(History(run, a.ip)), Recent(StampOf(a.checkedAt)))| >= MAX_PER_WINDOW
  {
    var all := run + [a];
    assert all[..|run|] == run;
    SerialPrefix(all, a.ip);
    TrimmedListStandsForHistory(run, a.ip, a.checkedAt);
  }

  // ---------------------------------------------------------------------
  // Five accounts an hour
  // ---------------------------------------------------------------------

  /** Membership in the 3600 consecutive clock seconds that begin with `start`. */
  function Within(start: Stamp): Stamp -> bool { t => start <= t < start + WINDOW }

  /** In any 3600 consecutive seconds of the clock at most five accounts are recorded for one address. */
  lemma {:induction false} AtMostFivePerHour(run: seq<Attempt>, ip: Address, start: Stamp)
    requires Serial(run, ip)
    ensures |Filter(Stamps(History(run, ip)), Within(start))| <= MAX_PER_WINDOW
  {
    if run != [] {
      var init, a := run[..|run| - 1], run[|run| - 1];
      SerialPrefix(run, ip);
      AtMostFivePerHour(init, ip, start);
      var h := History(init, ip);
      if Records(init, ip, a) {
        StampsAppend(h, a.recordedAt);
        FilterAppend(Stamps(h), [StampOf(a.recordedAt)], Within(start));
        if Within(start)(StampOf(a.recordedAt)) {
          assert init + [a] == run;
          RefusalMatchesHistory(init, a);
          FilterCountMonotone(Stamps(h), Within(start), Recent(StampOf(a.checkedAt)));
        } else {
          assert Filter([StampOf(a.recordedAt)], Within(start)) == [];
        }
      } else {
        assert h + [] == h;
      }
    }
  }

  /** Membership in a stretch of time of the given length. */
  function Between(start: Time, length: int): Time -> bool { t => start <= t < start + length }

  /** The longest stretch of time that always fits into 3600 clock seconds. */
  const SAFE_LENGTH: int := 3599 * SECOND + 1

  lemma {:induction false} StampWithin(t: Time, start: Time)
    requires Between(start, SAFE_LENGTH)(t)
    ensures Within(StampOf(start))(StampOf(t))
  {}

  lemma {:induction false} FewerBetween(times: seq<Time>, start: Time, length: int)
    requires length <= SAFE_LENGTH
    ensures |Filter(times, Between(start, length))| <= |Filter(Stamps(times), Within(StampOf(start)))|
  {
    if times != [] {
      FewerBetween(times[1..], start, length);
      assert Stamps(times)[1..] == Stamps(times[1..]);
      if Between(start, length)(times[0]) { StampWithin(times[0], start); }
    }
  }

  /** So in any stretch of up to 3599 seconds at most five accounts are recorded, however the clock is read. */
  lemma {:induction false} AtMostFiveBetween(run: seq<Attempt>, ip: Address, start: Time, length: int)
    requires Serial(run, ip) && length <= SAFE_LENGTH
    ensures |Filter(History(run, ip), Between(start, length))| <= MAX_PER_WINDOW
  {
    FewerBetween(History(run, ip), start, length);
    AtMostFivePerHour(run, ip, StampOf(start));
  }

  // --- and no longer stretch ----------------------------------------------

  function Account(ip: Address, at: Time): Attempt { Attempt(ip, at, true, at) }

  /** Five accounts in the last nanosecond of one clock second, and a sixth 3600 clock seconds later. */
  function Six(ip: Address): seq<Attempt> {
    seq(5, _ => Account(ip, SECOND - 1)) + [Account(ip, 3600 * SECOND)]
  }

  lemma {:induction false} FilterAll<T>(s: seq<T>, keep: T -> bool)
    requires forall i | 0 <= i < |s| :: keep(s[i])
    ensures Filter(s, keep) == s
  {
    if s != [] { FilterAll(s[1..], keep); }
  }

  lemma {:induction false} FilterNone<T>(s: seq<T>, keep: T -> bool)
    requires forall i | 0 <= i < |s| :: !keep(s[i])
    ensures Filter(s, keep) == []
  {
    if s != [] { FilterNone(s[1..], keep); }
  }

  lemma {:induction false} AllAtOnce(ip: Address, n: nat)
    requires n <= 5
    ensures var run := seq(n, _ => Account(ip, SECOND - 1));
            Listed(After(run), ip) == seq(n, _ => 0) && History(run, ip) == seq(n, _ => SECOND - 1)
  {
    if n > 0 {
      var run, init := seq(n, _ => Account(ip, SECOND - 1)), seq(n - 1, _ => Account(ip, SECOND - 1));
      AllAtOnce(ip, n - 1);
      assert run[..n - 1] == init && run[n - 1] == Account(ip, SECOND - 1);
      FilterAll(Listed(After(init), ip), Recent(0));
      assert StampOf(SECOND - 1) == 0;
    }
  }

  lemma {:induction false} SixRecorded(ip: Address)
    ensures Serial(Six(ip), ip)
    ensures History(Six(ip), ip) == seq(5, _ => SECOND - 1) + [3600 * SECOND]
  {
    var init, last := seq(5, _ => Account(ip, SECOND - 1)), Account(ip, 3600 * SECOND);
    AllAtOnce(ip, 5);
    assert Six(ip)[..5] == init && Six(ip)[5] == last;
    FilterNone(Listed(After(init), ip), Recent(3600));
    assert StampOf(3600 * SECOND) == 3600;
  }

  /** The limit of five holds for every stretch of a given length, in every run, exactly up to 3599 seconds. */
  lemma {:induction false} FiveBetweenIff(length: int)
    ensures length <= SAFE_LENGTH <==>
            forall run: seq<Attempt>, ip: Address, start: Time | Serial(run, ip) ::
              |Filter(History(run, ip), Between(start, length))| <= MAX_PER_WINDOW
  {
    if length <= SAFE_LENGTH {
      forall run: seq<Attempt>, ip: Address, start: Time | Serial(run, ip)
        ensures |Filter(History(run, ip), Between(start, length))| <= MAX_PER_WINDOW {
        AtMostFiveBetween(run, ip, start, length);
      }
    } else {
      var ip := "";
      SixRecorded(ip);
      FilterAll(History(Six(ip), ip), Between(SECOND - 1, length));
      assert |Filter(History(Six(ip), ip), Between(SECOND - 1, length))| == 6;
    }
  }

  // ---------------------------------------------------------------------
  // The limiter, updated in place
  // ---------------------------------------------------------------------

  class Limiter {
    var store: Timestamps

    constructor ()
      ensures store == map[]
    {
      store := map[];
    }

    /** `is_registration_rate_limited`, with its `retain` loop. */
    method IsLimited(ip: Address, now: Time) returns (limited: bool)
      modifies this
      ensures store == old(store)[ip := Filter(Listed(old(store), ip), Recent(StampOf(now)))]
      ensures limited == Refused(store[ip])
    {
      var listed, stamp := Listed(store, ip), StampOf(now);
      var kept := [];
      var i := 0;
      while i < |listed|
        invariant 0 <= i <= |listed| && store == old(store)
        invariant kept == Filter(listed[..i], Recent(StampOf(now)))
      {
        FilterAppend(listed[..i], [listed[i]], Recent(StampOf(now)));
        assert Filter([listed[i]], Recent(StampOf(now))) == (if stamp - listed[i] < WINDOW then [listed[i]] else []);
        assert listed[..i + 1] == listed[..i] + [listed[i]];
        if stamp - listed[i] < WINDOW { kept := kept + [listed[i]]; }
        i := i + 1;
      }
      assert listed[..|listed|] == listed;
      store := store[ip := kept];
      limited := |kept| >= MAX_PER_WINDOW;
    }

    /** `record_registration`. */
    method Record(ip: Address, now: Time)
      modifies this
      ensures store == old(store)[ip := Listed(old(store), ip) + [StampOf(now)]]
    {
      store := store[ip := Listed(store, ip) + [StampOf(now)]];
    }

    /** The part of `register` and `device_login` that concerns the limiter. */
    method Register(a: Attempt) returns (refused: bool)
      modifies this
      ensures (store, refused) == Step(old(store), a)
    {
      refused := IsLimited(a.ip, a.checkedAt);
      if !refused && a.created {
        Record(a.ip, a.recordedAt);
        assert store == old(store)[a.ip := Listed(store, a.ip)];
      }
    }
  }
}
