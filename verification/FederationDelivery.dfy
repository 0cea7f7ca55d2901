/** Outbound federation deliveries: retry with backoff, and dead-lettering. */
module FederationDelivery {
  import opened Core
  import Sorting

  type DeliveryId = nat

  datatype Status = Pending | Delivered | Failed | DeadLetter

  /** A row of `federation_deliveries`. */
  datatype Delivery = Delivery(
    id: DeliveryId,
    activity: string,
    sender: string,
    destination: string,
    status: Status,
    attempts: int,
    nextAttemptAt: Option<Time>,
    deliveredAt: Option<Time>,
    lastError: Option<string>,
    createdAt: Time)

  type Table = seq<Delivery>

  // ---------------------------------------------------------------------
  // One row
  // ---------------------------------------------------------------------

  function Pow2(n: nat): nat { if n == 0 then 1 else 2 * Pow2(n - 1) }

  /** The wait in seconds after the `attempt`-th attempt failed: exponential with a jitter fixed per delivery. */
  function Backoff(id: DeliveryId, attempt: nat): nat { Pow2(Min(attempt, 10)) + id % 17 }

  function Reopened(d: Delivery): Delivery { d.(status := Pending, lastError := None, nextAttemptAt := None) }

  function Succeeded(d: Delivery, now: Time): Delivery {
    d.(status := Delivered, attempts := d.attempts + 1, deliveredAt := Some(now), nextAttemptAt := None, lastError := None)
  }

  /** `mark_delivery_failure`. */
  function AfterFailure(d: Delivery, error: string, maxAttempts: int, now: Time): Delivery
    requires d.attempts >= 0
  {
    var attempt := d.attempts + 1;
    var failed := d.(attempts := attempt, lastError := Some(error));
    if attempt >= maxAttempts then failed.(status := DeadLetter, nextAttemptAt := None)
    else failed.(status := Failed, nextAttemptAt := Some(now + Backoff(d.id, attempt) * SECOND))
  }

  /** What the retry sweep records; `keys` gives the key id of each sender that has a key. */
  function RetryError(d: Delivery, keys: map<string, string>): string {
    if d.sender in keys then "retry payload unavailable for " + keys[d.sender] else "missing local actor key"
  }

  predicate Due(d: Delivery, now: Time) {
    d.status == Failed && d.nextAttemptAt.Some? && d.nextAttemptAt.value <= now
  }

  /** `permanent_failure_reason`: client errors other than 429 are final. */
  predicate PermanentFailure(status: int) { 400 <= status < 500 && status != 429 }

  /** The attempt limit a remote answer leads to; `None` is a transport error. */
  function LimitAfter(answer: Option<int>, configured: int): int {
    if answer.Some? && PermanentFailure(answer.value) then 1 else configured
  }

  /** A failed delivery is given up at once after a permanent answer, otherwise when its attempts are used up. */
  lemma {:induction false} GivenUpIff(d: Delivery, answer: Option<int>, error: string, configured: int, now: Time)
    requires d.attempts >= 0
    ensures AfterFailure(d, error, LimitAfter(answer, configured), now).status == DeadLetter
       <==> (answer.Some? && 400 <= answer.value < 500 && answer.value != 429) || d.attempts + 1 >= configured
  {}

  lemma {:induction false} Pow2Monotone(a: nat, b: nat)
    requires a <= b
    ensures 1 <= Pow2(a) <= Pow2(b)
    decreases b
  {
    if a < b { Pow2Monotone(a, b - 1); } else if 0 < a { Pow2Monotone(a - 1, b - 1); }
  }

  /** A wait is between 2 and 1040 seconds and never shrinks from one attempt to a later one. */
  lemma {:induction false} BackoffBounds(id: DeliveryId, attempt: nat, later: nat)
    requires 1 <= attempt <= later
    ensures 2 <= Backoff(id, attempt) <= Backoff(id, later) <= 1040
  {
    Pow2Monotone(1, Min(attempt, 10));
    Pow2Monotone(Min(attempt, 10), Min(later, 10));
    Pow2Monotone(Min(later, 10), 10);
    TenDoublings();
  }

  lemma {:induction false} TenDoublings()
    ensures Pow2(10) == 1024
  {
    assert Pow2(5) == 32;
  }

  // ---------------------------------------------------------------------
  // The table
  // ---------------------------------------------------------------------

  datatype Event =
    | Upsert(id: DeliveryId, activity: string, sender: string, destination: string, now: Time)
    | Success(id: DeliveryId, now: Time)
    | Failure(id: DeliveryId, error: string, maxAttempts: int, now: Time)
    | Sweep(keys: map<string, string>, maxAttempts: int, now: Time)

  predicate SameTarget(d: Delivery, activity: string, destination: string) {
    d.activity == activity && d.destination == destination
  }

  type Rows = t: Table | forall i | 0 <= i < |t| :: t[i].attempts >= 0

  /** What an event does to one row that is already in the table. */
  function RowAfter(d: Delivery, e: Event): (r: Delivery)
    requires d.attempts >= 0
    ensures r.attempts >= d.attempts && r.id == d.id
  {
    match e
    case Upsert(_, activity, _, destination, _) => if SameTarget(d, activity, destination) then Reopened(d) else d
    case Success(id, now) => if d.id == id then Succeeded(d, now) else d
    case Failure(id, error, maxAttempts, now) => if d.id == id then AfterFailure(d, error, maxAttempts, now) else d
    case Sweep(keys, maxAttempts, now) => if Due(d, now) then AfterFailure(d, RetryError(d, keys), maxAttempts, now) else d
  }

  /** `upsert_delivery_pending` inserts only when the activity has no delivery to that destination yet. */
  predicate Inserts(t: Rows, e: Event) {
    e.Upsert? && forall i | 0 <= i < |t| :: !SameTarget(t[i], e.activity, e.destination)
  }

  function Step(t: Rows, e: Event): Rows {
    var updated := seq(|t|, i requires 0 <= i < |t| => RowAfter(t[i], e));
    if Inserts(t, e) then updated + [Delivery(e.id, e.activity, e.sender, e.destination, Pending, 0, None, None, None, e.now)]
    else updated
  }

  function After(run: seq<Event>): Rows {
    if run == [] then [] else Step(After(run[..|run| - 1]), run[|run| - 1])
  }

  function IdOf(): Delivery -> DeliveryId { (d: Delivery) => d.id }

  ghost predicate UniqueIds(t: Table) { Sorting.DistinctBy(t, IdOf()) }

  /** New rows get an identifier no row has. */
  ghost predicate Legal(run: seq<Event>) {
    forall i | 0 <= i < |run| && run[i].Upsert? ::
      forall k | 0 <= k < |After(run[..i])| :: After(run[..i])[k].id != run[i].id
  }

  lemma {:induction false} LegalPrefix(run: seq<Event>)
    requires Legal(run) && run != []
    ensures Legal(run[..|run| - 1])
  {
    var init := run[..|run| - 1];
    assert forall i | 0 <= i < |init| :: init[..i] == run[..i];
  }

  ghost predicate UniqueTargets(t: Table) {
    forall i, j | 0 <= i < j < |t| :: !SameTarget(t[j], t[i].activity, t[i].destination)
  }

  /** No two rows share an identifier, and an activity has at most one delivery per destination. */
  lemma {:induction false} RowsStayUnique(run: seq<Event>)
    requires Legal(run)
    ensures UniqueIds(After(run)) && UniqueTargets(After(run))
  {
    if run != [] {
      LegalPrefix(run);
      RowsStayUnique(run[..|run| - 1]);
      StepKeepsUnique(After(run[..|run| - 1]), run[|run| - 1]);
    }
  }

  lemma {:induction false} StepKeepsUnique(t: Rows, e: Event)
    requires UniqueIds(t) && UniqueTargets(t)
    requires e.Upsert? ==> forall k | 0 <= k < |t| :: t[k].id != e.id
    ensures UniqueIds(Step(t, e)) && UniqueTargets(Step(t, e))
  {
    var t' := Step(t, e);
    assert forall i | 0 <= i < |t| ::
        t'[i].id == t[i].id && t'[i].activity == t[i].activity && t'[i].destination == t[i].destination;
  }

  // ---------------------------------------------------------------------
  // What each event leaves
  // ---------------------------------------------------------------------

  /** A success leaves the row delivered at that time, with one more attempt, no error and nothing scheduled; others stay. */
  lemma {:induction false} SuccessDelivers(t: Rows, id: DeliveryId, now: Time, k: nat)
    requires k < |t|
    ensures |Step(t, Success(id, now))| == |t|
    ensures var (d, d') := (t[k], Step(t, Success(id, now))[k]);
            d' == if d.id == id
                  then Delivery(id, d.activity, d.sender, d.destination, Delivered, d.attempts + 1, None, Some(now), None, d.createdAt)
                  else d
  {}

  /** A failure leaves its error, one more attempt and a retry or a dead letter; other rows stay. */
  lemma {:induction false} FailureRecorded(t: Rows, id: DeliveryId, error: string, maxAttempts: int, now: Time, k: nat)
    requires k < |t|
    ensures |Step(t, Failure(id, error, maxAttempts, now))| == |t|
    ensures var (d, d') := (t[k], Step(t, Failure(id, error, maxAttempts, now))[k]);
            if d.id != id then d' == d
            else
              && d'.attempts == d.attempts + 1 && d'.lastError == Some(error) && d'.deliveredAt == d.deliveredAt
              && d'.(attempts := 0, lastError := None, status := Pending, nextAttemptAt := None) ==
                 d.(attempts := 0, lastError := None, status := Pending, nextAttemptAt := None)
              && (d'.status == DeadLetter <==> d'.attempts >= maxAttempts) && (d'.status == Failed <==> d'.attempts < maxAttempts)
              && (d'.attempts < maxAttempts ==> d'.nextAttemptAt == Some(now + Backoff(id, d'.attempts) * SECOND))
  {}

  /** Queueing a delivery leaves one pending row for it: the old one with its attempts, or a new one with none. */
  lemma {:induction false} UpsertQueues(t: Rows, id: DeliveryId, activity: string, sender: string, destination: string, now: Time)
    requires UniqueTargets(t)
    ensures var t' := Step(t, Upsert(id, activity, sender, destination, now));
            && (forall k | 0 <= k < |t| :: k < |t'| &&
                  t'[k] == if t[k].activity == activity && t[k].destination == destination
                           then t[k].(status := Pending, nextAttemptAt := None, lastError := None) else t[k])
            && (if exists k :: 0 <= k < |t| && SameTarget(t[k], activity, destination) then |t'| == |t|
                else t'[|t|..] == [Delivery(id, activity, sender, destination, Pending, 0, None, None, None, now)])
  {}

  /** The sweep fails exactly the failed rows whose time has come, with the error that fits their sender. */
  lemma {:induction false} SweepFailsDue(t: Rows, keys: map<string, string>, maxAttempts: int, now: Time, k: nat)
    requires k < |t|
    ensures var (d, d') := (t[k], Step(t, Sweep(keys, maxAttempts, now))[k]);
            if d.status == Failed && d.nextAttemptAt.Some? && d.nextAttemptAt.value <= now then
              && d'.attempts == d.attempts + 1
              && d'.lastError == Some(if d.sender in keys then "retry payload unavailable for " + keys[d.sender] else "missing local actor key")
            else d' == d
  {}

  /** The wait in numbers: two to the attempt, at most 1024, plus the id's remainder modulo 17. */
  lemma {:induction false} BackoffNumbers(id: DeliveryId)
    ensures Backoff(id, 1) == 2 + id % 17 && Backoff(id, 2) == 4 + id % 17 && Backoff(id, 3) == 8 + id % 17
    ensures forall n | n >= 10 :: Backoff(id, n) == 1024 + id % 17
    ensures forall n | 1 <= n < 10 :: Backoff(id, n + 1) - id % 17 == 2 * (Backoff(id, n) - id % 17)
  {
    TenDoublings();
    assert Pow2(1) == 2 && Pow2(2) == 4 && Pow2(3) == 8;
    forall n | 1 <= n < 10 ensures Backoff(id, n + 1) - id % 17 == 2 * (Backoff(id, n) - id % 17) { assert Pow2(n + 1) == 2 * Pow2(n); }
  }

  // ---------------------------------------------------------------------
  // Next attempt exactly when failed
  // ---------------------------------------------------------------------

  ghost predicate Scheduled(d: Delivery) { d.status == Failed <==> d.nextAttemptAt.Some? }

  /** In every run a delivery has a next-attempt time exactly when it is failed. */
  lemma {:induction false} ScheduledExactlyWhenFailed(run: seq<Event>, k: nat)
    requires k < |After(run)|
    ensures Scheduled(After(run)[k])
  {
    var init, e := run[..|run| - 1], run[|run| - 1];
    if k < |After(init)| { ScheduledExactlyWhenFailed(init, k); }
  }

  // ---------------------------------------------------------------------
  // Waits never shrink
  // ---------------------------------------------------------------------

  /** Rows keep their place and identity, and attempts only grow. */
  lemma {:induction false} RowsStay(run: seq<Event>, i: nat, k: nat)
    requires i <= |run| && k < |After(run[..i])|
    ensures k < |After(run)| && After(run)[k].id == After(run[..i])[k].id
    ensures After(run)[k].attempts >= After(run[..i])[k].attempts
  {
    if i == |run| {
      assert run[..i] == run;
    } else {
      var init := run[..|run| - 1];
      assert init[..i] == run[..i];
      RowsStay(init, i, k);
    }
  }

  /** The `i`-th event failed row `k` and scheduled a retry; the result is the wait. */
  function WaitAt(run: seq<Event>, i: nat, k: nat): Option<int>
    requires i < |run| && k < |After(run[..i])|
  {
    var d := RowAfter(After(run[..i])[k], run[i]);
    if (run[i].Failure? || run[i].Sweep?) && d != After(run[..i])[k] && d.nextAttemptAt.Some?
    then Some(d.nextAttemptAt.value - run[i].now) else None
  }

  /** Every scheduled wait is 2 to 1040 seconds, and later waits of the same delivery are no shorter. */
  lemma {:induction false} WaitsNeverShrink(run: seq<Event>, i: nat, j: nat, k: nat)
    requires i <= j < |run| && k < |After(run[..i])| && k < |After(run[..j])|
    requires WaitAt(run, i, k).Some? && WaitAt(run, j, k).Some?
    ensures 2 * SECOND <= WaitAt(run, i, k).value <= WaitAt(run, j, k).value <= 1040 * SECOND
  {
    var early, late := After(run[..i])[k], After(run[..j])[k];
    assert run[..j][..i] == run[..i];
    RowsStay(run[..j], i, k);
    WaitIsBackoff(run, i, k);
    WaitIsBackoff(run, j, k);
    BackoffBounds(early.id, early.attempts + 1, late.attempts + 1);
  }

  lemma {:induction false} WaitIsBackoff(run: seq<Event>, i: nat, k: nat)
    requires i < |run| && k < |After(run[..i])| && WaitAt(run, i, k).Some?
    ensures var d := After(run[..i])[k]; WaitAt(run, i, k).value == Backoff(d.id, d.attempts + 1) * SECOND
  {}

  // ---------------------------------------------------------------------
  // Dead-lettering
  // ---------------------------------------------------------------------

  /** The `i`-th event counted as a failed attempt of row `k`. */
  predicate FailsAt(run: seq<Event>, i: nat, k: nat)
    requires i < |run|
  {
    && k < |After(run[..i])|
    && match run[i]
       case Failure(id, _, _, _) => After(run[..i])[k].id == id
       case Sweep(_, _, now) => Due(After(run[..i])[k], now)
       case _ => false
  }

  function FailureCount(run: seq<Event>, k: nat): nat {
    if run == [] then 0
    else FailureCount(run[..|run| - 1], k) + if FailsAt(run, |run| - 1, k) then 1 else 0
  }

  /** Every failure of row `k` is judged against the same maximum, and the row never succeeds. */
  ghost predicate NeverDelivered(run: seq<Event>, k: nat, maxAttempts: int) {
    && (forall i | 0 <= i < |run| && FailsAt(run, i, k) :: run[i].maxAttempts == maxAttempts)
    && (forall i | 0 <= i < |run| && run[i].Success? && k < |After(run[..i])| :: After(run[..i])[k].id != run[i].id)
  }

  lemma {:induction false} NeverDeliveredPrefix(run: seq<Event>, k: nat, maxAttempts: int)
    requires NeverDelivered(run, k, maxAttempts) && run != []
    ensures NeverDelivered(run[..|run| - 1], k, maxAttempts)
  {
    var init := run[..|run| - 1];
    assert forall i | 0 <= i < |init| :: init[..i] == run[..i];
  }

  /** With a fixed maximum, attempts count failures, and the row can be retried only before the last allowed one. */
  lemma {:induction false} FailedOnlyBelowMaximum(run: seq<Event>, k: nat, maxAttempts: int)
    requires k < |After(run)| && NeverDelivered(run, k, maxAttempts)
    ensures After(run)[k].attempts == FailureCount(run, k)
    ensures After(run)[k].status == Failed ==> 1 <= FailureCount(run, k) < Max(1, maxAttempts)
    ensures After(run)[k].status == DeadLetter ==> FailureCount(run, k) >= Max(1, maxAttempts)
    ensures After(run)[k].status != Delivered
  {
    var init, e := run[..|run| - 1], run[|run| - 1];
    NeverDeliveredPrefix(run, k, maxAttempts);
    if k < |After(init)| {
      FailedOnlyBelowMaximum(init, k, maxAttempts);
    } else {
      NoFailuresYet(init, k);
    }
  }

  lemma {:induction false} NoFailuresYet(run: seq<Event>, k: nat)
    requires k >= |After(run)|
    ensures FailureCount(run, k) == 0
  {
    if run != [] {
      var init := run[..|run| - 1];
      assert |After(init)| <= |After(run)|;
      NoFailuresYet(init, k);
    }
  }

  /** A failure dead-letters the row exactly when it is the `max(1, m)`-th or a later one. */
  lemma {:induction false} DeadLetterExactly(run: seq<Event>, k: nat, maxAttempts: int)
    requires run != [] && k < |After(run[..|run| - 1])| && NeverDelivered(run, k, maxAttempts)
    requires FailsAt(run, |run| - 1, k)
    ensures k < |After(run)|
    ensures After(run)[k].status == DeadLetter <==> FailureCount(run, k) >= Max(1, maxAttempts)
    ensures After(run)[k].status == Failed <==> FailureCount(run, k) < Max(1, maxAttempts)
  {
    var init, e := run[..|run| - 1], run[|run| - 1];
    NeverDeliveredPrefix(run, k, maxAttempts);
    FailedOnlyBelowMaximum(init, k, maxAttempts);
    FailedOnlyBelowMaximum(run, k, maxAttempts);
  }

  lemma {:induction false} FailureCountGrows(run: seq<Event>, i: nat, k: nat)
    requires i <= |run|
    ensures FailureCount(run[..i], k) <= FailureCount(run, k)
  {
    if i == |run| {
      assert run[..i] == run;
    } else {
      var init := run[..|run| - 1];
      assert init[..i] == run[..i];
      FailureCountGrows(init, i, k);
    }
  }

  /** Once `max(1, m)` attempts failed, no later retry sweep picks the row, even if it was queued again. */
  lemma {:induction false} DeadLetterNeverSwept(run: seq<Event>, i: nat, k: nat, maxAttempts: int, now: Time)
    requires i <= |run| && k < |After(run)| && NeverDelivered(run, k, maxAttempts)
    requires FailureCount(run[..i], k) >= Max(1, maxAttempts)
    ensures !Due(After(run)[k], now)
  {
    FailureCountGrows(run, i, k);
    FailedOnlyBelowMaximum(run, k, maxAttempts);
  }

  // ---------------------------------------------------------------------
  // The service, updating the table in place
  // ---------------------------------------------------------------------

  class DeliveryService {
    var rows: Rows

    constructor ()
      ensures rows == []
    {
      rows := [];
    }

    method IndexOf(id: DeliveryId) returns (i: int)
      ensures -1 <= i < |rows|
      ensures i >= 0 ==> rows[i].id == id
      ensures i < 0 ==> forall k | 0 <= k < |rows| :: rows[k].id != id
    {
      for j := 0 to |rows|
        invariant forall k | 0 <= k < j :: rows[k].id != id
      {
        if rows[j].id == id { return j; }
      }
      i := -1;
    }

    /** `upsert_delivery_pending`. */
    method UpsertPending(id: DeliveryId, activity: string, sender: string, destination: string, now: Time)
      requires UniqueTargets(rows)
      modifies this
      ensures rows == Step(old(rows), Upsert(id, activity, sender, destination, now))
    {
      for i := 0 to |rows|
        invariant rows == old(rows)
        invariant forall k | 0 <= k < i :: !SameTarget(rows[k], activity, destination)
      {
        if SameTarget(rows[i], activity, destination) {
          rows := rows[i := rows[i].(status := Pending, lastError := None, nextAttemptAt := None)];
          return;
        }
      }
      rows := rows + [Delivery(id, activity, sender, destination, Pending, 0, None, None, None, now)];
    }

    /** `mark_delivery_failure`. */
    method MarkFailure(id: DeliveryId, error: string, maxAttempts: int, now: Time) returns (found: bool)
      requires UniqueIds(rows)
      modifies this
      ensures rows == Step(old(rows), Failure(id, error, maxAttempts, now))
      ensures found <==> exists k :: 0 <= k < |old(rows)| && old(rows)[k].id == id
    {
      var i := IndexOf(id);
      found := i >= 0;
      if found {
        var d := rows[i];
        var attempt := d.attempts + 1;
        var dead := attempt >= maxAttempts;
        rows := rows[i := d.(
          status := if dead then DeadLetter else Failed,
          attempts := attempt,
          lastError := Some(error),
          nextAttemptAt := if dead then None else Some(now + Backoff(id, attempt) * SECOND))];
      }
    }

    /** `mark_delivery_success`. */
    method MarkSuccess(id: DeliveryId, now: Time)
      requires UniqueIds(rows)
      modifies this
      ensures rows == Step(old(rows), Success(id, now))
    {
      var i := IndexOf(id);
      if i >= 0 { rows := rows[i := Succeeded(rows[i], now)]; }
    }

    /**
     * `retry_due_deliveries`: the due rows are loaded first, oldest first, then each is failed in
     * turn; those whose sender still has a key are counted as retried.
     */
    method RetryDue(keys: map<string, string>, maxAttempts: int, now: Time) returns (retried: nat)
      requires UniqueIds(rows)
      modifies this
      ensures rows == Step(old(rows), Sweep(keys, maxAttempts, now))
      ensures retried == |Filter(DueInOrder(old(rows), now), HasKey(keys))|
    {
      var due := DueInOrder(rows, now);
      retried := 0;
      for i := 0 to |due|
        invariant UniqueIds(rows)
        invariant rows == FailSome(old(rows), due[..i], keys, maxAttempts, now)
        invariant retried == |Filter(due[..i], HasKey(keys))|
      {
        var d := due[i];
        FailOneMore(old(rows), due, i, keys, maxAttempts, now);
        assert due[..i + 1] == due[..i] + [d];
        FilterAppend(due[..i], [d], HasKey(keys));
        if d.sender !in keys {
          var _ := MarkFailure(d.id, "missing local actor key", maxAttempts, now);
          continue;
        }
        var _ := MarkFailure(d.id, "retry payload unavailable for " + keys[d.sender], maxAttempts, now);
        retried := retried + 1;
      }
      assert due[..|due|] == due;
      FailAllDue(old(rows), keys, maxAttempts, now);
    }
  }

  function HasKey(keys: map<string, string>): Delivery -> bool { (d: Delivery) => d.sender in keys }

  predicate Older(a: Delivery, b: Delivery) { a.createdAt <= b.createdAt }

  function IsDue(now: Time): Delivery -> bool { d => Due(d, now) }

  /** `deliveries_due_for_retry`. */
  function DueInOrder(t: Rows, now: Time): (due: seq<Delivery>)
    ensures |due| == |Filter(t, IsDue(now))|
    ensures forall d :: d in due <==> d in t && Due(d, now)
    ensures UniqueIds(t) ==> UniqueIds(due)
  {
    DueIsExact(t, now);
    Sorting.Sort(Filter(t, IsDue(now)), Older)
  }

  /** The due rows are swept oldest first. */
  lemma {:induction false} SweptOldestFirst(t: Rows, now: Time, i: nat, j: nat)
    requires i < j < |DueInOrder(t, now)|
    ensures DueInOrder(t, now)[i].createdAt <= DueInOrder(t, now)[j].createdAt
  {
    Sorting.SortSorts(Filter(t, IsDue(now)), Older);
    assert Older(DueInOrder(t, now)[i], DueInOrder(t, now)[j]);
  }

  /** The rows counted as retried are the due rows whose sender has a key. */
  lemma {:induction false} RetriedCount(t: Rows, keys: map<string, string>, now: Time)
    ensures |Filter(DueInOrder(t, now), HasKey(keys))| == |set i: nat | i < |t| && Due(t[i], now) && t[i].sender in keys|
  {
    var (due, keyed) := (IsDue(now), HasKey(keys));
    var both := (d: Delivery) => Due(d, now) && d.sender in keys;
    Sorting.SortSorts(Filter(t, due), Older);
    Sorting.FilterPermuted(DueInOrder(t, now), Filter(t, due), keyed);
    FilterBoth(t, due, keyed, both);
    FilterCounts(t, both);
    assert Hits(t, both) == set i: nat | i < |t| && Due(t[i], now) && t[i].sender in keys;
  }

  lemma {:induction false} DueIsExact(t: Rows, now: Time)
    ensures var due := Sorting.Sort(Filter(t, IsDue(now)), Older);
            && |due| == |Filter(t, IsDue(now))|
            && (forall d :: d in due <==> d in t && Due(d, now))
            && (UniqueIds(t) ==> UniqueIds(due))
  {
    var chosen := Filter(t, IsDue(now));
    var due := Sorting.Sort(chosen, Older);
    Sorting.SortSorts(chosen, Older);
    FilterMembers(t, IsDue(now));
    forall d ensures d in due <==> d in chosen {
      assert d in multiset(due) <==> d in multiset(chosen);
    }
    if UniqueIds(t) {
      Sorting.FilterDistinct(t, IsDue(now), IdOf());
      Sorting.PermutedDistinct(chosen, due, IdOf());
    }
  }

  /** The table once the listed rows have been failed. */
  ghost function FailSome(t: Rows, done: seq<Delivery>, keys: map<string, string>, maxAttempts: int, now: Time): Rows {
    seq(|t|, i requires 0 <= i < |t| => if t[i] in done then AfterFailure(t[i], RetryError(t[i], keys), maxAttempts, now) else t[i])
  }

  lemma {:induction false} FailOneMore(t: Rows, due: seq<Delivery>, n: nat, keys: map<string, string>, maxAttempts: int, now: Time)
    requires UniqueIds(t) && UniqueIds(due) && n < |due| && (forall d | d in due :: d in t)
    ensures Step(FailSome(t, due[..n], keys, maxAttempts, now), Failure(due[n].id, RetryError(due[n], keys), maxAttempts, now))
            == FailSome(t, due[..n + 1], keys, maxAttempts, now)
    ensures UniqueIds(FailSome(t, due[..n + 1], keys, maxAttempts, now))
  {
    var d, f := due[n], Failure(due[n].id, RetryError(due[n], keys), maxAttempts, now);
    forall i | 0 <= i < |t|
      ensures RowAfter(FailSome(t, due[..n], keys, maxAttempts, now)[i], f) == FailSome(t, due[..n + 1], keys, maxAttempts, now)[i] {
      ListedBefore(t, due, n, i);
    }
    var t' := FailSome(t, due[..n + 1], keys, maxAttempts, now);
    forall i, j | 0 <= i < j < |t'| ensures IdOf()(t'[i]) != IdOf()(t'[j]) { assert IdOf()(t[i]) != IdOf()(t[j]); }
  }

  /** A row is the next one to fail exactly when it has that id; until then it is not among the failed ones. */
  lemma {:induction false} ListedBefore(t: Rows, due: seq<Delivery>, n: nat, i: nat)
    requires UniqueIds(t) && UniqueIds(due) && n < |due| && due[n] in t && i < |t|
    ensures t[i] in due[..n + 1] <==> t[i] in due[..n] || t[i].id == due[n].id
    ensures t[i].id == due[n].id ==> t[i] == due[n] && t[i] !in due[..n]
  {
    assert due[..n + 1] == due[..n] + [due[n]];
    var k :| 0 <= k < |t| && t[k] == due[n];
    assert i != k ==> IdOf()(t[i]) != IdOf()(t[k]);
    assert forall m | 0 <= m < n :: IdOf()(due[m]) != IdOf()(due[n]);
  }

  lemma {:induction false} FailAllDue(t: Rows, keys: map<string, string>, maxAttempts: int, now: Time)
    ensures FailSome(t, DueInOrder(t, now), keys, maxAttempts, now) == Step(t, Sweep(keys, maxAttempts, now))
  {}
}
