/**
 * Activity transactions of one user under interleaving. Each transaction runs
 * its statements one at a time at read-committed isolation: a read sees the
 * committed row, and the first write to the stats row locks it until commit or
 * rollback. Any number of transactions, and any outside writer that leaves the
 * active-day columns alone, may interleave.
 */
module GuildConcurrency {
  import opened Core
  import opened GuildPolicy
  import opened GuildEngine
  import opened DaySequences

  type TxId = nat

  /** The last statement a transaction has completed. */
  datatype Phase = Begun | HasRead | Synced | Marked | Advanced | Counted | Ready | Finished

  datatype Tx = Tx(
    policy: LoadedPolicy,
    now: Time,
    action: Option<Action>,
    phase: Phase,
    local: Stats,
    advance: bool,
    count: int,
    limit: Option<int>,
    accepted: bool)
  {
    function Today(): DayNumber { DayOf(now) }
  }

  /** One committed use of a quota. */
  datatype Grant = Grant(action: Action, day: DayNumber, countAfter: int, limit: Option<int>)

  /**
   * `row` is the committed row; while `present` is false it stands for the row that would be inserted.
   * `lockDays` lists the days of the transactions that took the row lock, in order, `counted` the days
   * that were counted, and `countedAt` which lock each of them belongs to.
   */
  datatype World = World(
    present: bool,
    row: Stats,
    counters: map<(Action, DayNumber), int>,
    holder: Option<TxId>,
    draft: Stats,
    lockDays: seq<DayNumber>,
    txs: map<TxId, Tx>,
    counted: seq<DayNumber>,
    countedAt: seq<nat>,
    grants: seq<Grant>)

  function Count(counters: map<(Action, DayNumber), int>, action: Action, day: DayNumber): int {
    if (action, day) in counters then counters[(action, day)] else 0
  }

  function CountedDay(row: Stats): seq<DayNumber> {
    if row.lastActiveDay.Some? then [row.lastActiveDay.value] else []
  }

  /** A quiet moment: no transaction is running; of the past only the day counted last is known. */
  ghost predicate Initial(w: World) {
    && w.holder.None? && w.txs == map[] && w.grants == []
    && w.counted == CountedDay(w.row) && w.lockDays == w.counted && w.countedAt == (if w.counted == [] then [] else [0])
    && Blank(w)
  }

  /** A row that is not there yet has counted no day. */
  ghost predicate Blank(w: World) { !w.present ==> w.row.activeDays == 0 && w.row.lastActiveDay.None? }

  // ---------------------------------------------------------------------
  // Statements
  // ---------------------------------------------------------------------

  /** The row lock is held by `id`, or free. */
  predicate CanLock(w: World, id: TxId) { w.holder == Some(id) || w.holder.None? }

  /** The newest row version `id` can write on: its own, or the committed one. */
  function Visible(w: World, id: TxId): Stats {
    if w.holder == Some(id) then w.draft else w.row
  }

  /** An `INSERT` or `UPDATE ... RETURNING` of the stats row by `id`. */
  function WriteRow(w: World, id: TxId, row: Stats, t: Tx): World
    requires id in w.txs
  {
    w.(draft := row,
       holder := Some(id),
       lockDays := if w.holder == Some(id) then w.lockDays else w.lockDays + [t.Today()],
       txs := w.txs[id := t.(local := row)])
  }

  function Put(w: World, id: TxId, t: Tx): World { w.(txs := w.txs[id := t]) }

  /** What a statement other than the commit does: wait for the lock, read only, or write the row. */
  datatype Effect = Wait | Read(tx: Tx) | Update(row: Stats, tx: Tx)

  function Perform(w: World, id: TxId, e: Effect): World
    requires id in w.txs
  {
    match e
    case Wait => w
    case Read(t) => Put(w, id, t)
    case Update(row, t) => WriteRow(w, id, row, t)
  }

  /**
   * `INSERT .. ON CONFLICT DO NOTHING` and the read that follows it: an existing row is read without a
   * lock; a missing one is inserted, which makes every other inserter wait for this transaction.
   */
  function EnsureStatement(w: World, id: TxId): Effect
    requires id in w.txs
  {
    var t := w.txs[id];
    if w.present then Read(t.(phase := HasRead, local := w.row))
    else if !CanLock(w, id) then Wait
    else Update(FreshStats(t.policy), t.(phase := HasRead))
  }

  /** The sync statement writes only when the cached level or rank is out of date. */
  function SyncStatement(w: World, id: TxId): Effect
    requires id in w.txs
  {
    var t := w.txs[id];
    var synced := Sync(t.policy, t.local);
    if synced == t.local then Read(t.(phase := Synced))
    else if !CanLock(w, id) then Wait
    else Update(Visible(w, id).(level := synced.level, rank := synced.rank), t.(phase := Synced))
  }

  /** The activity update: assessed from the row read earlier, applied to the row as it is now. */
  function MarkStatement(w: World, id: TxId): Effect
    requires id in w.txs
  {
    var t := w.txs[id];
    var a := Assess(t.local, t.Today(), t.now);
    if !CanLock(w, id) then Wait
    else Update(Assessed(Visible(w, id), a, t.now), t.(phase := Marked, advance := a.advance))
  }

  function AdvanceStatement(t: Tx): Effect {
    if t.advance then Update(AdvanceDay(t.policy, t.local, t.Today()), t.(phase := Advanced))
    else Read(t.(phase := Advanced))
  }

  /** Reads the counter and works out the limit; plain activity has no quota. */
  function CountStatement(counters: map<(Action, DayNumber), int>, t: Tx): Effect {
    match t.action
    case None => Read(t.(phase := Ready, accepted := false))
    case Some(action) =>
      Read(t.(
        phase := Counted,
        count := Count(counters, action, t.Today()),
        limit := if Enforced(t.policy, action) then LimitFor(t.policy, t.local, action) else None))
  }

  /** Accepts below the limit, refuses at it. */
  function DecideStatement(t: Tx): Effect {
    Read(t.(phase := Ready, accepted := t.limit.None? || t.count < t.limit.value))
  }

  /** A transaction's next statement before its commit, by phase. */
  function Statement(w: World, id: TxId): Effect
    requires id in w.txs
  {
    match w.txs[id].phase
    case Begun => EnsureStatement(w, id)
    case HasRead => SyncStatement(w, id)
    case Synced => MarkStatement(w, id)
    case Marked => AdvanceStatement(w.txs[id])
    case Advanced => CountStatement(w.counters, w.txs[id])
    case Counted => DecideStatement(w.txs[id])
    case Ready => Wait
    case Finished => Wait
  }

  /** Makes the row and the increment visible and releases the lock. */
  function CommitStatement(w: World, id: TxId): World
    requires id in w.txs
  {
    var t := w.txs[id];
    var w1 := w.(
      present := true,
      row := w.draft,
      holder := None,
      txs := w.txs[id := t.(phase := Finished)],
      counted := if w.draft.activeDays != w.row.activeDays then w.counted + [t.Today()] else w.counted,
      countedAt := if w.draft.activeDays != w.row.activeDays && w.lockDays != [] then w.countedAt + [|w.lockDays| - 1] else w.countedAt);
    if t.accepted && t.action.Some? then
      var after := Count(w.counters, t.action.value, t.Today()) + 1;
      w1.(counters := w.counters[(t.action.value, t.Today()) := after],
          grants := w.grants + [Grant(t.action.value, t.Today(), after, t.limit)])
    else w1
  }

  function AbortStatement(w: World, id: TxId): World
    requires id in w.txs
  {
    w.(holder := if w.holder == Some(id) then None else w.holder,
       txs := w.txs[id := w.txs[id].(phase := Finished)])
  }

  datatype Move =
    | Begin(id: TxId, policy: LoadedPolicy, now: Time, action: Option<Action>)
    | Next(id: TxId)
    | Abort(id: TxId)
    | Outside(row: Stats)

  function NextStatement(w: World, id: TxId): World
    requires id in w.txs
  {
    if w.txs[id].phase.Ready? then CommitStatement(w, id) else Perform(w, id, Statement(w, id))
  }

  /** One move of the interleaving; a move that is not possible waits. */
  function Apply(w: World, m: Move): World {
    match m
    case Begin(id, policy, now, action) =>
      if id in w.txs then w
      else Put(w, id, Tx(policy, now, action, Begun, w.row, false, 0, None, false))
    case Next(id) => if id in w.txs then NextStatement(w, id) else w
    case Abort(id) => if id in w.txs && w.txs[id].phase != Finished then AbortStatement(w, id) else w
    case Outside(row) =>
      if w.holder.None? && row.activeDays == w.row.activeDays && row.lastActiveDay == w.row.lastActiveDay
      then w.(present := true, row := row) else w
  }

  function Interleave(w: World, moves: seq<Move>): World { Fold(w, moves, Apply) }

  // ---------------------------------------------------------------------
  // Invariant
  // ---------------------------------------------------------------------

  predicate Writing(p: Phase) { p.Marked? || p.Advanced? || p.Counted? || p.Ready? }

  /** The phases in which a transaction may hold the lock: after an insert, after a sync, or while writing. */
  predicate Holding(p: Phase) { p.HasRead? || p.Synced? || Writing(p) }

  /** A draft either keeps the active-day columns or counts today once more than the committed row. */
  ghost predicate DraftFollows(row: Stats, draft: Stats, today: DayNumber) {
    || (draft.activeDays == row.activeDays && draft.lastActiveDay == row.lastActiveDay)
    || (draft.activeDays == row.activeDays + 1 && draft.lastActiveDay == Some(today) && row.lastActiveDay != Some(today))
  }

  ghost predicate LockInv(w: World) {
    && (w.holder.Some? ==>
          && w.holder.value in w.txs
          && var t := w.txs[w.holder.value];
             && Holding(t.phase)
             && w.lockDays != [] && w.lockDays[|w.lockDays| - 1] == t.Today()
             && t.local == w.draft
             && DraftFollows(w.row, w.draft, t.Today()))
    && (forall id | id in w.txs && Writing(w.txs[id].phase) :: w.holder == Some(id))
    && Blank(w)
  }

  ghost predicate QuotaInv(w: World) {
    && (forall id | id in w.txs :: TxQuotaOk(w.counters, w.txs[id]))
    && (forall i | 0 <= i < |w.grants| && w.grants[i].limit.Some? :: w.grants[i].countAfter <= w.grants[i].limit.value)
  }

  /**
   * The counted days since `w0`: each belongs to a lock of that day, in the order of the locks, no two
   * neighbours are alike, the row shows the last of them, and the day count follows their number.
   */
  ghost predicate DaysInv(w0: World, w: World) {
    && Placed(w.counted, w.countedAt, w.lockDays) && NeighboursDiffer(w.counted)
    && w.row.lastActiveDay == (if w.counted == [] then None else Some(w.counted[|w.counted| - 1]))
    && w0.counted <= w.counted && w.row.activeDays - w0.row.activeDays == |w.counted| - |w0.counted|
    && (w.holder.Some? ==> forall i | 0 <= i < |w.countedAt| :: w.countedAt[i] < |w.lockDays| - 1)
  }

  ghost predicate TxQuotaOk(counters: map<(Action, DayNumber), int>, t: Tx) {
    && (t.action.Some? && (t.phase.Counted? || (t.phase.Ready? && t.accepted)) ==>
          t.count == Count(counters, t.action.value, t.Today()))
    && (t.phase.Ready? && t.accepted && t.limit.Some? ==> t.count < t.limit.value)
  }

  // --- what a statement may do -------------------------------------------

  /** A statement keeps to the lock discipline and the quota rule. */
  ghost predicate Proper(w: World, id: TxId, e: Effect)
    requires id in w.txs
  {
    match e
    case Wait => true
    case Read(t) =>
      && t.now == w.txs[id].now && TxQuotaOk(w.counters, t)
      && (Writing(t.phase) ==> w.holder == Some(id))
      && (w.holder == Some(id) ==> Holding(t.phase) && t.local == w.draft)
    case Update(row, t) =>
      && t.now == w.txs[id].now && TxQuotaOk(w.counters, t)
      && (w.holder == Some(id) || w.holder.None?)
      && Holding(t.phase) && DraftFollows(w.row, row, t.Today())
  }

  lemma {:induction false} EnsureProper(w: World, id: TxId)
    requires LockInv(w) && id in w.txs && w.txs[id].phase.Begun?
    ensures Proper(w, id, EnsureStatement(w, id))
  {}

  lemma {:induction false} SyncProper(w: World, id: TxId)
    requires LockInv(w) && id in w.txs && w.txs[id].phase.HasRead?
    ensures Proper(w, id, SyncStatement(w, id))
  {}

  lemma {:induction false} MarkProper(w: World, id: TxId)
    requires LockInv(w) && id in w.txs && w.txs[id].phase.Synced?
    ensures Proper(w, id, MarkStatement(w, id))
  {}

  lemma {:induction false} AdvanceProper(w: World, id: TxId)
    requires LockInv(w) && id in w.txs && w.txs[id].phase.Marked?
    ensures Proper(w, id, AdvanceStatement(w.txs[id]))
  {}

  lemma {:induction false} CountProper(w: World, id: TxId)
    requires LockInv(w) && id in w.txs && w.txs[id].phase.Advanced?
    ensures Proper(w, id, CountStatement(w.counters, w.txs[id]))
  {}

  lemma {:induction false} DecideProper(w: World, id: TxId)
    requires LockInv(w) && id in w.txs && w.txs[id].phase.Counted? && TxQuotaOk(w.counters, w.txs[id])
    ensures Proper(w, id, DecideStatement(w.txs[id]))
  {}

  lemma {:induction false} StatementProper(w: World, id: TxId)
    requires LockInv(w) && id in w.txs && TxQuotaOk(w.counters, w.txs[id])
    ensures Proper(w, id, Statement(w, id))
  {
    match w.txs[id].phase
    case Begun => EnsureProper(w, id);
    case HasRead => SyncProper(w, id);
    case Synced => MarkProper(w, id);
    case Marked => AdvanceProper(w, id);
    case Advanced => CountProper(w, id);
    case Counted => DecideProper(w, id);
    case Ready =>
    case Finished =>
  }

  // --- each kind of move keeps the invariant -------------------------------

  lemma {:induction false} PerformKeeps(w: World, id: TxId, e: Effect)
    requires LockInv(w) && QuotaInv(w) && id in w.txs && Proper(w, id, e)
    ensures LockInv(Perform(w, id, e)) && QuotaInv(Perform(w, id, e))
  {}

  lemma {:induction false} CommitKeeps(w: World, id: TxId)
    requires LockInv(w) && QuotaInv(w) && id in w.txs && w.txs[id].phase.Ready?
    ensures LockInv(CommitStatement(w, id)) && QuotaInv(CommitStatement(w, id))
  {
    CommitKeepsLock(w, id);
    CommitKeepsQuota(w, id);
  }

  lemma {:induction false} CommitKeepsLock(w: World, id: TxId)
    requires LockInv(w) && id in w.txs && w.txs[id].phase.Ready?
    ensures LockInv(CommitStatement(w, id))
  {}

  lemma {:induction false} CommitKeepsQuota(w: World, id: TxId)
    requires LockInv(w) && QuotaInv(w) && id in w.txs && w.txs[id].phase.Ready?
    ensures QuotaInv(CommitStatement(w, id))
  {
    var w' := CommitStatement(w, id);
    forall o | o in w'.txs ensures TxQuotaOk(w'.counters, w'.txs[o]) {
      assert o != id && Writing(w.txs[o].phase) ==> w.holder == Some(o);
    }
  }

  lemma {:induction false} AbortKeeps(w: World, id: TxId)
    requires LockInv(w) && QuotaInv(w) && id in w.txs
    ensures LockInv(AbortStatement(w, id)) && QuotaInv(AbortStatement(w, id))
  {}

  lemma {:induction false} BeginKeeps(w: World, m: Move)
    requires LockInv(w) && QuotaInv(w) && m.Begin? && m.id !in w.txs
    ensures LockInv(Apply(w, m)) && QuotaInv(Apply(w, m))
  {}

  /** The lock holder is the only writer, its draft follows the committed row, and the count it read is still the count. */
  lemma {:induction false} MoveKeepsLockAndQuota(w: World, m: Move)
    requires LockInv(w) && QuotaInv(w)
    ensures LockInv(Apply(w, m)) && QuotaInv(Apply(w, m))
  {
    match m
    case Begin(id, _, _, _) => if id !in w.txs { BeginKeeps(w, m); }
    case Next(id) =>
      if id in w.txs {
        if w.txs[id].phase.Ready? {
          CommitKeeps(w, id);
        } else {
          StatementProper(w, id);
          PerformKeeps(w, id, Statement(w, id));
        }
      }
    case Abort(id) => if id in w.txs { AbortKeeps(w, id); }
    case Outside(_) =>
  }

  /** Only a commit touches the counters and the committed row's day columns. */
  predicate IsCommit(w: World, m: Move) { m.Next? && m.id in w.txs && w.txs[m.id].phase.Ready? }

  lemma {:induction false} OtherMovesKeepCounters(w: World, m: Move)
    requires !IsCommit(w, m)
    ensures var w' := Apply(w, m);
            w'.counters == w.counters && w'.grants == w.grants && w'.counted == w.counted && w'.countedAt == w.countedAt
  {
    if m.Next? && m.id in w.txs { PerformLeaves(w, m.id, Statement(w, m.id)); }
  }

  lemma {:induction false} PerformLeaves(w: World, id: TxId, e: Effect)
    requires id in w.txs
    ensures var w' := Perform(w, id, e);
            w'.counters == w.counters && w'.grants == w.grants && w'.counted == w.counted && w'.countedAt == w.countedAt && w'.row == w.row
  {}

  // --- active days -------------------------------------------------------

  lemma {:induction false} CommitKeepsDays(w0: World, w: World, id: TxId)
    requires LockInv(w) && DaysInv(w0, w) && id in w.txs && w.txs[id].phase.Ready?
    ensures DaysInv(w0, CommitStatement(w, id))
  {
    var w', today := CommitStatement(w, id), w.txs[id].Today();
    assert w.holder == Some(id) && w.lockDays[|w.lockDays| - 1] == today;
    if w.draft.activeDays != w.row.activeDays {
      assert w.counted != [] ==> w.counted[|w.counted| - 1] != today;
      DifferMore(w.counted, today);
      PlacedMore(w.counted, w.countedAt, w.lockDays, today);
    }
  }

  lemma {:induction false} DifferMore(xs: seq<DayNumber>, x: DayNumber)
    requires NeighboursDiffer(xs) && (xs != [] ==> xs[|xs| - 1] != x)
    ensures NeighboursDiffer(xs + [x])
  {
    forall i | 0 <= i < |xs + [x]| - 1 ensures Differs(xs + [x], i) {
      if i + 1 < |xs| { assert Differs(xs, i); }
    }
  }

  lemma {:induction false} PlacedMore(xs: seq<DayNumber>, at: seq<nat>, days: seq<DayNumber>, x: DayNumber)
    requires Placed(xs, at, days) && days != [] && days[|days| - 1] == x
    requires forall i | 0 <= i < |at| :: at[i] < |days| - 1
    ensures Placed(xs + [x], at + [|days| - 1], days)
  {}

  lemma {:induction false} PlacedInMore(xs: seq<DayNumber>, at: seq<nat>, days: seq<DayNumber>, x: DayNumber)
    requires Placed(xs, at, days)
    ensures Placed(xs, at, days + [x])
  {}

  lemma {:induction false} PerformKeepsDays(w0: World, w: World, id: TxId, e: Effect)
    requires LockInv(w) && DaysInv(w0, w) && id in w.txs && Proper(w, id, e)
    ensures DaysInv(w0, Perform(w, id, e))
  {
    if e.Update? && w.holder.None? { PlacedInMore(w.counted, w.countedAt, w.lockDays, e.tx.Today()); }
  }

  lemma {:induction false} MoveKeepsDays(w0: World, w: World, m: Move)
    requires LockInv(w) && QuotaInv(w) && DaysInv(w0, w)
    ensures DaysInv(w0, Apply(w, m))
  {
    if IsCommit(w, m) {
      CommitKeepsDays(w0, w, m.id);
    } else if m.Next? && m.id in w.txs {
      StatementProper(w, m.id);
      PerformKeepsDays(w0, w, m.id, Statement(w, m.id));
    }
  }

  // --- counters ----------------------------------------------------------

  function GrantCount(grants: seq<Grant>, action: Action, day: DayNumber): nat {
    if grants == [] then 0
    else
      var g := grants[|grants| - 1];
      GrantCount(grants[..|grants| - 1], action, day) + (if g.action == action && g.day == day then 1 else 0)
  }

  ghost predicate CountersInv(w0: World, w: World) {
    forall action, day :: Count(w.counters, action, day) == Count(w0.counters, action, day) + GrantCount(w.grants, action, day)
  }

  lemma {:induction false} MoveKeepsCounters(w0: World, w: World, m: Move)
    requires CountersInv(w0, w)
    ensures CountersInv(w0, Apply(w, m))
  {
    var w' := Apply(w, m);
    if IsCommit(w, m) {
      var t := w.txs[m.id];
      if t.accepted && t.action.Some? {
        assert w'.grants[..|w.grants|] == w.grants;
      }
    } else {
      OtherMovesKeepCounters(w, m);
    }
  }

  // --- theorems ----------------------------------------------------------

  lemma {:induction false} InterleavingInvariant(w0: World, moves: seq<Move>)
    requires Initial(w0)
    ensures var w := Interleave(w0, moves);
            LockInv(w) && QuotaInv(w) && CountersInv(w0, w) && DaysInv(w0, w)
  {
    if moves != [] {
      var init, m := moves[..|moves| - 1], moves[|moves| - 1];
      InterleavingInvariant(w0, init);
      var w := Interleave(w0, init);
      MoveKeepsLockAndQuota(w, m);
      MoveKeepsCounters(w0, w, m);
      MoveKeepsDays(w0, w, m);
    }
  }

  /**
   * In every interleaving whose locks never return to a day they have left, no UTC day is counted
   * twice, the one counted before included, and the day count grows by the number of days counted.
   */
  lemma {:induction false} ActiveDaysRiseOncePerDay(w0: World, moves: seq<Move>)
    requires Initial(w0)
    ensures var w := Interleave(w0, moves);
            && w0.counted <= w.counted && w.row.activeDays - w0.row.activeDays == |w.counted| - |w0.counted|
            && (NeverReturns(w.lockDays) ==> Distinct(w.counted))
            && (InOrder(w.lockDays) ==> forall i, j | 0 <= i < j < |w.counted| :: w.counted[i] < w.counted[j])
  {
    var w := Interleave(w0, moves);
    InterleavingInvariant(w0, moves);
    if NeverReturns(w.lockDays) { DistinctIfNeverReturns(w.counted, w.countedAt, w.lockDays); }
    if InOrder(w.lockDays) { AscendingIfInOrder(w.counted, w.countedAt, w.lockDays); }
  }

  /** In every interleaving, no committed increment passes the limit its own transaction computed, and none is lost. */
  lemma {:induction false} NoGrantPassesItsLimit(w0: World, moves: seq<Move>)
    requires Initial(w0)
    ensures var w := Interleave(w0, moves);
            && (forall i | 0 <= i < |w.grants| && w.grants[i].limit.Some? :: w.grants[i].countAfter <= w.grants[i].limit.value)
            && (forall action, day ::
                  Count(w.counters, action, day) == Count(w0.counters, action, day) + GrantCount(w.grants, action, day))
  {
    InterleavingInvariant(w0, moves);
  }

  // --- the serial case, and why the lock order matters --------------------

  /** One more statement of transaction `id`. */
  function Go(w: World, id: TxId): World { Apply(w, Next(id)) }

  /** A transaction that runs uninterrupted from its activity update to its commit. */
  function Finish(w: World, id: TxId): World { Go(Decided(Go(Go(w, id), id), id), id) }

  /** The counter is read and the quota decided; plain activity skips the decision. */
  function Decided(w: World, id: TxId): World {
    if id in w.txs && w.txs[id].action.Some? then Go(Go(w, id), id) else Go(w, id)
  }

  /** The row a transaction ends on when it writes on `row`. */
  function Settled(t: Tx, row: Stats): Stats {
    var a := Assess(t.local, t.Today(), t.now);
    var marked := Assessed(row, a, t.now);
    if a.advance then AdvanceDay(t.policy, marked, t.Today()) else marked
  }

  /** Whether a transaction that settles on `row` is within quota. */
  predicate Admits(t: Tx, row: Stats, count: int) {
    t.action.Some? && !OverQuota(t.policy, row, t.action.value, count)
  }

  /** `w'` differs from `w` only by transaction `id` having reached `phase` with `draft` as its own version. */
  ghost predicate Reaches(w: World, w': World, id: TxId, phase: Phase, draft: Stats) {
    && id in w.txs && w'.holder == Some(id) && w'.draft == draft
    && w'.row == w.row && w'.counters == w.counters && w'.counted == w.counted && w'.grants == w.grants
    && w'.lockDays == (if w.holder == Some(id) then w.lockDays else w.lockDays + [w.txs[id].Today()])
    && w'.txs.Keys == w.txs.Keys && (forall o | o in w.txs && o != id :: w'.txs[o] == w.txs[o])
    && var (t, t') := (w.txs[id], w'.txs[id]);
       t'.phase == phase && t'.local == draft && t'.now == t.now && t'.policy == t.policy && t'.action == t.action
  }

  lemma {:induction false} MarkEffect(w: World, id: TxId)
    requires id in w.txs && w.txs[id].phase.Synced? && (w.holder.None? || w.holder == Some(id))
    ensures var a := Assess(w.txs[id].local, w.txs[id].Today(), w.txs[id].now);
            && Reaches(w, Go(w, id), id, Marked, Assessed(Visible(w, id), a, w.txs[id].now))
            && Go(w, id).txs[id].advance == a.advance
  {}

  lemma {:induction false} AdvanceEffect(w: World, v: World, id: TxId, draft: Stats)
    requires Reaches(w, v, id, Marked, draft)
    ensures var t := w.txs[id];
            Reaches(w, Go(v, id), id, Advanced, if v.txs[id].advance then AdvanceDay(t.policy, draft, t.Today()) else draft)
  {}

  lemma {:induction false} SkipEffect(w: World, v: World, id: TxId, draft: Stats)
    requires Reaches(w, v, id, Advanced, draft) && w.txs[id].action.None?
    ensures Reaches(w, Go(v, id), id, Ready, draft) && !Go(v, id).txs[id].accepted
  {}

  lemma {:induction false} CountEffect(w: World, v: World, id: TxId, draft: Stats)
    requires Reaches(w, v, id, Advanced, draft) && w.txs[id].action.Some?
    ensures Reaches(w, Go(v, id), id, Counted, draft)
    ensures Go(v, id).txs[id].count == Count(w.counters, w.txs[id].action.value, w.txs[id].Today())
    ensures Go(v, id).txs[id].limit == LimitSeen(w.txs[id], draft)
  {}

  /** The limit a transaction works out for itself. */
  function LimitSeen(t: Tx, row: Stats): Option<int>
    requires t.action.Some?
  {
    if Enforced(t.policy, t.action.value) then LimitFor(t.policy, row, t.action.value) else None
  }

  lemma {:induction false} DecideEffect(w: World, v: World, id: TxId, draft: Stats)
    requires Reaches(w, v, id, Counted, draft)
    ensures Reaches(w, Go(v, id), id, Ready, draft)
    ensures Go(v, id).txs[id].accepted == (v.txs[id].limit.None? || v.txs[id].count < v.txs[id].limit.value)
  {}

  lemma {:induction false} DecidedEffect(w: World, v: World, id: TxId, draft: Stats)
    requires Reaches(w, v, id, Advanced, draft)
    ensures Reaches(w, Decided(v, id), id, Ready, draft)
    ensures var t := w.txs[id];
            Decided(v, id).txs[id].accepted == (t.action.Some? && Admits(t, draft, Count(w.counters, t.action.value, t.Today())))
  {
    if w.txs[id].action.Some? {
      CountEffect(w, v, id, draft);
      DecideEffect(w, Go(v, id), id, draft);
    } else {
      SkipEffect(w, v, id, draft);
    }
  }

  lemma {:induction false} CommitSettles(w: World, v: World, id: TxId, draft: Stats)
    requires Reaches(w, v, id, Ready, draft)
    ensures var (t, w') := (w.txs[id], Go(v, id));
            && w'.row == draft && w'.holder.None?
            && (t.action.Some? ==>
                  Count(w'.counters, t.action.value, t.Today()) ==
                    Count(w.counters, t.action.value, t.Today()) + (if v.txs[id].accepted then 1 else 0))
            && w'.counted == (if draft.activeDays != w.row.activeDays then w.counted + [t.Today()] else w.counted)
            && w'.lockDays == (if w.holder == Some(id) then w.lockDays else w.lockDays + [t.Today()])
            && w'.txs.Keys == w.txs.Keys && (forall o | o in w.txs && o != id :: w'.txs[o] == w.txs[o])
  {}

  /** The complete effect of an uninterrupted completion. */
  lemma {:induction false} FinishSettles(w: World, id: TxId)
    requires id in w.txs && w.txs[id].phase.Synced? && (w.holder.None? || w.holder == Some(id))
    ensures var (t, w') := (w.txs[id], Finish(w, id));
            && w'.row == Settled(t, Visible(w, id)) && w'.holder.None?
            && (t.action.Some? ==>
                  var (action, before) := (t.action.value, Count(w.counters, t.action.value, t.Today()));
                  Count(w'.counters, action, t.Today()) == before + (if Admits(t, w'.row, before) then 1 else 0))
            && w'.counted == (if w'.row.activeDays != w.row.activeDays then w.counted + [t.Today()] else w.counted)
            && w'.lockDays == (if w.holder == Some(id) then w.lockDays else w.lockDays + [t.Today()])
            && w'.txs.Keys == w.txs.Keys && (forall o | o in w.txs && o != id :: w'.txs[o] == w.txs[o])
  {
    var draft := Settled(w.txs[id], Visible(w, id));
    var marked := Go(w, id);
    MarkEffect(w, id);
    AdvanceEffect(w, marked, id, marked.draft);
    var advanced := Go(marked, id);
    DecidedEffect(w, advanced, id, draft);
    CommitSettles(w, Decided(advanced, id), id, draft);
  }

  /** The state in which a new transaction has ensured, read and synchronised its row. */
  function Opened(w: World, id: TxId, p: LoadedPolicy, now: Time, action: Option<Action>): World {
    Apply(Apply(Apply(w, Begin(id, p, now, action)), Next(id)), Next(id))
  }

  lemma {:induction false} OpenedReads(w: World, id: TxId, p: LoadedPolicy, now: Time, action: Option<Action>)
    requires w.holder.None? && id !in w.txs
    ensures var v := Opened(w, id, p, now, action);
            && id in v.txs && v.txs[id].phase.Synced? && (v.holder.None? || v.holder == Some(id))
            && v.counters == w.counters
            && Visible(v, id) == v.txs[id].local == Sync(p, if w.present then w.row else FreshStats(p))
            && v.txs[id].policy == p && v.txs[id].now == now && v.txs[id].action == action
  {}

  /** Run without interference, a transaction has exactly the effect of the engine's serial step, for a first activity too. */
  lemma {:induction false} SerialTransactionIsEngineStep(g: Guild, u: UserId, action: Option<Action>, now: Time, w: World, id: TxId)
    requires w.holder.None? && id !in w.txs
    requires w.present == (u in g.stats) && (u in g.stats ==> w.row == g.stats[u])
    requires action.Some? ==>
               Count(w.counters, action.value, DayOf(now)) == CountOf(g.counters, CounterKey(u, action.value, DayOf(now)))
    ensures var last := Finish(Opened(w, id, g.policy, now, action), id);
            var serial := if action.Some? then Gated(g, u, action.value, true, now).0 else Step(g, HumanActivity(u), now).0;
            && last.row == serial.stats[u]
            && (action.Some? ==>
                  Count(last.counters, action.value, DayOf(now)) == CountOf(serial.counters, CounterKey(u, action.value, DayOf(now))))
  {
    OpenedReads(w, id, g.policy, now, action);
    var v := Opened(w, id, g.policy, now, action);
    FinishSettles(v, id);
    SettledIsActiveRow(v.txs[id], g, u, now);
    if action.Some? { GatedEffect(g, u, action.value, now); }
  }

  lemma {:induction false} SettledIsActiveRow(t: Tx, g: Guild, u: UserId, now: Time)
    requires t.policy == g.policy && t.now == now && t.local == Sync(g.policy, EnsureStats(g.policy, g.stats, u))
    ensures Settled(t, t.local) == ActiveRow(g, u, now)
  {}

  lemma {:induction false} GatedEffect(g: Guild, u: UserId, action: Action, now: Time)
    ensures var (g', row, key) := (Gated(g, u, action, true, now).0, ActiveRow(g, u, now), CounterKey(u, action, DayOf(now)));
            && u in g'.stats && g'.stats[u] == row
            && CountOf(g'.counters, key) ==
               CountOf(g.counters, key) + if OverQuota(g.policy, row, action, CountOf(g.counters, key)) then 0 else 1
  {}

  // --- lock days that return count a day twice -----------------------------

  /** A transaction of the given day that has read the untouched row of a new user and found it up to date. */
  function Reader(row: Stats, p: LoadedPolicy, day: DayNumber): Tx {
    Tx(p, day * DAY, None, Synced, row, false, 0, None, false)
  }

  /** The transactions `from`, `from + 1`, ... are readers of the listed days. */
  ghost predicate Readers(w: World, row: Stats, p: LoadedPolicy, days: seq<DayNumber>, from: nat) {
    forall i: nat | from <= i < |days| :: i in w.txs && w.txs[i] == Reader(row, p, days[i])
  }

  predicate Untouched(row: Stats) { row.lastActiveDay.None? && row.lastHumanAt.None? && row.review == Clear }

  /** Between `w` and `w'` transaction `id`, and nobody else, locked the row, marked its day and committed. */
  ghost predicate RanDay(w: World, w': World, id: TxId) {
    && id in w.txs && w'.holder.None? && w'.lockDays == w.lockDays + [w.txs[id].Today()]
    && w'.row.lastActiveDay == Some(w.txs[id].Today())
    && w'.counted == w.counted + (if w.row.lastActiveDay == Some(w.txs[id].Today()) then [] else [w.txs[id].Today()])
    && w'.txs.Keys == w.txs.Keys && (forall o | o in w.txs && o != id :: w'.txs[o] == w.txs[o])
  }

  lemma {:induction false} FinishRunsDay(w: World, id: TxId)
    requires id in w.txs && w.txs[id].phase.Synced? && w.holder.None? && Untouched(w.txs[id].local)
    ensures RanDay(w, Finish(w, id), id)
  {
    FinishSettles(w, id);
  }

  function Opening(id: TxId, p: LoadedPolicy, now: Time): seq<Move> { [Begin(id, p, now, None), Next(id), Next(id)] }

  function Rest(id: TxId): seq<Move> { [Next(id), Next(id), Next(id), Next(id)] }

  lemma {:induction false} InterleaveSnoc(w: World, ms: seq<Move>, m: Move)
    ensures Interleave(w, ms + [m]) == Apply(Interleave(w, ms), m)
  {
    FoldSnoc(w, ms, m, Apply);
  }

  lemma {:induction false} InterleaveAppend(w: World, a: seq<Move>, b: seq<Move>)
    ensures Interleave(w, a + b) == Interleave(Interleave(w, a), b)
  {
    FoldAppend(w, a, b, Apply);
  }

  lemma {:induction false} ThreeMoves(w: World, a: Move, b: Move, c: Move)
    ensures Interleave(w, [a, b, c]) == Apply(Apply(Apply(w, a), b), c)
  {
    InterleaveSnoc(w, [a, b], c);
    InterleaveSnoc(w, [a], b);
    InterleaveSnoc(w, [], a);
    assert [] + [a] == [a] && [a] + [b] == [a, b] && [a, b] + [c] == [a, b, c];
  }

  lemma {:induction false} RestFinishes(w: World, id: TxId)
    requires id in w.txs && w.txs[id].phase.Synced? && w.holder.None? && w.txs[id].action.None?
    ensures Interleave(w, Rest(id)) == Finish(w, id)
  {
    MarkEffect(w, id);
    AdvanceEffect(w, Go(w, id), id, Go(w, id).draft);
    ThreeMoves(w, Next(id), Next(id), Next(id));
    InterleaveSnoc(w, [Next(id), Next(id), Next(id)], Next(id));
    assert Rest(id) == [Next(id), Next(id), Next(id)] + [Next(id)];
  }

  lemma {:induction false} ReadStep(w: World, id: TxId, t: Tx)
    requires w.present && t.phase.Begun?
    ensures Go(Put(w, id, t), id) == Put(w, id, t.(phase := HasRead, local := w.row))
  {
    assert w.txs[id := t][id := t.(phase := HasRead, local := w.row)] == w.txs[id := t.(phase := HasRead, local := w.row)];
  }

  lemma {:induction false} SyncStep(w: World, id: TxId, t: Tx)
    requires t.phase.HasRead? && Sync(t.policy, t.local) == t.local
    ensures Go(Put(w, id, t), id) == Put(w, id, t.(phase := Synced))
  {
    assert w.txs[id := t][id := t.(phase := Synced)] == w.txs[id := t.(phase := Synced)];
  }

  lemma {:induction false} QuietOpening(w: World, id: TxId, p: LoadedPolicy, day: DayNumber)
    requires w.present && w.holder.None? && id !in w.txs && Sync(p, w.row) == w.row
    ensures Interleave(w, Opening(id, p, day * DAY)) == Put(w, id, Reader(w.row, p, day))
  {
    var t := Reader(w.row, p, day);
    ThreeMoves(w, Begin(id, p, day * DAY, None), Next(id), Next(id));
    ReadStep(w, id, t.(phase := Begun));
    SyncStep(w, id, t.(phase := HasRead));
  }

  /** Nothing has happened since `w0` but that one transaction for each listed day read the row. */
  ghost predicate JustRead(w0: World, w: World, p: LoadedPolicy, days: seq<DayNumber>) {
    && w == w0.(txs := w.txs) && Readers(w, w0.row, p, days, 0) && forall i | i in w.txs :: i < |days|
  }

  lemma {:induction false} OneMoreReader(w0: World, v: World, p: LoadedPolicy, days: seq<DayNumber>)
    requires days != [] && JustRead(w0, v, p, days[..|days| - 1])
    ensures JustRead(w0, Put(v, |days| - 1, Reader(w0.row, p, days[|days| - 1])), p, days)
  {
    assert forall i: nat | i < |days| - 1 :: days[..|days| - 1][i] == days[i];
  }

  /** Every one of any number of transactions can read the row before any of them locks it. */
  lemma {:induction false} OpenAll(w0: World, p: LoadedPolicy, days: seq<DayNumber>) returns (moves: seq<Move>, w: World)
    requires Initial(w0) && w0.present && Sync(p, w0.row) == w0.row
    ensures w == Interleave(w0, moves) && JustRead(w0, w, p, days)
  {
    if days == [] {
      moves, w := [], w0;
    } else {
      var n := |days| - 1;
      var before, v := OpenAll(w0, p, days[..n]);
      var more := OneOpening(v, n, p, days[n]);
      moves, w := before + more, Put(v, n, Reader(w0.row, p, days[n]));
      InterleaveAppend(w0, before, more);
      OneMoreReader(w0, v, p, days);
    }
  }

  lemma {:induction false} OneOpening(w: World, id: TxId, p: LoadedPolicy, day: DayNumber) returns (moves: seq<Move>)
    requires w.present && w.holder.None? && id !in w.txs && Sync(p, w.row) == w.row
    ensures Interleave(w, moves) == Put(w, id, Reader(w.row, p, day))
  {
    moves := Opening(id, p, day * DAY);
    QuietOpening(w, id, p, day);
  }

  /** The first `k` of the readers have run, one after the other. */
  ghost predicate Ran(w: World, row: Stats, p: LoadedPolicy, days: seq<DayNumber>, k: nat) {
    && k <= |days| && w.holder.None? && Readers(w, row, p, days, k)
    && w.lockDays == days[..k] && w.counted == Changes(days[..k])
    && w.row.lastActiveDay == if k == 0 then None else Some(days[k - 1])
  }

  lemma {:induction false} RunOne(w: World, row: Stats, p: LoadedPolicy, days: seq<DayNumber>, k: nat)
    returns (rest: seq<Move>, w': World)
    requires Ran(w, row, p, days, k) && k < |days| && Untouched(row)
    ensures w' == Interleave(w, rest) && Ran(w', row, p, days, k + 1)
  {
    RestFinishes(w, k);
    FinishRunsDay(w, k);
    rest, w' := Rest(k), Finish(w, k);
    RanOneMore(w, w', row, p, days, k);
  }

  lemma {:induction false} RanOneMore(w: World, w': World, row: Stats, p: LoadedPolicy, days: seq<DayNumber>, k: nat)
    requires Ran(w, row, p, days, k) && k < |days| && RanDay(w, w', k)
    ensures Ran(w', row, p, days, k + 1)
  {
    assert w.txs[k].Today() == days[k];
    assert days[..k + 1][..k] == days[..k] && days[..k + 1] == days[..k] + [days[k]];
  }

  lemma {:induction false} RunAll(w: World, row: Stats, p: LoadedPolicy, days: seq<DayNumber>, k: nat)
    returns (moves: seq<Move>, last: World)
    requires Ran(w, row, p, days, k) && Untouched(row)
    ensures last == Interleave(w, moves) && Ran(last, row, p, days, |days|)
    decreases |days| - k
  {
    if k == |days| {
      moves, last := [], w;
    } else {
      var first, v := RunOne(w, row, p, days, k);
      var others;
      others, last := RunAll(v, row, p, days, k + 1);
      moves := first + others;
      InterleaveAppend(w, first, others);
    }
  }

  /**
   * The condition on locks is exact: for every list of days there is an interleaving of a new user that
   * takes its locks on just these days, and it counts a day twice exactly when the list returns to one.
   */
  lemma {:induction false} ReturningLocksCountTwice(w0: World, p: LoadedPolicy, days: seq<DayNumber>) returns (moves: seq<Move>)
    requires Initial(w0) && w0.present && w0.row == FreshStats(p)
    ensures var w := Interleave(w0, moves);
            w.lockDays == days && w.counted == Changes(days) && (Distinct(w.counted) <==> NeverReturns(days))
  {
    var opening, w := OpenAll(w0, p, days);
    assert days[..0] == [];
    var rest, last := RunAll(w, w0.row, p, days, 0);
    moves := opening + rest;
    InterleaveAppend(w0, opening, rest);
    assert days[..|days|] == days;
    ActiveDaysRiseOncePerDay(w0, moves);
    if !NeverReturns(days) { ReturnRepeats(days); }
  }

  /** For example, three activities around midnight whose locks come out of day order count the later day twice. */
  lemma {:induction false} OutOfOrderLocksCountTwice(w0: World, p: LoadedPolicy, day: DayNumber) returns (moves: seq<Move>)
    requires Initial(w0) && w0.present && w0.row == FreshStats(p)
    ensures var w := Interleave(w0, moves);
            w.counted == [day, day - 1, day] && w.row.activeDays == w0.row.activeDays + 3
  {
    var days := [day, day - 1, day];
    moves := ReturningLocksCountTwice(w0, p, days);
    ActiveDaysRiseOncePerDay(w0, moves);
    ThreeChanges(day, day - 1, day);
  }
}
