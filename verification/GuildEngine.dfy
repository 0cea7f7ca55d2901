/**
 * The guild engine as a state machine: the tables it owns and one step per
 * database transaction. A transaction that fails leaves every table as it was.
 */
module GuildEngine {
  import opened Core
  import opened Text
  import opened GuildPolicy

  type UserId = nat

  // ---------------------------------------------------------------------
  // Rows
  // ---------------------------------------------------------------------

  datatype Review = Clear | Challenged | Frozen

  /** A row of `user_guild_stats`. */
  datatype Stats = Stats(
    activeDays: int,
    score: int,
    level: int,
    rank: Rank,
    lastActiveDay: Option<DayNumber>,
    lastHumanAt: Option<Time>,
    streak: int,
    review: Review)

  /** The columns of `users` that the engine reads. */
  datatype Account = Account(isPlainUser: bool, yellowCardUntil: Option<Time>)

  datatype Action = OutboundMessage | AttachmentSend | FriendAdd

  /** The key of a row of `daily_action_counters`. */
  datatype CounterKey = CounterKey(user: UserId, action: Action, day: DayNumber)

  /** A row of the append-only `guild_score_events`. */
  datatype ScoreEvent = ScoreEvent(
    user: UserId,
    granter: Option<UserId>,
    kind: string,
    delta: int,
    reference: Option<string>,
    at: Time)

  /** The policy that `load_guild_policy_conn` hands to a transaction always has levels and ranks. */
  type LoadedPolicy = p: Policy | p.levels != [] && p.ranks != []
    witness DEFAULT_POLICY

  datatype Guild = Guild(
    policy: LoadedPolicy,
    accounts: map<UserId, Account>,
    stats: map<UserId, Stats>,
    counters: map<CounterKey, int>,
    ledger: seq<ScoreEvent>)

  const EMPTY_GUILD: Guild := Guild(DEFAULT_POLICY, map[], map[], map[], [])

  // ---------------------------------------------------------------------
  // Derived state and the activity machine
  // ---------------------------------------------------------------------

  const SUSPICIOUS_WINDOW: int := 10 * 60 * SECOND
  const FREEZE_THRESHOLD: int := 3
  const RECOVERY_WINDOW: int := 24 * 60 * 60 * SECOND
  const I32_MAX: int := 0x7FFF_FFFF

  function FreshStats(p: LoadedPolicy): Stats
  {
    Stats(0, 0, LevelFor(p, 0).level, RankFor(p, 0).rank, None, None, 0, Clear)
  }

  /** `ensure_user_guild_stats`: the existing row, or a fresh one. */
  function EnsureStats(p: LoadedPolicy, stats: map<UserId, Stats>, u: UserId): Stats
  {
    if u in stats then stats[u] else FreshStats(p)
  }

  /** `sync_derived_state`: the cached level and rank catch up with the policy in force. */
  function Sync(p: LoadedPolicy, s: Stats): Stats
  {
    var level, rank := LevelFor(p, s.activeDays).level, RankFor(p, s.score).rank;
    if s.level == level && s.rank == rank then s else s.(level := level, rank := rank)
  }

  datatype Assessment = Assessment(advance: bool, streak: int, review: Review)

  predicate AttemptsNewDay(s: Stats, today: DayNumber) { s.lastActiveDay != Some(today) }

  /** A new day claimed less than ten minutes after the previous activity. */
  predicate SuspiciousAttempt(s: Stats, today: DayNumber, now: Time) {
    AttemptsNewDay(s, today) && s.lastHumanAt.Some? && now - s.lastHumanAt.value < SUSPICIOUS_WINDOW
  }

  predicate QuietLongEnough(s: Stats, now: Time) {
    s.lastHumanAt.Some? ==> now - s.lastHumanAt.value >= RECOVERY_WINDOW
  }

  /** `assess_human_activity`. */
  function Assess(s: Stats, today: DayNumber, now: Time): Assessment {
    if s.review == Frozen then
      if QuietLongEnough(s, now) && AttemptsNewDay(s, today) then Assessment(true, 0, Clear)
      else Assessment(false, s.streak, Frozen)
    else
      var attempt, suspicious := AttemptsNewDay(s, today), SuspiciousAttempt(s, today, now);
      var streak :=
        if suspicious then (if s.streak == I32_MAX then I32_MAX else s.streak + 1)
        else if attempt then Max(s.streak - 1, 0)
        else s.streak;
      var review := if streak >= FREEZE_THRESHOLD then Frozen else if streak > 0 then Challenged else Clear;
      Assessment(attempt && !suspicious, streak, review)
  }

  /** The row after `update_human_activity_state`. */
  function Assessed(s: Stats, a: Assessment, now: Time): Stats {
    s.(lastHumanAt := Some(now), streak := a.streak, review := a.review)
  }

  /** `advance_active_day_if_needed`. */
  function AdvanceDay(p: LoadedPolicy, s: Stats, today: DayNumber): Stats
  {
    if s.lastActiveDay == Some(today) then s
    else s.(activeDays := s.activeDays + 1,
            level := LevelFor(p, s.activeDays + 1).level,
            rank := RankFor(p, s.score).rank,
            lastActiveDay := Some(today))
  }

  /** The whole effect of one human activity on a synchronised row. */
  function Act(p: LoadedPolicy, s: Stats, now: Time): Stats
  {
    var today := DayOf(now);
    var a := Assess(s, today, now);
    var t := Assessed(s, a, now);
    if a.advance then AdvanceDay(p, t, today) else t
  }

  // ---------------------------------------------------------------------
  // Daily limits
  // ---------------------------------------------------------------------

  /** `effective_daily_limit`. */
  function EffectiveLimit(levelLimit: Option<int>, percent: Option<int>, overrides: bool): Option<int> {
    match (levelLimit, percent)
    case (None, _) => None
    case (Some(limit), None) => if overrides then None else Some(limit)
    case (Some(limit), Some(pct)) => Some(limit * pct / 100)
  }

  /** The rank entry used for limits; neutral while the rank engine is switched off. */
  function RankForLimits(p: LoadedPolicy, score: int): RankPolicy
  {
    if p.enforcement.rankEngine then RankFor(p, score)
    else RankPolicy(Unknown(""), 0, None, None, None, None, false)
  }

  function LimitFor(p: LoadedPolicy, s: Stats, action: Action): Option<int>
  {
    var l, r := LevelFor(p, s.activeDays), RankForLimits(p, s.score);
    match action
    case OutboundMessage => EffectiveLimit(l.messageLimit, r.messagePercent, r.overridesLevelLimits)
    case AttachmentSend => EffectiveLimit(l.attachmentLimit, r.attachmentPercent, r.overridesLevelLimits)
    case FriendAdd => EffectiveLimit(l.friendLimit, r.friendPercent, r.overridesLevelLimits)
  }

  predicate Enforced(p: LoadedPolicy, action: Action) {
    && p.enforcement.enabled
    && match action
       case OutboundMessage => p.enforcement.outboundMessages
       case AttachmentSend => p.enforcement.attachmentSends
       case FriendAdd => p.enforcement.friendAdds
  }

  function CountOf(counters: map<CounterKey, int>, key: CounterKey): int {
    if key in counters then counters[key] else 0
  }

  function Increment(counters: map<CounterKey, int>, key: CounterKey): map<CounterKey, int> {
    counters[key := CountOf(counters, key) + 1]
  }

  /** The quota is used up and enforced. */
  predicate OverQuota(p: LoadedPolicy, s: Stats, action: Action, count: int) {
    && Enforced(p, action)
    && LimitFor(p, s, action).Some? && count >= LimitFor(p, s, action).value
  }

  function NextMidnight(now: Time): Time { (DayOf(now) + 1) * DAY }

  /** Whole seconds to midnight, rounded down but at least one. */
  function SecondsUntilNextDay(now: Time): int {
    Max((NextMidnight(now) - now) / SECOND, 1)
  }

  /** The part of `GuildSnapshot` that reports limits and progress. */
  datatype Snapshot = Snapshot(
    activeDays: int,
    level: int,
    score: int,
    rank: Rank,
    progressPercent: int,
    sent: map<Action, int>,
    remaining: map<Action, Option<int>>,
    review: Review)

  function Remaining(limit: Option<int>, used: int): Option<int> {
    if limit.Some? then Some(Max(limit.value - used, 0)) else None
  }

  function NextLevelDays(levels: seq<LevelPolicy>, level: int): Option<int> {
    if levels == [] then None
    else if levels[0].level > level then Some(levels[0].minDays)
    else NextLevelDays(levels[1..], level)
  }

  /** `level_progress_percent`. */
  function ProgressPercent(activeDays: int, minDays: int, next: Option<int>): int {
    if next.None? then 100
    else
      var span := Max(next.value - minDays, 1);
      var progressed := Max(0, Min(activeDays - minDays, span));
      progressed * 100 / span
  }

  function BuildSnapshot(p: LoadedPolicy, s: Stats, counters: map<CounterKey, int>, u: UserId, today: DayNumber): Snapshot
  {
    var l := LevelFor(p, s.activeDays);
    var m, a, f :=
      CountOf(counters, CounterKey(u, OutboundMessage, today)),
      CountOf(counters, CounterKey(u, AttachmentSend, today)),
      CountOf(counters, CounterKey(u, FriendAdd, today));
    Snapshot(
      s.activeDays,
      Max(1, Min(s.level, 10)),
      s.score,
      s.rank,
      ProgressPercent(s.activeDays, l.minDays, NextLevelDays(p.levels, l.level)),
      map[OutboundMessage := m, AttachmentSend := a, FriendAdd := f],
      map[OutboundMessage := Remaining(LimitFor(p, s, OutboundMessage), m),
          AttachmentSend := Remaining(LimitFor(p, s, AttachmentSend), a),
          FriendAdd := Remaining(LimitFor(p, s, FriendAdd), f)],
      s.review)
  }

  // ---------------------------------------------------------------------
  // Score events
  // ---------------------------------------------------------------------

  const VOTE_WINDOW: int := 30 * DAY
  const CLUSTER_THRESHOLD: int := 10
  const HELPFUL_ANSWER_VOTE: string := "helpful_answer_vote"
  const VOTE_POINTS: int := 5

  datatype VoteOptions = VoteOptions(meaningfulGranter: bool, dailyCap: Option<int>)

  datatype Suppression = SelfVote | ReciprocalVote | ClusteredVote | GranterNotEligible | CapReached | CapTruncated

  predicate SameReference(e: ScoreEvent, u: UserId, kind: string, reference: string) {
    e.user == u && e.kind == kind && e.reference == Some(reference)
  }

  predicate HasReference(ledger: seq<ScoreEvent>, u: UserId, kind: string, reference: string) {
    exists i | 0 <= i < |ledger| :: SameReference(ledger[i], u, kind, reference)
  }

  /** A positive event from `from` to `to`. */
  predicate PositiveVote(e: ScoreEvent, to: UserId, from: UserId, kind: string) {
    e.user == to && e.granter == Some(from) && e.kind == kind && e.delta > 0
  }

  /** `is_reciprocal_vote`: `u` recently scored for `granter` in the same way. */
  predicate Reciprocal(ledger: seq<ScoreEvent>, u: UserId, granter: Option<UserId>, kind: string, now: Time) {
    granter.Some? &&
    exists i | 0 <= i < |ledger| ::
      PositiveVote(ledger[i], granter.value, u, kind) && ledger[i].at >= now - VOTE_WINDOW
  }

  /** The positive events of one kind that `u` received since the start of day `d`. */
  predicate ScoredSince(e: ScoreEvent, u: UserId, kind: string, d: DayNumber) {
    e.user == u && e.kind == kind && e.at >= d * DAY && e.delta > 0
  }

  function Granters(ledger: seq<ScoreEvent>, u: UserId, kind: string, d: DayNumber): set<UserId> {
    set i | 0 <= i < |ledger| && ScoredSince(ledger[i], u, kind, d) && ledger[i].granter.Some? ::
      ledger[i].granter.value
  }

  /** `is_clustered_vote`. */
  predicate Clustered(ledger: seq<ScoreEvent>, u: UserId, kind: string, now: Time) {
    |Granters(ledger, u, kind, DayOf(now))| >= CLUSTER_THRESHOLD
  }

  function PointsSince(ledger: seq<ScoreEvent>, u: UserId, kind: string, d: DayNumber): int {
    if ledger == [] then 0
    else
      var e := ledger[|ledger| - 1];
      PointsSince(ledger[..|ledger| - 1], u, kind, d) + (if ScoredSince(e, u, kind, d) then e.delta else 0)
  }

  /** The granter row that `granter_is_meaningful` creates or synchronises, if it gets that far. */
  function GranterRow(g: Guild, p: LoadedPolicy, granter: Option<UserId>): Option<Stats>
  {
    if granter.Some? && granter.value in g.accounts && g.accounts[granter.value].isPlainUser
    then Some(Sync(p, EnsureStats(p, g.stats, granter.value)))
    else None
  }

  /** `granter_is_meaningful`. */
  predicate Meaningful(g: Guild, p: LoadedPolicy, granter: Option<UserId>)
  {
    && granter.Some? && granter.value in g.accounts
    && (!g.accounts[granter.value].isPlainUser ||
        var row := GranterRow(g, p, granter).value;
        row.level >= 4 || RankOrder(row.rank) >= RankOrder(E))
  }

  /** Why a positive vote is suppressed before the daily cap is looked at, if it is. */
  function VoteObjection(g: Guild, p: LoadedPolicy, u: UserId, granter: Option<UserId>, kind: string, now: Time)
    : Option<Suppression>
  {
    if granter == Some(u) then Some(SelfVote)
    else if Reciprocal(g.ledger, u, granter, kind, now) then Some(ReciprocalVote)
    else if Clustered(g.ledger, u, kind, now) then Some(ClusteredVote)
    else if !Meaningful(g, p, granter) then Some(GranterNotEligible)
    else None
  }

  /** The eligibility check was reached, so the granter's own row was touched. */
  predicate ChecksGranter(g: Guild, u: UserId, granter: Option<UserId>, kind: string, delta: int, o: VoteOptions, now: Time) {
    && delta > 0 && o.meaningfulGranter && granter != Some(u)
    && !Reciprocal(g.ledger, u, granter, kind, now) && !Clustered(g.ledger, u, kind, now)
  }

  /** The delta that is recorded, and the reason if it is not the requested one. */
  function AppliedDelta(g: Guild, p: LoadedPolicy, u: UserId, granter: Option<UserId>, kind: string, delta: int, o: VoteOptions, now: Time)
    : (int, Option<Suppression>)
  {
    var objection :=
      if delta > 0 && o.meaningfulGranter then VoteObjection(g, p, u, granter, kind, now) else None;
    var applied := if objection.Some? then 0 else delta;
    if delta > 0 && o.dailyCap.Some? then
      var earned := Max(0, Min(PointsSince(g.ledger, u, kind, DayOf(now)), I32_MAX));
      var room := Max(o.dailyCap.value - earned, 0);
      if room == 0 then (0, Some(CapReached))
      else if applied > room then (room, Some(CapTruncated))
      else (applied, objection)
    else (applied, objection)
  }

  // ---------------------------------------------------------------------
  // Transactions
  // ---------------------------------------------------------------------

  datatype Request =
    | HumanActivity(user: UserId)
    | SendMessage(user: UserId, insertSucceeds: bool)
    | SendAttachment(user: UserId, mime: string, operationSucceeds: bool)
    | ResolveContact(user: UserId)
    | ViewSnapshot(user: UserId)
    | Contribute(user: UserId, granter: Option<UserId>, kind: string, delta: int, reference: Option<string>, options: VoteOptions)
    | Freeze(user: UserId)
    | Unfreeze(user: UserId)
    | ChangePolicy(policy: Policy)
    | LosePolicy
    | ChangeAccount(user: UserId, account: Account)

  datatype Failure = EmptyEventType | NotFound | YellowCard | OperationFailed | PolicyRejected

  datatype Outcome =
    | Done
    | Accepted
    | Limited(snapshot: Snapshot, retryAfter: int)
    | UnsupportedMime(snapshot: Snapshot)
    | Viewed(snapshot: Snapshot)
    | Recorded(applied: int, reason: Option<Suppression>)
    | Duplicate
    | Failed(failure: Failure)

  /** The row of `u` after the activity part of a gated operation. */
  function ActiveRow(g: Guild, u: UserId, now: Time): Stats {
    var p := g.policy;
    Act(p, Sync(p, EnsureStats(p, g.stats, u)), now)
  }

  /** A quota-gated operation, once its own preconditions hold. */
  function Gated(g: Guild, u: UserId, action: Action, succeeds: bool, now: Time): (Guild, Outcome) {
    var p, today := g.policy, DayOf(now);
    var row := ActiveRow(g, u, now);
    var key := CounterKey(u, action, today);
    var stats := g.stats[u := row];
    if OverQuota(p, row, action, CountOf(g.counters, key)) then
      (g.(stats := stats), Limited(BuildSnapshot(p, row, g.counters, u, today), SecondsUntilNextDay(now)))
    else if !succeeds then (g, Failed(OperationFailed))
    else (g.(stats := stats, counters := Increment(g.counters, key)), Accepted)
  }

  function AttachmentStep(g: Guild, u: UserId, mime: string, succeeds: bool, now: Time): (Guild, Outcome) {
    var p := g.policy;
    if Enforced(p, AttachmentSend) && TrimLower(mime) !in p.attachmentTypes then
      var row := ActiveRow(g, u, now);
      (g.(stats := g.stats[u := row]), UnsupportedMime(BuildSnapshot(p, row, g.counters, u, DayOf(now))))
    else Gated(g, u, AttachmentSend, succeeds, now)
  }

  function ContactStep(g: Guild, u: UserId, now: Time): (Guild, Outcome) {
    if u !in g.accounts then (g, Failed(NotFound))
    else if g.accounts[u].yellowCardUntil.Some? && g.accounts[u].yellowCardUntil.value > now then (g, Failed(YellowCard))
    else Gated(g, u, FriendAdd, true, now)
  }

  function NormalizeReference(reference: Option<string>): Option<string> {
    if reference.Some? && Trim(reference.value) != [] then Some(Trim(reference.value)) else None
  }

  function Scored(p: LoadedPolicy, row: Stats, score: int): Stats {
    row.(score := score, rank := RankFor(p, score).rank)
  }

  /** The rows a score event writes: the granter's, if it was checked, and then the user's. */
  function WriteRows(
    stats: map<UserId, Stats>, granter: Option<UserId>, granterRow: Option<Stats>, u: UserId, row: Stats)
    : map<UserId, Stats>
  {
    var s := if granter.Some? && granterRow.Some? then stats[granter.value := granterRow.value] else stats;
    s[u := row]
  }

  /** Enters an event that is not a duplicate; the row of `u` is synchronised. */
  function EnterEvent(
    g: Guild, u: UserId, granter: Option<UserId>, kind: string, delta: int,
    reference: Option<string>, o: VoteOptions, now: Time): (Guild, Outcome)
    requires u in g.stats
  {
    var p, row := g.policy, g.stats[u];
    var (applied, reason) := AppliedDelta(g, p, u, granter, kind, delta, o, now);
    var granterRow := if ChecksGranter(g, u, granter, kind, delta, o, now) then GranterRow(g, p, granter) else None;
    (g.(stats := WriteRows(g.stats, granter, granterRow, u, Scored(p, row, Max(row.score + applied, 0))),
        ledger := g.ledger + [ScoreEvent(u, granter, kind, applied, reference, now)]),
     Recorded(applied, reason))
  }

  /** `record_contribution_event`. */
  function ContributeStep(
    g: Guild, u: UserId, granter: Option<UserId>, rawKind: string, delta: int,
    rawReference: Option<string>, o: VoteOptions, now: Time): (Guild, Outcome)
  {
    var kind, reference := Trim(rawKind), NormalizeReference(rawReference);
    if kind == [] then (g, Failed(EmptyEventType))
    else
      var g1 := g.(stats := g.stats[u := Sync(g.policy, EnsureStats(g.policy, g.stats, u))]);
      if reference.Some? && HasReference(g.ledger, u, kind, reference.value) then (g1, Duplicate)
      else EnterEvent(g1, u, granter, kind, delta, reference, o, now)
  }

  /** One transaction of the engine at time `now`. */
  function Step(g: Guild, r: Request, now: Time): (Guild, Outcome) {
    match r
    case HumanActivity(u) => (g.(stats := g.stats[u := ActiveRow(g, u, now)]), Done)
    case SendMessage(u, ok) => Gated(g, u, OutboundMessage, ok, now)
    case SendAttachment(u, mime, ok) => AttachmentStep(g, u, mime, ok, now)
    case ResolveContact(u) => ContactStep(g, u, now)
    case ViewSnapshot(u) =>
      var p := g.policy;
      var row := Sync(p, EnsureStats(p, g.stats, u));
      (g.(stats := g.stats[u := row]), Viewed(BuildSnapshot(p, row, g.counters, u, DayOf(now))))
    case Contribute(u, granter, kind, delta, reference, o) =>
      ContributeStep(g, u, granter, kind, delta, reference, o, now)
    case Freeze(u) =>
      if u in g.stats then (g.(stats := g.stats[u := g.stats[u].(review := Frozen)]), Done) else (g, Done)
    case Unfreeze(u) =>
      if u in g.stats then (g.(stats := g.stats[u := g.stats[u].(review := Clear, streak := 0)]), Done) else (g, Done)
    case ChangePolicy(p) =>
      match Normalize(p) {
        case Ok(n) => NormalizeIdempotent(p); (g.(policy := n), Done)
        case Err(_) => (g, Failed(PolicyRejected))
      }
    case LosePolicy => (g.(policy := DEFAULT_POLICY), Done)
    case ChangeAccount(u, account) => (g.(accounts := g.accounts[u := account]), Done)
  }

  // ---------------------------------------------------------------------
  // Runs
  // ---------------------------------------------------------------------

  datatype Event = Event(request: Request, now: Time)

  /** The engine after a serial run that starts from empty tables. */
  function After(run: seq<Event>): Guild {
    if run == [] then EMPTY_GUILD
    else Step(After(run[..|run| - 1]), run[|run| - 1].request, run[|run| - 1].now).0
  }

  /** The outcome of the `i`-th transaction of a run. */
  function OutcomeAt(run: seq<Event>, i: nat): Outcome
    requires i < |run|
  {
    Step(After(run[..i]), run[i].request, run[i].now).1
  }

  /** The clock never goes backwards. */
  ghost predicate ClockMonotone(run: seq<Event>) {
    forall i, j | 0 <= i < j < |run| :: run[i].now <= run[j].now
  }
}
