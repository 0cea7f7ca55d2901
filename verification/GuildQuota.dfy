/** Daily quotas: counters against history, limits in force, refusals and retries. */
module GuildQuota {
  import opened Core
  import opened Text
  import opened GuildPolicy
  import opened GuildEngine
  import opened GuildActivity

  /** The quota a request draws on, if any. */
  function QuotaOf(r: Request): Option<Action> {
    match r
    case SendMessage(_, _) => Some(OutboundMessage)
    case SendAttachment(_, _, _) => Some(AttachmentSend)
    case ResolveContact(_) => Some(FriendAdd)
    case _ => None
  }

  predicate DrawsOn(r: Request, now: Time, key: CounterKey) {
    QuotaOf(r) == Some(key.action) && r.user == key.user && DayOf(now) == key.day
  }

  /** The `i`-th transaction drew on `key` and was accepted. */
  predicate AcceptsAt(run: seq<Event>, i: nat, key: CounterKey)
    requires i < |run|
  {
    DrawsOn(run[i].request, run[i].now, key) && OutcomeAt(run, i).Accepted?
  }

  /** How many accepted requests of a run drew on `key`. */
  function AcceptedCount(run: seq<Event>, key: CounterKey): nat {
    if run == [] then 0
    else AcceptedCount(run[..|run| - 1], key) + if AcceptsAt(run, |run| - 1, key) then 1 else 0
  }

  /** A transaction moves exactly the counter it draws on, by one, exactly when it is accepted. */
  lemma {:induction false} StepCounters(g: Guild, r: Request, now: Time, key: CounterKey)
    ensures var (g', outcome) := Step(g, r, now);
            CountOf(g'.counters, key) ==
              CountOf(g.counters, key) + (if DrawsOn(r, now, key) && outcome.Accepted? then 1 else 0)
  {}

  /** Each daily counter equals the number of accepted actions of that kind on that day. */
  lemma {:induction false} CounterIsHistory(run: seq<Event>, key: CounterKey)
    ensures CountOf(After(run).counters, key) == AcceptedCount(run, key)
  {
    if run != [] {
      var init, e := run[..|run| - 1], run[|run| - 1];
      CounterIsHistory(init, key);
      StepCounters(After(init), e.request, e.now, key);
    }
  }

  /** Every acceptance under enforcement leaves the counter within the limit in force. */
  lemma {:induction false} AcceptedWithinLimit(g: Guild, r: Request, now: Time)
    requires QuotaOf(r).Some? && Step(g, r, now).1.Accepted?
    ensures var (g', action) := (Step(g, r, now).0, QuotaOf(r).value);
            && r.user in g'.stats
            && (Enforced(g.policy, action) && LimitFor(g.policy, g'.stats[r.user], action).Some? ==>
                  CountOf(g'.counters, CounterKey(r.user, action, DayOf(now)))
                  <= LimitFor(g.policy, g'.stats[r.user], action).value)
  {}

  /** Every limit refusal leaves the counters alone, reports nothing remaining, and is due to an enforced limit. */
  lemma {:induction false} RefusalReportsZero(g: Guild, r: Request, now: Time)
    requires Step(g, r, now).1.Limited?
    ensures var (g', outcome) := Step(g, r, now);
            && QuotaOf(r).Some? && r.user in g'.stats
            && g'.counters == g.counters && g'.ledger == g.ledger
            && Enforced(g.policy, QuotaOf(r).value)
            && LimitFor(g.policy, g'.stats[r.user], QuotaOf(r).value).Some?
            && QuotaOf(r).value in outcome.snapshot.remaining
            && outcome.snapshot.remaining[QuotaOf(r).value] == Some(0)
            && outcome.retryAfter == SecondsUntilNextDay(now)
  {
    match r
    case SendMessage(u, ok) => GatedRefusal(g, u, OutboundMessage, ok, now);
    case SendAttachment(u, _, ok) => GatedRefusal(g, u, AttachmentSend, ok, now);
    case ResolveContact(u) => GatedRefusal(g, u, FriendAdd, true, now);
    case Contribute(_, _, _, _, _, _) => ContributeNeverLimited(g, r, now);
    case _ =>
  }

  lemma {:induction false} GatedRefusal(g: Guild, u: UserId, action: Action, ok: bool, now: Time)
    ensures var (g', outcome) := Gated(g, u, action, ok, now);
            outcome.Limited? ==>
              && u in g'.stats && g'.counters == g.counters && g'.ledger == g.ledger
              && Enforced(g.policy, action) && LimitFor(g.policy, g'.stats[u], action).Some?
              && action in outcome.snapshot.remaining && outcome.snapshot.remaining[action] == Some(0)
              && outcome.retryAfter == SecondsUntilNextDay(now)
  {}

  lemma {:induction false} ContributeNeverLimited(g: Guild, r: Request, now: Time)
    requires r.Contribute?
    ensures !Step(g, r, now).1.Limited?
  {}

  /** When the wait announced at `now` is over. */
  function WaitOver(now: Time): Time { now + SecondsUntilNextDay(now) * SECOND }

  /** The wait is 1 to 86400 seconds and ends less than a second before or after midnight. */
  lemma {:induction false} WaitEndsNearMidnight(now: Time)
    ensures 1 <= SecondsUntilNextDay(now) <= 86400
    ensures NextMidnight(now) - SECOND < WaitOver(now) < NextMidnight(now) + SECOND
  {}

  /**
   * Rounding down to whole seconds makes the wait end on the same day, unless the clock read a whole
   * second or midnight was less than a second away. One second more is always enough.
   */
  lemma {:induction false} WaitReachesNextDayIff(now: Time)
    ensures DayOf(now) < DayOf(WaitOver(now)) <==> now % SECOND == 0 || NextMidnight(now) - now < SECOND
    ensures DayOf(now) < DayOf(WaitOver(now) + SECOND)
  {
    WaitEndsNearMidnight(now);
    LaterDayIff(now, WaitOver(now));
    LaterDayIff(now, WaitOver(now) + SECOND);
    RoundedDown(NextMidnight(now) - now);
    WholeSeconds((DayOf(now) + 1) * 86400, now);
  }

  lemma {:induction false} RoundedDown(gap: int)
    requires gap > 0
    ensures gap <= Max(gap / SECOND, 1) * SECOND <==> gap % SECOND == 0 || gap < SECOND
  {}

  lemma {:induction false} WholeSeconds(seconds: int, now: Time)
    ensures (seconds * SECOND - now) % SECOND == 0 <==> now % SECOND == 0
  {}

  lemma {:induction false} LaterDayIff(now: Time, later: Time)
    requires now <= later
    ensures DayOf(now) < DayOf(later) <==> NextMidnight(now) <= later
  {}

  /** The input on which it falls short: read at 23:59:58.5 of any day, the wait of one second ends at 23:59:59.5. */
  lemma {:induction false} WaitFallsShort(day: DayNumber)
    ensures var now := day * DAY + 86398 * SECOND + SECOND / 2;
            DayOf(now) == day && SecondsUntilNextDay(now) == 1 && DayOf(WaitOver(now)) == day
  {}

  /** The request can no longer fail for a reason other than its quota. */
  predicate OnlyQuotaCanRefuse(g: Guild, r: Request, now: Time) {
    match r
    case SendMessage(_, ok) => ok
    case SendAttachment(_, mime, ok) => ok && (Enforced(g.policy, AttachmentSend) ==> TrimLower(mime) in g.policy.attachmentTypes)
    case ResolveContact(u) =>
      u in g.accounts && (g.accounts[u].yellowCardUntil.Some? ==> g.accounts[u].yellowCardUntil.value <= now)
    case _ => false
  }

  /** The limit that applies to a request, were it made now. */
  function LimitInForce(g: Guild, r: Request, now: Time): Option<int>
    requires QuotaOf(r).Some?
  {
    if Enforced(g.policy, QuotaOf(r).value) then LimitFor(g.policy, ActiveRow(g, r.user, now), QuotaOf(r).value) else None
  }

  /** A request that only its quota can refuse is accepted exactly while the limit in force is not used up. */
  lemma {:induction false} AcceptedIffBelowLimit(run: seq<Event>, r: Request, now: Time)
    requires QuotaOf(r).Some? && OnlyQuotaCanRefuse(After(run), r, now)
    ensures var used := AcceptedCount(run, CounterKey(r.user, QuotaOf(r).value, DayOf(now)));
            Step(After(run), r, now).1.Accepted? <==>
              (LimitInForce(After(run), r, now).Some? ==> used < LimitInForce(After(run), r, now).value)
    ensures Step(After(run), r, now).1.Accepted? || Step(After(run), r, now).1.Limited?
  {
    CounterIsHistory(run, CounterKey(r.user, QuotaOf(r).value, DayOf(now)));
    QuotaDecides(After(run), r, now);
  }

  lemma {:induction false} QuotaDecides(g: Guild, r: Request, now: Time)
    requires QuotaOf(r).Some? && OnlyQuotaCanRefuse(g, r, now)
    ensures Step(g, r, now).1.Accepted? <==>
              (LimitInForce(g, r, now).Some? ==>
                 CountOf(g.counters, CounterKey(r.user, QuotaOf(r).value, DayOf(now))) < LimitInForce(g, r, now).value)
    ensures Step(g, r, now).1.Accepted? || Step(g, r, now).1.Limited?
  {}

  /** From the `k`-th transaction on, nothing was accepted against `key`. */
  ghost predicate UnusedSince(run: seq<Event>, k: nat, key: CounterKey) {
    forall i | k <= i < |run| :: !AcceptsAt(run, i, key)
  }

  lemma {:induction false} AcceptsAtPrefix(run: seq<Event>, n: nat, i: nat, key: CounterKey)
    requires i < n <= |run|
    ensures AcceptsAt(run[..n], i, key) == AcceptsAt(run, i, key)
  {
    assert run[..n][..i] == run[..i];
  }

  lemma {:induction false} UnusedCountsZero(run: seq<Event>, key: CounterKey)
    requires UnusedSince(run, 0, key)
    ensures AcceptedCount(run, key) == 0
  {
    if run != [] {
      var n := |run| - 1;
      forall i | 0 <= i < n ensures !AcceptsAt(run[..n], i, key) { AcceptsAtPrefix(run, n, i, key); }
      UnusedCountsZero(run[..n], key);
    }
  }

  /**
   * On any later day than that of a refusal, whenever that may be and whatever happened since: nothing
   * accepted up to the refusal counts against a new request, so a user with no acceptance of that kind
   * on the new day is accepted exactly when the limit then in force is absent or positive.
   */
  lemma {:induction false} RetryNextDaySucceeds(run: seq<Event>, k: nat, retry: Request, now: Time)
    requires k < |run| && OutcomeAt(run, k).Limited? && DayOf(run[k].now) < DayOf(now)
    requires QuotaOf(retry).Some? && OnlyQuotaCanRefuse(After(run), retry, now)
    ensures var key := CounterKey(retry.user, QuotaOf(retry).value, DayOf(now));
            AcceptedCount(run, key) == 0 || (ClockMonotone(run) && UnusedSince(run, k, key)) ==>
              (Step(After(run), retry, now).1.Accepted? <==>
                 (LimitInForce(After(run), retry, now).Some? ==> LimitInForce(After(run), retry, now).value > 0))
  {
    var key := CounterKey(retry.user, QuotaOf(retry).value, DayOf(now));
    AcceptedIffBelowLimit(run, retry, now);
    if ClockMonotone(run) && UnusedSince(run, k, key) {
      forall i | 0 <= i < k ensures !AcceptsAt(run, i, key) { DaysFollowClock(run[i].now, run[k].now); }
      UnusedCountsZero(run, key);
    }
  }

  /** A moment at which the wait announced at `refused` is over and the day has changed as well. */
  predicate WaitedEnough(refused: Time, now: Time) {
    && WaitOver(refused) <= now
    && (refused % SECOND == 0 || NextMidnight(refused) - refused < SECOND || WaitOver(refused) + SECOND <= now)
  }

  /** After the announced wait, and one second more where it was rounded, the retry is decided by the limit then in force. */
  lemma {:induction false} RetryAfterWaitSucceeds(run: seq<Event>, k: nat, retry: Request, now: Time)
    requires k < |run| && OutcomeAt(run, k).Limited? && WaitedEnough(run[k].now, now)
    requires QuotaOf(retry).Some? && OnlyQuotaCanRefuse(After(run), retry, now)
    ensures OutcomeAt(run, k).retryAfter == SecondsUntilNextDay(run[k].now) && DayOf(run[k].now) < DayOf(now)
    ensures var key := CounterKey(retry.user, QuotaOf(retry).value, DayOf(now));
            AcceptedCount(run, key) == 0 || (ClockMonotone(run) && UnusedSince(run, k, key)) ==>
              (Step(After(run), retry, now).1.Accepted? <==>
                 (LimitInForce(After(run), retry, now).Some? ==> LimitInForce(After(run), retry, now).value > 0))
  {
    RefusalReportsZero(After(run[..k]), run[k].request, run[k].now);
    WaitedIsLaterDay(run[k].now, now);
    RetryNextDaySucceeds(run, k, retry, now);
  }

  lemma {:induction false} WaitedIsLaterDay(refused: Time, now: Time)
    requires WaitedEnough(refused, now)
    ensures DayOf(refused) < DayOf(now)
  {
    WaitReachesNextDayIff(refused);
    DaysFollowClock(WaitOver(refused), now);
    if WaitOver(refused) + SECOND <= now { DaysFollowClock(WaitOver(refused) + SECOND, now); }
  }

  /** While neither the day, the counters nor the limit in force change, a refused request is refused again. */
  lemma {:induction false} SameDayRefused(g: Guild, later: Guild, r: Request, refused: Time, now: Time)
    requires QuotaOf(r).Some? && Step(g, r, refused).1.Limited? && OnlyQuotaCanRefuse(later, r, now)
    requires later.counters == g.counters && DayOf(now) == DayOf(refused)
    requires LimitInForce(later, r, now) == LimitInForce(g, r, refused)
    ensures Step(later, r, now).1.Limited?
  {
    RefusalUsedUp(g, r, refused);
    QuotaDecides(later, r, now);
  }

  /** Repeated at the very end of a wait that falls short, a refused request is refused again, unless its limit has risen. */
  lemma {:induction false} EarlyRetryRefused(g: Guild, r: Request, refused: Time)
    requires QuotaOf(r).Some? && Step(g, r, refused).1.Limited?
    requires refused % SECOND != 0 && NextMidnight(refused) - refused >= SECOND
    requires OnlyQuotaCanRefuse(Step(g, r, refused).0, r, WaitOver(refused))
    requires LimitInForce(Step(g, r, refused).0, r, WaitOver(refused)) == LimitInForce(g, r, refused)
    ensures Step(Step(g, r, refused).0, r, WaitOver(refused)).1.Limited?
  {
    WaitReachesNextDayIff(refused);
    WaitEndsNearMidnight(refused);
    DaysFollowClock(refused, WaitOver(refused));
    RefusalReportsZero(g, r, refused);
    SameDayRefused(g, Step(g, r, refused).0, r, refused, WaitOver(refused));
  }

  /** A refusal means that the limit in force was used up. */
  lemma {:induction false} RefusalUsedUp(g: Guild, r: Request, now: Time)
    requires QuotaOf(r).Some? && Step(g, r, now).1.Limited?
    ensures LimitInForce(g, r, now).Some?
    ensures CountOf(g.counters, CounterKey(r.user, QuotaOf(r).value, DayOf(now))) >= LimitInForce(g, r, now).value
  {}

  lemma {:induction false} DaysFollowClock(s: Time, t: Time)
    requires s <= t
    ensures DayOf(s) <= DayOf(t)
  {}

  /**
   * A multiplier scales a level limit and rounds down; an override without a multiplier lifts it;
   * otherwise the level limit stands.
   */
  lemma {:induction false} LimitScales(limit: int, percent: Option<int>, overrides: bool)
    ensures EffectiveLimit(None, percent, overrides).None?
    ensures percent.Some? ==>
              var scaled := EffectiveLimit(Some(limit), percent, overrides);
              scaled.Some? && 100 * scaled.value <= limit * percent.value < 100 * (scaled.value + 1)
    ensures percent.None? ==> EffectiveLimit(Some(limit), percent, overrides) == if overrides then None else Some(limit)
  {}

  /** Under a checked policy no limit is negative, and a rank that overrides without multipliers lifts them all. */
  lemma {:induction false} LimitArithmetic(p: LoadedPolicy, s: Stats, action: Action)
    requires Checked(p)
    ensures LimitFor(p, s, action).Some? ==> LimitFor(p, s, action).value >= 0
    ensures var r := RankForLimits(p, s.score);
            r.overridesLevelLimits && r.messagePercent.None? && r.friendPercent.None? && r.attachmentPercent.None? ==>
              LimitFor(p, s, action).None?
  {
    LookupsSound(p, s.activeDays, s.score);
    var l, r := LevelFor(p, s.activeDays), RankForLimits(p, s.score);
    ScaledNotNegative(l.messageLimit, r.messagePercent, r.overridesLevelLimits);
    ScaledNotNegative(l.friendLimit, r.friendPercent, r.overridesLevelLimits);
    ScaledNotNegative(l.attachmentLimit, r.attachmentPercent, r.overridesLevelLimits);
  }

  lemma {:induction false} LookupsSound(p: LoadedPolicy, days: int, score: int)
    requires Checked(p)
    ensures LevelSound(LevelFor(p, days)) && RankSound(RankFor(p, score))
  {}

  lemma {:induction false} ScaledNotNegative(limit: Option<int>, percent: Option<int>, overrides: bool)
    requires !Below(limit, 0) && !Below(percent, 1)
    ensures !Below(EffectiveLimit(limit, percent, overrides), 0)
  {}

  /** The snapshot accounts for the day: what was accepted so far, and what the limit leaves. */
  lemma {:induction false} SnapshotAccounts(run: seq<Event>, u: UserId, now: Time, action: Action)
    ensures var s := Step(After(run), ViewSnapshot(u), now).1.snapshot;
            var limit := LimitFor(After(run).policy, Step(After(run), ViewSnapshot(u), now).0.stats[u], action);
            && action in s.sent && s.sent[action] == AcceptedCount(run, CounterKey(u, action, DayOf(now)))
            && action in s.remaining && (s.remaining[action].None? <==> limit.None?)
            && (limit.Some? ==>
                  var (left, used) := (s.remaining[action].value, s.sent[action]);
                  left >= 0 && left + used >= limit.value && (left > 0 ==> left + used == limit.value))
  {
    CounterIsHistory(run, CounterKey(u, action, DayOf(now)));
    ViewedSnapshot(After(run), u, now, action);
  }

  lemma {:induction false} ViewedSnapshot(g: Guild, u: UserId, now: Time, action: Action)
    ensures var s := Step(g, ViewSnapshot(u), now).1.snapshot;
            var limit := LimitFor(g.policy, Step(g, ViewSnapshot(u), now).0.stats[u], action);
            && action in s.sent && s.sent[action] == CountOf(g.counters, CounterKey(u, action, DayOf(now)))
            && action in s.remaining && s.remaining[action] == Remaining(limit, s.sent[action])
  {}

  // ---------------------------------------------------------------------
  // Which limit, which switch
  // ---------------------------------------------------------------------

  /** How a limit comes from a level's own number, a rank's percentage for the same action and its override. */
  predicate Governs(limit: Option<int>, base: Option<int>, percent: Option<int>, overrides: bool) {
    && (base.None? ==> limit.None?)
    && (base.Some? && percent.Some? ==> limit.Some? && 100 * limit.value <= base.value * percent.value < 100 * (limit.value + 1))
    && (base.Some? && percent.None? ==> limit == if overrides then None else base)
  }

  /** Each action has its own column: messages, attachments and friend adds are limited by their own numbers. */
  lemma {:induction false} LimitByAction(p: LoadedPolicy, s: Stats)
    ensures var (l, r, on) := (LevelFor(p, s.activeDays), RankFor(p, s.score), p.enforcement.rankEngine);
            && Governs(LimitFor(p, s, OutboundMessage), l.messageLimit, if on then r.messagePercent else None, on && r.overridesLevelLimits)
            && Governs(LimitFor(p, s, AttachmentSend), l.attachmentLimit, if on then r.attachmentPercent else None, on && r.overridesLevelLimits)
            && Governs(LimitFor(p, s, FriendAdd), l.friendLimit, if on then r.friendPercent else None, on && r.overridesLevelLimits)
  {
    var (l, r) := (LevelFor(p, s.activeDays), RankForLimits(p, s.score));
    EffectiveGoverns(l.messageLimit, r.messagePercent, r.overridesLevelLimits);
    EffectiveGoverns(l.attachmentLimit, r.attachmentPercent, r.overridesLevelLimits);
    EffectiveGoverns(l.friendLimit, r.friendPercent, r.overridesLevelLimits);
  }

  lemma {:induction false} EffectiveGoverns(base: Option<int>, percent: Option<int>, overrides: bool)
    ensures Governs(EffectiveLimit(base, percent, overrides), base, percent, overrides)
  {}

  /** With the rank engine off the level's own numbers are the limits. */
  lemma {:induction false} LevelLimits(p: LoadedPolicy, s: Stats)
    requires !p.enforcement.rankEngine
    ensures LimitFor(p, s, OutboundMessage) == LevelFor(p, s.activeDays).messageLimit
    ensures LimitFor(p, s, AttachmentSend) == LevelFor(p, s.activeDays).attachmentLimit
    ensures LimitFor(p, s, FriendAdd) == LevelFor(p, s.activeDays).friendLimit
  {}

  /** One switch per action, and one for all of them. */
  lemma {:induction false} Switches(p: LoadedPolicy)
    ensures Enforced(p, OutboundMessage) <==> p.enforcement.enabled && p.enforcement.outboundMessages
    ensures Enforced(p, AttachmentSend) <==> p.enforcement.enabled && p.enforcement.attachmentSends
    ensures Enforced(p, FriendAdd) <==> p.enforcement.enabled && p.enforcement.friendAdds
  {}

  // ---------------------------------------------------------------------
  // What is refused before any quota
  // ---------------------------------------------------------------------

  /** A contact request needs an account without a running yellow card; otherwise it fails and nothing changes. */
  lemma {:induction false} ContactFailsIff(g: Guild, u: UserId, now: Time)
    ensures var (g', outcome) := Step(g, ResolveContact(u), now);
            && (outcome == Failed(NotFound) <==> u !in g.accounts)
            && (outcome == Failed(YellowCard) <==>
                  u in g.accounts && g.accounts[u].yellowCardUntil.Some? && now < g.accounts[u].yellowCardUntil.value)
            && (outcome.Failed? ==> g' == g && (outcome == Failed(NotFound) || outcome == Failed(YellowCard)))
            && !outcome.UnsupportedMime?
  {}

  /** A card stops contact requests until its own time, whatever the account was before. */
  lemma {:induction false} YellowCardStops(g: Guild, u: UserId, account: Account, issued: Time, now: Time)
    ensures var outcome := Step(Step(g, ChangeAccount(u, account), issued).0, ResolveContact(u), now).1;
            outcome.Failed? <==> account.yellowCardUntil.Some? && now < account.yellowCardUntil.value
  {
    ContactFailsIff(Step(g, ChangeAccount(u, account), issued).0, u, now);
  }

  /** Under enforcement only listed types are sent; the refusal counts nothing, but the activity is kept. */
  lemma {:induction false} AttachmentTypeRefusedIff(g: Guild, u: UserId, mime: string, ok: bool, now: Time)
    ensures var (g', outcome) := Step(g, SendAttachment(u, mime, ok), now);
            && (outcome.UnsupportedMime? <==> Enforced(g.policy, AttachmentSend) && Lower(Trim(mime)) !in g.policy.attachmentTypes)
            && (outcome.UnsupportedMime? ==>
                  g'.counters == g.counters && g'.ledger == g.ledger && g'.stats == g.stats[u := ActiveRow(g, u, now)])
  {}

  /** A send whose insert fails inside the quota changes nothing at all. */
  lemma {:induction false} FailedInsertChangesNothing(g: Guild, r: Request, now: Time)
    requires (r.SendMessage? && !r.insertSucceeds) || (r.SendAttachment? && !r.operationSucceeds)
    ensures var (g', outcome) := Step(g, r, now);
            !outcome.Accepted? && (outcome.Failed? ==> g' == g && outcome.failure == OperationFailed)
            && (!outcome.Failed? ==> outcome.Limited? || outcome.UnsupportedMime?)
  {}

  /** The snapshot repeats the row, names its own counters and shows the way to the next level. */
  lemma {:induction false} SnapshotShowsRow(p: LoadedPolicy, row: Stats, counters: map<CounterKey, int>, u: UserId, today: DayNumber, a: Action)
    ensures var s := BuildSnapshot(p, row, counters, u, today);
            && s.activeDays == row.activeDays && s.score == row.score && s.rank == row.rank && s.review == row.review
            && s.level == (if row.level < 1 then 1 else if row.level > 10 then 10 else row.level)
            && a in s.sent && s.sent[a] == CountOf(counters, CounterKey(u, a, today))
            && a in s.remaining
            && s.remaining[a] == (if LimitFor(p, row, a).None? then None else Some(Max(LimitFor(p, row, a).value - s.sent[a], 0)))
            && s.progressPercent == ProgressPercent(row.activeDays, LevelFor(p, row.activeDays).minDays,
                                                    NextLevelDays(p.levels, LevelFor(p, row.activeDays).level))
  {}

  /** The next level is the first entry with a higher number. */
  lemma {:induction false} NextLevelIsFirstHigher(levels: seq<LevelPolicy>, level: int)
    ensures NextLevelDays(levels, level).None? <==> forall i | 0 <= i < |levels| :: levels[i].level <= level
    ensures NextLevelDays(levels, level).Some? ==>
              exists i :: 0 <= i < |levels| && levels[i].level > level && NextLevelDays(levels, level) == Some(levels[i].minDays)
                       && forall j | 0 <= j < i :: levels[j].level <= level
  {
    if levels != [] && levels[0].level <= level {
      NextLevelIsFirstHigher(levels[1..], level);
      assert forall i | 1 <= i < |levels| :: levels[i] == levels[1..][i - 1];
      if NextLevelDays(levels, level).Some? {
        var i :| 0 <= i < |levels[1..]| && levels[1..][i].level > level && NextLevelDays(levels[1..], level) == Some(levels[1..][i].minDays)
                       && forall j | 0 <= j < i :: levels[1..][j].level <= level;
        assert levels[i + 1] == levels[1..][i];
      }
    }
  }

  /** A new user's row: no days, no score, the lowest level and rank, nothing remembered. */
  lemma {:induction false} NewUserRow(p: LoadedPolicy)
    ensures FreshStats(p) == Stats(0, 0, LevelFor(p, 0).level, RankFor(p, 0).rank, None, None, 0, Clear)
  {}

  // ---------------------------------------------------------------------
  // The built-in policy
  // ---------------------------------------------------------------------

  /** The daily limits of the built-in levels, in numbers. */
  function DefaultBase(days: nat, a: Action): Option<int> {
    match a
    case OutboundMessage =>
      if days < 7 then Some(50) else if days < 14 then Some(100) else if days < 30 then Some(200)
      else if days < 60 then Some(500) else if days < 90 then Some(1000) else None
    case FriendAdd =>
      if days < 7 then Some(5) else if days < 14 then Some(10) else if days < 30 then Some(20) else if days < 120 then Some(30) else Some(50)
    case AttachmentSend => if days < 14 then Some(5) else if days < 30 then Some(10) else None
  }

  /** The percentage of a built-in rank; from 5000 points on there is no limit. */
  function DefaultPercent(score: nat): Option<int> {
    if score >= 5000 then None
    else Some(if 500 <= score < 1000 then 120 else if 2500 <= score < 5000 then 150 else 100)
  }

  function Scaled(base: Option<int>, percent: Option<int>): Option<int> {
    if base.None? || percent.None? then None else Some(base.value * percent.value / 100)
  }

  lemma {:induction false} DefaultColumns(days: nat)
    ensures var l := LevelFor(DEFAULT_POLICY, days);
            && l.messageLimit == DefaultBase(days, OutboundMessage) && l.friendLimit == DefaultBase(days, FriendAdd)
            && l.attachmentLimit == DefaultBase(days, AttachmentSend)
  {
    DefaultLevelFound(days);
  }

  lemma {:induction false} DefaultPercents(score: nat)
    ensures var r := RankFor(DEFAULT_POLICY, score);
            && r.messagePercent == r.friendPercent == r.attachmentPercent && (r.overridesLevelLimits <==> score >= 5000)
            && r.messagePercent == if 500 <= score < 1000 then Some(120) else if 2500 <= score < 5000 then Some(150) else None
  {
    DefaultRankFound(score);
  }

  lemma {:induction false} DefaultSwitches(a: Action)
    ensures DEFAULT_POLICY.enforcement.rankEngine && Enforced(DEFAULT_POLICY, a)
    ensures DEFAULT_POLICY.upvoteDailyCap == 100 && DEFAULT_POLICY.counterRetentionDays == 45 && DEFAULT_POLICY.eventRetentionDays == 180
  {}

  /** The limits under the built-in policy. */
  lemma {:induction false} DefaultLimits(s: Stats, a: Action)
    requires s.activeDays >= 0 && s.score >= 0
    ensures LimitFor(DEFAULT_POLICY, s, a) == Scaled(DefaultBase(s.activeDays, a), DefaultPercent(s.score))
    ensures Enforced(DEFAULT_POLICY, a)
  {
    DefaultSwitches(a);
    DefaultColumns(s.activeDays);
    DefaultPercents(s.score);
    EffectiveScaled(DefaultBase(s.activeDays, a), s.score);
  }

  lemma {:induction false} EffectiveScaled(base: Option<int>, score: nat)
    ensures EffectiveLimit(base, if 500 <= score < 1000 then Some(120) else if 2500 <= score < 5000 then Some(150) else None, score >= 5000)
            == Scaled(base, DefaultPercent(score))
  {}

  /** A limit that allows no more than another; no limit allows everything. */
  predicate AtMost(limit: Option<int>, other: Option<int>) { other.None? || (limit.Some? && limit.value <= other.value) }

  lemma {:induction false} ScaledGrows(base: Option<int>, other: Option<int>, score: nat)
    requires AtMost(base, other)
    ensures AtMost(Scaled(base, DefaultPercent(score)), Scaled(other, DefaultPercent(score)))
  {}

  lemma {:induction false} DefaultBaseGrows(days: nat, later: nat, a: Action)
    requires days <= later
    ensures AtMost(DefaultBase(days, a), DefaultBase(later, a))
  {}

  /** Under the built-in policy more active days never lower a limit. */
  lemma {:induction false} DefaultLimitsGrow(s: Stats, t: Stats, a: Action)
    requires 0 <= s.activeDays <= t.activeDays && s.score == t.score >= 0
    ensures AtMost(LimitFor(DEFAULT_POLICY, s, a), LimitFor(DEFAULT_POLICY, t, a))
  {
    DefaultLimits(s, a);
    DefaultLimits(t, a);
    DefaultBaseGrows(s.activeDays, t.activeDays, a);
    ScaledGrows(DefaultBase(s.activeDays, a), DefaultBase(t.activeDays, a), s.score);
  }

  lemma {:induction false} PercentGrowsIff(base: int, score: nat, more: nat)
    requires base >= 5 && score <= more
    ensures AtMost(Scaled(Some(base), DefaultPercent(score)), Scaled(Some(base), DefaultPercent(more))) <==>
            !(500 <= score < 1000 <= more < 2500)
  {}

  /** More points do lower a limit, exactly from rank D to rank C, whose entry has no percentage of its own. */
  lemma {:induction false} HigherScoreKeepsLimitIff(s: Stats, t: Stats, a: Action)
    requires s.activeDays == t.activeDays >= 0 && 0 <= s.score <= t.score
    ensures AtMost(LimitFor(DEFAULT_POLICY, s, a), LimitFor(DEFAULT_POLICY, t, a)) <==>
            DefaultBase(s.activeDays, a).None? || !(500 <= s.score < 1000 <= t.score < 2500)
  {
    DefaultLimits(s, a);
    DefaultLimits(t, a);
    if DefaultBase(s.activeDays, a).Some? { PercentGrowsIff(DefaultBase(s.activeDays, a).value, s.score, t.score); }
  }

  /** For instance: a new user's 51st to 60th message of the day are admitted with 999 points and refused with 1000. */
  lemma {:induction false} HigherScoreLowersLimit(s: Stats)
    requires s.activeDays == 0
    ensures LimitFor(DEFAULT_POLICY, s.(score := 999), OutboundMessage) == Some(60)
    ensures LimitFor(DEFAULT_POLICY, s.(score := 1000), OutboundMessage) == Some(50)
  {
    DefaultLimits(s.(score := 999), OutboundMessage);
    DefaultLimits(s.(score := 1000), OutboundMessage);
  }
}
