/** What every run keeps about a user's row: review state, streak, active days and cached level and rank. */
module GuildActivity {
  import opened Core
  import opened GuildPolicy
  import opened GuildEngine

  /** How a transaction bears on the activity columns of one user's row. */
  datatype Effect = Untouched | Acted | AdminFroze | AdminUnfroze

  predicate IsActivity(r: Request) {
    r.HumanActivity? || r.SendMessage? || r.SendAttachment? || r.ResolveContact?
  }

  function EffectOn(g: Guild, r: Request, now: Time, u: UserId): Effect {
    if IsActivity(r) && r.user == u && !Step(g, r, now).1.Failed? then Acted
    else if r == Freeze(u) && u in g.stats then AdminFroze
    else if r == Unfreeze(u) && u in g.stats then AdminUnfroze
    else Untouched
  }

  /** The row a transaction starts from. */
  function RowOf(g: Guild, u: UserId): Stats { EnsureStats(g.policy, g.stats, u) }

  /** Two rows with the same activity columns. */
  predicate SamePulse(s: Stats, t: Stats) {
    && s.activeDays == t.activeDays && s.lastActiveDay == t.lastActiveDay && s.lastHumanAt == t.lastHumanAt
    && s.streak == t.streak && s.review == t.review
  }

  /** What a transaction with the given effect leaves of the activity columns of `u`. */
  ghost predicate Affected(g: Guild, g': Guild, u: UserId, effect: Effect, now: Time) {
    && g.stats.Keys <= g'.stats.Keys
    && (effect.Acted? ==> u in g'.stats)
    && (u in g'.stats ==>
          match effect
          case Untouched => SamePulse(g'.stats[u], RowOf(g, u))
          case Acted => g'.stats[u] == ActiveRow(g, u, now)
          case AdminFroze => u in g.stats && g'.stats[u] == g.stats[u].(review := Frozen)
          case AdminUnfroze => u in g.stats && g'.stats[u] == g.stats[u].(review := Clear, streak := 0))
  }

  /** The complete effect of any transaction on any user's activity columns. */
  lemma {:induction false} StepEffect(g: Guild, r: Request, now: Time, u: UserId)
    ensures Affected(g, Step(g, r, now).0, u, EffectOn(g, r, now, u), now)
  {
    if r.Contribute? { ContributeEffect(g, r, now, u); }
    else if IsActivity(r) { ActedEffect(g, r, now, u); }
    else if r.Freeze? || r.Unfreeze? { AdminEffect(g, r, now, u); }
    else { QuietEffect(g, r, now, u); }
  }

  /** An activity either fails and changes nothing, or leaves exactly the user's row acted on. */
  lemma {:induction false} ActivityEffect(g: Guild, r: Request, now: Time)
    requires IsActivity(r)
    ensures var (g', outcome) := Step(g, r, now);
            if outcome.Failed? then g' == g else g'.stats == g.stats[r.user := ActiveRow(g, r.user, now)]
  {}

  lemma {:induction false} ActedEffect(g: Guild, r: Request, now: Time, u: UserId)
    requires IsActivity(r)
    ensures Affected(g, Step(g, r, now).0, u, EffectOn(g, r, now, u), now)
  {
    ActivityEffect(g, r, now);
  }

  lemma {:induction false} AdminEffect(g: Guild, r: Request, now: Time, u: UserId)
    requires r.Freeze? || r.Unfreeze?
    ensures Affected(g, Step(g, r, now).0, u, EffectOn(g, r, now, u), now)
  {}

  lemma {:induction false} QuietEffect(g: Guild, r: Request, now: Time, u: UserId)
    requires r.ViewSnapshot? || r.ChangePolicy? || r.LosePolicy? || r.ChangeAccount?
    ensures Affected(g, Step(g, r, now).0, u, EffectOn(g, r, now, u), now)
  {}

  /** Every row after a score event is the old one, a synchronised one, or the user's with a new score. */
  lemma {:induction false} ContributeRows(g: Guild, r: Request, now: Time, u: UserId)
    requires r.Contribute?
    ensures var g' := Step(g, r, now).0;
            && g.stats.Keys <= g'.stats.Keys
            && (u in g'.stats ==>
                  var row := g'.stats[u];
                  || (u in g.stats && row == g.stats[u])
                  || row == Sync(g.policy, RowOf(g, u))
                  || row == Scored(g.policy, Sync(g.policy, RowOf(g, u)), row.score))
  {}

  lemma {:induction false} ContributeEffect(g: Guild, r: Request, now: Time, u: UserId)
    requires r.Contribute?
    ensures Affected(g, Step(g, r, now).0, u, EffectOn(g, r, now, u), now)
  {
    ContributeRows(g, r, now, u);
  }

  // ---------------------------------------------------------------------
  // Review state against streak
  // ---------------------------------------------------------------------

  ghost predicate ReviewMatchesStreak(s: Stats) {
    && (s.review == Clear ==> s.streak == 0)
    && (s.review == Challenged ==> 1 <= s.streak <= 2)
    && 0 <= s.streak <= 3
    && s.activeDays >= 0
  }

  lemma {:induction false} ActKeepsReview(p: LoadedPolicy, s: Stats, now: Time)
    requires ReviewMatchesStreak(s)
    ensures ReviewMatchesStreak(Act(p, Sync(p, s), now))
  {}

  lemma {:induction false} AffectedKeepsReview(g: Guild, g': Guild, u: UserId, effect: Effect, now: Time)
    requires Affected(g, g', u, effect, now) && ReviewMatchesStreak(RowOf(g, u)) && u in g'.stats
    ensures ReviewMatchesStreak(g'.stats[u])
  {
    ActKeepsReview(g.policy, RowOf(g, u), now);
  }

  /** Clear means streak 0, challenged means 1 or 2, and the streak never leaves 0..3. */
  lemma {:induction false} ReviewInvariant(run: seq<Event>, u: UserId)
    ensures ReviewMatchesStreak(RowOf(After(run), u))
  {
    if run != [] {
      var init, e := run[..|run| - 1], run[|run| - 1];
      ReviewInvariant(init, u);
      StepEffect(After(init), e.request, e.now, u);
      if u in After(run).stats {
        AffectedKeepsReview(After(init), After(run), u, EffectOn(After(init), e.request, e.now, u), e.now);
      }
    }
  }

  function StreakAfter(run: seq<Event>, u: UserId): int {
    if u in After(run).stats then After(run).stats[u].streak else 0
  }

  /** The `i`-th transaction is a suspicious new-day attempt of `u`, made while not frozen. */
  predicate SuspiciousAt(run: seq<Event>, i: nat, u: UserId)
    requires i < |run|
  {
    var g, e := After(run[..i]), run[i];
    && EffectOn(g, e.request, e.now, u) == Acted
    && RowOf(g, u).review != Frozen
    && SuspiciousAttempt(RowOf(g, u), DayOf(e.now), e.now)
  }

  /** How many of the transactions from the `from`-th on are suspicious attempts of `u`. */
  function SuspiciousCount(run: seq<Event>, from: nat, u: UserId): nat {
    if |run| <= from then 0
    else SuspiciousCount(run[..|run| - 1], from, u) + (if SuspiciousAt(run, |run| - 1, u) then 1 else 0)
  }

  /** The streak of `u` after each prefix of the run, the empty one included. */
  function Streaks(run: seq<Event>, u: UserId): (h: seq<int>)
    ensures |h| == |run| + 1 && h[0] == 0
  {
    seq(|run| + 1, m requires 0 <= m <= |run| => StreakAfter(run[..m], u))
  }

  /** The latest zero of a sequence that starts with one. */
  function LatestZero(h: seq<int>): (k: nat)
    requires h != [] && h[0] == 0
    ensures k < |h| && h[k] == 0
    ensures forall m | k < m < |h| :: h[m] != 0
  {
    if h[|h| - 1] == 0 then |h| - 1 else LatestZero(h[..|h| - 1])
  }

  /** The latest point of the run at which the streak of `u` was zero. */
  function LastZero(run: seq<Event>, u: UserId): nat { LatestZero(Streaks(run, u)) }

  lemma {:induction false} StreaksGrow(run: seq<Event>, u: UserId)
    requires run != []
    ensures Streaks(run, u) == Streaks(run[..|run| - 1], u) + [StreakAfter(run, u)]
  {
    var init := run[..|run| - 1];
    assert run[..|run|] == run;
    forall m | 0 <= m <= |init| ensures init[..m] == run[..m] {}
  }

  lemma {:induction false} LastZeroStays(run: seq<Event>, u: UserId)
    requires run != [] && StreakAfter(run, u) != 0
    ensures LastZero(run, u) == LastZero(run[..|run| - 1], u) < |run|
  {
    StreaksGrow(run, u);
    assert Streaks(run, u)[..|run|] == Streaks(run[..|run| - 1], u);
  }

  /** The streak never exceeds the suspicious attempts since it was last zero. */
  lemma {:induction false} StreakBoundedByAttempts(run: seq<Event>, u: UserId)
    ensures StreakAfter(run, u) <= SuspiciousCount(run, LastZero(run, u), u)
  {
    if run != [] && StreakAfter(run, u) != 0 {
      LastZeroStays(run, u);
      StreakBoundedByAttempts(run[..|run| - 1], u);
      StreakStep(run, u);
    }
  }

  /** A step raises the streak by one at most, and only at a suspicious attempt. */
  lemma {:induction false} StreakStep(run: seq<Event>, u: UserId)
    requires run != []
    ensures StreakAfter(run, u) <= StreakAfter(run[..|run| - 1], u) + if SuspiciousAt(run, |run| - 1, u) then 1 else 0
  {
    var init, e := run[..|run| - 1], run[|run| - 1];
    StepEffect(After(init), e.request, e.now, u);
    ReviewInvariant(init, u);
  }

  /** An automatic freeze comes only after three suspicious attempts since the streak was last zero. */
  lemma {:induction false} FreezeNeedsThreeAttempts(run: seq<Event>, u: UserId)
    requires run != []
    requires var g, e := After(run[..|run| - 1]), run[|run| - 1];
             EffectOn(g, e.request, e.now, u) == Acted && RowOf(g, u).review != Frozen
    requires u in After(run).stats && After(run).stats[u].review == Frozen
    ensures SuspiciousCount(run, LastZero(run, u), u) >= 3
    ensures SuspiciousAt(run, |run| - 1, u)
  {
    var init, e := run[..|run| - 1], run[|run| - 1];
    StreakBoundedByAttempts(run, u);
    StepEffect(After(init), e.request, e.now, u);
    ReviewInvariant(init, u);
    FreezingAttempt(After(init).policy, RowOf(After(init), u), e.now);
  }

  lemma {:induction false} FreezingAttempt(p: LoadedPolicy, s: Stats, now: Time)
    requires s.review != Frozen && Act(p, Sync(p, s), now).review == Frozen
    ensures Act(p, Sync(p, s), now).streak >= 3
    ensures s.streak < 3 ==> SuspiciousAttempt(s, DayOf(now), now)
  {}

  // ---------------------------------------------------------------------
  // Time of the last activity, and recovery from a freeze
  // ---------------------------------------------------------------------

  /** When `u` last completed an activity in the run. */
  function LastActivity(run: seq<Event>, u: UserId): Option<Time> {
    if run == [] then None
    else
      var init, e := run[..|run| - 1], run[|run| - 1];
      if EffectOn(After(init), e.request, e.now, u) == Acted then Some(e.now) else LastActivity(init, u)
  }

  /** The row remembers exactly the last activity, and no active day lies beyond it. */
  lemma {:induction false} RowRemembersActivity(run: seq<Event>, u: UserId)
    requires ClockMonotone(run)
    ensures RowOf(After(run), u).lastHumanAt == LastActivity(run, u)
    ensures LastActivity(run, u).Some? ==> run != [] && LastActivity(run, u).value <= run[|run| - 1].now
    ensures RowOf(After(run), u).lastActiveDay.Some? ==>
              LastActivity(run, u).Some? && RowOf(After(run), u).lastActiveDay.value <= DayOf(LastActivity(run, u).value)
  {
    if run != [] {
      var init, e := run[..|run| - 1], run[|run| - 1];
      RowRemembersActivity(init, u);
      StepEffect(After(init), e.request, e.now, u);
      if init != [] { assert run[|init| - 1].now <= run[|run| - 1].now; }
    }
  }

  /** In reachable states the day check of the recovery rule already follows from the 24 quiet hours. */
  lemma {:induction false} DayCheckRedundant(run: seq<Event>, u: UserId, now: Time)
    requires ClockMonotone(run)
    requires QuietLongEnough(RowOf(After(run), u), now)
    ensures AttemptsNewDay(RowOf(After(run), u), DayOf(now))
  {
    RowRemembersActivity(run, u);
  }

  /** Ten minutes since the last activity suffice for a new day, but a frozen user needs a day. */
  predicate PausedEnough(last: Option<Time>, frozen: bool, now: Time) {
    last.Some? ==> now - last.value >= if frozen then 24 * 3600 * SECOND else 600 * SECOND
  }

  /** The streak an activity leads to, from what the history says about it. */
  function NextStreak(streak: int, frozen: bool, newDay: bool, paused: bool): int {
    if frozen then (if newDay && paused then 0 else streak)
    else if newDay then (if paused then Max(streak - 1, 0) else streak + 1)
    else streak
  }

  /** The review state follows the streak, except that a freeze outlasts anything but a recovery. */
  function NextReview(streak: int, staysFrozen: bool): Review {
    if staysFrozen || streak >= 3 then Frozen else if streak > 0 then Challenged else Clear
  }

  lemma {:induction false} ActRule(p: LoadedPolicy, s: Stats, now: Time)
    requires ReviewMatchesStreak(s)
    ensures var newDay := s.lastActiveDay != Some(DayOf(now));
            var paused := PausedEnough(s.lastHumanAt, s.review == Frozen, now);
            var t := Act(p, Sync(p, s), now);
            && t.activeDays == s.activeDays + (if newDay && paused then 1 else 0)
            && t.lastActiveDay == (if newDay && paused then Some(DayOf(now)) else s.lastActiveDay)
            && t.streak == NextStreak(s.streak, s.review == Frozen, newDay, paused)
            && t.review == NextReview(t.streak, s.review == Frozen && !(newDay && paused))
            && t.score == s.score
  {}

  /**
   * In every run, an activity counts its day exactly when the day is not counted yet and the pause
   * since the last activity in the history is long enough; the streak rises by one for a hasty new
   * day and falls by one for a proper one.
   */
  lemma {:induction false} ActivityRule(run: seq<Event>, e: Event, u: UserId)
    requires ClockMonotone(run) && EffectOn(After(run), e.request, e.now, u) == Acted
    ensures u in After(run + [e]).stats
    ensures var s, t := RowOf(After(run), u), After(run + [e]).stats[u];
            var newDay := s.lastActiveDay != Some(DayOf(e.now));
            var paused := PausedEnough(LastActivity(run, u), s.review == Frozen, e.now);
            && t.activeDays == s.activeDays + (if newDay && paused then 1 else 0)
            && t.lastActiveDay == (if newDay && paused then Some(DayOf(e.now)) else s.lastActiveDay)
            && t.streak == NextStreak(s.streak, s.review == Frozen, newDay, paused)
            && t.review == NextReview(t.streak, s.review == Frozen && !(newDay && paused))
            && t.score == s.score
  {
    RowRemembersActivity(run, u);
    ReviewInvariant(run, u);
    assert (run + [e])[..|run|] == run;
    StepEffect(After(run), e.request, e.now, u);
    ActRule(After(run).policy, RowOf(After(run), u), e.now);
  }

  /** The first activity after 24 quiet hours clears the freeze and counts the day. */
  lemma {:induction false} QuietPeriodRecovers(run: seq<Event>, e: Event, u: UserId)
    requires ClockMonotone(run)
    requires RowOf(After(run), u).review == Frozen
    requires LastActivity(run, u).Some? ==> e.now - LastActivity(run, u).value >= RECOVERY_WINDOW
    requires EffectOn(After(run), e.request, e.now, u) == Acted
    ensures u in After(run + [e]).stats
    ensures var s, t := RowOf(After(run), u), After(run + [e]).stats[u];
            && t.review == Clear && t.streak == 0
            && t.activeDays == s.activeDays + 1 && t.lastActiveDay == Some(DayOf(e.now))
  {
    ActivityRule(run, e, u);
    RowRemembersActivity(run, u);
    QuietIsNewDay(RowOf(After(run), u), e.now);
  }

  lemma {:induction false} QuietIsNewDay(s: Stats, now: Time)
    requires QuietLongEnough(s, now)
    requires s.lastActiveDay.Some? ==> s.lastHumanAt.Some? && s.lastActiveDay.value <= DayOf(s.lastHumanAt.value)
    ensures s.lastActiveDay != Some(DayOf(now))
  {}

  /** At the `i`-th transaction no admin unfreezes `u`, and an activity of `u` does not follow 24 quiet hours. */
  ghost predicate NotQuietAt(run: seq<Event>, i: nat, u: UserId)
    requires i < |run|
  {
    && run[i].request != Unfreeze(u)
    && (EffectOn(After(run[..i]), run[i].request, run[i].now, u) == Acted ==>
          && LastActivity(run[..i], u).Some?
          && run[i].now - LastActivity(run[..i], u).value < RECOVERY_WINDOW)
  }

  ghost predicate NeverQuiet(run: seq<Event>, from: nat, u: UserId) {
    forall i | from <= i < |run| :: NotQuietAt(run, i, u)
  }

  lemma {:induction false} NotQuietPrefix(run: seq<Event>, n: nat, i: nat, u: UserId)
    requires i < n <= |run|
    ensures NotQuietAt(run[..n], i, u) == NotQuietAt(run, i, u)
  {
    assert run[..n][..i] == run[..i];
  }

  lemma {:induction false} NeverQuietPrefix(run: seq<Event>, from: nat, u: UserId)
    requires from < |run| && NeverQuiet(run, from, u)
    ensures NeverQuiet(run[..|run| - 1], from, u)
  {
    var n := |run| - 1;
    forall i | from <= i < n ensures NotQuietAt(run[..n], i, u) { NotQuietPrefix(run, n, i, u); }
  }

  /** One transaction keeps a freeze unless it is an unfreeze or follows 24 quiet hours. */
  lemma {:induction false} FrozenStep(g: Guild, r: Request, now: Time, u: UserId)
    requires u in g.stats && g.stats[u].review == Frozen && r != Unfreeze(u)
    requires EffectOn(g, r, now, u) == Acted ==> !QuietLongEnough(g.stats[u], now)
    ensures var g' := Step(g, r, now).0;
            && u in g'.stats && g'.stats[u].review == Frozen
            && g'.stats[u].activeDays == g.stats[u].activeDays
            && g'.stats[u].lastActiveDay == g.stats[u].lastActiveDay
  {
    StepEffect(g, r, now, u);
  }

  /** A frozen user who is never quiet for 24 hours stays frozen and gains no active day. */
  lemma {:induction false} NeverQuietStaysFrozen(run: seq<Event>, from: nat, u: UserId)
    requires ClockMonotone(run) && from <= |run|
    requires u in After(run[..from]).stats && After(run[..from]).stats[u].review == Frozen
    requires NeverQuiet(run, from, u)
    ensures u in After(run).stats && After(run).stats[u].review == Frozen
    ensures After(run).stats[u].activeDays == After(run[..from]).stats[u].activeDays
    ensures After(run).stats[u].lastActiveDay == After(run[..from]).stats[u].lastActiveDay
  {
    if from == |run| {
      assert run[..from] == run;
    } else {
      var init, e := run[..|run| - 1], run[|run| - 1];
      assert init[..from] == run[..from];
      NeverQuietPrefix(run, from, u);
      NeverQuietStaysFrozen(init, from, u);
      RowRemembersActivity(init, u);
      assert NotQuietAt(run, |run| - 1, u);
      FrozenStep(After(init), e.request, e.now, u);
    }
  }

  // ---------------------------------------------------------------------
  // Cached level and rank
  // ---------------------------------------------------------------------

  predicate CacheFresh(p: LoadedPolicy, s: Stats)
  {
    s.level == LevelFor(p, s.activeDays).level && s.rank == RankFor(p, s.score).rank
  }

  /** A transaction that synchronises the row of `r.user`. */
  predicate IsGuildTransaction(r: Request) { IsActivity(r) || r.ViewSnapshot? || r.Contribute? }

  /** After every completed guild transaction the user's cached level and rank equal the lookups. */
  lemma {:induction false} CacheFreshAfterTransaction(g: Guild, r: Request, now: Time)
    requires IsGuildTransaction(r) && !Step(g, r, now).1.Failed?
    ensures var g' := Step(g, r, now).0;
            r.user in g'.stats && CacheFresh(g.policy, g'.stats[r.user])
  {
    if IsActivity(r) {
      StepEffect(g, r, now, r.user);
      ActKeepsCacheFresh(g.policy, Sync(g.policy, RowOf(g, r.user)), now);
    }
  }

  lemma {:induction false} ActKeepsCacheFresh(p: LoadedPolicy, s: Stats, now: Time)
    requires CacheFresh(p, s)
    ensures CacheFresh(p, Act(p, s, now))
  {}

  /** The setting after a request: saved when acceptable, or lost. */
  function StoredNext(s: StoredPolicy, r: Request): StoredPolicy {
    match r
    case ChangePolicy(p) => SavePolicy(s, p).0
    case LosePolicy => Missing
    case _ => s
  }

  function StoredAfter(run: seq<Event>): StoredPolicy {
    if run == [] then Missing else StoredNext(StoredAfter(run[..|run| - 1]), run[|run| - 1].request)
  }

  lemma {:induction false} StepLoads(g: Guild, r: Request, now: Time, s: StoredPolicy)
    requires g.policy == LoadPolicy(s)
    ensures Step(g, r, now).0.policy == LoadPolicy(StoredNext(s, r))
  {
    if r.ChangePolicy? {
      if Normalize(r.policy).Ok? { NormalizeIdempotent(r.policy); }
    } else if !r.LosePolicy? {
      PolicyUnchanged(g, r, now);
    }
  }

  /** In every run the policy in force is the one that loading the setting gives, and it is a checked one. */
  lemma {:induction false} PolicyInForceChecked(run: seq<Event>)
    ensures After(run).policy == LoadPolicy(StoredAfter(run))
    ensures Checked(After(run).policy)
  {
    if run != [] {
      var init, e := run[..|run| - 1], run[|run| - 1];
      PolicyInForceChecked(init);
      StepLoads(After(init), e.request, e.now, StoredAfter(init));
    }
    LoadedPolicyNormalized(StoredAfter(run));
  }

  lemma {:induction false} PolicyUnchanged(g: Guild, r: Request, now: Time)
    requires !r.ChangePolicy? && !r.LosePolicy?
    ensures Step(g, r, now).0.policy == g.policy
  {}

  /** Every stored level is between 1 and 10, so the clamp in a snapshot never changes it. */
  lemma {:induction false} StoredLevelInRange(run: seq<Event>, u: UserId)
    requires u in After(run).stats
    ensures 1 <= After(run).stats[u].level <= 10 && !After(run).stats[u].rank.Unknown?
  {
    if run != [] {
      var init, e := run[..|run| - 1], run[|run| - 1];
      if u in After(init).stats { StoredLevelInRange(init, u); }
      PolicyInForceChecked(init);
      StepLevelInRange(After(init), e.request, e.now, u);
    }
  }

  ghost predicate InRange(s: Stats) { 1 <= s.level <= 10 && !s.rank.Unknown? }

  lemma {:induction false} StepLevelInRange(g: Guild, r: Request, now: Time, u: UserId)
    requires Checked(g.policy)
    requires u in g.stats ==> InRange(g.stats[u])
    requires u in Step(g, r, now).0.stats
    ensures InRange(Step(g, r, now).0.stats[u])
  {
    if IsActivity(r) {
      ActivityEffect(g, r, now);
      if r.user == u && !Step(g, r, now).1.Failed? {
        CacheFreshAfterTransaction(g, r, now);
        FreshInRange(g.policy, ActiveRow(g, u, now));
      }
    } else if r.Contribute? {
      ContributeLevelInRange(g, r, now, u);
    } else if r == ViewSnapshot(u) {
      FreshInRange(g.policy, Sync(g.policy, RowOf(g, u)));
    }
  }

  lemma {:induction false} ContributeLevelInRange(g: Guild, r: Request, now: Time, u: UserId)
    requires Checked(g.policy) && r.Contribute?
    requires u in g.stats ==> InRange(g.stats[u])
    requires u in Step(g, r, now).0.stats
    ensures InRange(Step(g, r, now).0.stats[u])
  {
    var p, row := g.policy, Step(g, r, now).0.stats[u];
    if row != RowOf(g, u) || u !in g.stats {
      ContributeCache(g, r, now, u);
      FreshInRange(p, row);
    }
  }

  /** A score event either leaves a row alone or leaves its cache fresh. */
  lemma {:induction false} ContributeCache(g: Guild, r: Request, now: Time, u: UserId)
    requires r.Contribute? && u in Step(g, r, now).0.stats
    ensures var s := Step(g, r, now).0.stats[u];
            (u in g.stats && s == g.stats[u]) || CacheFresh(g.policy, s)
  {
    ContributeRows(g, r, now, u);
  }

  lemma {:induction false} FreshInRange(p: LoadedPolicy, s: Stats)
    requires Checked(p) && CacheFresh(p, s)
    ensures InRange(s)
  {
    LevelLookupUnique(p, s.activeDays);
    RankLookupUnique(p, s.score);
  }

  /** So the level shown in a snapshot is the level looked up under the policy in force. */
  lemma {:induction false} SnapshotShowsLookup(g: Guild, u: UserId, now: Time)
    requires Checked(g.policy)
    ensures var s := Step(g, ViewSnapshot(u), now).1.snapshot;
            && s.level == LevelFor(g.policy, s.activeDays).level
            && s.rank == RankFor(g.policy, s.score).rank
            && 0 <= s.progressPercent <= 100
  {
    var p := g.policy;
    SnapshotOfFreshRow(p, Sync(p, RowOf(g, u)), g.counters, u, DayOf(now));
  }

  lemma {:induction false} SnapshotOfFreshRow(p: LoadedPolicy, row: Stats, counters: map<CounterKey, int>, u: UserId, today: DayNumber)
    requires Checked(p) && CacheFresh(p, row)
    ensures var s := BuildSnapshot(p, row, counters, u, today);
            && s.level == row.level && s.rank == row.rank && s.activeDays == row.activeDays && s.score == row.score
            && 0 <= s.progressPercent <= 100
  {
    LevelLookupUnique(p, row.activeDays);
    var l := LevelFor(p, row.activeDays);
    ProgressIsPercentage(row.activeDays, l.minDays, NextLevelDays(p.levels, l.level));
  }

  /** Progress is a percentage: 0 at the start of a level and 100 once the next one is due. */
  lemma {:induction false} ProgressIsPercentage(days: int, minDays: int, next: Option<int>)
    ensures 0 <= ProgressPercent(days, minDays, next) <= 100
    ensures next.Some? && minDays < next.value && days >= next.value ==> ProgressPercent(days, minDays, next) == 100
    ensures next.Some? && days <= minDays ==> ProgressPercent(days, minDays, next) == 0
    ensures next.Some? && minDays <= days < next.value ==>
              var (percent, span) := (ProgressPercent(days, minDays, next), next.value - minDays);
              percent * span <= (days - minDays) * 100 < (percent + 1) * span
  {
    if next.Some? {
      var span := Max(next.value - minDays, 1);
      PercentBounds(Max(0, Min(days - minDays, span)), span);
    }
  }

  lemma {:induction false} PercentBounds(part: int, whole: int)
    requires 0 <= part <= whole && 0 < whole
    ensures 0 <= part * 100 / whole <= 100
    ensures part == whole ==> part * 100 / whole == 100
    ensures (part * 100 / whole) * whole <= part * 100 < (part * 100 / whole + 1) * whole
  {}

  /** A policy change is taken exactly for an acceptable policy and touches nothing else; a refused one changes nothing. */
  lemma {:induction false} PolicyChangeIff(g: Guild, p: Policy, now: Time)
    ensures var (g', outcome) := Step(g, ChangePolicy(p), now);
            && (outcome == Done <==> Acceptable(p))
            && (outcome == Done ==> g' == g.(policy := g'.policy) && Normalize(p) == Ok(g'.policy))
            && (outcome != Done ==> outcome == Failed(PolicyRejected) && g' == g)
  {
    NormalizeAcceptsIff(p);
  }

  /** Recording activity and the administrator's actions always succeed. */
  lemma {:induction false} AlwaysDone(g: Guild, r: Request, now: Time)
    requires r.HumanActivity? || r.Freeze? || r.Unfreeze? || r.LosePolicy? || r.ChangeAccount?
    ensures Step(g, r, now).1 == Done && Step(g, r, now).0.counters == g.counters && Step(g, r, now).0.ledger == g.ledger
  {}
}
