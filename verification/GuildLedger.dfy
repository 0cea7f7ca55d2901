/** The append-only score ledger: what it says about scores, and what voting rules it obeys in every run. */
module GuildLedger {
  import opened Core
  import opened Text
  import opened GuildPolicy
  import opened GuildEngine
  import opened GuildActivity

  // ---------------------------------------------------------------------
  // What a transaction appends
  // ---------------------------------------------------------------------

  /** A transaction appends at most one entry, and only a recorded contribution does. */
  lemma {:induction false} StepLedger(g: Guild, r: Request, now: Time)
    ensures var (g', outcome) := Step(g, r, now);
            if outcome.Recorded? then
              && r.Contribute?
              && g'.ledger == g.ledger + [
                   ScoreEvent(r.user, r.granter, Trim(r.kind), outcome.applied, NormalizeReference(r.reference), now)]
            else g'.ledger == g.ledger
  {}

  /** Entries are never rewritten or removed. */
  lemma {:induction false} LedgerOnlyGrows(run: seq<Event>, k: nat)
    requires k <= |run|
    ensures After(run[..k]).ledger <= After(run).ledger
  {
    if k == |run| {
      assert run[..k] == run;
    } else {
      var init, e := run[..|run| - 1], run[|run| - 1];
      assert init[..k] == run[..k];
      LedgerOnlyGrows(init, k);
      StepLedger(After(init), e.request, e.now);
    }
  }

  // ---------------------------------------------------------------------
  // Score against ledger
  // ---------------------------------------------------------------------

  /** The deltas recorded for `u`, oldest first. */
  function Deltas(ledger: seq<ScoreEvent>, u: UserId): seq<int> {
    if ledger == [] then []
    else
      var e := ledger[|ledger| - 1];
      Deltas(ledger[..|ledger| - 1], u) + (if e.user == u then [e.delta] else [])
  }

  /** The score that applying each delta and clamping at zero gives. */
  function Clamped(ds: seq<int>): int {
    if ds == [] then 0 else Max(Clamped(ds[..|ds| - 1]) + ds[|ds| - 1], 0)
  }

  /** The lowest running total, the initial zero included. */
  function LowestTotal(ds: seq<int>): int {
    if ds == [] then 0 else Min(LowestTotal(ds[..|ds| - 1]), Sum(ds))
  }

  /** `LowestTotal` is a running total, and no running total is lower. */
  lemma {:induction false} LowestTotalIsLowest(ds: seq<int>)
    ensures forall k | 0 <= k <= |ds| :: LowestTotal(ds) <= Sum(ds[..k])
    ensures exists k :: 0 <= k <= |ds| && LowestTotal(ds) == Sum(ds[..k])
  {
    assert ds[..|ds|] == ds;
    if ds == [] {
      assert LowestTotal(ds) == Sum(ds[..0]);
    } else {
      var init := ds[..|ds| - 1];
      LowestTotalIsLowest(init);
      assert forall k | 0 <= k <= |init| :: init[..k] == ds[..k];
      if LowestTotal(ds) == LowestTotal(init) {
        var k :| 0 <= k <= |init| && LowestTotal(init) == Sum(init[..k]);
        assert LowestTotal(ds) == Sum(ds[..k]);
      } else {
        assert LowestTotal(ds) == Sum(ds[..|ds|]);
      }
    }
  }

  /** Clamping at every step equals the total minus the lowest running total. */
  lemma {:induction false} ClampedClosedForm(ds: seq<int>)
    ensures Clamped(ds) == Sum(ds) - LowestTotal(ds)
  {
    if ds != [] { ClampedClosedForm(ds[..|ds| - 1]); }
  }

  /** Every transaction moves a user's score exactly as it extends that user's deltas. */
  lemma {:induction false} StepScore(g: Guild, r: Request, now: Time, u: UserId)
    requires RowOf(g, u).score == Clamped(Deltas(g.ledger, u))
    ensures RowOf(Step(g, r, now).0, u).score == Clamped(Deltas(Step(g, r, now).0.ledger, u))
  {
    StepLedger(g, r, now);
    if r.Contribute? {
      ContributeScore(g, r, now, u);
      if Step(g, r, now).1.Recorded? { DeltasAppend(g.ledger, EntryOf(r, Step(g, r, now).1.applied, now), u); }
    } else {
      OtherScore(g, r, now, u);
    }
  }

  lemma {:induction false} OtherScore(g: Guild, r: Request, now: Time, u: UserId)
    requires !r.Contribute?
    ensures RowOf(Step(g, r, now).0, u).score == RowOf(g, u).score
  {
    if IsActivity(r) {
      ActivityEffect(g, r, now);
      ActivityPolicy(g, r, now);
      ActiveRowScore(g, r.user, now);
    } else {
      QuietScore(g, r, now, u);
    }
  }

  lemma {:induction false} ActivityPolicy(g: Guild, r: Request, now: Time)
    requires IsActivity(r)
    ensures Step(g, r, now).0.policy == g.policy
  {
    PolicyUnchanged(g, r, now);
  }

  lemma {:induction false} ActiveRowScore(g: Guild, u: UserId, now: Time)
    ensures ActiveRow(g, u, now).score == RowOf(g, u).score
  {}

  lemma {:induction false} QuietScore(g: Guild, r: Request, now: Time, u: UserId)
    requires !r.Contribute? && !IsActivity(r)
    ensures RowOf(Step(g, r, now).0, u).score == RowOf(g, u).score
  {}

  lemma {:induction false} DeltasAppend(ledger: seq<ScoreEvent>, e: ScoreEvent, u: UserId)
    ensures e.user != u ==> Deltas(ledger + [e], u) == Deltas(ledger, u)
    ensures e.user == u ==> Clamped(Deltas(ledger + [e], u)) == Max(Clamped(Deltas(ledger, u)) + e.delta, 0)
  {}

  lemma {:induction false} ContributeScore(g: Guild, r: Request, now: Time, u: UserId)
    requires r.Contribute?
    ensures var (g', outcome) := Step(g, r, now);
            RowOf(g', u).score ==
              if outcome.Recorded? && u == r.user then Max(RowOf(g, u).score + outcome.applied, 0) else RowOf(g, u).score
  {}

  /** After any serial run the stored score is the closed form over the user's ledger entries. */
  lemma {:induction false} ScoreIsLedgerClosedForm(run: seq<Event>, u: UserId)
    ensures var ds := Deltas(After(run).ledger, u);
            RowOf(After(run), u).score == Clamped(ds) == Sum(ds) - LowestTotal(ds)
  {
    if run != [] {
      var init, e := run[..|run| - 1], run[|run| - 1];
      ScoreIsLedgerClosedForm(init, u);
      StepScore(After(init), e.request, e.now, u);
    }
    ClampedClosedForm(Deltas(After(run).ledger, u));
  }

  // ---------------------------------------------------------------------
  // One entry per reference
  // ---------------------------------------------------------------------

  ghost predicate UniqueReferences(ledger: seq<ScoreEvent>) {
    forall i, j | 0 <= i < j < |ledger| && ledger[i].reference.Some? ::
      !SameReference(ledger[j], ledger[i].user, ledger[i].kind, ledger[i].reference.value)
  }

  /** Each user, event type and reference enters the ledger at most once. */
  lemma {:induction false} ReferencesEnterOnce(run: seq<Event>)
    ensures UniqueReferences(After(run).ledger)
  {
    if run != [] {
      var init, e := run[..|run| - 1], run[|run| - 1];
      ReferencesEnterOnce(init);
      StepLedger(After(init), e.request, e.now);
      RecordedReferenceIsNew(After(init), e.request, e.now);
    }
  }

  lemma {:induction false} RecordedReferenceIsNew(g: Guild, r: Request, now: Time)
    ensures r.Contribute? && Step(g, r, now).1.Recorded? && NormalizeReference(r.reference).Some? ==>
              !HasReference(g.ledger, r.user, Trim(r.kind), NormalizeReference(r.reference).value)
  {}

  // ---------------------------------------------------------------------
  // Fair voting
  // ---------------------------------------------------------------------

  /** A community upvote, as `award_community_upvote` requests it. */
  function Upvote(u: UserId, granter: Option<UserId>, reference: Option<string>, cap: int): Request {
    Contribute(u, granter, HELPFUL_ANSWER_VOTE, VOTE_POINTS, reference, VoteOptions(true, Some(cap)))
  }

  predicate Positive(r: Request, kind: string) { r.Contribute? && Trim(r.kind) == kind && r.delta > 0 }

  /** Every request that could score under `kind` asks for the voting rules, whatever its cap. */
  ghost predicate Vetted(run: seq<Event>, kind: string) {
    forall i | 0 <= i < |run| && Positive(run[i].request, kind) :: run[i].request.options.meaningfulGranter
  }

  /** The request names a daily cap no higher than `bound`; caps are 32-bit numbers. */
  predicate CappedBy(o: VoteOptions, bound: int) {
    o.dailyCap.Some? && o.dailyCap.value <= bound && o.dailyCap.value <= I32_MAX
  }

  /** Every request that could score under `kind` names a cap, and none is higher than `bound`. */
  ghost predicate Capped(run: seq<Event>, kind: string, bound: int) {
    forall i | 0 <= i < |run| && Positive(run[i].request, kind) :: CappedBy(run[i].request.options, bound)
  }

  /** Every positive entry of `kind` comes from somebody else. */
  ghost predicate NoSelfVotes(ledger: seq<ScoreEvent>, kind: string) {
    forall i | 0 <= i < |ledger| && ledger[i].kind == kind && ledger[i].delta > 0 ::
      ledger[i].granter.Some? && ledger[i].granter.value != ledger[i].user
  }

  /** Votes that go both ways between two users are more than thirty days apart. */
  ghost predicate NoReciprocalVotes(ledger: seq<ScoreEvent>, kind: string) {
    forall i, j, a, b | 0 <= i < j < |ledger| && PositiveVote(ledger[i], a, b, kind) && PositiveVote(ledger[j], b, a, kind) ::
      ledger[j].at - ledger[i].at > 30 * 24 * 3600 * SECOND
  }

  predicate ScoredOn(e: ScoreEvent, u: UserId, kind: string, d: DayNumber) {
    e.user == u && e.kind == kind && DayOf(e.at) == d && e.delta > 0
  }

  /** The distinct users who scored for `u` on day `d`. */
  function GrantersOn(ledger: seq<ScoreEvent>, u: UserId, kind: string, d: DayNumber): set<UserId> {
    set i | 0 <= i < |ledger| && ScoredOn(ledger[i], u, kind, d) && ledger[i].granter.Some? :: ledger[i].granter.value
  }

  /** The points `u` earned on day `d`. */
  function PointsOn(ledger: seq<ScoreEvent>, u: UserId, kind: string, d: DayNumber): int {
    if ledger == [] then 0
    else
      var e := ledger[|ledger| - 1];
      PointsOn(ledger[..|ledger| - 1], u, kind, d) + (if ScoredOn(e, u, kind, d) then e.delta else 0)
  }

  ghost predicate FewGranters(ledger: seq<ScoreEvent>, kind: string) {
    forall u, d :: |GrantersOn(ledger, u, kind, d)| <= 10
  }

  ghost predicate WithinCap(ledger: seq<ScoreEvent>, kind: string, cap: int) {
    forall u, d :: PointsOn(ledger, u, kind, d) <= Max(cap, 0)
  }

  /** Over every run that asks for the voting rules: no self-votes, no mutual votes within 30 days, ten granters a day. */
  lemma {:induction false} VotingIsFair(run: seq<Event>, kind: string)
    requires Vetted(run, kind)
    ensures NoSelfVotes(After(run).ledger, kind)
    ensures NoReciprocalVotes(After(run).ledger, kind)
    ensures FewGranters(After(run).ledger, kind)
  {
    if run == [] {
      NoGranters(kind);
    } else {
      var init, e := run[..|run| - 1], run[|run| - 1];
      var g := After(init);
      VotingIsFair(init, kind);
      StepLedger(g, e.request, e.now);
      if Step(g, e.request, e.now).1.Recorded? {
        var v := EntryOf(e.request, Step(g, e.request, e.now).1.applied, e.now);
        PositiveNeedsPositive(g, e.request, e.now);
        if v.kind == kind && v.delta > 0 {
          PositiveEntryWasVetted(g, e.request, e.now);
          FairAppend(g.ledger, v);
        } else {
          NeutralAppend(g.ledger, v, kind);
        }
      }
    }
  }

  /** The entry a recorded request leaves. */
  function EntryOf(r: Request, applied: int, now: Time): ScoreEvent
    requires r.Contribute?
  {
    ScoreEvent(r.user, r.granter, Trim(r.kind), applied, NormalizeReference(r.reference), now)
  }

  lemma {:induction false} NoGranters(kind: string)
    ensures FewGranters([], kind)
  {}

  /** What the checks established when a vetted vote scored. */
  ghost predicate PassedChecks(ledger: seq<ScoreEvent>, v: ScoreEvent) {
    && v.granter.Some? && v.granter.value != v.user
    && !Reciprocal(ledger, v.user, v.granter, v.kind, v.at)
    && !Clustered(ledger, v.user, v.kind, v.at)
  }

  lemma {:induction false} PositiveNeedsPositive(g: Guild, r: Request, now: Time)
    requires Step(g, r, now).1.Recorded?
    ensures r.Contribute? && (Step(g, r, now).1.applied > 0 ==> r.delta > 0)
  {}

  lemma {:induction false} PositiveEntryWasVetted(g: Guild, r: Request, now: Time)
    requires r.Contribute? && Step(g, r, now).1.Recorded? && Step(g, r, now).1.applied > 0
    requires r.options.meaningfulGranter
    ensures PassedChecks(g.ledger, EntryOf(r, Step(g, r, now).1.applied, now))
  {}

  /** Appending a vote that passed its checks keeps voting fair. */
  lemma {:induction false} FairAppend(ledger: seq<ScoreEvent>, v: ScoreEvent)
    requires NoSelfVotes(ledger, v.kind) && NoReciprocalVotes(ledger, v.kind) && FewGranters(ledger, v.kind)
    requires v.delta > 0 && PassedChecks(ledger, v)
    ensures NoSelfVotes(ledger + [v], v.kind) && NoReciprocalVotes(ledger + [v], v.kind) && FewGranters(ledger + [v], v.kind)
  {
    forall u, d ensures |GrantersOn(ledger + [v], u, v.kind, d)| <= 10 {
      assert |GrantersOn(ledger, u, v.kind, d)| <= 10;
      GrantersAppend(ledger, v, u, v.kind, d);
    }
  }

  lemma {:induction false} GrantersAppend(ledger: seq<ScoreEvent>, v: ScoreEvent, u: UserId, kind: string, d: DayNumber)
    ensures GrantersOn(ledger + [v], u, kind, d) ==
              GrantersOn(ledger, u, kind, d) +
              (if ScoredOn(v, u, kind, d) && v.granter.Some? then {v.granter.value} else {})
    ensures GrantersOn(ledger, u, kind, d) <= Granters(ledger, u, kind, d)
    ensures |GrantersOn(ledger, u, kind, d)| <= |Granters(ledger, u, kind, d)|
  {
    var all := ledger + [v];
    forall x ensures x in GrantersOn(all, u, kind, d) <==>
        x in GrantersOn(ledger, u, kind, d) || (ScoredOn(v, u, kind, d) && v.granter == Some(x)) {
      if x in GrantersOn(ledger, u, kind, d) {
        var i :| 0 <= i < |ledger| && ScoredOn(ledger[i], u, kind, d) && ledger[i].granter == Some(x);
        assert all[i] == ledger[i];
      }
      if ScoredOn(v, u, kind, d) && v.granter == Some(x) { assert all[|ledger|] == v; }
    }
    SubsetSize(GrantersOn(ledger, u, kind, d), Granters(ledger, u, kind, d));
  }

  /** Entries of another kind, and entries that do not score, change nothing about votes of `kind`. */
  lemma {:induction false} NeutralAppend(ledger: seq<ScoreEvent>, v: ScoreEvent, kind: string)
    requires NoSelfVotes(ledger, kind) && NoReciprocalVotes(ledger, kind) && FewGranters(ledger, kind)
    requires v.kind != kind || v.delta <= 0
    ensures NoSelfVotes(ledger + [v], kind) && NoReciprocalVotes(ledger + [v], kind) && FewGranters(ledger + [v], kind)
  {
    forall u, d ensures |GrantersOn(ledger + [v], u, kind, d)| <= 10 {
      assert |GrantersOn(ledger, u, kind, d)| <= 10;
      GrantersAppend(ledger, v, u, kind, d);
    }
  }

  // ---------------------------------------------------------------------
  // Daily caps
  // ---------------------------------------------------------------------

  lemma {:induction false} PointsNotNegative(ledger: seq<ScoreEvent>, u: UserId, kind: string, d: DayNumber)
    ensures 0 <= PointsOn(ledger, u, kind, d) <= PointsSince(ledger, u, kind, d)
  {
    if ledger != [] { PointsNotNegative(ledger[..|ledger| - 1], u, kind, d); }
  }

  lemma {:induction false} PointsAppend(ledger: seq<ScoreEvent>, v: ScoreEvent, u: UserId, kind: string, d: DayNumber)
    ensures PointsOn(ledger + [v], u, kind, d) == PointsOn(ledger, u, kind, d) + if ScoredOn(v, u, kind, d) then v.delta else 0
  {
    assert (ledger + [v])[..|ledger|] == ledger;
  }

  lemma {:induction false} RoomWasLeft(g: Guild, r: Request, now: Time)
    requires r.Contribute? && Step(g, r, now).1.Recorded? && Step(g, r, now).1.applied > 0
    requires r.options.dailyCap.Some? && r.options.dailyCap.value <= I32_MAX
    ensures PointsSince(g.ledger, r.user, Trim(r.kind), DayOf(now)) + Step(g, r, now).1.applied <= r.options.dailyCap.value
  {}

  /** A positive entry leaves the day's points within the cap of its own request, whatever other requests named. */
  lemma {:induction false} EntryWithinOwnCap(g: Guild, r: Request, now: Time)
    requires r.Contribute? && Step(g, r, now).1.Recorded? && Step(g, r, now).1.applied > 0
    requires r.options.dailyCap.Some? && r.options.dailyCap.value <= I32_MAX
    ensures PointsOn(Step(g, r, now).0.ledger, r.user, Trim(r.kind), DayOf(now)) <= r.options.dailyCap.value
  {
    StepLedger(g, r, now);
    RoomWasLeft(g, r, now);
    PointsNotNegative(g.ledger, r.user, Trim(r.kind), DayOf(now));
    PointsAppend(g.ledger, EntryOf(r, Step(g, r, now).1.applied, now), r.user, Trim(r.kind), DayOf(now));
  }

  /** Over every run whose caps vary but stay below a bound, no user's points of a day pass that bound. */
  lemma {:induction false} DailyPointsBounded(run: seq<Event>, kind: string, bound: int)
    requires Capped(run, kind, bound)
    ensures WithinCap(After(run).ledger, kind, bound)
  {
    if run != [] {
      var init, e := run[..|run| - 1], run[|run| - 1];
      DailyPointsBounded(init, kind, bound);
      StepWithinCap(After(init), e.request, e.now, kind, bound);
    }
  }

  lemma {:induction false} StepWithinCap(g: Guild, r: Request, now: Time, kind: string, bound: int)
    requires WithinCap(g.ledger, kind, bound) && (Positive(r, kind) ==> CappedBy(r.options, bound))
    ensures WithinCap(Step(g, r, now).0.ledger, kind, bound)
  {
    StepLedger(g, r, now);
    if Step(g, r, now).1.Recorded? {
      var v := EntryOf(r, Step(g, r, now).1.applied, now);
      PositiveNeedsPositive(g, r, now);
      forall u, d ensures PointsOn(g.ledger + [v], u, kind, d) <= Max(bound, 0) {
        assert PointsOn(g.ledger, u, kind, d) <= Max(bound, 0);
        PointsAppend(g.ledger, v, u, kind, d);
        if ScoredOn(v, u, kind, d) { EntryWithinOwnCap(g, r, now); }
      }
    }
  }

  /** The rules come to this for a vote that asks for them and names a cap. */
  lemma {:induction false} VoteScores(g: Guild, u: UserId, granter: Option<UserId>, kind: string, delta: int, cap: int, now: Time)
    requires delta > 0 && cap <= I32_MAX
    ensures var applied := AppliedDelta(g, g.policy, u, granter, kind, delta, VoteOptions(true, Some(cap)), now).0;
            var room := cap - PointsSince(g.ledger, u, kind, DayOf(now));
            applied == if VoteObjection(g, g.policy, u, granter, kind, now).None? && room > 0 then Min(delta, room) else 0
  {
    PointsNotNegative(g.ledger, u, kind, DayOf(now));
  }

  /** Synchronising the user's own row does not change the verdict on a granter who is somebody else. */
  lemma {:induction false} SameVerdict(g: Guild, u: UserId, granter: Option<UserId>)
    requires granter != Some(u)
    ensures var g1 := g.(stats := g.stats[u := Sync(g.policy, EnsureStats(g.policy, g.stats, u))]);
            Meaningful(g1, g.policy, granter) == Meaningful(g, g.policy, granter)
  {}

  lemma {:induction false} ContributionEntered(g: Guild, r: Request, now: Time)
    requires r.Contribute? && Trim(r.kind) != []
    requires NormalizeReference(r.reference).Some? ==>
               !HasReference(g.ledger, r.user, Trim(r.kind), NormalizeReference(r.reference).value)
    ensures var g1 := g.(stats := g.stats[r.user := Sync(g.policy, EnsureStats(g.policy, g.stats, r.user))]);
            var outcome := Step(g, r, now).1;
            outcome.Recorded? && outcome.applied == AppliedDelta(g1, g.policy, r.user, r.granter, Trim(r.kind), r.delta, r.options, now).0
  {}

  /** `u` has scored for the granter in the same way within the last 30 days. */
  ghost predicate Returned(ledger: seq<ScoreEvent>, u: UserId, granter: Option<UserId>, kind: string, now: Time) {
    exists i :: 0 <= i < |ledger| && granter == Some(ledger[i].user) && ledger[i].granter == Some(u) && ledger[i].kind == kind
             && ledger[i].delta > 0 && now - ledger[i].at <= 30 * 24 * 3600 * SECOND
  }

  /** The users who have scored for `u` in this way since midnight. */
  ghost function TodaysGranters(ledger: seq<ScoreEvent>, u: UserId, kind: string, now: Time): set<UserId> {
    set i | 0 <= i < |ledger| && ledger[i].user == u && ledger[i].kind == kind && ledger[i].delta > 0
            && ledger[i].at >= DayOf(now) * DAY && ledger[i].granter.Some? :: ledger[i].granter.value
  }

  /** A granter counts who is staff, or has reached level 4 or any rank above F. */
  ghost predicate Established(g: Guild, granter: Option<UserId>) {
    && granter.Some? && granter.value in g.accounts
    && (|| !g.accounts[granter.value].isPlainUser
        || LevelFor(g.policy, RowOf(g, granter.value).activeDays).level >= 4
        || RankFor(g.policy, RowOf(g, granter.value).score).rank in {E, D, C, B, A, S})
  }

  lemma {:induction false} ReciprocalIff(ledger: seq<ScoreEvent>, u: UserId, granter: Option<UserId>, kind: string, now: Time)
    ensures Reciprocal(ledger, u, granter, kind, now) <==> Returned(ledger, u, granter, kind, now)
  {
    if Returned(ledger, u, granter, kind, now) {
      var i :| 0 <= i < |ledger| && granter == Some(ledger[i].user) && ledger[i].granter == Some(u) && ledger[i].kind == kind
             && ledger[i].delta > 0 && now - ledger[i].at <= 30 * 24 * 3600 * SECOND;
      assert PositiveVote(ledger[i], granter.value, u, kind);
    }
    if Reciprocal(ledger, u, granter, kind, now) {
      var i :| 0 <= i < |ledger| && PositiveVote(ledger[i], granter.value, u, kind) && ledger[i].at >= now - VOTE_WINDOW;
    }
  }

  lemma {:induction false} ClusteredIff(ledger: seq<ScoreEvent>, u: UserId, kind: string, now: Time)
    ensures Clustered(ledger, u, kind, now) <==> |TodaysGranters(ledger, u, kind, now)| >= 10
  {
    assert TodaysGranters(ledger, u, kind, now) == Granters(ledger, u, kind, DayOf(now));
  }

  lemma {:induction false} MeaningfulIff(g: Guild, granter: Option<UserId>)
    ensures Meaningful(g, g.policy, granter) <==> Established(g, granter)
  {
    if granter.Some? {
      SyncIsLookup(g.policy, RowOf(g, granter.value));
    }
  }

  lemma {:induction false} SyncIsLookup(p: LoadedPolicy, s: Stats)
    ensures Sync(p, s).level == LevelFor(p, s.activeDays).level && Sync(p, s).rank == RankFor(p, s.score).rank
  {}

  /** The points of the day are the sum of the positive deltas since midnight. */
  lemma {:induction false} PointsAreSum(ledger: seq<ScoreEvent>, u: UserId, kind: string, d: DayNumber)
    ensures PointsSince(ledger, u, kind, d) ==
            Sum(seq(|ledger|, i requires 0 <= i < |ledger| =>
              if ledger[i].user == u && ledger[i].kind == kind && ledger[i].at >= d * DAY && ledger[i].delta > 0 then ledger[i].delta else 0))
  {
    if ledger != [] {
      var n := |ledger| - 1;
      PointsAreSum(ledger[..n], u, kind, d);
      var all := seq(|ledger|, i requires 0 <= i < |ledger| =>
        if ledger[i].user == u && ledger[i].kind == kind && ledger[i].at >= d * DAY && ledger[i].delta > 0 then ledger[i].delta else 0);
      var init := seq(n, i requires 0 <= i < n =>
        if ledger[..n][i].user == u && ledger[..n][i].kind == kind && ledger[..n][i].at >= d * DAY && ledger[..n][i].delta > 0 then ledger[..n][i].delta else 0);
      assert all[..n] == init;
    }
  }

  /** An upvote: a new one scores exactly when it passes all four checks and the cap has room, and then up to that room. */
  lemma {:induction false} UpvoteScoresIff(g: Guild, u: UserId, granter: Option<UserId>, reference: Option<string>, cap: int, now: Time)
    requires cap <= I32_MAX
    requires NormalizeReference(reference).Some? ==>
               !HasReference(g.ledger, u, HELPFUL_ANSWER_VOTE, NormalizeReference(reference).value)
    ensures var outcome := Step(g, Upvote(u, granter, reference, cap), now).1;
            var room := cap - PointsSince(g.ledger, u, "helpful_answer_vote", DayOf(now));
            var eligible :=
              && granter != Some(u)
              && !Returned(g.ledger, u, granter, "helpful_answer_vote", now)
              && |TodaysGranters(g.ledger, u, "helpful_answer_vote", now)| < 10
              && Established(g, granter);
            && outcome.Recorded?
            && outcome.applied == (if eligible && room > 0 then Min(5, room) else 0)
  {
    TrimByFixed(HELPFUL_ANSWER_VOTE, IsWhitespace);
    ReciprocalIff(g.ledger, u, granter, HELPFUL_ANSWER_VOTE, now);
    ClusteredIff(g.ledger, u, HELPFUL_ANSWER_VOTE, now);
    MeaningfulIff(g, granter);
    ContributionEntered(g, Upvote(u, granter, reference, cap), now);
    VoteScores(g.(stats := g.stats[u := Sync(g.policy, EnsureStats(g.policy, g.stats, u))]),
               u, granter, HELPFUL_ANSWER_VOTE, VOTE_POINTS, cap, now);
    if granter != Some(u) { SameVerdict(g, u, granter); }
  }

  /** A repeated reference is answered as a duplicate and an event type must not be blank. */
  lemma {:induction false} ContributionRefusals(g: Guild, r: Request, now: Time)
    requires r.Contribute?
    ensures Trim(r.kind) == [] <==> Step(g, r, now).1 == Failed(EmptyEventType)
    ensures Trim(r.kind) != [] ==>
              (Step(g, r, now).1 == Duplicate <==>
                 NormalizeReference(r.reference).Some?
                 && exists i :: 0 <= i < |g.ledger| && g.ledger[i].user == r.user && g.ledger[i].kind == Trim(r.kind)
                             && g.ledger[i].reference == NormalizeReference(r.reference))
    ensures NormalizeReference(r.reference) == if r.reference.Some? && Trim(r.reference.value) != [] then Some(Trim(r.reference.value)) else None
  {
    if NormalizeReference(r.reference).Some? {
      HasReferenceIff(g.ledger, r.user, Trim(r.kind), NormalizeReference(r.reference).value);
    }
  }

  lemma {:induction false} HasReferenceIff(ledger: seq<ScoreEvent>, u: UserId, kind: string, reference: string)
    ensures HasReference(ledger, u, kind, reference) <==>
            exists i :: 0 <= i < |ledger| && ledger[i].user == u && ledger[i].kind == kind && ledger[i].reference == Some(reference)
  {
    if i :| 0 <= i < |ledger| && ledger[i].user == u && ledger[i].kind == kind && ledger[i].reference == Some(reference) {
      assert SameReference(ledger[i], u, kind, reference);
    }
  }

  /** A delta that does not ask for the voting rules and names no cap is recorded as requested. */
  lemma {:induction false} PlainDeltaRecorded(g: Guild, r: Request, now: Time)
    requires r.Contribute? && Step(g, r, now).1.Recorded?
    requires r.delta <= 0 || r.options == VoteOptions(false, None)
    ensures Step(g, r, now).1.applied == r.delta && Step(g, r, now).1.reason.None?
  {}

  /** Why a vote does not score, first reason first; the cap is looked at last and overrides. */
  lemma {:induction false} SuppressionReasons(g: Guild, u: UserId, granter: Option<UserId>, kind: string, delta: int, o: VoteOptions, now: Time)
    requires delta > 0
    ensures var (applied, reason) := AppliedDelta(g, g.policy, u, granter, kind, delta, o, now);
            var capped := o.dailyCap.Some? && o.dailyCap.value <= Min(PointsSince(g.ledger, u, kind, DayOf(now)), I32_MAX);
            var vetted := o.meaningfulGranter;
            && (capped && o.dailyCap.value >= 0 ==> applied == 0 && reason == Some(CapReached))
            && (o.dailyCap.None? ==>
                  reason == (if vetted && granter == Some(u) then Some(SelfVote)
                             else if vetted && Reciprocal(g.ledger, u, granter, kind, now) then Some(ReciprocalVote)
                             else if vetted && Clustered(g.ledger, u, kind, now) then Some(ClusteredVote)
                             else if vetted && !Meaningful(g, g.policy, granter) then Some(GranterNotEligible)
                             else None)
                  && applied == (if reason.Some? then 0 else delta))
            && (reason == Some(CapTruncated) <==> 0 < applied < delta)
  {}

  /** Of the rows of other users, a contribution writes that of a plain granter whose standing it has to look up, and brings it up to date. */
  lemma {:induction false} ContributionRows(g: Guild, r: Request, now: Time, v: UserId)
    requires r.Contribute? && Step(g, r, now).1.Recorded? && v != r.user
    ensures var (stats, kind, row) := (Step(g, r, now).0.stats, Trim(r.kind), RowOf(g, v));
            var lookedUp :=
              && r.granter == Some(v) && v in g.accounts && g.accounts[v].isPlainUser && r.delta > 0 && r.options.meaningfulGranter
              && !Returned(g.ledger, r.user, r.granter, kind, now) && |TodaysGranters(g.ledger, r.user, kind, now)| < 10;
            && (v in stats <==> lookedUp || v in g.stats)
            && (v in stats ==> stats[v] == if lookedUp then row.(level := LevelFor(g.policy, row.activeDays).level, rank := RankFor(g.policy, row.score).rank)
                                           else row)
  {
    ReciprocalIff(g.ledger, r.user, r.granter, Trim(r.kind), now);
    ClusteredIff(g.ledger, r.user, Trim(r.kind), now);
    SyncIsLookup(g.policy, RowOf(g, v));
  }
}
