/** The guild service as it runs: tables updated in place, statement by statement, against the engine's steps. */
module GuildStore {
  import opened Core
  import opened Text
  import opened GuildPolicy
  import opened GuildEngine

  class Store {
    var policy: LoadedPolicy
    var accounts: map<UserId, Account>
    var stats: map<UserId, Stats>
    var counters: map<CounterKey, int>
    var ledger: seq<ScoreEvent>

    function State(): Guild
      reads this
    {
      Guild(policy, accounts, stats, counters, ledger)
    }

    constructor ()
      ensures State() == EMPTY_GUILD
    {
      policy, accounts, stats, counters, ledger := DEFAULT_POLICY, map[], map[], map[], [];
    }

    /** `ensure_user_guild_stats`. */
    method EnsureRow(u: UserId)
      modifies this`stats
      ensures stats == old(stats)[u := EnsureStats(policy, old(stats), u)]
    {
      if u !in stats { stats := stats[u := FreshStats(policy)]; }
    }

    /** `sync_derived_state`. */
    method SyncRow(u: UserId)
      requires u in stats
      modifies this`stats
      ensures stats == old(stats)[u := Sync(policy, old(stats)[u])]
    {
      var row := stats[u];
      var level, rank := LevelFor(policy, row.activeDays).level, RankFor(policy, row.score).rank;
      if row.level != level || row.rank != rank {
        stats := stats[u := row.(level := level, rank := rank)];
      }
    }

    /** The row as every guild transaction starts from it. */
    method LoadRow(u: UserId)
      modifies this`stats
      ensures stats == old(stats)[u := Sync(policy, EnsureStats(policy, old(stats), u))]
    {
      EnsureRow(u);
      SyncRow(u);
    }

    /** `update_human_activity_state`. */
    method UpdateActivity(u: UserId, now: Time) returns (a: Assessment)
      requires u in stats
      modifies this`stats
      ensures a == Assess(old(stats)[u], DayOf(now), now)
      ensures stats == old(stats)[u := Assessed(old(stats)[u], a, now)]
    {
      a := Assess(stats[u], DayOf(now), now);
      stats := stats[u := stats[u].(lastHumanAt := Some(now), streak := a.streak, review := a.review)];
    }

    /** `advance_active_day_if_needed`. */
    method AdvanceActiveDay(u: UserId, now: Time)
      requires u in stats
      modifies this`stats
      ensures stats == old(stats)[u := AdvanceDay(policy, old(stats)[u], DayOf(now))]
    {
      var row := stats[u];
      if row.lastActiveDay == Some(DayOf(now)) { return; }
      var days := row.activeDays + 1;
      stats := stats[u := row.(
        activeDays := days,
        level := LevelFor(policy, days).level,
        rank := RankFor(policy, row.score).rank,
        lastActiveDay := Some(DayOf(now)))];
    }

    /** The activity part shared by every activity transaction. */
    method Touch(u: UserId, now: Time)
      modifies this`stats
      ensures stats == old(stats)[u := ActiveRow(old(State()), u, now)]
    {
      LoadRow(u);
      var a := UpdateActivity(u, now);
      if a.advance { AdvanceActiveDay(u, now); }
    }

    /** `increment_daily_counter`. */
    method IncrementCounter(u: UserId, action: Action, now: Time)
      modifies this`counters
      ensures counters == Increment(old(counters), CounterKey(u, action, DayOf(now)))
    {
      var key := CounterKey(u, action, DayOf(now));
      if key in counters {
        counters := counters[key := counters[key] + 1];
      } else {
        counters := counters[key := 1];
      }
    }

    /** `record_human_activity`. */
    method RecordHumanActivity(u: UserId, now: Time)
      modifies this
      ensures State() == Step(old(State()), HumanActivity(u), now).0
    {
      Touch(u, now);
    }

    /** The quota decision of a gated operation whose row has been touched. */
    method Gate(u: UserId, action: Action, succeeds: bool, now: Time, saved: map<UserId, Stats>) returns (outcome: Outcome)
      requires u in stats
      modifies this`stats, this`counters
      ensures var key := CounterKey(u, action, DayOf(now));
              if OverQuota(policy, old(stats)[u], action, CountOf(old(counters), key)) then
                && stats == old(stats) && counters == old(counters)
                && outcome == Limited(BuildSnapshot(policy, old(stats)[u], old(counters), u, DayOf(now)), SecondsUntilNextDay(now))
              else if !succeeds then stats == saved && counters == old(counters) && outcome == Failed(OperationFailed)
              else stats == old(stats) && counters == Increment(old(counters), key) && outcome == Accepted
    {
      var row, used := stats[u], CountOf(counters, CounterKey(u, action, DayOf(now)));
      if Enforced(policy, action) {
        var limit := LimitFor(policy, row, action);
        if limit.Some? && used >= limit.value {
          return Limited(BuildSnapshot(policy, row, counters, u, DayOf(now)), SecondsUntilNextDay(now));
        }
      }
      if !succeeds {
        stats := saved;
        return Failed(OperationFailed);
      }
      IncrementCounter(u, action, now);
      outcome := Accepted;
    }

    /** `send_message_with_guild`. */
    method SendMessageWithGuild(u: UserId, insertSucceeds: bool, now: Time) returns (outcome: Outcome)
      modifies this
      ensures (State(), outcome) == Step(old(State()), SendMessage(u, insertSucceeds), now)
    {
      var saved := stats;
      Touch(u, now);
      outcome := Gate(u, OutboundMessage, insertSucceeds, now, saved);
    }

    /** `run_attachment_action_with_guild`. */
    method RunAttachmentAction(u: UserId, mime: string, operationSucceeds: bool, now: Time) returns (outcome: Outcome)
      modifies this
      ensures (State(), outcome) == Step(old(State()), SendAttachment(u, mime, operationSucceeds), now)
    {
      var saved := stats;
      Touch(u, now);
      if Enforced(policy, AttachmentSend) && TrimLower(mime) !in policy.attachmentTypes {
        return UnsupportedMime(BuildSnapshot(policy, stats[u], counters, u, DayOf(now)));
      }
      outcome := Gate(u, AttachmentSend, operationSucceeds, now, saved);
    }

    /** `resolve_contact_with_guild`. */
    method ResolveContactWithGuild(u: UserId, now: Time) returns (outcome: Outcome)
      modifies this
      ensures (State(), outcome) == Step(old(State()), ResolveContact(u), now)
    {
      var saved := stats;
      Touch(u, now);
      if u !in accounts {
        stats := saved;
        return Failed(NotFound);
      }
      var card := accounts[u].yellowCardUntil;
      if card.Some? && card.value > now {
        stats := saved;
        return Failed(YellowCard);
      }
      outcome := Gate(u, FriendAdd, true, now, saved);
    }

    /** `get_guild_snapshot`. */
    method GetSnapshot(u: UserId, now: Time) returns (outcome: Outcome)
      modifies this
      ensures (State(), outcome) == Step(old(State()), ViewSnapshot(u), now)
    {
      LoadRow(u);
      outcome := Viewed(BuildSnapshot(policy, stats[u], counters, u, DayOf(now)));
    }

    /** `granter_is_meaningful`, which may create or synchronise the granter's row. */
    method GranterIsMeaningful(granter: Option<UserId>) returns (ok: bool)
      modifies this`stats
      ensures ok == Meaningful(old(State()), policy, granter)
      ensures var row := GranterRow(old(State()), policy, granter);
              stats == if row.Some? then old(stats)[granter.value := row.value] else old(stats)
    {
      if granter.None? || granter.value !in accounts { return false; }
      if !accounts[granter.value].isPlainUser { return true; }
      LoadRow(granter.value);
      var row := stats[granter.value];
      ok := row.level >= 4 || RankOrder(row.rank) >= RankOrder(E);
    }

    /** The suppression rules of `record_contribution_event`, with its running `applied_delta`. */
    method ApplyVoteRules(
      u: UserId, granter: Option<UserId>, kind: string, delta: int, o: VoteOptions, now: Time)
      returns (applied: int, reason: Option<Suppression>)
      modifies this`stats
      ensures (applied, reason) == AppliedDelta(old(State()), policy, u, granter, kind, delta, o, now)
      ensures var row := if ChecksGranter(old(State()), u, granter, kind, delta, o, now)
                         then GranterRow(old(State()), policy, granter) else None;
              stats == if row.Some? then old(stats)[granter.value := row.value] else old(stats)
    {
      applied, reason := delta, None;
      if delta > 0 && o.meaningfulGranter {
        if granter == Some(u) {
          applied, reason := 0, Some(SelfVote);
        } else if Reciprocal(ledger, u, granter, kind, now) {
          applied, reason := 0, Some(ReciprocalVote);
        } else if Clustered(ledger, u, kind, now) {
          applied, reason := 0, Some(ClusteredVote);
        } else {
          var ok := GranterIsMeaningful(granter);
          if !ok { applied, reason := 0, Some(GranterNotEligible); }
        }
      }
      if delta > 0 && o.dailyCap.Some? {
        var earned := Max(0, Min(PointsSince(ledger, u, kind, DayOf(now)), I32_MAX));
        var room := Max(o.dailyCap.value - earned, 0);
        if room == 0 {
          applied, reason := 0, Some(CapReached);
        } else if applied > room {
          applied, reason := room, Some(CapTruncated);
        }
      }
    }

    /** The rest of `record_contribution_event`, once the event is known not to be a duplicate. */
    method EnterContribution(
      u: UserId, granter: Option<UserId>, kind: string, delta: int, reference: Option<string>, o: VoteOptions, now: Time)
      returns (outcome: Outcome)
      requires u in stats
      modifies this
      ensures (State(), outcome) == EnterEvent(old(State()), u, granter, kind, delta, reference, o, now)
    {
      var row := stats[u];
      var applied, reason := ApplyVoteRules(u, granter, kind, delta, o, now);
      var score := Max(row.score + applied, 0);
      ledger := ledger + [ScoreEvent(u, granter, kind, applied, reference, now)];
      stats := stats[u := row.(score := score, rank := RankFor(policy, score).rank)];
      outcome := Recorded(applied, reason);
    }

    /** `record_contribution_event`. */
    method RecordContribution(
      u: UserId, granter: Option<UserId>, rawKind: string, delta: int,
      rawReference: Option<string>, o: VoteOptions, now: Time) returns (outcome: Outcome)
      modifies this
      ensures (State(), outcome) == Step(old(State()), Contribute(u, granter, rawKind, delta, rawReference, o), now)
    {
      var kind, reference := Trim(rawKind), NormalizeReference(rawReference);
      if kind == [] { return Failed(EmptyEventType); }
      LoadRow(u);
      if reference.Some? && HasReference(ledger, u, kind, reference.value) { return Duplicate; }
      outcome := EnterContribution(u, granter, kind, delta, reference, o, now);
    }

    /** `freeze_guild_progression`. */
    method FreezeProgression(u: UserId)
      modifies this
      ensures forall now :: State() == Step(old(State()), Freeze(u), now).0
    {
      if u in stats { stats := stats[u := stats[u].(review := Frozen)]; }
    }

    /** `unfreeze_guild_progression`. */
    method UnfreezeProgression(u: UserId)
      modifies this
      ensures forall now :: State() == Step(old(State()), Unfreeze(u), now).0
    {
      if u in stats { stats := stats[u := stats[u].(review := Clear, streak := 0)]; }
    }

    /** `save_guild_policy`. */
    method SaveGuildPolicy(p: Policy) returns (outcome: Outcome)
      modifies this
      ensures forall now :: (State(), outcome) == Step(old(State()), ChangePolicy(p), now)
    {
      var r := NormalizeGuildPolicy(p);
      match r {
        case Ok(n) =>
          NormalizeIdempotent(p);
          policy := n;
          outcome := Done;
        case Err(_) =>
          outcome := Failed(PolicyRejected);
      }
    }
  }
}
