# Verified rules of a chat server

A Dafny model of the business rules that the server keeps in its database rows, with proofs that
they hold over every run. Each table is a map or a sequence, each transaction one step of a state
machine, and the operations that update rows in place are methods of classes, proved to have the
effect of those steps. `dafny verify dfyconfig.toml` checks the whole project.

| module | what it models |
|---|---|
| `Bands` | lists of entries that cover intervals: chains, lookups, order-free acceptance |
| `GuildPolicy` | normalising the guild policy, looking up levels and ranks, loading and saving |
| `GuildEngine` | the guild tables and one step per transaction |
| `GuildActivity` | the clear/challenged/frozen machine and the cached level and rank, over runs |
| `GuildLedger` | the score ledger: closed form, deduplication, vote rules and caps |
| `GuildQuota` | daily counters, refusals and retries |
| `GuildConcurrency` | the statements of concurrent transactions on one user's row |
| `GuildStore` | the guild tables updated in place |
| `RefreshTokens` | refresh-token families with replay detection (section 10.4 of RFC 6749, section 4.14.2 of RFC 9700) |
| `RegistrationLimiter` | the sliding window for new accounts |
| `MessagePaging` | keyset paging while the data changes |
| `Moderation` | reports, decisions and the automatic review pass |
| `Rooms` | membership, ownership and deletion of rooms |
| `FederationDelivery` | retries with backoff and dead-lettering |
| `SignatureHeader` | printing, parsing and verifying signatures (sections 2.3 and 4 of draft-cavage-http-signatures-12) |
| `CallSession` | WebSocket sessions sharing a call table |
| `Core`, `Sorting`, `Text`, `DaySequences` | shared vocabulary, stable sorting, strings, lists of days |

## Reading the model

- The clock counts whole nanoseconds and is read once per step; where a result needs it not to go
  backwards, the lemma says so. A day is `t / DAY`. Where the source rounds to whole seconds, so does
  the model.
- Integers are unbounded. Where the source works in 32 bits and a result depends on it, the bound is
  a hypothesis (`cap <= I32_MAX` in the vote results).
- Random identifiers are new: the `Legal` predicates say that no identifier is issued twice.
- Failures of the database, the socket and the clients of a transaction are fields of the events, so
  results hold for every pattern of failures unless a hypothesis names one.
- Rows that a query may list in any order are given in any order: the review pass is proved for
  every listing of the due reports.

Results that go against a first reading of the source:

- Two counted days for one UTC day are possible when row locks return to a day they have left. The
  condition is exact: never returning suffices in every interleaving
  (`GuildConcurrency.ActiveDaysRiseOncePerDay`), and every list of lock days that does return is taken
  by some interleaving that counts a day twice (`GuildConcurrency.ReturningLocksCountTwice`).
- The wait announced with a quota refusal is rounded down to whole seconds, so it ends before midnight
  unless the clock read a whole second or midnight was less than a second away
  (`GuildQuota.WaitReachesNextDayIff`); a retry on the dot is then refused again
  (`GuildQuota.EarlyRetryRefused`). One second more is always enough.
- The limit of five accounts an hour counts whole clock seconds: it holds in every stretch of time of
  up to 3599 seconds, and a stretch of 3600 seconds can hold six (`RegistrationLimiter.FiveBetweenIff`).
- The sender signs the host without its port, while HTTP sends an explicit port in the Host header
  (`SignatureHeader.ExplicitPortNeverMatches`).
- A session tracks one call only, and forgets it when it rejects or leaves any call at all. Which call
  a closing session ends is exactly stated (`CallSession.TrackedIsCurrent`,
  `CallSession.ClosingEndsExactlyCurrent`), and three histories that leave an offered call open with no
  session to end it are given: a later offer, rejecting another call, and an acknowledgement that
  cannot be sent.
- Under the built-in policy more points can lower a limit: rank C has no percentage of its own, so a user
  who rises from rank D loses the 120 percent. This is the only such step
  (`GuildQuota.HigherScoreKeepsLimitIff`); more active days never lower a limit.
- A comment says that votes are suppressed when more than ten distinct granters have scored that day;
  the code suppresses as soon as ten have, and the model follows the code.
- The pass aborts as a whole on a due report for a missing user that does not escalate; for reports
  filed through the service while users persist this cannot happen (`Moderation.PassNeverAborts`).

## Model

| member | source | states |
|---|---|---|
| `GuildPolicy.CheckLevels` | src/services/guild_service.rs:1584-1633 | the `seen_levels` loop reports exactly the first faulty entry: level range, negative numbers, an interval that ends before it starts, a duplicate level, an interval that is open or reaches the next one |
| `GuildPolicy.CheckRanks` | src/services/guild_service.rs:1641-1690 | the `seen_ranks` loop reports exactly the first faulty entry: unknown rank, bad percentages, interval faults, duplicates |
| `GuildPolicy.NormalizeGuildPolicy` | src/services/guild_service.rs:1545-1698 | sorting, both loops and the attachment-type set together compute `Normalize`, errors included |
| `GuildPolicy.LevelLoopAccepts` | src/services/guild_service.rs:1584-1638 | the level loop accepts a list exactly when it is non-empty, every entry is sound, levels are unique and the intervals form a chain: neighbours compared in the code imply all pairs apart |
| `GuildPolicy.RankLoopAccepts` | src/services/guild_service.rs:1641-1695 | the same for ranks |
| `GuildPolicy.NormalizeAcceptsIff` | src/services/guild_service.rs:1545-1698 | a policy is accepted exactly when, as an unordered collection, every entry is sound, levels and ranks are unique and all pairs of intervals are disjoint; no order is mentioned |
| `GuildPolicy.NormalizeTypesIsSet` | src/services/guild_service.rs:1572-1579 | the attachment list becomes the strictly ascending list of the trimmed, lower-cased, non-empty types |
| `GuildPolicy.NormalizeIgnoresOrder` | src/services/guild_service.rs:1545-1698 | neither acceptance nor the result depends on the order of the level, rank and attachment lists |
| `GuildPolicy.NormalizeIdempotent` | src/services/guild_service.rs:1545-1698 | an accepted policy is a fixed point |
| `GuildPolicy.NormalizedIffChecked` | src/services/guild_service.rs:1545-1698 | the fixed points are exactly the policies whose lists are already checked chains and whose types are already canonical |
| `Bands.FindBandUnique` | src/services/guild_service.rs:1220-1237 | in a chain of intervals the linear search returns the one interval that covers the value, or else the last |
| `Bands.FindBandMonotone` | src/services/guild_service.rs:1220-1264 | in a gapless chain every value is covered and a larger value never finds an earlier interval |
| `Bands.LoopAccepts` | src/services/guild_service.rs:1584-1633 | looking only at earlier keys and at the next neighbour decides distinct keys and pairwise order of all intervals, for levels and ranks alike |
| `Bands.InOrderIffCompatible` | src/services/guild_service.rs:1581-1638 | for a list sorted by start, being in order is equivalent to a condition on the entries as a multiset |
| `Bands.CompatibleNoTies` | src/services/guild_service.rs:1581-1640 | acceptable entries never tie in the sort, so the sorted list is unique |
| `GuildPolicy.LevelLookupUnique` | src/services/guild_service.rs:1220-1237 | under a checked policy at most one level covers a day count, the lookup returns it or the last entry, and its number is within 1..10 |
| `GuildPolicy.RankLookupUnique` | src/services/guild_service.rs:1247-1264 | the same for ranks, and the rank is a known one |
| `GuildPolicy.LevelNeverDrops` | src/services/guild_service.rs:1220-1237 | if level numbers ascend and there are no gaps, more active days never give a lower level |
| `GuildPolicy.DefaultPolicyNormalized` | src/services/guild_service.rs:1375-1517 | the built-in policy is accepted and unchanged by normalisation |
| `GuildPolicy.DefaultLevelNeverDrops` | src/services/guild_service.rs:1375-1517 | under the built-in policy more active days never give a lower level |
| `GuildPolicy.LoadedPolicyNormalized` | src/services/guild_service.rs:1519-1543 | whatever is stored, the policy handed to a transaction is normalised: a missing, unreadable or rejected value falls back to the default |
| `GuildPolicy.ReadAfterSave` | src/services/guild_service.rs:117-126 | a save succeeds exactly for acceptable policies and reading afterwards returns exactly the saved one; a refused save leaves the policy read as before |
| `GuildPolicy.RefusedIffGuilty` | src/services/guild_service.rs:1545-1698 | a policy is refused exactly when some complaint is true of it, and the complaint given is one that is true, stated on the submitted lists as unordered collections |
| `GuildPolicy.RefusalOrder` | src/services/guild_service.rs:1545-1698 | empty lists are complained of first, then the three numbers, then the levels, then the ranks |
| `GuildActivity.StepEffect` | src/services/guild_service.rs:525-730 | what any transaction does to any row: nothing to its activity fields, one assessed activity, or an admin freeze or unfreeze |
| `GuildActivity.ReviewInvariant` | src/services/guild_service.rs:975-1037 | in every run mixing activity and admin actions: clear means streak 0, challenged means 1 or 2, the streak stays within 0..3 |
| `GuildActivity.StreakBoundedByAttempts` | src/services/guild_service.rs:975-1037 | the streak never exceeds the number of suspicious new-day attempts since it was last zero |
| `GuildActivity.FreezeNeedsThreeAttempts` | src/services/guild_service.rs:975-1037 | an automatic freeze happens only at a suspicious attempt that is at least the third since the streak was last zero |
| `GuildActivity.RowRemembersActivity` | src/services/guild_service.rs:943-973 | in every run the stored last-activity time is that of the last activity in the history, and the last counted day is not after it |
| `GuildActivity.DayCheckRedundant` | src/services/guild_service.rs:980-1003 | in reachable states a gap of 24 hours already implies a new day, so the extra day comparison decides nothing |
| `GuildActivity.ActivityRule` | src/services/guild_service.rs:975-1063 | in every run an activity counts its day exactly when the day is not counted yet and the last activity in the history is at least ten minutes back, or 24 hours for a frozen user; a hasty new day raises the streak by one, a proper one lowers it, and the review state follows |
| `GuildActivity.QuietPeriodRecovers` | src/services/guild_service.rs:980-1003 | the first activity after 24 quiet hours clears a freeze, resets the streak and counts the day |
| `GuildActivity.NeverQuietStaysFrozen` | src/services/guild_service.rs:975-1063 | without an admin unfreeze, a frozen user whose activities are always under 24 hours apart stays frozen and gains no active day, over runs of any length |
| `GuildActivity.CacheFreshAfterTransaction` | src/services/guild_service.rs:918-941 | after every guild transaction that commits, the cached level and rank equal the lookups under the policy in force |
| `GuildActivity.PolicyInForceChecked` | src/services/guild_service.rs:1519-1543 | in every run of policy changes, rejected ones and losses, the policy in force is what loading the setting gives, and is a checked one |
| `GuildActivity.PolicyChangeIff` | src/services/guild_service.rs:117-126 | a policy change is taken exactly for an acceptable policy, which is then in force normalised and is all that changes; a refused one changes nothing |
| `GuildActivity.StoredLevelInRange` | src/services/guild_service.rs:785-785 | in every run each stored level is within 1..10 and each stored rank is known, so the clamp in the snapshot changes nothing |
| `GuildActivity.SnapshotShowsLookup` | src/services/guild_service.rs:759-840 | the snapshot shows the looked-up level and rank of its own counts |
| `GuildActivity.ProgressIsPercentage` | src/services/guild_service.rs:1354-1366 | progress is within 0..100, 100 once the next level is reached and 0 at or below the start of the current one, and in between the exact fraction rounded down |
| `GuildLedger.StepLedger` | src/services/guild_service.rs:184-315 | the ledger changes only when a contribution is recorded, and then by exactly that one entry |
| `GuildLedger.LedgerOnlyGrows` | src/services/guild_service.rs:184-315 | the ledger at any moment is a prefix of every later ledger |
| `GuildLedger.LowestTotalIsLowest` | src/services/guild_service.rs:275-304 | the lowest running total is attained by some prefix, the empty one included, and bounds them all |
| `GuildLedger.ClampedClosedForm` | src/services/guild_service.rs:275-304 | folding `max(0, s + d)` equals the sum minus the lowest running total |
| `GuildLedger.ScoreIsLedgerClosedForm` | src/services/guild_service.rs:275-304 | in every run each score equals that closed form over the user's ledger entries |
| `GuildLedger.ReferencesEnterOnce` | src/services/guild_service.rs:211-229 | in every run each (user, type, reference) is in the ledger at most once |
| `GuildLedger.VotingIsFair` | src/services/guild_service.rs:234-254 | in every run whose positive events of a type ask for the vote rules, whatever their caps: no self-vote scores, no two positive votes go both ways within 30 days, and at most 10 distinct granters score per user and day |
| `GuildLedger.EntryWithinOwnCap` | src/services/guild_service.rs:256-273 | a positive entry leaves the day's points within the cap of its own request, whatever caps other requests named |
| `GuildLedger.DailyPointsBounded` | src/services/guild_service.rs:1197-1218 | in every run with changing caps no user's points of a day pass the largest of them |
| `GuildLedger.UpvoteScoresIff` | src/services/guild_service.rs:372-393 | a community upvote with a new reference is always recorded, and scores exactly when the voter is someone else, the vote is neither reciprocal nor clustered, the voter is meaningful and the cap leaves room; then the remaining room bounds the points |
| `GuildLedger.ReciprocalIff` | src/services/guild_service.rs:1142-1163 | a vote is reciprocal exactly when the voted-for user gave the voter positive points of that type within 30 days |
| `GuildLedger.ClusteredIff` | src/services/guild_service.rs:1169-1195 | votes are clustered exactly when at least ten different users gave positive points of that type since midnight |
| `GuildLedger.MeaningfulIff` | src/services/guild_service.rs:1109-1136 | a voter counts exactly with an account that is staff's, or has a looked-up level of at least 4, or a looked-up rank from E on |
| `GuildLedger.PointsAreSum` | src/services/guild_service.rs:1197-1218 | the points of a day are the sum of the positive deltas of that user and type since midnight |
| `GuildLedger.ContributionRefusals` | src/services/guild_service.rs:202-229 | a blank type fails, and a reference is a duplicate exactly when an earlier entry of that user and type has it, after trimming |
| `GuildLedger.PlainDeltaRecorded` | src/services/guild_service.rs:231-273 | a penalty, or a delta without voting rules and cap, is recorded as requested |
| `GuildLedger.SuppressionReasons` | src/services/guild_service.rs:234-273 | the reason given for a vote that does not score: self, reciprocal, clustered, not eligible, in this order, with the cap looked at last |
| `GuildLedger.ContributionRows` | src/services/guild_service.rs:1109-1136 | of the rows of other users a contribution writes exactly that of a plain granter whose standing had to be looked up, and that row is brought up to date |
| `GuildQuota.StepCounters` | src/services/guild_service.rs:1065-1107 | a counter moves by one exactly when an action of its kind, user and day is accepted |
| `GuildQuota.CounterIsHistory` | src/services/guild_service.rs:1065-1107 | in every run each daily counter equals the number of accepted actions in the history |
| `GuildQuota.AcceptedWithinLimit` | src/services/guild_service.rs:525-581 | an action accepted under enforcement leaves its counter within the limit in force |
| `GuildQuota.RefusalReportsZero` | src/services/guild_service.rs:525-730 | a refusal changes no counter and no ledger entry, happens only under an enforced finite limit, and reports zero remaining |
| `GuildQuota.WaitEndsNearMidnight` | src/services/guild_service.rs:1368-1373 | the wait is 1..86400 seconds and ends less than a second before or after the next UTC midnight, also for times before the epoch |
| `GuildQuota.WaitReachesNextDayIff` | src/services/guild_service.rs:1368-1373 | the announced wait ends on a later day exactly when the clock read a whole second or midnight was less than a second away; one second more is always enough |
| `GuildQuota.WaitFallsShort` | src/services/guild_service.rs:1372-1372 | read at 23:59:58.5 of any day, the wait is one second and ends on the same day |
| `GuildQuota.EarlyRetryRefused` | src/services/guild_service.rs:554-572 | repeated at the very end of a wait that falls short, a refused request is refused again unless its limit has risen |
| `GuildQuota.AcceptedIffBelowLimit` | src/services/guild_service.rs:525-730 | after any run and at any time, a request that only its quota can refuse is accepted exactly while the number of actions accepted that day is below the limit in force |
| `GuildQuota.RetryNextDaySucceeds` | src/services/guild_service.rs:525-730 | after any run, on any day later than that of a refusal, a user without an acceptance of that kind since is accepted exactly when the limit then in force is absent or positive |
| `GuildQuota.RetryAfterWaitSucceeds` | src/services/guild_service.rs:1368-1373 | the same at any time once the announced wait is over, plus one second where it was rounded down |
| `GuildQuota.LimitScales` | src/services/guild_service.rs:1308-1319 | a multiplier scales the level limit and rounds down, an override without one lifts it, otherwise the level limit stands |
| `GuildQuota.SnapshotAccounts` | src/services/guild_service.rs:759-783 | in every run the snapshot shows the number of actions accepted that day, and what the limit leaves of it |
| `GuildQuota.LimitArithmetic` | src/services/guild_service.rs:1308-1352 | limits are never negative, and a rank that overrides limits without percentages lifts them all |
| `GuildQuota.LimitByAction` | src/services/guild_service.rs:1308-1352 | each action is limited by its own column of the level and its own percentage of the rank |
| `GuildQuota.LevelLimits` | src/services/guild_service.rs:1272-1352 | with the rank engine off the limit of each action is the level's own number for it |
| `GuildQuota.Switches` | src/services/guild_service.rs:732-742 | each action is enforced by the general switch and its own one |
| `GuildQuota.ContactFailsIff` | src/services/guild_service.rs:680-695 | a contact request fails exactly for a missing account or a running yellow card, and then changes nothing |
| `GuildQuota.YellowCardStops` | src/services/guild_service.rs:680-695 | a card set on an account refuses contact requests exactly until its own time |
| `GuildQuota.AttachmentTypeRefusedIff` | src/services/guild_service.rs:613-629 | a type is refused exactly when it is enforced and not listed; the activity is kept and nothing is counted |
| `GuildQuota.FailedInsertChangesNothing` | src/services/guild_service.rs:575-577 | a send whose insert fails leaves every table as it was |
| `GuildQuota.SnapshotShowsRow` | src/services/guild_service.rs:759-840 | the snapshot repeats the row and gives for each action the count of the day and what is left of its own limit |
| `GuildQuota.NextLevelIsFirstHigher` | src/services/guild_service.rs:1239-1245 | the next level is the first entry with a higher number, if there is one |
| `GuildQuota.NewUserRow` | src/services/guild_service.rs:888-916 | the row of a new user |
| `GuildQuota.DefaultLimits` | src/services/guild_service.rs:1375-1517 | the limits of every action under the built-in policy for all day counts and scores, in numbers |
| `GuildQuota.DefaultLimitsGrow` | src/services/guild_service.rs:1375-1517 | under the built-in policy more active days never lower a limit |
| `GuildQuota.HigherScoreKeepsLimitIff` | src/services/guild_service.rs:1375-1517 | more points keep or raise every limit exactly unless they lead from rank D to rank C, whose entry has no percentage |
| `GuildQuota.HigherScoreLowersLimit` | src/services/guild_service.rs:1375-1517 | the input: with no active day, 999 points allow 60 messages and 1000 points 50 |
| `GuildConcurrency.InterleavingInvariant` | src/services/guild_service.rs:525-581 | over every interleaving of statements, the racing insert of a missing row included: the row lock has one holder and its draft, every pending acceptance is still within its limit, counters equal grants, and each counted day belongs to a lock of that day, in the order of the locks |
| `GuildConcurrency.StatementProper` | src/services/guild_service.rs:888-1080 | each statement keeps to the lock discipline: it writes only with the lock, on the newest version of the row, and counts at most its own day |
| `GuildConcurrency.ActiveDaysRiseOncePerDay` | src/services/guild_service.rs:943-973 | in every interleaving the day count grows by the number of days counted; if the locks never return to a day they have left no day is counted twice, the one counted before included, and if they are in day order the counted days ascend |
| `GuildConcurrency.NoGrantPassesItsLimit` | src/services/guild_service.rs:535-581 | no acceptance passes the limit its own transaction computed, and each counter equals its start plus the acceptances, with or without lock order |
| `GuildConcurrency.SerialTransactionIsEngineStep` | src/services/guild_service.rs:509-581 | run without interruption, the statements of a transaction have the effect of the engine's single step, for plain activity and quota-gated actions, for an existing row and for the first insert |
| `GuildConcurrency.ReturningLocksCountTwice` | src/services/guild_service.rs:1039-1063 | for every list of days some interleaving of a new user takes its locks on exactly these days, and it counts a day twice exactly when the list returns to a day it has left |
| `GuildConcurrency.OutOfOrderLocksCountTwice` | src/services/guild_service.rs:1039-1063 | for example three activities around midnight whose locks come on a day, the day before and that day again |
| `GuildStore.Store.UpdateActivity` | src/services/guild_service.rs:943-973 | the in-place update writes exactly the assessed row |
| `GuildStore.Store.AdvanceActiveDay` | src/services/guild_service.rs:1039-1063 | the day is counted at most once per call, with the level refreshed |
| `GuildStore.Store.IncrementCounter` | src/services/guild_service.rs:1082-1107 | insert-or-increment of one counter row |
| `GuildStore.Store.RecordHumanActivity` | src/services/guild_service.rs:509-523 | the tables move by the engine's step |
| `GuildStore.Store.SendMessageWithGuild` | src/services/guild_service.rs:525-581 | the tables and the reply are those of the engine's step, refusals and rolled-back inserts included |
| `GuildStore.Store.RunAttachmentAction` | src/services/guild_service.rs:583-659 | the same, with the type and review checks before the quota |
| `GuildStore.Store.ResolveContactWithGuild` | src/services/guild_service.rs:661-730 | the same for contact requests |
| `GuildStore.Store.GetSnapshot` | src/services/guild_service.rs:484-507 | the row is created or synchronised and the snapshot is of the stored row |
| `GuildStore.Store.GranterIsMeaningful` | src/services/guild_service.rs:1109-1136 | the verdict on the granter, and the row written while asking |
| `GuildStore.Store.ApplyVoteRules` | src/services/guild_service.rs:231-273 | the reassignments of the applied delta end in the rule-by-rule value and reason |
| `GuildStore.Store.EnterContribution` | src/services/guild_service.rs:231-314 | an event that is no duplicate is entered with the delta the rules leave, and the user's and granter's rows are written |
| `GuildStore.Store.RecordContribution` | src/services/guild_service.rs:184-315 | the tables and the reply are those of the engine's step |
| `GuildStore.Store.FreezeProgression` | src/services/guild_service.rs:419-456 | the tables move by the engine's step |
| `GuildStore.Store.UnfreezeProgression` | src/services/guild_service.rs:459-482 | the tables move by the engine's step |
| `GuildStore.Store.SaveGuildPolicy` | src/services/guild_service.rs:117-126 | the policy in force changes only for an acceptable one |
| `RefreshTokens.FamiliesStaySound` | src/routes/auth.rs:385-416 | in every serial run each family has one owner, at most one unrevoked token, and only its newest token can be unrevoked |
| `RefreshTokens.RedemptionIff` | src/routes/auth.rs:840-883 | a live token is consumed whatever follows; a successor with the same family and owner is issued exactly when the user exists and the insert succeeds |
| `RefreshTokens.RedeemedAtMostOnce` | src/routes/auth.rs:840-883 | over every run no token is redeemed twice |
| `RefreshTokens.DeadFamilyStaysDead` | src/routes/auth.rs:840-906 | a family without a live token never has one again |
| `RefreshTokens.ReplayKillsFamily` | src/routes/auth.rs:855-861 | presenting a revoked token, or logging out, leaves its family without a live token |
| `RefreshTokens.RowsPersist` | src/routes/auth.rs:840-906 | rows are never removed or altered except by revocation, which is final |
| `RefreshTokens.RevocationIsExact` | src/routes/auth.rs:855-906 | a replay and a logout revoke every token of the presented family and no other |
| `RefreshTokens.OtherFamiliesUntouched` | src/routes/auth.rs:840-906 | no login, refresh or logout changes a token of a family that it does not present |
| `RefreshTokens.UnpresentedFamilyKeeps` | src/routes/auth.rs:840-906 | in every run a token stays as it is until a token of its own family is presented |
| `RefreshTokens.LoginAdds` | src/routes/auth.rs:385-416 | a login adds one live token and changes no other; an unknown token logs nobody out |
| `RefreshTokens.TokenTable.RevokeAll` | src/routes/auth.rs:857-859 | revokes the rows of one family and no others |
| `RefreshTokens.TokenTable.RefreshToken` | src/routes/auth.rs:840-883 | table and reply follow the rotation step |
| `RefreshTokens.TokenTable.LogoutToken` | src/routes/auth.rs:886-906 | table and reply follow the logout step |
| `RegistrationLimiter.TrimmedListStandsForHistory` | src/routes/auth.rs:160-179 | after any run in which requests of this address follow each other, whatever other addresses do meanwhile, the trimmed list and the full history have the same recent timestamps at every later moment |
| `RegistrationLimiter.RefusalMatchesHistory` | src/routes/auth.rs:160-170 | a request is refused exactly when the full history holds five or more accounts within the window |
| `RegistrationLimiter.AtMostFivePerHour` | src/routes/auth.rs:428-477 | in any 3600 consecutive seconds of the clock at most five accounts are recorded for one address |
| `RegistrationLimiter.AtMostFiveBetween` | src/routes/auth.rs:160-179 | in any stretch of time of up to 3599 seconds at most five accounts are recorded, however finely it is measured |
| `RegistrationLimiter.FiveBetweenIff` | src/routes/auth.rs:160-179 | a bound of five on every stretch of a given length holds in every run exactly for lengths up to 3599 seconds and a nanosecond; a longer one is broken by six accounts |
| `RegistrationLimiter.Limiter.IsLimited` | src/routes/auth.rs:160-170 | `retain` keeps exactly the recent timestamps of that address and the answer is read off the kept list |
| `RegistrationLimiter.Limiter.Register` | src/routes/auth.rs:653-678 | check, then record only if the account was created |
| `MessagePaging.ListingIsExact` | src/services/message_service.rs:46-91 | the query returns exactly the visible messages below the cursor, in strictly descending (created_at, id) order |
| `MessagePaging.PageIsTop` | src/services/message_service.rs:46-91 | a page holds the newest of them: whatever is left out is older than its last message |
| `MessagePaging.FetchIsPage` | src/services/room_service.rs:269-315 | a cursor named by message id selects the same page in a conversation and in a room, even when that message has been soft-deleted |
| `MessagePaging.WalkDescends` | src/services/message_service.rs:46-91 | following last ids never fails and collects messages in strictly descending order, while messages arrive and are soft-deleted and rows of other conversations and rooms come and go |
| `MessagePaging.WalkShowsVisible` | src/services/message_service.rs:46-91 | everything collected was visible at the time of some fetch |
| `MessagePaging.WalkMissesNothing` | src/services/message_service.rs:46-91 | every message that stays visible below the cursor is collected |
| `MessagePaging.PagingIsExact` | src/services/message_service.rs:46-91 | a finished walk contains every message that stays visible exactly once |
| `MessagePaging.WalkEnds` | src/services/room_service.rs:269-315 | if what arrives in the conversation or room is newer than what it had, the walk ends within one fetch more than it had messages, whatever happens in other conversations |
| `MessagePaging.PagesAddUp` | src/services/message_service.rs:46-91 | over an unchanging table the pages of enough fetches concatenate to the plain sorted list |
| `MessagePaging.PageLength` | src/services/message_service.rs:57-86 | a page has as many messages as the limit, capped at 100, and the visible messages below the cursor allow |
| `MessagePaging.PageIsPrefix` | src/services/message_service.rs:57-86 | a page is the first part of the plain sorted list |
| `MessagePaging.FetchLength` | src/services/message_service.rs:46-91 | the same for a whole request that names its cursor |
| `MessagePaging.OrderIsByTimeThenId` | src/services/message_service.rs:70-84 | time decides the order, and the id among messages of one time |
| `MessagePaging.VisibleMessages` | src/services/message_service.rs:58-69 | both directions of a conversation are visible, and of a room what unblocked users sent; deleted messages never |
| `MessagePaging.ConversationRefusals` | src/services/message_service.rs:46-91 | a block gives an empty page, and the only error is a cursor that no message has |
| `MessagePaging.RoomRefusals` | src/services/room_service.rs:269-315 | a missing room, a stranger and a cursor outside the room are refused, and nothing else |
| `Moderation.DetectBlockedTerm` | src/services/moderation_service.rs:606-630 | finds the first listed term that occurs, phrases anywhere and single words as whole tokens, and nothing exactly when none occurs |
| `Moderation.SingleWordMatchesIff` | src/services/moderation_service.rs:606-626 | a one-word term is found exactly where no letter or digit touches it |
| `Moderation.FiledReportsRemovable` | src/services/moderation_service.rs:632-681 | a filed report names another, existing user and content that can be removed later, and is open and due after 24 hours |
| `Moderation.OneMoreHandled` | src/services/moderation_service.rs:554-595 | one round of the pass turns the closed form for the reports handled so far into that for one more, or fails exactly when the report is not closable |
| `Moderation.PassClosesExactlyDue` | src/services/moderation_service.rs:498-552 | a pass closes exactly the open reports that are due and leaves every other report as it was |
| `Moderation.PassDeactivatesExactly` | src/services/moderation_service.rs:513-548 | it deactivates exactly the users with a high-risk due report or at least three due reports |
| `Moderation.PassWarnings` | src/services/moderation_service.rs:729-752 | each warning count rises by that user's due reports that did not escalate |
| `Moderation.PassRemovesExactly` | src/services/moderation_service.rs:874-916 | it marks exactly the messages that a due report of their kind names, with the time of the pass, and leaves all others as they were |
| `Moderation.PassClearsExactly` | src/services/moderation_service.rs:878-887 | it clears avatar and description exactly of the users that a due profile report names |
| `Moderation.PassRestrictions` | src/services/moderation_service.rs:729-752 | no DM restriction is shortened; one that changes lasts at least seven days, and it changes exactly with the warning count |
| `Moderation.PassNeverAborts` | src/services/moderation_service.rs:498-552 | in every run of filings, decisions, passes and other services' changes in which users persist, the pass goes through at any time and leaves nothing overdue |
| `Moderation.RunOnward` | src/services/moderation_service.rs:429-462 | over every run a closed report never reopens or changes, and restrictions and warning counts never go down |
| `Moderation.DismissDecides` | src/services/moderation_service.rs:554-595 | "dismiss" changes the report and nothing else |
| `Moderation.SuspendDecides` | src/services/moderation_service.rs:554-595 | "suspend_user" deactivates the reported user, resolves the report and leaves all content alone |
| `Moderation.RemovalApplies` | src/services/moderation_service.rs:554-595 | the three removing actions remove exactly the named message or profile content and sanction the user as the action says |
| `Moderation.RemovalDecides` | src/services/moderation_service.rs:935-947 | the three removing texts are these actions |
| `Moderation.DecisionRefusals` | src/services/moderation_service.rs:437-449 | an unknown report, a reviewed one and an unknown action are refused in this order |
| `Moderation.FiledIff` | src/services/moderation_service.rs:632-681 | a report is filed exactly about another, existing user, from a known source, for a profile or an undeleted message of that user |
| `Moderation.FilingRefusals` | src/services/moderation_service.rs:632-681 | each refused report gets the error of the first check it fails |
| `Moderation.FiledContents` | src/services/moderation_service.rs:632-681 | the filed row field by field, with the given excerpt cut at 2000 characters or else the content itself |
| `Moderation.OptionalTextIff` | src/services/moderation_service.rs:965-969 | blank and missing texts are the same, others lose their outer blanks |
| `Moderation.RemovableIff` | src/services/moderation_service.rs:874-916 | content can be removed of a profile report and of a message report that names a message |
| `Moderation.PhraseMatchesIff` | src/services/moderation_service.rs:606-630 | a term with a blank in it matches exactly when the text is that term with something before and after it |
| `Moderation.ObjectionableIff` | src/services/moderation_service.rs:606-630 | a text is objectionable exactly when some listed term matches it, trimmed and in lower case |
| `Moderation.ModerationService.RemoveReportedContent` | src/services/moderation_service.rs:874-916 | clears the profile or marks the one message deleted; fails exactly on reports without removable content |
| `Moderation.ModerationService.ApplyTemporaryDmRestriction` | src/services/moderation_service.rs:729-752 | the later of the two restriction ends, and one more warning; a missing user is an error |
| `Moderation.ModerationService.ResolveReportConn` | src/services/moderation_service.rs:554-595 | the staged updates add up to the sanction of the action, or to the first error |
| `Moderation.ModerationService.ResolveReport` | src/services/moderation_service.rs:429-462 | tables follow the step, unknown and already reviewed reports and rolled-back errors included |
| `Moderation.ModerationService.CountByUser` | src/services/moderation_service.rs:513-518 | the counting loop gives each user the number of listed reports against them |
| `Moderation.ModerationService.ReviewAll` | src/services/moderation_service.rs:520-548 | the processing loop, over any order of the due reports, ends in the closed form exactly when every due report is closable |
| `Moderation.ModerationService.RunAutomaticReviewPass` | src/services/moderation_service.rs:498-552 | for every order of the due reports the loop yields the closed form, or the tables as before; it succeeds exactly when every due report is removable and is escalated or has an existing user |
| `Moderation.ModerationService.CreateReport` | src/services/moderation_service.rs:632-681 | tables and error follow the step: self-reports, missing users, bad sources and kinds, bad or foreign or deleted content |
| `Rooms.StepKeepsSound` | src/services/room_service.rs:162-267 | every operation keeps rooms occupied, nothing orphaned and the owner role with the creator |
| `Rooms.RoomsStaySound` | src/services/room_service.rs:50-91 | in every run each stored room has a member, no membership or message outlives its room, and the owner role is held exactly by the creator |
| `Rooms.CreatorNeverReturns` | src/services/room_service.rs:397-429 | once the creator has left they never return, and membership only shrinks |
| `Rooms.OnlyCreatorAdmits` | src/services/room_service.rs:162-225 | a seat in an existing room appears only through the creator, who is a member, inviting an existing user |
| `Rooms.OnlyHolderOrCreatorVacates` | src/services/room_service.rs:227-267 | a seat disappears only when its holder leaves, the creator removes someone else, or the creator deletes the room |
| `Rooms.NameIff` | src/services/room_service.rs:454-466 | a name is kept trimmed if it has 1 to 80 characters and passes the filter |
| `Rooms.CreateIff` | src/services/room_service.rs:50-91 | a room is created exactly with a good name and existing users; its members are then the invited and the creator, who owns it |
| `Rooms.BarrierMeans` | src/services/room_service.rs:490-509 | who may act in a room and who may act as its creator, with the error otherwise |
| `Rooms.AddSeatsInvited` | src/services/room_service.rs:162-225 | the creator's invitation seats exactly the invited users, all of whom must exist |
| `Rooms.RegisteredCanBeInvited` | src/services/room_service.rs:162-225 | a user who has registered and is then invited takes part |
| `Rooms.RemoveTakesSeat` | src/services/room_service.rs:227-267 | a removal takes exactly the target's seat; the creator's is refused, and so is one that is not there |
| `Rooms.LeaveGivesUpSeat` | src/services/room_service.rs:397-429 | leaving gives up one seat, and the room and its messages go exactly when nobody is left |
| `Rooms.DeleteRemovesAll` | src/services/room_service.rs:431-452 | only the creator deletes, and then nothing of the room is left and nothing else has changed |
| `Rooms.SendStores` | src/services/room_service.rs:317-357 | a message is stored trimmed exactly when a member sends allowed text that is not blank |
| `Rooms.RenameChangesName` | src/services/room_service.rs:136-160 | a rename by the creator changes that name only |
| `Rooms.RoomService.NormalizeMemberIds` | src/services/room_service.rs:468-475 | the loop collects the invited users and the creator, each once |
| `Rooms.RoomService.Create` | src/services/room_service.rs:50-91 | tables and reply follow the step |
| `Rooms.RoomService.Add` | src/services/room_service.rs:162-225 | tables and reply follow the step; only newcomers get a seat |
| `Rooms.RoomService.Remove` | src/services/room_service.rs:227-267 | tables and reply follow the step; the creator cannot be removed |
| `Rooms.RoomService.Leave` | src/services/room_service.rs:397-429 | tables and reply follow the step; the last to leave takes the room and its messages along |
| `Rooms.RoomService.Delete` | src/services/room_service.rs:431-452 | tables and reply follow the step |
| `Rooms.RoomService.Send` | src/services/room_service.rs:317-357 | tables and reply follow the step |
| `FederationDelivery.GivenUpIff` | src/services/federation_service.rs:330-335 | a failed attempt dead-letters the delivery exactly when the answer is a 4xx other than 429 or the attempts are used up |
| `FederationDelivery.BackoffBounds` | src/services/federation_service.rs:165-168 | every wait is within 2..1040 seconds and never shrinks with the attempt |
| `FederationDelivery.RowsStayUnique` | src/services/federation_service.rs:100-130 | in every run ids are unique and there is one row per activity and destination |
| `FederationDelivery.ScheduledExactlyWhenFailed` | src/services/federation_service.rs:146-184 | in every run a row has a next-attempt time exactly when it is failed |
| `FederationDelivery.WaitsNeverShrink` | src/services/federation_service.rs:146-184 | over every run the waits given to one delivery are within bounds and never decrease |
| `FederationDelivery.FailedOnlyBelowMaximum` | src/services/federation_service.rs:146-184 | a never-delivered row whose own failures are judged by one maximum m, whatever happens to other rows, counts exactly its failures, is failed only below max(1, m) and dead-lettered only from there on |
| `FederationDelivery.DeadLetterExactly` | src/services/federation_service.rs:146-184 | a failure dead-letters a never-delivered row exactly when it is at least the max(1, m)-th |
| `FederationDelivery.DeadLetterNeverSwept` | src/routes/federation.rs:855-889 | from then on the retry sweep never picks it, even if it is queued again |
| `FederationDelivery.SuccessDelivers` | src/services/federation_service.rs:132-144 | a success leaves its row delivered, without error or next attempt, and no other row changed |
| `FederationDelivery.FailureRecorded` | src/services/federation_service.rs:146-184 | a failure adds one attempt and stores its error, status and next attempt on its row only |
| `FederationDelivery.UpsertQueues` | src/services/federation_service.rs:100-130 | a queued delivery is inserted once per activity and destination, or else reopened with its attempts kept |
| `FederationDelivery.SweepFailsDue` | src/routes/federation.rs:855-889 | a sweep fails exactly the rows whose time has come, with the error that fits their sender |
| `FederationDelivery.RetriedCount` | src/routes/federation.rs:855-889 | the number reported is that of the due rows whose sender has a key |
| `FederationDelivery.BackoffNumbers` | src/services/federation_service.rs:165-168 | the wait doubles with each attempt up to 1024 seconds, plus the id modulo 17 |
| `FederationDelivery.SweptOldestFirst` | src/services/federation_service.rs:186-200 | due rows are taken oldest first |
| `FederationDelivery.DeliveryService.UpsertPending` | src/services/federation_service.rs:100-130 | inserts, or resets the one row with that activity and destination |
| `FederationDelivery.DeliveryService.MarkFailure` | src/services/federation_service.rs:146-184 | the row of that id fails once; an unknown id is reported |
| `FederationDelivery.DeliveryService.MarkSuccess` | src/services/federation_service.rs:132-144 | the row of that id is delivered |
| `FederationDelivery.DeliveryService.RetryDue` | src/routes/federation.rs:855-889 | the loop over rows loaded beforehand fails exactly the due ones, each once, and counts those whose sender has a key |
| `SignatureHeader.ParseSignatureHeader` | src/routes/federation.rs:102-144 | the loop over mutable fields reads the header as a whole: the last part of each name counts, a part without `=` spoils it, and errors come in the order key id, signature, headers, date |
| `SignatureHeader.RoundTripIff` | src/routes/federation.rs:205-248 | for all strings: parsing the printed header returns the same key id, signature and header list exactly when neither value contains a comma or an outer double quote |
| `SignatureHeader.ParsedValuesQuotable` | src/routes/federation.rs:102-144 | no header at all can yield a key id or signature outside that set |
| `SignatureHeader.CanonicalizeSignedString` | src/routes/federation.rs:146-174 | the listed lines joined by newlines, or the first listed header that is missing or unreadable |
| `SignatureHeader.CanonicalFormat` | src/routes/federation.rs:146-174 | the four signed headers are rebuilt in the sender's format exactly when all are readable |
| `SignatureHeader.SignedStringInjective` | src/routes/federation.rs:232-239 | two requests have the same signed string exactly when method (up to case), target, host, date and digest agree |
| `SignatureHeader.CanonicalMatchesIff` | src/routes/federation.rs:146-174 | the verifier's string equals the signed one exactly when the signed parts match |
| `SignatureHeader.SignedRequestAcceptedIff` | src/routes/federation.rs:448-467 | with a matching sign and verify pair, a signed request is accepted exactly when its signed parts arrive unchanged, whichever key was cached before the refetch, the sender's previous one included |
| `SignatureHeader.ExplicitPortNeverMatches` | src/routes/federation.rs:215-218 | a Host header carrying an explicit port never matches the signed host |
| `SignatureHeader.HeaderText` | src/routes/federation.rs:242-247 | the header text that is sent, in full |
| `SignatureHeader.SignedText` | src/routes/federation.rs:232-239 | the text that is signed, in full |
| `SignatureHeader.Targets` | src/routes/federation.rs:210-214 | the request target with and without a query |
| `SignatureHeader.ParseAcceptsIff` | src/routes/federation.rs:102-144 | a header is accepted exactly when every part assigns something, the three names are there and "date" is listed |
| `SignatureHeader.ParseErrors` | src/routes/federation.rs:102-144 | a part without an assignment is reported first, then what is missing in the source's order |
| `SignatureHeader.LastValueMeans` | src/routes/federation.rs:102-144 | of several parts with one name the last one counts |
| `SignatureHeader.LineMeans` | src/routes/federation.rs:146-174 | the line of each listed header, the pseudo-header included, and which headers have none |
| `SignatureHeader.BuildIff` | src/routes/federation.rs:205-248 | when a header can be built, and what it then signs |
| `CallSession.SessionsStaySound` | src/ws/session.rs:197-463 | in every interleaving of sessions each status change was made to a call whose caller or callee is the acting user, tracked calls are the user's own, and the table shows the last change |
| `CallSession.OnlyParticipantsChangeCalls` | src/services/call_service.rs:68-75 | a call row changes only in a step of a session whose user takes part in it |
| `CallSession.TrackedIsCurrent` | src/ws/session.rs:197-368 | in every run an open session tracks exactly the call it offered (and told its client about) or answered last, unless it rejected or left any call since; a session in the middle of an exchange is there because of the last input it took up |
| `CallSession.ClosingEndsExactlyCurrent` | src/ws/session.rs:443-463 | when a session closes and its write succeeds, a call is ended afterwards exactly when it was ended before or is that current call, and every other call is left as it was |
| `CallSession.ClosingEndsTrackedCall` | src/ws/session.rs:443-463 | a session that closes while tracking a call leaves it ended at that time, given the write succeeds, and touches no other call |
| `CallSession.HeartbeatIsLatest` | src/ws/session.rs:191-206 | the heartbeat field is the time of the latest text frame, socket ping or connection |
| `CallSession.TickDropsIffSilent` | src/ws/session.rs:433-439 | a tick drops the connection exactly when the client has been silent for more than 60 seconds |
| `CallSession.LaterOfferStrandsEarlier` | src/ws/session.rs:238-255 | a run from the empty state, all writes succeeding, in which a second offer leaves the first call open after the session is gone |
| `CallSession.RejectingOtherStrandsOwn` | src/ws/session.rs:339-340 | the same for rejecting somebody else's call while an own offer is open |
| `CallSession.FailedAcknowledgementStrands` | src/ws/session.rs:252-255 | the same for an offer whose acknowledgement cannot be sent |
| `CallSession.TurnIsThreeSteps` | src/ws/session.rs:199-441 | a turn of the loop is three steps of its session in the shared world |
| `CallSession.SignalWrites` | src/ws/session.rs:298-382 | answering, rejecting and hanging up leave Answered, Rejected and Ended with their own time on that call and change no other |
| `CallSession.StrangerIgnored` | src/ws/session.rs:299-309 | a signal about a call of others changes no call |
| `CallSession.OfferAdds` | src/ws/session.rs:238-248 | an offer adds one initiated call from the user to the callee |
| `CallSession.LoopLeftIff` | src/ws/session.rs:199-441 | the loop is left exactly on a lost socket, a reply that cannot be sent, and a tick after more than 60 seconds of silence |
| `CallSession.EntryFollowsInput` | src/ws/session.rs:298-447 | in every run each change of a call has the status of the last input its session took up, on the call that input names, or is the cleanup of the current call |
| `CallSession.SignallingServer.UpdateStatus` | src/services/call_service.rs:29-52 | status and the matching timestamp of one row; a missing row is no error |
| `CallSession.SignallingServer.IsCallParticipant` | src/services/call_service.rs:68-75 | caller or callee of an existing call |
| `CallSession.SignallingServer.HandleTurn` | src/ws/session.rs:199-441 | each arm of the loop has the effect of the session's steps |
| `CallSession.SignallingServer.RunWsSession` | src/ws/session.rs:197-463 | loop and cleanup together have the effect of the played turns; what arrives after the loop is left is ignored |

## Left out

- GuildPolicy.NormalizeTypesIsSet: folds the case of ASCII letters only, as `Text.Lower` does.
- GuildPolicy.ReadAfterSave: takes the JSON encoding of a policy to be lossless.
- GuildStore.Store.GetSnapshot: reads the clock once and is one step, while the source reads it twice and runs outside a transaction.
- Text.Lower: maps ASCII letters only, while the source lower-cases all of Unicode; header names, attachment types and terms outside ASCII are therefore not folded.
- GuildStore.Store.RecordHumanActivity: the source reads the clock twice in this call; the model reads it once.
- GuildLedger.ScoreIsLedgerClosedForm: the 32-bit overflow of the score sum is not modelled, nor that of `limit * percent` and `progressed * 100`, because normalisation does not bound them.
- GuildStore.Store.UpdateActivity: the stored time is kept to the nanosecond, while the database rounds it to microseconds.
- GuildLedger.VotingIsFair: is about serial runs, because a score event reads the ledger before it locks a row.
- RefreshTokens.RedeemedAtMostOnce: is about serial runs, because a refresh reads the token before it revokes it.
- RegistrationLimiter.AtMostFivePerHour: requests of the same address follow each other, because checking and recording take the lock separately; it counts recorded accounts, and an account whose terms acceptance fails to be stored is created without being recorded.
- MessagePaging.WalkEnds: needs that what arrives in the conversation or room is newer than what it had; a message inserted there with an old timestamp below the cursor can prolong the walk.
- Moderation.DetectBlockedTerm: the list of terms is a parameter, as is the UUID parser for content ids, and the case of ASCII letters only is folded.
- CallSession.SignallingServer.RunWsSession: the hangup relayed to the peer on disconnect is not modelled.
- CallSession.SignallingServer.HandleTurn: what is relayed to the other party (typing, candidates, call events, pushes) is not modelled.
- `prune_guild_history` and the unused `record_score_event`: the ledger results are about ledgers that are not pruned.
- Milestone labels, audit logs, event metadata, tracing and metrics: reporting only.
- Cascading deletes and migration-level constraints: users persist, and the conflict targets named in the code are unique.
- Cryptography (bcrypt, JWT, Ed25519, SHA-256, base64, ALTCHA): foreign libraries; signing and verifying are a pair of function values, token hashes are identifiers.
- Whether a direct message to a new contact is admitted (`ensure_direct_message_allowed`): one condition on the restriction that the moderation results set.
- QR login with its Redis and in-memory stores.
- Blocking users, `mark_read`, `unread_counts`, the schedule of the daily pass, room and report listings: would only add easy members.
- Federation inbox processing after the signature, WebFinger, actor profiles and the key cache's expiry.
- Stickers, news, backups, push tokens, agent tokens, image compression, the dashboard and the Markdown rules.
