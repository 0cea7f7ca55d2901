/**
 * The administrator's guild policy: its normalisation, its storage and the
 * level and rank lookups that every guild transaction performs.
 */
module GuildPolicy {
  import opened Core
  import opened Text
  import opened Bands
  import Sorting

  datatype LevelPolicy = LevelPolicy(
    level: int,
    minDays: int,
    maxDays: Option<int>,
    messageLimit: Option<int>,
    friendLimit: Option<int>,
    attachmentLimit: Option<int>)

  datatype RankPolicy = RankPolicy(
    rank: Rank,
    minScore: int,
    maxScore: Option<int>,
    messagePercent: Option<int>,
    friendPercent: Option<int>,
    attachmentPercent: Option<int>,
    overridesLevelLimits: bool)

  datatype Enforcement = Enforcement(
    enabled: bool,
    outboundMessages: bool,
    friendAdds: bool,
    attachmentSends: bool,
    rankEngine: bool)

  datatype Policy = Policy(
    enforcement: Enforcement,
    counterRetentionDays: int,
    eventRetentionDays: int,
    levels: seq<LevelPolicy>,
    ranks: seq<RankPolicy>,
    upvoteDailyCap: int,
    attachmentTypes: seq<string>)

  datatype PolicyError =
    | NoLevels | NoRanks | NegativeUpvoteCap | BadCounterRetention | BadEventRetention
    | LevelOutOfRange | DuplicateLevel | NegativeMinDays | MaxDaysBelowMin | DayRangesOverlap
    | OpenEndedLevelNotLast | NegativeLimit | FirstLevelNotAtZero
    | UnknownRank | DuplicateRank | NegativeMinScore | MaxScoreBelowMin | ScoreRangesOverlap
    | OpenEndedRankNotLast | NonPositivePercent | FirstRankNotAtZero

  /** The text of a rank field: one of the seven ranks, or anything else an administrator typed. */
  datatype Rank = F | E | D | C | B | A | S | Unknown(text: string)

  function RankOrder(r: Rank): nat {
    match r
    case F => 0 case E => 1 case D => 2 case C => 3 case B => 4 case A => 5 case S => 6
    case Unknown(_) => 0
  }

  // ---------------------------------------------------------------------
  // Normalisation
  // ---------------------------------------------------------------------

  function LevelBand(e: LevelPolicy): Band { Band(e.minDays, e.maxDays) }

  function RankBand(e: RankPolicy): Band { Band(e.minScore, e.maxScore) }

  function LevelBands(es: seq<LevelPolicy>): (bs: seq<Band>)
    ensures |bs| == |es|
  {
    seq(|es|, i requires 0 <= i < |es| => LevelBand(es[i]))
  }

  function RankBands(es: seq<RankPolicy>): (bs: seq<Band>)
    ensures |bs| == |es|
  {
    seq(|es|, i requires 0 <= i < |es| => RankBand(es[i]))
  }

  predicate Below(limit: Option<int>, floor: int) { limit.Some? && limit.value < floor }

  /** What the validation loop objects to at position `i` of the sorted level list, if anything. */
  function LevelFault(es: seq<LevelPolicy>, i: nat): Option<PolicyError>
    requires i < |es|
  {
    var e := es[i];
    if e.level == 0 || e.level > 10 || e.level < 0 then Some(LevelOutOfRange)
    else if exists j | 0 <= j < i :: es[j].level == e.level then Some(DuplicateLevel)
    else if e.minDays < 0 then Some(NegativeMinDays)
    else if e.maxDays.Some? && e.maxDays.value < e.minDays then Some(MaxDaysBelowMin)
    else if e.maxDays.Some? && i + 1 < |es| && es[i + 1].minDays <= e.maxDays.value then Some(DayRangesOverlap)
    else if e.maxDays.None? && i + 1 != |es| then Some(OpenEndedLevelNotLast)
    else if Below(e.messageLimit, 0) || Below(e.friendLimit, 0) || Below(e.attachmentLimit, 0) then Some(NegativeLimit)
    else None
  }

  /** The same for the sorted rank list. */
  function RankFault(es: seq<RankPolicy>, i: nat): Option<PolicyError>
    requires i < |es|
  {
    var e := es[i];
    if e.rank.Unknown? then Some(UnknownRank)
    else if exists j | 0 <= j < i :: es[j].rank == e.rank then Some(DuplicateRank)
    else if e.minScore < 0 then Some(NegativeMinScore)
    else if e.maxScore.Some? && e.maxScore.value < e.minScore then Some(MaxScoreBelowMin)
    else if e.maxScore.Some? && i + 1 < |es| && es[i + 1].minScore <= e.maxScore.value then Some(ScoreRangesOverlap)
    else if e.maxScore.None? && i + 1 != |es| then Some(OpenEndedRankNotLast)
    else if Below(e.messagePercent, 1) || Below(e.friendPercent, 1) || Below(e.attachmentPercent, 1) then
      Some(NonPositivePercent)
    else None
  }

  function LevelFaults(es: seq<LevelPolicy>): (fs: seq<Option<PolicyError>>)
    ensures |fs| == |es|
  {
    seq(|es|, i requires 0 <= i < |es| => LevelFault(es, i))
  }

  function RankFaults(es: seq<RankPolicy>): (fs: seq<Option<PolicyError>>)
    ensures |fs| == |es|
  {
    seq(|es|, i requires 0 <= i < |es| => RankFault(es, i))
  }

  /** Everything that can be wrong with a sorted level list. */
  function LevelsVerdict(es: seq<LevelPolicy>): Option<PolicyError>
    requires es != []
  {
    if FirstFault(LevelFaults(es)).Some? then FirstFault(LevelFaults(es))
    else if es[0].minDays != 0 then Some(FirstLevelNotAtZero)
    else None
  }

  /** Everything that can be wrong with a sorted rank list. */
  function RanksVerdict(es: seq<RankPolicy>): Option<PolicyError>
    requires es != []
  {
    if FirstFault(RankFaults(es)).Some? then FirstFault(RankFaults(es))
    else if es[0].minScore != 0 then Some(FirstRankNotAtZero)
    else None
  }

  function SortLevels(es: seq<LevelPolicy>): (r: seq<LevelPolicy>)
    ensures multiset(r) == multiset(es) && |r| == |es|
    ensures Sorting.Sorted(r, ByStart(LevelBand))
  {
    ByStartIsOrder(LevelBand);
    Sorting.SortSorts(es, ByStart(LevelBand));
    Sorting.Sort(es, ByStart(LevelBand))
  }

  function SortRanks(es: seq<RankPolicy>): (r: seq<RankPolicy>)
    ensures multiset(r) == multiset(es) && |r| == |es|
    ensures Sorting.Sorted(r, ByStart(RankBand))
  {
    ByStartIsOrder(RankBand);
    Sorting.SortSorts(es, ByStart(RankBand));
    Sorting.Sort(es, ByStart(RankBand))
  }

  /** Adds `s` to a strictly ascending list, as a `BTreeSet` does. */
  function AddSorted(xs: seq<string>, s: string): seq<string> {
    if xs == [] then [s]
    else if s == xs[0] then xs
    else if LexLess(s, xs[0]) then [s] + xs
    else [xs[0]] + AddSorted(xs[1..], s)
  }

  /** The allowed attachment types: trimmed, lower-cased, without blanks or duplicates, ascending. */
  function NormalizeTypes(ts: seq<string>): seq<string> {
    if ts == [] then []
    else
      var rest := NormalizeTypes(ts[..|ts| - 1]);
      var t := TrimLower(ts[|ts| - 1]);
      if t == [] then rest else AddSorted(rest, t)
  }

  /** Specification of `normalize_guild_policy`. */
  function Normalize(p: Policy): Result<Policy, PolicyError> {
    if p.levels == [] then Err(NoLevels)
    else if p.ranks == [] then Err(NoRanks)
    else if p.upvoteDailyCap < 0 then Err(NegativeUpvoteCap)
    else if p.counterRetentionDays <= 0 then Err(BadCounterRetention)
    else if p.eventRetentionDays <= 0 then Err(BadEventRetention)
    else
      var levels, ranks := SortLevels(p.levels), SortRanks(p.ranks);
      if LevelsVerdict(levels).Some? then Err(LevelsVerdict(levels).value)
      else if RanksVerdict(ranks).Some? then Err(RanksVerdict(ranks).value)
      else Ok(p.(levels := levels, ranks := ranks, attachmentTypes := NormalizeTypes(p.attachmentTypes)))
  }

  /** The level validation loop with its set of levels seen so far. */
  method CheckLevels(es: seq<LevelPolicy>) returns (fault: Option<PolicyError>)
    ensures fault == FirstFault(LevelFaults(es))
  {
    ghost var faults := LevelFaults(es);
    assert faults[0..] == faults;
    var seen: set<int> := {};
    var index := 0;
    while index < |es|
      invariant 0 <= index <= |es|
      invariant seen == set j | 0 <= j < index :: es[j].level
      invariant FirstFault(faults) == FirstFault(faults[index..])
    {
      assert faults[index..][0] == LevelFault(es, index) && faults[index..][1..] == faults[index + 1..];
      var e := es[index];
      if e.level <= 0 || e.level > 10 { return Some(LevelOutOfRange); }
      if e.level in seen { return Some(DuplicateLevel); }
      seen := seen + {e.level};
      if e.minDays < 0 { return Some(NegativeMinDays); }
      if e.maxDays.Some? {
        if e.maxDays.value < e.minDays { return Some(MaxDaysBelowMin); }
        if index + 1 < |es| && es[index + 1].minDays <= e.maxDays.value { return Some(DayRangesOverlap); }
      } else if index + 1 != |es| {
        return Some(OpenEndedLevelNotLast);
      }
      if Below(e.messageLimit, 0) || Below(e.friendLimit, 0) || Below(e.attachmentLimit, 0) {
        return Some(NegativeLimit);
      }
      index := index + 1;
    }
    fault := None;
  }

  /** The rank validation loop with its set of ranks seen so far. */
  method CheckRanks(es: seq<RankPolicy>) returns (fault: Option<PolicyError>)
    ensures fault == FirstFault(RankFaults(es))
  {
    ghost var faults := RankFaults(es);
    assert faults[0..] == faults;
    var seen: set<Rank> := {};
    var index := 0;
    while index < |es|
      invariant 0 <= index <= |es|
      invariant seen == set j | 0 <= j < index :: es[j].rank
      invariant FirstFault(faults) == FirstFault(faults[index..])
    {
      assert faults[index..][0] == RankFault(es, index) && faults[index..][1..] == faults[index + 1..];
      var e := es[index];
      if e.rank.Unknown? { return Some(UnknownRank); }
      if e.rank in seen { return Some(DuplicateRank); }
      seen := seen + {e.rank};
      if e.minScore < 0 { return Some(NegativeMinScore); }
      if e.maxScore.Some? {
        if e.maxScore.value < e.minScore { return Some(MaxScoreBelowMin); }
        if index + 1 < |es| && es[index + 1].minScore <= e.maxScore.value { return Some(ScoreRangesOverlap); }
      } else if index + 1 != |es| {
        return Some(OpenEndedRankNotLast);
      }
      if Below(e.messagePercent, 1) || Below(e.friendPercent, 1) || Below(e.attachmentPercent, 1) {
        return Some(NonPositivePercent);
      }
      index := index + 1;
    }
    fault := None;
  }

  /** `normalize_guild_policy`, step by step. */
  method NormalizeGuildPolicy(p: Policy) returns (r: Result<Policy, PolicyError>)
    ensures r == Normalize(p)
  {
    var policy := p;
    if policy.levels == [] { return Err(NoLevels); }
    if policy.ranks == [] { return Err(NoRanks); }
    if policy.upvoteDailyCap < 0 { return Err(NegativeUpvoteCap); }
    if policy.counterRetentionDays <= 0 { return Err(BadCounterRetention); }
    if policy.eventRetentionDays <= 0 { return Err(BadEventRetention); }
    policy := policy.(attachmentTypes := NormalizeTypes(policy.attachmentTypes));
    policy := policy.(levels := SortLevels(policy.levels));
    var fault := CheckLevels(policy.levels);
    if fault.Some? { return Err(fault.value); }
    if policy.levels[0].minDays != 0 { return Err(FirstLevelNotAtZero); }
    policy := policy.(ranks := SortRanks(policy.ranks));
    fault := CheckRanks(policy.ranks);
    if fault.Some? { return Err(fault.value); }
    if policy.ranks[0].minScore != 0 { return Err(FirstRankNotAtZero); }
    r := Ok(policy);
  }

  // ---------------------------------------------------------------------
  // What an acceptable policy is, without reference to list order
  // ---------------------------------------------------------------------

  predicate LevelSound(e: LevelPolicy) {
    && 1 <= e.level <= 10 && LevelBand(e).Proper()
    && !Below(e.messageLimit, 0) && !Below(e.friendLimit, 0) && !Below(e.attachmentLimit, 0)
  }

  predicate RankSound(e: RankPolicy) {
    && !e.rank.Unknown? && RankBand(e).Proper()
    && !Below(e.messagePercent, 1) && !Below(e.friendPercent, 1) && !Below(e.attachmentPercent, 1)
  }

  function LevelKey(e: LevelPolicy): int { e.level }

  function RankKey(e: RankPolicy): Rank { e.rank }

  /** Sound entries with distinct levels and pairwise disjoint day ranges, one of which starts at zero. */
  ghost predicate LevelsAcceptable(m: multiset<LevelPolicy>) {
    Compatible(m, LevelKey, LevelBand, LevelSound) && exists e :: e in m && LevelBand(e).lo == 0
  }

  /** Sound entries with distinct ranks and pairwise disjoint score ranges, one of which starts at zero. */
  ghost predicate RanksAcceptable(m: multiset<RankPolicy>) {
    Compatible(m, RankKey, RankBand, RankSound) && exists e :: e in m && RankBand(e).lo == 0
  }

  ghost predicate Acceptable(p: Policy) {
    && p.upvoteDailyCap >= 0 && p.counterRetentionDays > 0 && p.eventRetentionDays > 0
    && LevelsAcceptable(multiset(p.levels)) && RanksAcceptable(multiset(p.ranks))
  }

  /** A sorted level list that passed validation. */
  ghost predicate LevelsChecked(es: seq<LevelPolicy>) {
    es != [] && es[0].minDays == 0 && InOrder(es, LevelKey, LevelBand, LevelSound)
  }

  ghost predicate RanksChecked(es: seq<RankPolicy>) {
    es != [] && es[0].minScore == 0 && InOrder(es, RankKey, RankBand, RankSound)
  }

  lemma {:induction false} LevelFaultNone(es: seq<LevelPolicy>, i: nat)
    requires i < |es|
    ensures LevelFault(es, i).None? <==> EntryFits(es, i, LevelKey, LevelBand, LevelSound)
  {}

  lemma {:induction false} RankFaultNone(es: seq<RankPolicy>, i: nat)
    requires i < |es|
    ensures RankFault(es, i).None? <==> EntryFits(es, i, RankKey, RankBand, RankSound)
  {}

  /** The loop accepts a level list exactly when it is a chain of sound, distinct levels. */
  lemma {:induction false} LevelLoopAccepts(es: seq<LevelPolicy>)
    requires es != []
    ensures LevelsVerdict(es).None? <==> LevelsChecked(es)
  {
    NoFault(LevelFaults(es));
    forall i | 0 <= i < |es| ensures LevelFaults(es)[i].None? <==> EntryFits(es, i, LevelKey, LevelBand, LevelSound) {
      LevelFaultNone(es, i);
    }
    LoopAccepts(es, LevelKey, LevelBand, LevelSound);
  }

  /** The loop accepts a rank list exactly when it is a chain of sound, distinct ranks. */
  lemma {:induction false} RankLoopAccepts(es: seq<RankPolicy>)
    requires es != []
    ensures RanksVerdict(es).None? <==> RanksChecked(es)
  {
    NoFault(RankFaults(es));
    forall i | 0 <= i < |es| ensures RankFaults(es)[i].None? <==> EntryFits(es, i, RankKey, RankBand, RankSound) {
      RankFaultNone(es, i);
    }
    LoopAccepts(es, RankKey, RankBand, RankSound);
  }

  lemma {:induction false} SortedLevelsDecide(es: seq<LevelPolicy>)
    requires es != []
    ensures LevelsVerdict(SortLevels(es)).None? <==> LevelsAcceptable(multiset(es))
  {
    var sorted := SortLevels(es);
    LevelLoopAccepts(sorted);
    InOrderIffCompatible(sorted, LevelKey, LevelBand, LevelSound);
    if InOrder(sorted, LevelKey, LevelBand, LevelSound) { StartsAtZero(sorted, LevelBand); }
  }

  lemma {:induction false} SortedRanksDecide(es: seq<RankPolicy>)
    requires es != []
    ensures RanksVerdict(SortRanks(es)).None? <==> RanksAcceptable(multiset(es))
  {
    var sorted := SortRanks(es);
    RankLoopAccepts(sorted);
    InOrderIffCompatible(sorted, RankKey, RankBand, RankSound);
    if InOrder(sorted, RankKey, RankBand, RankSound) { StartsAtZero(sorted, RankBand); }
  }

  /** Normalisation accepts exactly the policies that are acceptable, whatever their list order. */
  lemma {:induction false} NormalizeAcceptsIff(p: Policy)
    ensures Normalize(p).Ok? <==> Acceptable(p)
  {
    if p.levels != [] && p.ranks != [] {
      SortedLevelsDecide(p.levels);
      SortedRanksDecide(p.ranks);
    }
  }

  // ---------------------------------------------------------------------
  // What a refusal says
  // ---------------------------------------------------------------------

  /** Two entries of a list, at two places. */
  ghost predicate Pair<T>(m: multiset<T>, a: T, b: T) { multiset{a, b} <= m }

  /** The complaints about one level entry. */
  predicate LevelBad(e: LevelPolicy, fault: PolicyError) {
    match fault
    case LevelOutOfRange => !(1 <= e.level <= 10)
    case NegativeMinDays => e.minDays < 0
    case MaxDaysBelowMin => e.maxDays.Some? && e.maxDays.value < e.minDays
    case NegativeLimit => Below(e.messageLimit, 0) || Below(e.friendLimit, 0) || Below(e.attachmentLimit, 0)
    case _ => false
  }

  /** The complaints about two level entries. */
  predicate LevelsClash(a: LevelPolicy, b: LevelPolicy, fault: PolicyError) {
    match fault
    case DuplicateLevel => a.level == b.level
    case DayRangesOverlap => a.maxDays.Some? && a.minDays <= b.minDays <= a.maxDays.value
    case OpenEndedLevelNotLast => a.maxDays.None? && a.minDays <= b.minDays
    case _ => false
  }

  /** What a complaint says about the level list, in whatever order it was submitted. */
  ghost predicate LevelsGuilty(m: multiset<LevelPolicy>, fault: PolicyError) {
    || (exists e :: e in m && LevelBad(e, fault))
    || (exists a, b :: Pair(m, a, b) && LevelsClash(a, b, fault))
    || (fault == FirstLevelNotAtZero && forall e | e in m :: LevelBand(e).lo > 0)
  }

  predicate RankBad(e: RankPolicy, fault: PolicyError) {
    match fault
    case UnknownRank => e.rank.Unknown?
    case NegativeMinScore => e.minScore < 0
    case MaxScoreBelowMin => e.maxScore.Some? && e.maxScore.value < e.minScore
    case NonPositivePercent => Below(e.messagePercent, 1) || Below(e.friendPercent, 1) || Below(e.attachmentPercent, 1)
    case _ => false
  }

  predicate RanksClash(a: RankPolicy, b: RankPolicy, fault: PolicyError) {
    match fault
    case DuplicateRank => a.rank == b.rank
    case ScoreRangesOverlap => a.maxScore.Some? && a.minScore <= b.minScore <= a.maxScore.value
    case OpenEndedRankNotLast => a.maxScore.None? && a.minScore <= b.minScore
    case _ => false
  }

  ghost predicate RanksGuilty(m: multiset<RankPolicy>, fault: PolicyError) {
    || (exists e :: e in m && RankBad(e, fault))
    || (exists a, b :: Pair(m, a, b) && RanksClash(a, b, fault))
    || (fault == FirstRankNotAtZero && forall e | e in m :: RankBand(e).lo > 0)
  }

  datatype Part = Whole | LevelList | RankList

  /** The part of a policy a complaint is about. */
  function About(fault: PolicyError): Part {
    match fault
    case NoLevels | NoRanks | NegativeUpvoteCap | BadCounterRetention | BadEventRetention => Whole
    case LevelOutOfRange | DuplicateLevel | NegativeMinDays | MaxDaysBelowMin | DayRangesOverlap
       | OpenEndedLevelNotLast | NegativeLimit | FirstLevelNotAtZero => LevelList
    case UnknownRank | DuplicateRank | NegativeMinScore | MaxScoreBelowMin | ScoreRangesOverlap
       | OpenEndedRankNotLast | NonPositivePercent | FirstRankNotAtZero => RankList
  }

  predicate WholeGuilty(p: Policy, fault: PolicyError) {
    match fault
    case NoLevels => p.levels == []
    case NoRanks => p.ranks == []
    case NegativeUpvoteCap => p.upvoteDailyCap < 0
    case BadCounterRetention => p.counterRetentionDays < 1
    case BadEventRetention => p.eventRetentionDays < 1
    case _ => false
  }

  /** What each complaint says about a submitted policy. */
  ghost predicate Guilty(p: Policy, fault: PolicyError) {
    match About(fault)
    case Whole => WholeGuilty(p, fault)
    case LevelList => LevelsGuilty(multiset(p.levels), fault)
    case RankList => RanksGuilty(multiset(p.ranks), fault)
  }

  lemma {:induction false} PairAt<T>(es: seq<T>, i: nat, j: nat)
    requires i < j < |es|
    ensures Pair(multiset(es), es[i], es[j])
  {
    assert es == es[..i] + [es[i]] + es[i + 1..j] + [es[j]] + es[j + 1..];
  }

  lemma {:induction false} StartsAscend<T>(es: seq<T>, band: T -> Band, i: nat, j: nat)
    requires i <= j < |es| && Sorting.Sorted(es, ByStart(band))
    ensures band(es[i]).lo <= band(es[j]).lo
  {
    assert i < j ==> ByStart(band)(es[i], es[j]);
  }

  lemma {:induction false} LevelFaultTrue(es: seq<LevelPolicy>, i: nat)
    requires i < |es| && LevelFault(es, i).Some? && Sorting.Sorted(es, ByStart(LevelBand))
    ensures LevelsGuilty(multiset(es), LevelFault(es, i).value)
  {
    var fault := LevelFault(es, i).value;
    if fault == DuplicateLevel {
      var j :| 0 <= j < i && es[j].level == es[i].level;
      PairAt(es, j, i);
      assert LevelsClash(es[j], es[i], fault);
    } else if fault == DayRangesOverlap || fault == OpenEndedLevelNotLast {
      PairAt(es, i, i + 1);
      StartsAscend(es, LevelBand, i, i + 1);
      assert LevelsClash(es[i], es[i + 1], fault);
    } else {
      assert es[i] in multiset(es) && LevelBad(es[i], fault);
    }
  }

  lemma {:induction false} RankFaultTrue(es: seq<RankPolicy>, i: nat)
    requires i < |es| && RankFault(es, i).Some? && Sorting.Sorted(es, ByStart(RankBand))
    ensures RanksGuilty(multiset(es), RankFault(es, i).value)
  {
    var fault := RankFault(es, i).value;
    if fault == DuplicateRank {
      var j :| 0 <= j < i && es[j].rank == es[i].rank;
      PairAt(es, j, i);
      assert RanksClash(es[j], es[i], fault);
    } else if fault == ScoreRangesOverlap || fault == OpenEndedRankNotLast {
      PairAt(es, i, i + 1);
      StartsAscend(es, RankBand, i, i + 1);
      assert RanksClash(es[i], es[i + 1], fault);
    } else {
      assert es[i] in multiset(es) && RankBad(es[i], fault);
    }
  }

  lemma {:induction false} LevelsVerdictAbout(es: seq<LevelPolicy>)
    requires es != [] && LevelsVerdict(es).Some?
    ensures About(LevelsVerdict(es).value) == LevelList
  {
    if FirstFault(LevelFaults(es)).Some? {
      var i := FirstFaultAt(LevelFaults(es));
      assert LevelFault(es, i).Some?;
    }
  }

  lemma {:induction false} LevelsVerdictTrue(es: seq<LevelPolicy>)
    requires es != [] && LevelsVerdict(es).Some? && Sorting.Sorted(es, ByStart(LevelBand))
    ensures LevelsGuilty(multiset(es), LevelsVerdict(es).value)
  {
    if FirstFault(LevelFaults(es)).Some? {
      var i := FirstFaultAt(LevelFaults(es));
      LevelFaultTrue(es, i);
    } else {
      NoFault(LevelFaults(es));
      assert LevelFaults(es)[0].None?;
      forall e | e in multiset(es) ensures LevelBand(e).lo > 0 {
        var i :| 0 <= i < |es| && es[i] == e;
        StartsAscend(es, LevelBand, 0, i);
      }
    }
  }

  lemma {:induction false} RanksVerdictAbout(es: seq<RankPolicy>)
    requires es != [] && RanksVerdict(es).Some?
    ensures About(RanksVerdict(es).value) == RankList
  {
    if FirstFault(RankFaults(es)).Some? {
      var i := FirstFaultAt(RankFaults(es));
      assert RankFault(es, i).Some?;
    }
  }

  lemma {:induction false} RanksVerdictTrue(es: seq<RankPolicy>)
    requires es != [] && RanksVerdict(es).Some? && Sorting.Sorted(es, ByStart(RankBand))
    ensures RanksGuilty(multiset(es), RanksVerdict(es).value)
  {
    if FirstFault(RankFaults(es)).Some? {
      var i := FirstFaultAt(RankFaults(es));
      RankFaultTrue(es, i);
    } else {
      NoFault(RankFaults(es));
      assert RankFaults(es)[0].None?;
      forall e | e in multiset(es) ensures RankBand(e).lo > 0 {
        var i :| 0 <= i < |es| && es[i] == e;
        StartsAscend(es, RankBand, 0, i);
      }
    }
  }

  lemma {:induction false} PairsApart<T(!new), K>(m: multiset<T>, key: T -> K, band: T -> Band, sound: T -> bool, a: T, b: T)
    requires Compatible(m, key, band, sound) && Pair(m, a, b)
    ensures key(a) != key(b) && Apart(band(a), band(b)) && sound(a) && sound(b)
  {
    assert multiset{a, b}[a] <= m[a] && multiset{a, b}[b] <= m[b];
  }

  lemma {:induction false} LevelsFine(a: LevelPolicy, b: LevelPolicy, fault: PolicyError)
    requires LevelSound(a) && LevelSound(b)
    ensures !LevelBad(a, fault)
    ensures LevelKey(a) != LevelKey(b) && Apart(LevelBand(a), LevelBand(b)) ==> !LevelsClash(a, b, fault)
  {}

  lemma {:induction false} LevelsNoClash(m: multiset<LevelPolicy>, fault: PolicyError, a: LevelPolicy, b: LevelPolicy)
    requires Compatible(m, LevelKey, LevelBand, LevelSound) && Pair(m, a, b)
    ensures !LevelsClash(a, b, fault)
  {
    PairsApart(m, LevelKey, LevelBand, LevelSound, a, b);
    LevelsFine(a, b, fault);
  }

  lemma {:induction false} LevelsNotGuilty(m: multiset<LevelPolicy>, fault: PolicyError)
    requires LevelsAcceptable(m)
    ensures !LevelsGuilty(m, fault)
  {
    forall e | e in m ensures !LevelBad(e, fault) { LevelsFine(e, e, fault); }
    forall a, b | Pair(m, a, b) ensures !LevelsClash(a, b, fault) { LevelsNoClash(m, fault, a, b); }
  }

  lemma {:induction false} RanksFine(a: RankPolicy, b: RankPolicy, fault: PolicyError)
    requires RankSound(a) && RankSound(b)
    ensures !RankBad(a, fault)
    ensures RankKey(a) != RankKey(b) && Apart(RankBand(a), RankBand(b)) ==> !RanksClash(a, b, fault)
  {}

  lemma {:induction false} RanksNoClash(m: multiset<RankPolicy>, fault: PolicyError, a: RankPolicy, b: RankPolicy)
    requires Compatible(m, RankKey, RankBand, RankSound) && Pair(m, a, b)
    ensures !RanksClash(a, b, fault)
  {
    PairsApart(m, RankKey, RankBand, RankSound, a, b);
    RanksFine(a, b, fault);
  }

  lemma {:induction false} RanksNotGuilty(m: multiset<RankPolicy>, fault: PolicyError)
    requires RanksAcceptable(m)
    ensures !RanksGuilty(m, fault)
  {
    forall e | e in m ensures !RankBad(e, fault) { RanksFine(e, e, fault); }
    forall a, b | Pair(m, a, b) ensures !RanksClash(a, b, fault) { RanksNoClash(m, fault, a, b); }
  }

  lemma {:induction false} RefusalIsTrue(p: Policy)
    requires Normalize(p).Err?
    ensures Guilty(p, Normalize(p).error)
  {
    if p.levels != [] && p.ranks != [] {
      var levels, ranks := SortLevels(p.levels), SortRanks(p.ranks);
      if LevelsVerdict(levels).Some? {
        LevelsVerdictAbout(levels);
        LevelsVerdictTrue(levels);
      } else if RanksVerdict(ranks).Some? {
        RanksVerdictAbout(ranks);
        RanksVerdictTrue(ranks);
      }
    }
  }

  /** A policy is refused exactly when there is something to complain of, and with a complaint that is true of it. */
  lemma {:induction false} RefusedIffGuilty(p: Policy)
    ensures Normalize(p).Err? <==> exists fault :: Guilty(p, fault)
    ensures Normalize(p).Err? ==> Guilty(p, Normalize(p).error)
  {
    if Normalize(p).Err? {
      RefusalIsTrue(p);
    } else if fault :| Guilty(p, fault) {
      NormalizeAcceptsIff(p);
      if About(fault) == LevelList { LevelsNotGuilty(multiset(p.levels), fault); }
      if About(fault) == RankList { RanksNotGuilty(multiset(p.ranks), fault); }
    }
  }

  /** The order of the complaints: empty lists, the three numbers, the levels, the ranks. */
  lemma {:induction false} RefusalOrder(p: Policy)
    requires Normalize(p).Err?
    ensures var fault := Normalize(p).error;
            && (About(fault) == Whole ==>
                  && (fault == NoLevels <==> p.levels == [])
                  && (fault == NoRanks <==> p.levels != [] && p.ranks == [])
                  && (fault == NegativeUpvoteCap <==> p.levels != [] && p.ranks != [] && p.upvoteDailyCap < 0)
                  && (fault == BadEventRetention ==> p.counterRetentionDays > 0))
            && (About(fault) != Whole ==> forall f :: !WholeGuilty(p, f))
            && (About(fault) == RankList ==> LevelsAcceptable(multiset(p.levels)))
  {
    if p.levels != [] && p.ranks != [] {
      SortedLevelsDecide(p.levels);
      if LevelsVerdict(SortLevels(p.levels)).Some? { LevelsVerdictAbout(SortLevels(p.levels)); }
      if RanksVerdict(SortRanks(p.ranks)).Some? { RanksVerdictAbout(SortRanks(p.ranks)); }
    }
  }

  // ---------------------------------------------------------------------
  // Attachment types as an ordered set
  // ---------------------------------------------------------------------

  ghost predicate Ascending(xs: seq<string>) { Sorting.Strict(xs, LexLess) }

  lemma {:induction false} AddSortedKeeps(xs: seq<string>, s: string)
    requires Ascending(xs)
    ensures Ascending(AddSorted(xs, s))
    ensures forall t :: t in AddSorted(xs, s) <==> t in xs || t == s
  {
    if xs != [] {
      LexTrichotomy(s, xs[0]);
      assert xs == [xs[0]] + xs[1..];
      if s != xs[0] && !LexLess(s, xs[0]) {
        AddSortedKeeps(xs[1..], s);
        var rest := AddSorted(xs[1..], s);
        forall t | t in rest ensures LexLess(xs[0], t) {
          if t != s { assert t in xs[1..]; }
        }
      } else if LexLess(s, xs[0]) {
        forall t | t in xs ensures LexLess(s, t) {
          if t != xs[0] { LexTransitive(s, xs[0], t); }
        }
      }
    }
  }

  /** The normalised types ascend and are exactly the non-blank canonical forms of the input. */
  lemma {:induction false} NormalizeTypesIsSet(ts: seq<string>)
    ensures Ascending(NormalizeTypes(ts))
    ensures forall t :: t in NormalizeTypes(ts) <==> t != [] && exists u :: u in ts && TrimLower(u) == t
  {
    if ts != [] {
      var init, last := ts[..|ts| - 1], ts[|ts| - 1];
      NormalizeTypesIsSet(init);
      assert ts == init + [last];
      if TrimLower(last) != [] { AddSortedKeeps(NormalizeTypes(init), TrimLower(last)); }
      forall t ensures t in NormalizeTypes(ts) <==> t != [] && exists u :: u in ts && TrimLower(u) == t {
        if t != [] && exists u :: u in ts && TrimLower(u) == t {
          var u :| u in ts && TrimLower(u) == t;
          assert u in init || u == last;
        }
      }
    }
  }

  lemma {:induction false} AscendingUnique(xs: seq<string>, ys: seq<string>)
    requires Ascending(xs) && Ascending(ys)
    requires forall t :: t in xs <==> t in ys
    ensures xs == ys
  {
    forall a, b | LexLess(a, b) ensures !LexLess(b, a) { LexTrichotomy(a, b); }
    Sorting.StrictUnique(xs, ys, LexLess);
  }

  // ---------------------------------------------------------------------
  // Idempotence and independence of list order
  // ---------------------------------------------------------------------

  /** Two policies that differ only in the order of their lists. */
  ghost predicate SameUpToOrder(p: Policy, q: Policy) {
    && multiset(p.levels) == multiset(q.levels)
    && multiset(p.ranks) == multiset(q.ranks)
    && multiset(p.attachmentTypes) == multiset(q.attachmentTypes)
    && p.(levels := [], ranks := [], attachmentTypes := []) == q.(levels := [], ranks := [], attachmentTypes := [])
  }

  /** Whether normalisation accepts, and what it then returns, do not depend on list order. */
  lemma {:induction false} NormalizeIgnoresOrder(p: Policy, q: Policy)
    requires SameUpToOrder(p, q)
    ensures Normalize(p).Ok? <==> Normalize(q).Ok?
    ensures Normalize(p).Ok? ==> Normalize(p) == Normalize(q)
  {
    NormalizeAcceptsIff(p);
    NormalizeAcceptsIff(q);
    if Acceptable(p) {
      SortLevelsIgnoresOrder(p.levels, q.levels);
      SortRanksIgnoresOrder(p.ranks, q.ranks);
      TypesIgnoreOrder(p.attachmentTypes, q.attachmentTypes);
    }
  }

  lemma {:induction false} SortLevelsIgnoresOrder(a: seq<LevelPolicy>, b: seq<LevelPolicy>)
    requires multiset(a) == multiset(b) && LevelsAcceptable(multiset(a))
    ensures SortLevels(a) == SortLevels(b)
  {
    CompatibleNoTies(multiset(a), LevelKey, LevelBand, LevelSound);
    Sorting.SortedUnique(SortLevels(a), SortLevels(b), ByStart(LevelBand));
  }

  lemma {:induction false} SortRanksIgnoresOrder(a: seq<RankPolicy>, b: seq<RankPolicy>)
    requires multiset(a) == multiset(b) && RanksAcceptable(multiset(a))
    ensures SortRanks(a) == SortRanks(b)
  {
    CompatibleNoTies(multiset(a), RankKey, RankBand, RankSound);
    Sorting.SortedUnique(SortRanks(a), SortRanks(b), ByStart(RankBand));
  }

  lemma {:induction false} TypesIgnoreOrder(a: seq<string>, b: seq<string>)
    requires multiset(a) == multiset(b)
    ensures NormalizeTypes(a) == NormalizeTypes(b)
  {
    NormalizeTypesIsSet(a);
    NormalizeTypesIsSet(b);
    assert forall u :: u in a <==> u in multiset(a);
    assert forall u :: u in b <==> u in multiset(b);
    AscendingUnique(NormalizeTypes(a), NormalizeTypes(b));
  }

  lemma {:induction false} TypesIdempotent(ts: seq<string>)
    ensures NormalizeTypes(NormalizeTypes(ts)) == NormalizeTypes(ts)
  {
    var n := NormalizeTypes(ts);
    NormalizeTypesIsSet(ts);
    NormalizeTypesIsSet(n);
    forall t ensures t in NormalizeTypes(n) <==> t in n {
      forall u | u in n ensures TrimLower(u) == u {
        var v :| v in ts && TrimLower(v) == u;
        TrimLowerIdempotent(v);
      }
    }
    AscendingUnique(NormalizeTypes(n), n);
  }

  /** A stored policy is exactly what normalising it again gives. */
  ghost predicate Normalized(p: Policy) { Normalize(p) == Ok(p) }

  /** Normalising an accepted policy again changes nothing. */
  lemma {:induction false} NormalizeIdempotent(p: Policy)
    requires Normalize(p).Ok?
    ensures Normalized(Normalize(p).value)
  {
    var n := Normalize(p).value;
    Sorting.SortFixed(n.levels, ByStart(LevelBand));
    Sorting.SortFixed(n.ranks, ByStart(RankBand));
    TypesIdempotent(p.attachmentTypes);
  }

  /** What a normalised policy guarantees to the rest of the engine. */
  ghost predicate Checked(p: Policy) {
    && LevelsChecked(p.levels) && RanksChecked(p.ranks)
    && p.upvoteDailyCap >= 0 && p.counterRetentionDays > 0 && p.eventRetentionDays > 0
  }

  /** Being normalised is exactly having checked lists and canonical attachment types. */
  lemma {:induction false} NormalizedIffChecked(p: Policy)
    ensures Normalized(p) <==> Checked(p) && NormalizeTypes(p.attachmentTypes) == p.attachmentTypes
  {
    if p.levels != [] && p.ranks != [] {
      LevelLoopAccepts(p.levels);
      RankLoopAccepts(p.ranks);
      if Checked(p) {
        SortLevelsFixed(p.levels);
        SortRanksFixed(p.ranks);
      }
    }
  }

  lemma {:induction false} SortLevelsFixed(es: seq<LevelPolicy>)
    requires LevelsChecked(es)
    ensures SortLevels(es) == es
  {
    InOrderIsSorted(es, LevelKey, LevelBand, LevelSound);
    Sorting.SortFixed(es, ByStart(LevelBand));
  }

  lemma {:induction false} SortRanksFixed(es: seq<RankPolicy>)
    requires RanksChecked(es)
    ensures SortRanks(es) == es
  {
    InOrderIsSorted(es, RankKey, RankBand, RankSound);
    Sorting.SortFixed(es, ByStart(RankBand));
  }

  // ---------------------------------------------------------------------
  // Lookups
  // ---------------------------------------------------------------------

  function LevelFor(p: Policy, activeDays: int): LevelPolicy
    requires p.levels != []
  {
    p.levels[FindBand(LevelBands(p.levels), activeDays)]
  }

  function RankFor(p: Policy, score: int): RankPolicy
    requires p.ranks != []
  {
    p.ranks[FindBand(RankBands(p.ranks), score)]
  }

  /** The level lookup returns the one entry covering the count, or else the last entry. */
  lemma {:induction false} LevelLookupUnique(p: Policy, days: int)
    requires Checked(p)
    ensures forall e | e in p.levels && LevelBand(e).Covers(days) :: e == LevelFor(p, days)
    ensures (forall e | e in p.levels :: !LevelBand(e).Covers(days)) ==> LevelFor(p, days) == p.levels[|p.levels| - 1]
    ensures 1 <= LevelFor(p, days).level <= 10
  {
    var ls := LevelBands(p.levels);
    assert Chain(ls);
    FindBandUnique(ls, days);
    forall e | e in p.levels && LevelBand(e).Covers(days) ensures e == LevelFor(p, days) {
      var i :| 0 <= i < |p.levels| && p.levels[i] == e;
      assert ls[i].Covers(days);
    }
    assert forall i | 0 <= i < |ls| :: ls[i] == LevelBand(p.levels[i]);
    assert LevelSound(LevelFor(p, days));
  }

  /** The rank lookup returns the one entry covering the score, or else the last entry. */
  lemma {:induction false} RankLookupUnique(p: Policy, score: int)
    requires Checked(p)
    ensures forall e | e in p.ranks && RankBand(e).Covers(score) :: e == RankFor(p, score)
    ensures (forall e | e in p.ranks :: !RankBand(e).Covers(score)) ==> RankFor(p, score) == p.ranks[|p.ranks| - 1]
    ensures !RankFor(p, score).rank.Unknown?
  {
    var rs := RankBands(p.ranks);
    assert Chain(rs);
    FindBandUnique(rs, score);
    forall e | e in p.ranks && RankBand(e).Covers(score) ensures e == RankFor(p, score) {
      var i :| 0 <= i < |p.ranks| && p.ranks[i] == e;
      assert rs[i].Covers(score);
    }
    assert forall i | 0 <= i < |rs| :: rs[i] == RankBand(p.ranks[i]);
    assert RankSound(RankFor(p, score));
  }

  ghost predicate LevelsAscend(es: seq<LevelPolicy>) {
    Gapless(LevelBands(es)) && forall i, j | 0 <= i < j < |es| :: es[i].level < es[j].level
  }

  /** Where levels ascend with days and leave no gap, more active days never mean a lower level. */
  lemma {:induction false} LevelNeverDrops(p: Policy, days: int, later: int)
    requires Checked(p) && LevelsAscend(p.levels)
    requires 0 <= days <= later
    ensures LevelFor(p, days).level <= LevelFor(p, later).level
  {
    assert Chain(LevelBands(p.levels));
    FindBandMonotone(LevelBands(p.levels), days, later);
  }

  // ---------------------------------------------------------------------
  // The built-in policy and the stored setting
  // ---------------------------------------------------------------------

  const DEFAULT_POLICY: Policy := Policy(
    Enforcement(true, true, true, true, true), 45, 180,
    [
      LevelPolicy(1, 0, Some(6), Some(50), Some(5), Some(5)),
      LevelPolicy(2, 7, Some(13), Some(100), Some(10), Some(5)),
      LevelPolicy(3, 14, Some(29), Some(200), Some(20), Some(10)),
      LevelPolicy(4, 30, Some(59), Some(500), Some(30), None),
      LevelPolicy(5, 60, Some(89), Some(1000), Some(30), None),
      LevelPolicy(6, 90, Some(119), None, Some(30), None),
      LevelPolicy(7, 120, Some(179), None, Some(50), None),
      LevelPolicy(8, 180, None, None, Some(50), None)
    ],
    [
      RankPolicy(F, 0, Some(99), None, None, None, false),
      RankPolicy(E, 100, Some(499), None, None, None, false),
      RankPolicy(D, 500, Some(999), Some(120), Some(120), Some(120), false),
      RankPolicy(C, 1000, Some(2499), None, None, None, false),
      RankPolicy(B, 2500, Some(4999), Some(150), Some(150), Some(150), false),
      RankPolicy(A, 5000, Some(9999), None, None, None, true),
      RankPolicy(S, 10000, None, None, None, None, true)
    ],
    100,
    DEFAULT_TYPES)

  const DEFAULT_TYPES: seq<string> :=
    ["application/pdf", "image/gif", "image/jpeg", "image/png", "image/webp", "text/plain", "video/mp4"]

  /** The built-in policy is itself normalised. */
  lemma {:induction false} DefaultPolicyNormalized()
    ensures Normalized(DEFAULT_POLICY)
  {
    DefaultLevelsChecked();
    DefaultRanksChecked();
    DefaultTypesCanonical();
    NormalizedIffChecked(DEFAULT_POLICY);
  }

  const DEFAULT_LEVEL_BANDS: seq<Band> :=
    [Band(0, Some(6)), Band(7, Some(13)), Band(14, Some(29)), Band(30, Some(59)), Band(60, Some(89)),
     Band(90, Some(119)), Band(120, Some(179)), Band(180, None)]

  const DEFAULT_RANK_BANDS: seq<Band> :=
    [Band(0, Some(99)), Band(100, Some(499)), Band(500, Some(999)), Band(1000, Some(2499)), Band(2500, Some(4999)),
     Band(5000, Some(9999)), Band(10000, None)]

  lemma {:induction false} DefaultBandsChain()
    ensures Chain(DEFAULT_LEVEL_BANDS) && Gapless(DEFAULT_LEVEL_BANDS) && Chain(DEFAULT_RANK_BANDS)
  {
    ChainFromNeighbours(DEFAULT_LEVEL_BANDS);
    ChainFromNeighbours(DEFAULT_RANK_BANDS);
  }

  lemma {:induction false} DefaultLevel(i: nat)
    requires i < 8
    ensures |DEFAULT_POLICY.levels| == 8
    ensures var e := DEFAULT_POLICY.levels[i]; LevelSound(e) && e.level == i + 1 && LevelBand(e) == DEFAULT_LEVEL_BANDS[i]
  {}

  lemma {:induction false} DefaultRank(i: nat)
    requires i < 7
    ensures |DEFAULT_POLICY.ranks| == 7
    ensures var e := DEFAULT_POLICY.ranks[i]; RankSound(e) && RankOrder(e.rank) == i && RankBand(e) == DEFAULT_RANK_BANDS[i]
  {}

  lemma {:induction false} DefaultLevelsChecked()
    ensures LevelsChecked(DEFAULT_POLICY.levels)
    ensures LevelBands(DEFAULT_POLICY.levels) == DEFAULT_LEVEL_BANDS
  {
    DefaultLevel(0);
    forall i | 0 <= i < 8
      ensures var e := DEFAULT_POLICY.levels[i]; LevelSound(e) && e.level == i + 1 && LevelBand(e) == DEFAULT_LEVEL_BANDS[i] {
      DefaultLevel(i);
    }
    DefaultBandsChain();
    NumberedLevels(DEFAULT_POLICY.levels, DEFAULT_LEVEL_BANDS);
  }

  lemma {:induction false} NumberedLevels(es: seq<LevelPolicy>, bs: seq<Band>)
    requires |es| == |bs| && forall i | 0 <= i < |es| :: LevelSound(es[i]) && es[i].level == i + 1 && LevelBand(es[i]) == bs[i]
    requires Chain(bs)
    ensures InOrder(es, LevelKey, LevelBand, LevelSound)
  {}

  lemma {:induction false} DefaultRanksChecked()
    ensures RanksChecked(DEFAULT_POLICY.ranks)
  {
    DefaultRank(0);
    forall i | 0 <= i < 7
      ensures var e := DEFAULT_POLICY.ranks[i]; RankSound(e) && RankOrder(e.rank) == i && RankBand(e) == DEFAULT_RANK_BANDS[i] {
      DefaultRank(i);
    }
    DefaultBandsChain();
    NumberedRanks(DEFAULT_POLICY.ranks, DEFAULT_RANK_BANDS);
  }

  lemma {:induction false} NumberedRanks(es: seq<RankPolicy>, bs: seq<Band>)
    requires |es| == |bs| && forall i | 0 <= i < |es| :: RankSound(es[i]) && RankOrder(es[i].rank) == i && RankBand(es[i]) == bs[i]
    requires Chain(bs)
    ensures InOrder(es, RankKey, RankBand, RankSound)
  {}

  /** Under the built-in policy more active days never mean a lower level. */
  lemma {:induction false} DefaultLevelNeverDrops(days: int, later: int)
    requires 0 <= days <= later
    ensures LevelFor(DEFAULT_POLICY, days).level <= LevelFor(DEFAULT_POLICY, later).level
  {
    DefaultBandsChain();
    DefaultLevelsChecked();
    FindBandMonotone(DEFAULT_LEVEL_BANDS, days, later);
    assert forall i | 0 <= i < 8 :: DEFAULT_POLICY.levels[i].level == i + 1;
  }

  /** Which entry of the built-in tables applies, in numbers. */
  function DefaultLevelAt(days: nat): (i: nat)
    ensures i < 8
  {
    if days < 7 then 0 else if days < 14 then 1 else if days < 30 then 2 else if days < 60 then 3
    else if days < 90 then 4 else if days < 120 then 5 else if days < 180 then 6 else 7
  }

  function DefaultRankAt(score: nat): (i: nat)
    ensures i < 7
  {
    if score < 100 then 0 else if score < 500 then 1 else if score < 1000 then 2 else if score < 2500 then 3
    else if score < 5000 then 4 else if score < 10000 then 5 else 6
  }

  lemma {:induction false} DefaultLevelFound(days: nat)
    ensures |DEFAULT_POLICY.levels| == 8 && LevelFor(DEFAULT_POLICY, days) == DEFAULT_POLICY.levels[DefaultLevelAt(days)]
  {
    var i := DefaultLevelAt(days);
    DefaultLevelsChecked();
    DefaultRanksChecked();
    LevelLookupUnique(DEFAULT_POLICY, days);
    DefaultLevel(i);
    DefaultBandCovers(days, 0);
    assert DEFAULT_POLICY.levels[i] in DEFAULT_POLICY.levels;
  }

  lemma {:induction false} DefaultRankFound(score: nat)
    ensures |DEFAULT_POLICY.ranks| == 7 && RankFor(DEFAULT_POLICY, score) == DEFAULT_POLICY.ranks[DefaultRankAt(score)]
  {
    var i := DefaultRankAt(score);
    DefaultLevelsChecked();
    DefaultRanksChecked();
    RankLookupUnique(DEFAULT_POLICY, score);
    DefaultRank(i);
    DefaultBandCovers(0, score);
    assert DEFAULT_POLICY.ranks[i] in DEFAULT_POLICY.ranks;
  }

  lemma {:induction false} DefaultBandCovers(days: nat, score: nat)
    ensures |DEFAULT_LEVEL_BANDS| == 8 && DEFAULT_LEVEL_BANDS[DefaultLevelAt(days)].Covers(days)
    ensures |DEFAULT_RANK_BANDS| == 7 && DEFAULT_RANK_BANDS[DefaultRankAt(score)].Covers(score)
  {}

  lemma {:induction false} LexAt(a: string, b: string, k: nat)
    requires k < |a| && k < |b| && a[..k] == b[..k] && a[k] < b[k]
    ensures LexLess(a, b)
  {
    if k > 0 {
      assert a[0] == a[..k][0] == b[..k][0] == b[0];
      assert a[1..][..k - 1] == a[..k][1..] == b[..k][1..] == b[1..][..k - 1];
      LexAt(a[1..], b[1..], k - 1);
    }
  }

  lemma {:induction false} TypeCanonical(t: string)
    requires t != [] && !IsWhitespace(t[0]) && !IsWhitespace(t[|t| - 1])
    requires forall i | 0 <= i < |t| :: !('A' <= t[i] <= 'Z')
    ensures TrimLower(t) == t
  {}

  lemma {:induction false} TypeLetters(i: nat)
    requires i < 7
    ensures |DEFAULT_TYPES| == 7 && DEFAULT_TYPES[i] != [] && DEFAULT_TYPES[i][0] == "aiiiitv"[i]
  {}

  lemma {:induction false} ImageLetters(i: nat)
    requires 1 <= i <= 4
    ensures |DEFAULT_TYPES| == 7 && |DEFAULT_TYPES[i]| > 6 && DEFAULT_TYPES[i][..6] == "image/" && DEFAULT_TYPES[i][6] == "gjpw"[i - 1]
  {
    var t := DEFAULT_TYPES[i];
    assert t == if i == 1 then "image/gif" else if i == 2 then "image/jpeg" else if i == 3 then "image/png" else "image/webp";
    assert t[..6] == "image/";
  }

  lemma {:induction false} DefaultTypesAscend()
    ensures Ascending(DEFAULT_TYPES)
  {
    var ts := DEFAULT_TYPES;
    forall i, j | 0 <= i < j < 7 ensures LexLess(ts[i], ts[j]) {
      TypeLetters(i);
      TypeLetters(j);
      if 1 <= i && j <= 4 {
        ImageLetters(i);
        ImageLetters(j);
        LexAt(ts[i], ts[j], 6);
      } else {
        LexAt(ts[i], ts[j], 0);
      }
    }
  }

  lemma {:induction false} DefaultTypeCanonical(t: string)
    requires t in DEFAULT_TYPES
    ensures TrimLower(t) == t && t != []
  {
    TypeCanonical(t);
  }

  lemma {:induction false} DefaultTypesCanonical()
    ensures NormalizeTypes(DEFAULT_TYPES) == DEFAULT_TYPES
  {
    var n := NormalizeTypes(DEFAULT_TYPES);
    NormalizeTypesIsSet(DEFAULT_TYPES);
    DefaultTypesAscend();
    forall t | t in DEFAULT_TYPES ensures TrimLower(t) == t && t != [] {
      DefaultTypeCanonical(t);
    }
    AscendingUnique(n, DEFAULT_TYPES);
  }

  /** The `admin_settings` row: absent, text that is not a policy, or an encoded policy. */
  datatype StoredPolicy = Missing | Undecodable | Encoded(policy: Policy)

  /** `load_guild_policy_conn`. */
  function LoadPolicy(s: StoredPolicy): Policy {
    match s
    case Missing => DEFAULT_POLICY
    case Undecodable => DEFAULT_POLICY
    case Encoded(p) => if Normalize(p).Ok? then Normalize(p).value else DEFAULT_POLICY
  }

  /** `save_guild_policy`: the new setting, or the reason it was rejected. */
  function SavePolicy(s: StoredPolicy, p: Policy): (StoredPolicy, Result<Policy, PolicyError>) {
    match Normalize(p)
    case Ok(n) => (Encoded(n), Ok(n))
    case Err(e) => (s, Err(e))
  }

  /** Whatever the setting holds, the policy in force is a normalised one. */
  lemma {:induction false} LoadedPolicyNormalized(s: StoredPolicy)
    ensures Normalized(LoadPolicy(s)) && Checked(LoadPolicy(s))
  {
    DefaultPolicyNormalized();
    if s.Encoded? && Normalize(s.policy).Ok? { NormalizeIdempotent(s.policy); }
    NormalizedIffChecked(LoadPolicy(s));
  }

  /** Reading after a save returns exactly the policy the save returned; a rejected save changes nothing. */
  lemma {:induction false} ReadAfterSave(s: StoredPolicy, p: Policy)
    ensures SavePolicy(s, p).1.Ok? <==> Acceptable(p)
    ensures SavePolicy(s, p).1.Ok? ==> LoadPolicy(SavePolicy(s, p).0) == SavePolicy(s, p).1.value
    ensures SavePolicy(s, p).1.Err? ==> LoadPolicy(SavePolicy(s, p).0) == LoadPolicy(s)
  {
    NormalizeAcceptsIff(p);
    if Normalize(p).Ok? { NormalizeIdempotent(p); }
  }
}
