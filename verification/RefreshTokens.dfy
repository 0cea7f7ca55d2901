/**
 * Refresh-token rotation: every login starts a family, every redemption revokes
 * the presented token and issues its successor in the same family, and a replay
 * of a revoked token revokes the whole family.
 */
module RefreshTokens {
  import opened Core

  type UserId = nat
  type FamilyId = nat
  type TokenHash = nat

  /** A row of `refresh_tokens`; the table lists rows in order of issue. */
  datatype Token = Token(hash: TokenHash, user: UserId, family: FamilyId, revoked: bool, expiresAt: Time)

  /** The token would be honoured at time `now`. */
  predicate Live(t: Token, now: Time) { !t.revoked && now <= t.expiresAt }

  datatype Event =
    | Login(user: UserId, family: FamilyId, hash: TokenHash, lifetime: nat, now: Time)
    | Refresh(presented: TokenHash, hash: TokenHash, lifetime: nat, userExists: bool, insertSucceeds: bool, now: Time)
    | Logout(presented: TokenHash, now: Time)

  datatype Reply = Issued | Unauthorized | InsertFailed | NoContent

  function IndexOf(ts: seq<Token>, hash: TokenHash): (r: Option<nat>)
    ensures r.Some? ==> r.value < |ts| && ts[r.value].hash == hash
    ensures r.None? ==> forall i | 0 <= i < |ts| :: ts[i].hash != hash
  {
    if ts == [] then None
    else if ts[0].hash == hash then Some(0)
    else
      var r := IndexOf(ts[1..], hash);
      assert forall i | 0 < i < |ts| :: ts[i] == ts[1..][i - 1];
      if r.Some? then Some(r.value + 1) else None
  }

  function RevokeFamily(ts: seq<Token>, family: FamilyId): seq<Token> {
    seq(|ts|, i requires 0 <= i < |ts| => if ts[i].family == family then ts[i].(revoked := true) else ts[i])
  }

  /** `refresh`: the table afterwards, and the reply. */
  function RefreshStep(ts: seq<Token>, e: Event): (seq<Token>, Reply)
    requires e.Refresh?
  {
    match IndexOf(ts, e.presented)
    case None => (ts, Unauthorized)
    case Some(i) =>
      if ts[i].revoked then (RevokeFamily(ts, ts[i].family), Unauthorized)
      else if ts[i].expiresAt < e.now then (ts, Unauthorized)
      else
        var consumed := ts[i := ts[i].(revoked := true)];
        if !e.userExists then (consumed, Unauthorized)
        else if !e.insertSucceeds then (consumed, InsertFailed)
        else (consumed + [Token(e.hash, ts[i].user, ts[i].family, false, e.now + e.lifetime)], Issued)
  }

  function Step(ts: seq<Token>, e: Event): (seq<Token>, Reply) {
    match e
    case Login(user, family, hash, lifetime, now) => (ts + [Token(hash, user, family, false, now + lifetime)], Issued)
    case Refresh(_, _, _, _, _, _) => RefreshStep(ts, e)
    case Logout(presented, _) =>
      (match IndexOf(ts, presented) case None => ts case Some(i) => RevokeFamily(ts, ts[i].family), NoContent)
  }

  function After(run: seq<Event>): seq<Token> {
    if run == [] then [] else Step(After(run[..|run| - 1]), run[|run| - 1]).0
  }

  /** The `i`-th event redeemed its token. */
  predicate Redeems(run: seq<Event>, i: nat, hash: TokenHash)
    requires i < |run|
  {
    run[i].Refresh? && run[i].presented == hash && Step(After(run[..i]), run[i]).1 == Issued
  }

  /** Identifiers are fresh: new random hashes never collide, and each login starts a new family. */
  predicate FreshIds(ts: seq<Token>, e: Event) {
    && (!e.Logout? ==> forall i | 0 <= i < |ts| :: ts[i].hash != e.hash)
    && (e.Login? ==> forall i | 0 <= i < |ts| :: ts[i].family != e.family)
  }

  ghost predicate Legal(run: seq<Event>) {
    && (forall i | 0 <= i < |run| :: FreshIds(After(run[..i]), run[i]))
    && (forall i, j | 0 <= i < j < |run| :: run[i].now <= run[j].now)
  }

  lemma {:induction false} LegalPrefix(run: seq<Event>, k: nat)
    requires Legal(run) && k <= |run|
    ensures Legal(run[..k])
  {
    assert forall i | 0 <= i < k :: run[..k][..i] == run[..i];
  }

  lemma {:induction false} LegalLast(run: seq<Event>)
    requires Legal(run) && run != []
    ensures Legal(run[..|run| - 1]) && FreshIds(After(run[..|run| - 1]), run[|run| - 1])
  {
    LegalPrefix(run, |run| - 1);
  }

  // ---------------------------------------------------------------------
  // Families
  // ---------------------------------------------------------------------

  /** One owner per family, unique hashes, and every token but the family's newest is revoked. */
  ghost predicate FamiliesSound(ts: seq<Token>) {
    forall i, j | 0 <= i < j < |ts| ::
      && ts[i].hash != ts[j].hash
      && (ts[i].family == ts[j].family ==> ts[i].user == ts[j].user && ts[i].revoked)
  }

  lemma {:induction false} StepKeepsFamilies(ts: seq<Token>, e: Event)
    requires FamiliesSound(ts) && FreshIds(ts, e)
    ensures FamiliesSound(Step(ts, e).0)
  {}

  /** In every legal run each family has one owner and at most one unrevoked token, its newest. */
  lemma {:induction false} FamiliesStaySound(run: seq<Event>)
    requires Legal(run)
    ensures FamiliesSound(After(run))
  {
    if run != [] {
      LegalLast(run);
      FamiliesStaySound(run[..|run| - 1]);
      StepKeepsFamilies(After(run[..|run| - 1]), run[|run| - 1]);
    }
  }

  // ---------------------------------------------------------------------
  // Redemption
  // ---------------------------------------------------------------------

  /** A step keeps every row in place, changes nothing but its revoked flag, and never clears that flag. */
  lemma {:induction false} StepKeepsRows(ts: seq<Token>, e: Event)
    ensures var ts' := Step(ts, e).0;
            && |ts| <= |ts'| <= |ts| + 1
            && forall i | 0 <= i < |ts| ::
                 ts'[i] == ts[i].(revoked := ts'[i].revoked) && (ts[i].revoked ==> ts'[i].revoked)
  {}

  lemma {:induction false} RowsPersist(run: seq<Event>, k: nat)
    requires k <= |run|
    ensures var (ts, ts') := (After(run[..k]), After(run));
            && |ts| <= |ts'|
            && forall i | 0 <= i < |ts| ::
                 ts'[i] == ts[i].(revoked := ts'[i].revoked) && (ts[i].revoked ==> ts'[i].revoked)
  {
    if k == |run| {
      assert run[..k] == run;
    } else {
      var init := run[..|run| - 1];
      assert init[..k] == run[..k];
      RowsPersist(init, k);
      StepKeepsRows(After(init), run[|run| - 1]);
    }
  }

  /**
   * A live token is consumed in any case; a successor in its family is issued exactly when the user
   * still exists and the insert succeeds.
   */
  lemma {:induction false} RedemptionIff(ts: seq<Token>, e: Event)
    requires e.Refresh?
    ensures var (ts', reply) := Step(ts, e);
            var known := IndexOf(ts, e.presented);
            var live := known.Some? && !ts[known.value].revoked && e.now <= ts[known.value].expiresAt;
            && (reply == Issued <==> live && e.userExists && e.insertSucceeds)
            && (reply == InsertFailed <==> live && e.userExists && !e.insertSucceeds)
            && (reply == Unauthorized <==> !live || !e.userExists)
            && (live ==>
                  ts' == ts[known.value := ts[known.value].(revoked := true)]
                         + if reply == Issued
                           then [Token(e.hash, ts[known.value].user, ts[known.value].family, false, e.now + e.lifetime)] else [])
            && (known.None? || (!live && !ts[known.value].revoked) ==> ts' == ts)
  {}

  /** Each token is redeemed at most once. */
  lemma {:induction false} RedeemedAtMostOnce(run: seq<Event>, i: nat, j: nat, hash: TokenHash)
    requires Legal(run) && i < j < |run|
    requires Redeems(run, i, hash)
    ensures !Redeems(run, j, hash)
  {
    var before, after := After(run[..i]), After(run[..i + 1]);
    assert run[..i + 1][..i] == run[..i];
    var k := IndexOf(before, hash).value;
    assert after[k].hash == hash && after[k].revoked;
    assert run[..j][..i + 1] == run[..i + 1];
    RowsPersist(run[..j], i + 1);
    LegalPrefix(run, j);
    FamiliesStaySound(run[..j]);
    var later := After(run[..j]);
    assert later[k].hash == hash && later[k].revoked;
    assert IndexOf(later, hash) == Some(k);
  }

  // ---------------------------------------------------------------------
  // Dead families
  // ---------------------------------------------------------------------

  ghost predicate HasToken(ts: seq<Token>, family: FamilyId) {
    exists i :: 0 <= i < |ts| && ts[i].family == family
  }

  ghost predicate Dead(ts: seq<Token>, family: FamilyId, now: Time) {
    HasToken(ts, family) && forall i | 0 <= i < |ts| && ts[i].family == family :: !Live(ts[i], now)
  }

  lemma {:induction false} StepKeepsDead(ts: seq<Token>, e: Event, family: FamilyId, since: Time)
    requires Dead(ts, family, since) && since <= e.now && FreshIds(ts, e)
    ensures Dead(Step(ts, e).0, family, since)
  {
    var ts' := Step(ts, e).0;
    StepKeepsRows(ts, e);
    var w :| 0 <= w < |ts| && ts[w].family == family;
    assert ts'[w].family == family;
    forall i | 0 <= i < |ts'| && ts'[i].family == family ensures !Live(ts'[i], since) {
      if i < |ts| { assert ts[i].family == family && !Live(ts[i], since); }
    }
  }

  /** A family with no live token never has one again. */
  lemma {:induction false} DeadFamilyStaysDead(run: seq<Event>, k: nat, family: FamilyId, since: Time, now: Time)
    requires Legal(run) && k <= |run|
    requires Dead(After(run[..k]), family, since)
    requires since <= now && forall i | k <= i < |run| :: since <= run[i].now
    ensures Dead(After(run), family, now)
  {
    DeadSince(run, k, family, since);
    forall i | 0 <= i < |After(run)| && After(run)[i].family == family ensures !Live(After(run)[i], now) {
      assert !Live(After(run)[i], since);
    }
  }

  lemma {:induction false} DeadSince(run: seq<Event>, k: nat, family: FamilyId, since: Time)
    requires Legal(run) && k <= |run|
    requires Dead(After(run[..k]), family, since)
    requires forall i | k <= i < |run| :: since <= run[i].now
    ensures Dead(After(run), family, since)
  {
    if k == |run| {
      assert run[..k] == run;
    } else {
      var init := run[..|run| - 1];
      assert init[..k] == run[..k];
      LegalLast(run);
      DeadSince(init, k, family, since);
      StepKeepsDead(After(init), run[|run| - 1], family, since);
    }
  }

  /** Replaying a revoked token, or logging out with any token, kills its family at once. */
  lemma {:induction false} ReplayKillsFamily(ts: seq<Token>, e: Event, i: nat)
    requires i < |ts| && FamiliesSound(ts) && !e.Login? && e.presented == ts[i].hash
    requires e.Refresh? ==> ts[i].revoked
    ensures Dead(Step(ts, e).0, ts[i].family, e.now)
    ensures e.Refresh? ==> Step(ts, e).1 == Unauthorized
  {
    assert IndexOf(ts, e.presented) == Some(i);
    assert RevokeFamily(ts, ts[i].family)[i].family == ts[i].family;
  }

  // ---------------------------------------------------------------------
  // Nobody else's tokens
  // ---------------------------------------------------------------------

  /** The event presents some token of the family. */
  ghost predicate Presents(ts: seq<Token>, e: Event, family: FamilyId) {
    !e.Login? && exists j | 0 <= j < |ts| :: ts[j].hash == e.presented && ts[j].family == family
  }

  /** Replay and logout revoke the family of the presented token, all of it and nothing else. */
  lemma {:induction false} RevocationIsExact(ts: seq<Token>, e: Event, i: nat)
    requires FamiliesSound(ts) && i < |ts| && !e.Login? && e.presented == ts[i].hash && (e.Refresh? ==> ts[i].revoked)
    ensures var ts' := Step(ts, e).0;
            |ts'| == |ts| && forall j | 0 <= j < |ts| :: ts'[j] == ts[j].(revoked := ts[j].revoked || ts[j].family == ts[i].family)
  {
    assert IndexOf(ts, e.presented) == Some(i);
  }

  /** No event touches a row of a family that it does not present a token of. */
  lemma {:induction false} OtherFamiliesUntouched(ts: seq<Token>, e: Event, i: nat)
    requires i < |ts| && !Presents(ts, e, ts[i].family)
    ensures i < |Step(ts, e).0| && Step(ts, e).0[i] == ts[i]
  {}

  ghost predicate PresentedAt(run: seq<Event>, j: nat, family: FamilyId)
    requires j < |run|
  {
    Presents(After(run[..j]), run[j], family)
  }

  lemma {:induction false} AfterNext(run: seq<Event>, n: nat)
    requires n < |run|
    ensures After(run[..n + 1]) == Step(After(run[..n]), run[n]).0
  {
    assert run[..n + 1][..n] == run[..n];
  }

  lemma {:induction false} UnpresentedUpTo(run: seq<Event>, k: nat, n: nat, i: nat)
    requires k <= n <= |run| && i < |After(run[..k])|
    requires forall j | k <= j < n :: !PresentedAt(run, j, After(run[..k])[i].family)
    ensures i < |After(run[..n])| && After(run[..n])[i] == After(run[..k])[i]
  {
    if k < n {
      UnpresentedUpTo(run, k, n - 1, i);
      assert !PresentedAt(run, n - 1, After(run[..k])[i].family);
      OtherFamiliesUntouched(After(run[..n - 1]), run[n - 1], i);
      AfterNext(run, n - 1);
    }
  }

  /** Over every run, a token stays as it is until a token of its own family is presented. */
  lemma {:induction false} UnpresentedFamilyKeeps(run: seq<Event>, k: nat, i: nat)
    requires k <= |run| && i < |After(run[..k])|
    requires forall j | k <= j < |run| :: !PresentedAt(run, j, After(run[..k])[i].family)
    ensures i < |After(run)| && After(run)[i] == After(run[..k])[i]
  {
    UnpresentedUpTo(run, k, |run|, i);
    assert run[..|run|] == run;
  }

  /** A login adds one live token and leaves all others alone; a logout with an unknown token changes nothing. */
  lemma {:induction false} LoginAdds(ts: seq<Token>, e: Event)
    requires e.Login? || (e.Logout? && forall i | 0 <= i < |ts| :: ts[i].hash != e.presented)
    ensures e.Login? ==> Step(ts, e) == (ts + [Token(e.hash, e.user, e.family, false, e.now + e.lifetime)], Issued)
    ensures e.Logout? ==> Step(ts, e) == (ts, NoContent)
  {}

  // ---------------------------------------------------------------------
  // The token table, updated in place
  // ---------------------------------------------------------------------

  class TokenTable {
    var rows: seq<Token>

    constructor ()
      ensures rows == []
    {
      rows := [];
    }

    /** `mint_tokens`: stores the new token. */
    method Mint(user: UserId, family: FamilyId, hash: TokenHash, lifetime: nat, now: Time)
      modifies this
      ensures rows == old(rows) + [Token(hash, user, family, false, now + lifetime)]
    {
      rows := rows + [Token(hash, user, family, false, now + lifetime)];
    }

    /** The family-wide update, row by row. */
    method RevokeAll(family: FamilyId)
      modifies this
      ensures rows == RevokeFamily(old(rows), family)
    {
      var i := 0;
      while i < |rows|
        invariant 0 <= i <= |rows| == |old(rows)|
        invariant rows == RevokeFamily(old(rows), family)[..i] + old(rows)[i..]
      {
        if rows[i].family == family {
          rows := rows[i := rows[i].(revoked := true)];
        }
        i := i + 1;
      }
    }

    /** `refresh`. */
    method RefreshToken(
      presented: TokenHash, hash: TokenHash, lifetime: nat, userExists: bool, insertSucceeds: bool, now: Time)
      returns (reply: Reply)
      modifies this
      ensures (rows, reply) == Step(old(rows), Refresh(presented, hash, lifetime, userExists, insertSucceeds, now))
    {
      var found := IndexOf(rows, presented);
      if found.None? { return Unauthorized; }
      var stored := rows[found.value];
      if stored.revoked {
        RevokeAll(stored.family);
        return Unauthorized;
      }
      if stored.expiresAt < now { return Unauthorized; }
      rows := rows[found.value := stored.(revoked := true)];
      if !userExists { return Unauthorized; }
      if !insertSucceeds { return InsertFailed; }
      Mint(stored.user, stored.family, hash, lifetime, now);
      reply := Issued;
    }

    /** `logout`. */
    method LogoutToken(presented: TokenHash, now: Time) returns (reply: Reply)
      modifies this
      ensures (rows, reply) == Step(old(rows), Logout(presented, now))
    {
      var found := IndexOf(rows, presented);
      if found.Some? { RevokeAll(rows[found.value].family); }
      reply := NoContent;
    }
  }
}
