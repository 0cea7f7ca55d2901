/**
 * Reports against users: how they are filed, resolved by a moderator, and closed in bulk by the
 * automatic review pass. The list of blocked terms and the UUID parser are parameters.
 */
module Moderation {
  import opened Core
  import opened Text

  type UserId = nat
  type ReportId = nat
  type MessageId = nat

  datatype User = User(
    username: string,
    description: Option<string>,
    avatar: Option<string>,
    active: bool,
    restrictedUntil: Option<Time>,
    warnings: int)

  datatype Message = Message(sender: UserId, content: string, deletedAt: Option<Time>)

  datatype Status = Open | Resolved | Dismissed

  datatype Action = Dismiss | RemoveContent | RemoveAndLimit | Suspend | RemoveAndSuspend

  datatype Report = Report(
    reporter: UserId,
    reported: UserId,
    source: string,
    kind: string,
    contentId: Option<string>,
    reason: string,
    note: Option<string>,
    excerpt: Option<string>,
    createdAt: Time,
    dueAt: Time,
    status: Status,
    action: Option<Action>,
    notes: Option<string>,
    reviewedBy: Option<UserId>,
    reviewedAt: Option<Time>)

  datatype State = State(
    users: map<UserId, User>,
    messages: map<MessageId, Message>,
    roomMessages: map<MessageId, Message>,
    reports: map<ReportId, Report>)

  datatype Environment = Environment(terms: seq<string>, parseUuid: string -> Option<MessageId>)

  datatype Refusal = NotFound | Conflict | BadRequest

  const SOURCES: set<string> := {"user_report", "block_action"}

  const PROFILE: string := "user_profile"

  const DIRECT_MESSAGE: string := "direct_message"

  const ROOM_MESSAGE: string := "room_message"

  const REVIEW_DELAY: int := DAY

  const RESTRICTION_DAYS: int := 7

  const REPEAT_THRESHOLD: nat := 3

  const EXCERPT_LIMIT: nat := 2000

  // ---------------------------------------------------------------------
  // Blocked terms
  // ---------------------------------------------------------------------

  predicate IsAlphanumeric(c: char) { 'a' <= c <= 'z' || 'A' <= c <= 'Z' || '0' <= c <= '9' }

  function SplitsTokens(): char -> bool { (c: char) => !IsAlphanumeric(c) }

  function Tokens(text: string): set<string> { set w | w in Runs(text, SplitsTokens()) }

  predicate OccursAt(text: string, i: int, term: string) {
    0 <= i <= |text| - |term| && text[i..i + |term|] == term
  }

  predicate Occurs(text: string, term: string) { exists i | 0 <= i <= |text| :: OccursAt(text, i, term) }

  /** A phrase counts anywhere in the text, a single word only as a token of its own. */
  predicate Matches(text: string, term: string) {
    if ' ' in term then Occurs(text, term) else term in Tokens(text)
  }

  predicate Objectionable(terms: seq<string>, value: string) {
    exists term | term in terms :: Matches(TrimLower(value), term)
  }

  /** A phrase occurs exactly when the text is that phrase between two others. */
  lemma {:induction false} OccursIff(text: string, term: string)
    ensures Occurs(text, term) <==> exists before, after :: text == before + term + after
  {
    if Occurs(text, term) {
      var i :| 0 <= i <= |text| && OccursAt(text, i, term);
      assert text == text[..i] + term + text[i + |term|..];
    }
    if before, after :| text == before + term + after {
      assert OccursAt(text, |before|, term);
    }
  }

  /** The first listed term found in the text, if any. */
  method DetectBlockedTerm(terms: seq<string>, value: string) returns (found: Option<string>)
    ensures found.Some? <==> Objectionable(terms, value)
    ensures found.Some? ==> exists i :: 0 <= i < |terms| && terms[i] == found.value && Matches(TrimLower(value), terms[i])
                                   && forall j | 0 <= j < i :: !Matches(TrimLower(value), terms[j])
  {
    var text := TrimLower(value);
    if text == [] {
      assert forall term :: !Matches(text, term);
      return None;
    }
    var tokens := Tokens(text);
    for i := 0 to |terms|
      invariant forall j | 0 <= j < i :: !Matches(text, terms[j])
    {
      if ' ' in terms[i] {
        if Occurs(text, terms[i]) {
          assert Matches(text, terms[i]);
          return Some(terms[i]);
        }
        continue;
      }
      if terms[i] in tokens {
        assert Matches(text, terms[i]);
        return Some(terms[i]);
      }
    }
    found := None;
  }

  /** A one-word term is found exactly where no letter or digit touches it on either side. */
  lemma {:induction false} SingleWordMatchesIff(text: string, term: string)
    requires ' ' !in term
    ensures Matches(text, term) <==> exists i :: StandsAlone(text, i, term, SplitsTokens())
  {
    RunsIff(text, term, SplitsTokens());
  }

  /** A term with a blank in it is found exactly when the text is that term between two others. */
  lemma {:induction false} PhraseMatchesIff(text: string, term: string)
    requires ' ' in term
    ensures Matches(text, term) <==> exists before, after :: text == before + term + after
  {
    OccursIff(text, term);
  }

  /** A text is objectionable exactly when some term matches it, trimmed and in lower case. */
  lemma {:induction false} ObjectionableIff(terms: seq<string>, value: string)
    ensures Objectionable(terms, value) <==> exists i :: 0 <= i < |terms| && Matches(Lower(Trim(value)), terms[i])
  {
    if i :| 0 <= i < |terms| && Matches(Lower(Trim(value)), terms[i]) { assert terms[i] in terms; }
  }

  /** Tokens consist of ASCII letters and digits. */
  lemma {:induction false} TokenCharacters(c: char)
    ensures SplitsTokens()(c) <==> !('0' <= c <= '9' || 'a' <= c <= 'z' || 'A' <= c <= 'Z')
  {}

  // ---------------------------------------------------------------------
  // Filing a report
  // ---------------------------------------------------------------------

  datatype Input = Input(
    reported: UserId,
    source: string,
    kind: string,
    contentId: Option<string>,
    reason: string,
    note: Option<string>,
    excerpt: Option<string>)

  function OptionalText(raw: Option<string>): Option<string> {
    if raw.None? || Trim(raw.value) == [] then None else Some(Trim(raw.value))
  }

  function ReasonCode(raw: string): string {
    if OptionalText(Some(raw)).Some? then OptionalText(Some(raw)).value else "other"
  }

  function ReportExcerpt(raw: Option<string>): Option<string> {
    var text := OptionalText(raw);
    if text.None? || |text.value| <= EXCERPT_LIMIT then text else Some(text.value[..EXCERPT_LIMIT] + "...")
  }

  /** The text of a message that can still be reported: present, sent by that user, not deleted. */
  function MessageExcerpt(env: Environment, table: map<MessageId, Message>, reported: UserId, contentId: Option<string>)
    : Result<string, Refusal>
  {
    if contentId.None? || env.parseUuid(contentId.value).None? then Err(BadRequest)
    else
      var m := env.parseUuid(contentId.value).value;
      if m !in table || table[m].sender != reported || table[m].deletedAt.Some? then Err(NotFound)
      else Ok(table[m].content)
  }

  function ContentExcerpt(env: Environment, s: State, reported: UserId, kind: string, contentId: Option<string>)
    : Result<string, Refusal>
  {
    if kind == PROFILE then
      if reported !in s.users then Err(NotFound)
      else
        var u := s.users[reported];
        Ok(Trim("username: " + u.username + "\ndescription: " + if u.description.Some? then u.description.value else ""))
    else if kind == DIRECT_MESSAGE then MessageExcerpt(env, s.messages, reported, contentId)
    else if kind == ROOM_MESSAGE then MessageExcerpt(env, s.roomMessages, reported, contentId)
    else Err(BadRequest)
  }

  function Draft(reporter: UserId, input: Input, excerpt: string, now: Time): Report {
    var override := ReportExcerpt(input.excerpt);
    Report(reporter, input.reported, Trim(input.source), Trim(input.kind), OptionalText(input.contentId),
           ReasonCode(input.reason), OptionalText(input.note), if override.Some? then override else Some(excerpt),
           now, now + REVIEW_DELAY, Open, None, None, None, None)
  }

  function FileReport(env: Environment, s: State, id: ReportId, reporter: UserId, input: Input, now: Time): Result<State, Refusal> {
    var kind := Trim(input.kind);
    if reporter == input.reported then Err(BadRequest)
    else if input.reported !in s.users then Err(NotFound)
    else if Trim(input.source) !in SOURCES then Err(BadRequest)
    else if kind != PROFILE && kind != DIRECT_MESSAGE && kind != ROOM_MESSAGE then Err(BadRequest)
    else
      match ContentExcerpt(env, s, input.reported, kind, OptionalText(input.contentId))
      case Err(e) => Err(e)
      case Ok(excerpt) => Ok(s.(reports := s.reports[id := Draft(reporter, input, excerpt, now)]))
  }

  /** The content a report may be filed about: a profile, or an undeleted message of that kind sent by that user. */
  ghost predicate Reportable(env: Environment, s: State, input: Input) {
    var (kind, text) := (Trim(input.kind), OptionalText(input.contentId));
    || kind == "user_profile"
    || (kind == "direct_message" && SentBy(env, s.messages, input.reported, text))
    || (kind == "room_message" && SentBy(env, s.roomMessages, input.reported, text))
  }

  ghost predicate SentBy(env: Environment, table: map<MessageId, Message>, user: UserId, text: Option<string>) {
    exists m :: m in table && text.Some? && env.parseUuid(text.value) == Some(m) && table[m].sender == user && table[m].deletedAt.None?
  }

  /** A report is filed exactly about another, existing user, from a known source, for reportable content. */
  lemma {:induction false} FiledIff(env: Environment, s: State, id: ReportId, filer: UserId, input: Input, now: Time)
    ensures FileReport(env, s, id, filer, input, now).Ok? <==>
            && filer != input.reported && input.reported in s.users
            && (Trim(input.source) == "user_report" || Trim(input.source) == "block_action")
            && Reportable(env, s, input)
  {
    var text := OptionalText(input.contentId);
    if text.Some? && env.parseUuid(text.value).Some? {
      var m := env.parseUuid(text.value).value;
      assert m in s.messages && s.messages[m].sender == input.reported && s.messages[m].deletedAt.None? ==> SentBy(env, s.messages, input.reported, text);
      assert m in s.roomMessages && s.roomMessages[m].sender == input.reported && s.roomMessages[m].deletedAt.None? ==> SentBy(env, s.roomMessages, input.reported, text);
    }
  }

  /** The refusals of a report, in the order they are tried. */
  lemma {:induction false} FilingRefusals(env: Environment, s: State, id: ReportId, filer: UserId, input: Input, now: Time)
    ensures var (r, kind, text) := (FileReport(env, s, id, filer, input, now), Trim(input.kind), OptionalText(input.contentId));
            r.Err? ==>
              if filer == input.reported then r.error == BadRequest
              else if input.reported !in s.users then r.error == NotFound
              else if Trim(input.source) !in {"user_report", "block_action"} then r.error == BadRequest
              else if kind !in {"user_profile", "direct_message", "room_message"} then r.error == BadRequest
              else if text.None? || env.parseUuid(text.value).None? then r.error == BadRequest
              else r.error == NotFound
  {}

  /** What is filed: the trimmed fields, open and due after a day, with the given excerpt or else the content itself. */
  lemma {:induction false} FiledContents(env: Environment, s: State, id: ReportId, filer: UserId, input: Input, now: Time)
    requires FileReport(env, s, id, filer, input, now).Ok?
    ensures var t := FileReport(env, s, id, filer, input, now).value;
            var r := if id in t.reports then t.reports[id] else Draft(filer, input, "", now);
            && id in t.reports && t == s.(reports := s.reports[id := r])
            && r.reporter == filer && r.reported == input.reported && r.kind == Trim(input.kind) && r.source == Trim(input.source)
            && r.contentId == OptionalText(input.contentId) && r.note == OptionalText(input.note)
            && r.reason == (if Trim(input.reason) == [] then "other" else Trim(input.reason))
            && r.status == Open && r.createdAt == now && r.dueAt == now + 24 * 3600 * SECOND
            && r.action.None? && r.notes.None? && r.reviewedBy.None? && r.reviewedAt.None?
            && r.excerpt == (if OptionalText(input.excerpt).Some? then Some(Shortened(Trim(input.excerpt.value)))
                             else Some(ContentText(env, s, input)))
  {}

  /** At most 2000 characters, and three dots where more was cut off. */
  function Shortened(text: string): string { if |text| > 2000 then text[..2000] + "..." else text }

  /** The text the report is about. */
  function ContentText(env: Environment, s: State, input: Input): string
    requires input.reported in s.users
  {
    var (kind, text) := (Trim(input.kind), OptionalText(input.contentId));
    var target := if text.Some? then env.parseUuid(text.value) else None;
    if kind == "direct_message" && target.Some? && target.value in s.messages then s.messages[target.value].content
    else if kind == "room_message" && target.Some? && target.value in s.roomMessages then s.roomMessages[target.value].content
    else
      var u := s.users[input.reported];
      Trim("username: " + u.username + "\ndescription: " + if u.description.Some? then u.description.value else "")
  }

  /** Blank and missing texts are the same; others lose their outer blanks only. */
  lemma {:induction false} OptionalTextIff(raw: Option<string>)
    ensures OptionalText(raw).Some? <==> raw.Some? && Trim(raw.value) != []
    ensures OptionalText(raw).Some? ==> OptionalText(raw).value == Trim(raw.value)
  {}

  // ---------------------------------------------------------------------
  // Resolving one report
  // ---------------------------------------------------------------------

  function ParseAction(raw: string): Option<Action> {
    var text := Trim(raw);
    if text == "dismiss" then Some(Dismiss)
    else if text == "remove_content" then Some(RemoveContent)
    else if text == "remove_content_and_limit_new_direct_messages" then Some(RemoveAndLimit)
    else if text == "suspend_user" then Some(Suspend)
    else if text == "remove_content_and_suspend_user" then Some(RemoveAndSuspend)
    else None
  }

  predicate Removes(a: Action) { a == RemoveContent || a == RemoveAndLimit || a == RemoveAndSuspend }

  predicate Suspends(a: Action) { a == Suspend || a == RemoveAndSuspend }

  /** The message a report points at. */
  function TargetOf(env: Environment, report: Report): Option<MessageId> {
    if report.contentId.None? then None else env.parseUuid(report.contentId.value)
  }

  /** Content removal fails only on reports that name no removable content. */
  predicate Removable(env: Environment, report: Report) {
    report.kind == PROFILE
    || ((report.kind == DIRECT_MESSAGE || report.kind == ROOM_MESSAGE) && TargetOf(env, report).Some?)
  }

  function MarkDeleted(table: map<MessageId, Message>, m: MessageId, now: Time): map<MessageId, Message> {
    if m in table then table[m := table[m].(deletedAt := Some(now))] else table
  }

  function Later(current: Option<Time>, until: Time): Time {
    if current.Some? && current.value > until then current.value else until
  }

  function Cleared(u: User): User { u.(avatar := None, description := None) }

  function Limited(u: User, now: Time): User {
    u.(restrictedUntil := Some(Later(u.restrictedUntil, now + RESTRICTION_DAYS * DAY)),
       warnings := u.warnings + 1)
  }

  /** What an action does to the reported user. */
  function Sanctioned(u: User, profile: bool, action: Action, now: Time): User {
    var u1 := if Removes(action) && profile then Cleared(u) else u;
    var u2 := if action == RemoveAndLimit then Limited(u1, now) else u1;
    if Suspends(action) then u2.(active := false) else u2
  }

  function UsersWith(users: map<UserId, User>, report: Report, action: Action, now: Time): map<UserId, User> {
    if report.reported !in users then users
    else users[report.reported := Sanctioned(users[report.reported], report.kind == PROFILE, action, now)]
  }

  /** What an action does to the table holding messages of the given kind; a missing row is no error. */
  function MessagesWith(env: Environment, table: map<MessageId, Message>, kind: string, report: Report, action: Action, now: Time)
    : map<MessageId, Message>
  {
    if Removes(action) && report.kind == kind && TargetOf(env, report).Some?
    then MarkDeleted(table, TargetOf(env, report).value, now) else table
  }

  function Closed(report: Report, action: Action, notes: Option<string>, reviewedBy: Option<UserId>, now: Time): Report {
    report.(status := if action == Dismiss then Dismissed else Resolved, action := Some(action),
            notes := OptionalText(notes), reviewedBy := reviewedBy, reviewedAt := Some(now))
  }

  function Apply(env: Environment, s: State, id: ReportId, action: Action, notes: Option<string>,
                 reviewedBy: Option<UserId>, now: Time): Result<State, Refusal>
    requires id in s.reports
  {
    var report := s.reports[id];
    if Removes(action) && !Removable(env, report) then Err(BadRequest)
    else if action == RemoveAndLimit && report.reported !in s.users then Err(NotFound)
    else Ok(State(UsersWith(s.users, report, action, now),
                  MessagesWith(env, s.messages, DIRECT_MESSAGE, report, action, now),
                  MessagesWith(env, s.roomMessages, ROOM_MESSAGE, report, action, now),
                  s.reports[id := Closed(report, action, notes, reviewedBy, now)]))
  }

  function Resolve(env: Environment, s: State, id: ReportId, rawAction: string, notes: Option<string>,
                   reviewedBy: Option<UserId>, now: Time): Result<State, Refusal>
    requires id in s.reports
  {
    match ParseAction(rawAction)
    case None => Err(BadRequest)
    case Some(action) => Apply(env, s, id, action, notes, reviewedBy, now)
  }

  function Decide(env: Environment, s: State, id: ReportId, reviewedBy: UserId, rawAction: string,
                  notes: Option<string>, now: Time): Result<State, Refusal>
  {
    if id !in s.reports then Err(NotFound)
    else if s.reports[id].status != Open then Err(Conflict)
    else Resolve(env, s, id, rawAction, notes, Some(reviewedBy), now)
  }

  // ---------------------------------------------------------------------
  // The automatic review pass
  // ---------------------------------------------------------------------

  const ESCALATE: string := "remove_content_and_suspend_user"

  const LIMIT: string := "remove_content_and_limit_new_direct_messages"

  const ESCALATION_NOTE: string := "Automatic moderation: overdue report escalated by high-risk content or repeat offense"

  const LIMIT_NOTE: string :=
    "Automatic moderation: overdue report content removed and new direct messages limited for follow-up"

  lemma {:induction false} PassActionsParse()
    ensures ParseAction(ESCALATE) == Some(RemoveAndSuspend) && ParseAction(LIMIT) == Some(RemoveAndLimit)
  {}

  /** Open reports whose review time has come. */
  function Due(s: State, now: Time): set<ReportId> {
    set id | id in s.reports && s.reports[id].status == Open && s.reports[id].dueAt <= now
  }

  function Against(s: State, ids: set<ReportId>, user: UserId): set<ReportId>
    requires ids <= s.reports.Keys
  {
    set id | id in ids && s.reports[id].reported == user
  }

  predicate HighRisk(env: Environment, report: Report) {
    report.excerpt.Some? && Objectionable(env.terms, report.excerpt.value)
  }

  predicate Escalated(env: Environment, s: State, due: set<ReportId>, id: ReportId)
    requires due <= s.reports.Keys && id in due
  {
    HighRisk(env, s.reports[id]) || |Against(s, due, s.reports[id].reported)| >= REPEAT_THRESHOLD
  }

  function Escalations(env: Environment, s: State, due: set<ReportId>, done: set<ReportId>, user: UserId): set<ReportId>
    requires done <= due <= s.reports.Keys
  {
    set id | id in done && s.reports[id].reported == user && Escalated(env, s, due, id)
  }

  function Warnings(env: Environment, s: State, due: set<ReportId>, done: set<ReportId>, user: UserId): set<ReportId>
    requires done <= due <= s.reports.Keys
  {
    set id | id in done && s.reports[id].reported == user && !Escalated(env, s, due, id)
  }

  predicate ProfileReported(s: State, done: set<ReportId>, user: UserId)
    requires done <= s.reports.Keys
  {
    exists id | id in done :: s.reports[id].reported == user && s.reports[id].kind == PROFILE
  }

  predicate MessageReported(env: Environment, s: State, done: set<ReportId>, kind: string, m: MessageId)
    requires done <= s.reports.Keys
  {
    exists id | id in done :: s.reports[id].kind == kind && TargetOf(env, s.reports[id]) == Some(m)
  }

  /** A user after some reports: whether the profile was among them, whether any escalated, how many warned. */
  function Outcome(u: User, profile: bool, escalated: bool, warned: nat, now: Time): User {
    User(u.username,
         if profile then None else u.description,
         if profile then None else u.avatar,
         u.active && !escalated,
         if warned == 0 then u.restrictedUntil else Some(Later(u.restrictedUntil, now + RESTRICTION_DAYS * DAY)),
         u.warnings + warned)
  }

  /** A user after the reports `done`, out of those `due`, have been dealt with. */
  function UserAfter(env: Environment, s: State, due: set<ReportId>, done: set<ReportId>, user: UserId, now: Time): User
    requires done <= due <= s.reports.Keys && user in s.users
  {
    Outcome(s.users[user], ProfileReported(s, done, user), Escalations(env, s, due, done, user) != {},
            |Warnings(env, s, due, done, user)|, now)
  }

  function UsersAfter(env: Environment, s: State, due: set<ReportId>, done: set<ReportId>, now: Time): map<UserId, User>
    requires done <= due <= s.reports.Keys
  {
    map u | u in s.users :: UserAfter(env, s, due, done, u, now)
  }

  function MessageAfter(env: Environment, s: State, done: set<ReportId>, kind: string, m: MessageId, row: Message, now: Time): Message
    requires done <= s.reports.Keys
  {
    if MessageReported(env, s, done, kind, m) then row.(deletedAt := Some(now)) else row
  }

  function ReportAfter(env: Environment, s: State, due: set<ReportId>, done: set<ReportId>, id: ReportId, now: Time): Report
    requires done <= due <= s.reports.Keys && id in s.reports
  {
    if id !in done then s.reports[id]
    else if Escalated(env, s, due, id) then Closed(s.reports[id], RemoveAndSuspend, Some(ESCALATION_NOTE), None, now)
    else Closed(s.reports[id], RemoveAndLimit, Some(LIMIT_NOTE), None, now)
  }

  function Handled(env: Environment, s: State, due: set<ReportId>, done: set<ReportId>, now: Time): State
    requires done <= due <= s.reports.Keys
  {
    State(UsersAfter(env, s, due, done, now),
          TableAfter(env, s, done, s.messages, DIRECT_MESSAGE, now),
          TableAfter(env, s, done, s.roomMessages, ROOM_MESSAGE, now),
          map id | id in s.reports :: ReportAfter(env, s, due, done, id, now))
  }

  /** A due report the pass can close: its content is removable, and a user to be warned exists. */
  predicate Closable(env: Environment, s: State, due: set<ReportId>, id: ReportId)
    requires due <= s.reports.Keys && id in due
  {
    Removable(env, s.reports[id]) && (Escalated(env, s, due, id) || s.reports[id].reported in s.users)
  }

  predicate Passable(env: Environment, s: State, now: Time) {
    forall id | id in Due(s, now) :: Closable(env, s, Due(s, now), id)
  }

  /** The outcome of the pass in closed form: all due reports at once, or nothing. */
  function Reviewed(env: Environment, s: State, now: Time): State {
    if Passable(env, s, now) then Handled(env, s, Due(s, now), Due(s, now), now) else s
  }

  function PassAction(escalated: bool): Action { if escalated then RemoveAndSuspend else RemoveAndLimit }

  function PassNote(escalated: bool): string { if escalated then ESCALATION_NOTE else LIMIT_NOTE }

  lemma {:induction false} NothingHandled(env: Environment, s: State, due: set<ReportId>, now: Time)
    requires due <= s.reports.Keys
    ensures Handled(env, s, due, {}, now) == s
  {
    var h := Handled(env, s, due, {}, now);
    assert h.users == s.users;
    assert h.messages == s.messages;
    assert h.roomMessages == s.roomMessages;
    assert h.reports == s.reports;
  }

  /** One round of the pass: it fails exactly when the report is not closable. */
  lemma {:induction false} OneMoreHandled(env: Environment, s: State, due: set<ReportId>, done: set<ReportId>, id: ReportId, now: Time)
    requires done <= due <= s.reports.Keys && id in due - done
    ensures var escalated := Escalated(env, s, due, id);
            var r := Apply(env, Handled(env, s, due, done, now), id, PassAction(escalated), Some(PassNote(escalated)), None, now);
            if Closable(env, s, due, id) then r == Ok(Handled(env, s, due, done + {id}, now)) else r.Err?
  {
    if Closable(env, s, due, id) {
      UsersStep(env, s, due, done, id, now);
      MessagesStep(env, s, done, s.messages, DIRECT_MESSAGE, id, PassAction(Escalated(env, s, due, id)), now);
      MessagesStep(env, s, done, s.roomMessages, ROOM_MESSAGE, id, PassAction(Escalated(env, s, due, id)), now);
      ReportsStep(env, s, due, done, id, now);
    }
  }

  lemma {:induction false} ReportsStep(env: Environment, s: State, due: set<ReportId>, done: set<ReportId>, id: ReportId, now: Time)
    requires done <= due <= s.reports.Keys && id in due - done
    ensures var escalated := Escalated(env, s, due, id);
            Handled(env, s, due, done + {id}, now).reports ==
            Handled(env, s, due, done, now).reports[id := Closed(s.reports[id], PassAction(escalated), Some(PassNote(escalated)), None, now)]
  {}

  function TableAfter(env: Environment, s: State, done: set<ReportId>, table: map<MessageId, Message>, kind: string, now: Time): map<MessageId, Message>
    requires done <= s.reports.Keys
  {
    map m | m in table :: MessageAfter(env, s, done, kind, m, table[m], now)
  }

  lemma {:induction false} MessagesStep(env: Environment, s: State, done: set<ReportId>, table: map<MessageId, Message>, kind: string,
                     id: ReportId, action: Action, now: Time)
    requires done <= s.reports.Keys && id in s.reports && Removes(action)
    ensures MessagesWith(env, TableAfter(env, s, done, table, kind, now), kind, s.reports[id], action, now) ==
            TableAfter(env, s, done + {id}, table, kind, now)
  {
    forall m | m in table ensures MessageReported(env, s, done + {id}, kind, m) <==>
      MessageReported(env, s, done, kind, m) || (s.reports[id].kind == kind && TargetOf(env, s.reports[id]) == Some(m)) {
    }
  }

  lemma {:induction false} UsersStep(env: Environment, s: State, due: set<ReportId>, done: set<ReportId>, id: ReportId, now: Time)
    requires done <= due <= s.reports.Keys && id in due - done && Closable(env, s, due, id)
    ensures UsersWith(UsersAfter(env, s, due, done, now), s.reports[id], PassAction(Escalated(env, s, due, id)), now) ==
            UsersAfter(env, s, due, done + {id}, now)
  {
    var before, after := UsersAfter(env, s, due, done, now), UsersAfter(env, s, due, done + {id}, now);
    var report, action := s.reports[id], PassAction(Escalated(env, s, due, id));
    forall u | u in s.users
      ensures after[u] == if u != report.reported then before[u] else Sanctioned(before[u], report.kind == PROFILE, action, now) {
      UserStep(env, s, due, done, id, u, now);
    }
    OneSanctioned(before, after, report, action, now);
  }

  lemma {:induction false} OneSanctioned(before: map<UserId, User>, after: map<UserId, User>, report: Report, action: Action, now: Time)
    requires before.Keys == after.Keys
    requires forall u | u in before ::
               after[u] == if u != report.reported then before[u] else Sanctioned(before[u], report.kind == PROFILE, action, now)
    ensures UsersWith(before, report, action, now) == after
  {}

  lemma {:induction false} UserStep(env: Environment, s: State, due: set<ReportId>, done: set<ReportId>, id: ReportId, u: UserId, now: Time)
    requires done <= due <= s.reports.Keys && id in due - done && u in s.users
    ensures UserAfter(env, s, due, done + {id}, u, now) ==
            if u != s.reports[id].reported then UserAfter(env, s, due, done, u, now)
            else Sanctioned(UserAfter(env, s, due, done, u, now), s.reports[id].kind == PROFILE,
                            PassAction(Escalated(env, s, due, id)), now)
  {
    WarningsGrow(env, s, due, done, id, u);
    EscalationsGrow(env, s, due, done, id, u);
    ProfileReportedGrows(s, done, id, u);
  }

  lemma {:induction false} ProfileReportedGrows(s: State, done: set<ReportId>, id: ReportId, u: UserId)
    requires done <= s.reports.Keys && id in s.reports
    ensures ProfileReported(s, done + {id}, u) <==> ProfileReported(s, done, u) || (s.reports[id].reported == u && s.reports[id].kind == PROFILE)
  {}

  lemma {:induction false} WarningsGrow(env: Environment, s: State, due: set<ReportId>, done: set<ReportId>, id: ReportId, u: UserId)
    requires done <= due <= s.reports.Keys && id in due - done
    ensures |Warnings(env, s, due, done + {id}, u)| ==
            |Warnings(env, s, due, done, u)| + if s.reports[id].reported == u && !Escalated(env, s, due, id) then 1 else 0
  {
    var (before, after) := (Warnings(env, s, due, done, u), Warnings(env, s, due, done + {id}, u));
    if s.reports[id].reported == u && !Escalated(env, s, due, id) {
      assert after == before + {id};
    } else {
      assert after == before;
    }
  }

  lemma {:induction false} EscalationsGrow(env: Environment, s: State, due: set<ReportId>, done: set<ReportId>, id: ReportId, u: UserId)
    requires done <= due <= s.reports.Keys && id in due - done
    ensures Escalations(env, s, due, done + {id}, u) != {} <==>
            Escalations(env, s, due, done, u) != {} || (s.reports[id].reported == u && Escalated(env, s, due, id))
  {
    var more := if s.reports[id].reported == u && Escalated(env, s, due, id) then {id} else {};
    assert Escalations(env, s, due, done + {id}, u) == Escalations(env, s, due, done, u) + more;
  }

  // ---------------------------------------------------------------------
  // What one pass does
  // ---------------------------------------------------------------------

  /** A pass that goes through closes exactly the open reports that are due and touches no other report. */
  lemma {:induction false} PassClosesExactlyDue(env: Environment, s: State, now: Time, id: ReportId)
    requires Passable(env, s, now) && id in s.reports
    ensures var after := Reviewed(env, s, now).reports;
            && after.Keys == s.reports.Keys
            && (after[id].status == Open <==> s.reports[id].status == Open && now < s.reports[id].dueAt)
            && (s.reports[id].status != Open || now < s.reports[id].dueAt ==> after[id] == s.reports[id])
  {}

  /** It deactivates exactly the users with a high-risk due report or with three or more due reports. */
  lemma {:induction false} PassDeactivatesExactly(env: Environment, s: State, now: Time, u: UserId)
    requires Passable(env, s, now) && u in s.users
    ensures Reviewed(env, s, now).users.Keys == s.users.Keys
    ensures Reviewed(env, s, now).users[u].active <==>
            && s.users[u].active
            && |Against(s, Due(s, now), u)| < 3
            && forall id | id in s.reports && s.reports[id].reported == u && s.reports[id].status == Open && s.reports[id].dueAt <= now ::
                 !HighRisk(env, s.reports[id])
  {
    var due := Due(s, now);
    var escalations := Escalations(env, s, due, due, u);
    assert Reviewed(env, s, now).users[u] == UserAfter(env, s, due, due, u, now);
    if |Against(s, due, u)| >= 3 {
      var id :| id in Against(s, due, u);
      assert id in escalations;
    }
    if id :| id in due && s.reports[id].reported == u && HighRisk(env, s.reports[id]) {
      assert id in escalations;
    }
  }

  /** Each warning count rises by the number of that user's due reports that did not escalate. */
  lemma {:induction false} PassWarnings(env: Environment, s: State, now: Time, u: UserId)
    requires Passable(env, s, now) && u in s.users
    ensures var mine := Against(s, Due(s, now), u);
            Reviewed(env, s, now).users[u].warnings ==
            s.users[u].warnings + if |mine| >= 3 then 0 else |set id | id in mine && !HighRisk(env, s.reports[id])|
  {
    var due := Due(s, now);
    var mine := Against(s, due, u);
    assert Reviewed(env, s, now).users[u] == UserAfter(env, s, due, due, u, now);
    assert Warnings(env, s, due, due, u) == if |mine| >= 3 then {} else set id | id in mine && !HighRisk(env, s.reports[id]);
  }

  /** A report that is open and due names this message. */
  ghost predicate NamedByDue(env: Environment, s: State, now: Time, kind: string, m: MessageId) {
    exists id :: id in s.reports && s.reports[id].status == Open && s.reports[id].dueAt <= now
              && s.reports[id].kind == kind && TargetOf(env, s.reports[id]) == Some(m)
  }

  /** It marks exactly the messages that a due report of their kind names, and changes nothing else about messages. */
  lemma {:induction false} PassRemovesExactly(env: Environment, s: State, now: Time, m: MessageId)
    requires Passable(env, s, now)
    ensures var after := Reviewed(env, s, now);
            && after.messages.Keys == s.messages.Keys && after.roomMessages.Keys == s.roomMessages.Keys
            && (m in s.messages ==>
                  after.messages[m] == s.messages[m].(deletedAt := if NamedByDue(env, s, now, DIRECT_MESSAGE, m) then Some(now) else s.messages[m].deletedAt))
            && (m in s.roomMessages ==>
                  after.roomMessages[m] == s.roomMessages[m].(deletedAt := if NamedByDue(env, s, now, ROOM_MESSAGE, m) then Some(now) else s.roomMessages[m].deletedAt))
  {
    NamedIsReported(env, s, now, DIRECT_MESSAGE, m);
    NamedIsReported(env, s, now, ROOM_MESSAGE, m);
  }

  lemma {:induction false} NamedIsReported(env: Environment, s: State, now: Time, kind: string, m: MessageId)
    ensures NamedByDue(env, s, now, kind, m) <==> MessageReported(env, s, Due(s, now), kind, m)
  {
    if id :| id in s.reports && s.reports[id].status == Open && s.reports[id].dueAt <= now
              && s.reports[id].kind == kind && TargetOf(env, s.reports[id]) == Some(m) {
      assert id in Due(s, now);
    }
  }

  /** It clears a profile exactly when a due profile report names its user, and never changes a user name. */
  lemma {:induction false} PassClearsExactly(env: Environment, s: State, now: Time, u: UserId)
    requires Passable(env, s, now) && u in s.users
    ensures var cleared := exists id :: id in Due(s, now) && s.reports[id].reported == u && s.reports[id].kind == PROFILE;
            var before, after := s.users[u], Reviewed(env, s, now).users[u];
            && after.username == before.username
            && after.description == (if cleared then None else before.description)
            && after.avatar == (if cleared then None else before.avatar)
  {
    assert Reviewed(env, s, now).users[u] == UserAfter(env, s, Due(s, now), Due(s, now), u, now);
  }

  predicate NotShortened(before: Option<Time>, after: Option<Time>) {
    before.Some? ==> after.Some? && before.value <= after.value
  }

  /** It never shortens a restriction, and a warned user is restricted for seven days at least. */
  lemma {:induction false} PassRestrictions(env: Environment, s: State, now: Time, u: UserId)
    requires u in s.users
    ensures u in Reviewed(env, s, now).users
    ensures var before, after := s.users[u], Reviewed(env, s, now).users[u];
            && NotShortened(before.restrictedUntil, after.restrictedUntil)
            && before.warnings <= after.warnings
            && (before.warnings < after.warnings ==> after.restrictedUntil.Some? && now + 7 * DAY <= after.restrictedUntil.value)
            && (before.warnings == after.warnings ==> after.restrictedUntil == before.restrictedUntil)
  {}

  // ---------------------------------------------------------------------
  // What a moderator's decision does
  // ---------------------------------------------------------------------

  /** The report as a decision leaves it. */
  function DecidedReport(r: Report, status: Status, action: Action, notes: Option<string>, reviewedBy: UserId, now: Time): Report {
    r.(status := status, action := Some(action), notes := OptionalText(notes), reviewedBy := Some(reviewedBy), reviewedAt := Some(now))
  }

  /** Content removal on its own: one profile cleared, or one message of its kind marked, and nothing else. */
  ghost predicate ContentGone(env: Environment, s: State, t: State, r: Report, now: Time) {
    && (if r.kind == PROFILE && r.reported in s.users
        then t.users == s.users[r.reported := s.users[r.reported].(avatar := None, description := None)] else t.users == s.users)
    && t.messages == MarkedIn(s.messages, if r.kind == DIRECT_MESSAGE then TargetOf(env, r) else None, now)
    && t.roomMessages == MarkedIn(s.roomMessages, if r.kind == ROOM_MESSAGE then TargetOf(env, r) else None, now)
  }

  function MarkedIn(table: map<MessageId, Message>, target: Option<MessageId>, now: Time): map<MessageId, Message> {
    map m | m in table :: if target == Some(m) then Message(table[m].sender, table[m].content, Some(now)) else table[m]
  }

  /** Dismissing a report changes nothing but the report. */
  lemma {:induction false} DismissDecides(env: Environment, s: State, id: ReportId, reviewedBy: UserId, notes: Option<string>, now: Time)
    requires id in s.reports && s.reports[id].status == Open
    ensures Decide(env, s, id, reviewedBy, "dismiss", notes, now) ==
            Ok(s.(reports := s.reports[id := DecidedReport(s.reports[id], Dismissed, Dismiss, notes, reviewedBy, now)]))
  {
    ActionTexts();
    DismissApplies(env, s, id, notes, Some(reviewedBy), now);
  }

  lemma {:induction false} DismissApplies(env: Environment, s: State, id: ReportId, notes: Option<string>, reviewedBy: Option<UserId>, now: Time)
    requires id in s.reports
    ensures Apply(env, s, id, Dismiss, notes, reviewedBy, now) ==
            Ok(s.(reports := s.reports[id := Closed(s.reports[id], Dismiss, notes, reviewedBy, now)]))
  {
    UnchangedUsers(s.users, s.reports[id].reported);
  }

  lemma {:induction false} UnchangedUsers(users: map<UserId, User>, u: UserId)
    ensures u in users ==> users[u := users[u]] == users
  {}

  /** The five action texts, with blanks around them or not. */
  lemma {:induction false} ActionTexts()
    ensures ParseAction("dismiss") == Some(Dismiss) && ParseAction("remove_content") == Some(RemoveContent)
    ensures ParseAction("remove_content_and_limit_new_direct_messages") == Some(RemoveAndLimit)
    ensures ParseAction("suspend_user") == Some(Suspend) && ParseAction("remove_content_and_suspend_user") == Some(RemoveAndSuspend)
  {
    TrimByFixed("dismiss", IsWhitespace);
    TrimByFixed("remove_content", IsWhitespace);
    TrimByFixed("remove_content_and_limit_new_direct_messages", IsWhitespace);
    TrimByFixed("suspend_user", IsWhitespace);
    TrimByFixed("remove_content_and_suspend_user", IsWhitespace);
  }

  /** Suspending deactivates the reported user and leaves all content alone. */
  lemma {:induction false} SuspendDecides(env: Environment, s: State, id: ReportId, reviewedBy: UserId, notes: Option<string>, now: Time)
    requires id in s.reports && s.reports[id].status == Open && s.reports[id].reported in s.users
    ensures var u := s.reports[id].reported;
            Decide(env, s, id, reviewedBy, "suspend_user", notes, now) ==
            Ok(s.(users := s.users[u := s.users[u].(active := false)],
                  reports := s.reports[id := DecidedReport(s.reports[id], Resolved, Suspend, notes, reviewedBy, now)]))
  {
    ActionTexts();
    SuspendApplies(env, s, id, notes, Some(reviewedBy), now);
  }

  lemma {:induction false} SuspendApplies(env: Environment, s: State, id: ReportId, notes: Option<string>, reviewedBy: Option<UserId>, now: Time)
    requires id in s.reports && s.reports[id].reported in s.users
    ensures var (r, u) := (s.reports[id], s.reports[id].reported);
            Apply(env, s, id, Suspend, notes, reviewedBy, now) ==
            Ok(s.(users := s.users[u := s.users[u].(active := false)], reports := s.reports[id := Closed(r, Suspend, notes, reviewedBy, now)]))
  {
  }

  lemma {:induction false} MarkedIsMarked(table: map<MessageId, Message>, m: MessageId, now: Time)
    ensures MarkDeleted(table, m, now) == MarkedIn(table, Some(m), now) && MarkedIn(table, None, now) == table
  {}

  /** Content can be removed of a profile report, and of a message report that names a message. */
  lemma {:induction false} RemovableIff(env: Environment, report: Report)
    ensures Removable(env, report) <==>
            || report.kind == "user_profile"
            || (report.kind in {"direct_message", "room_message"} && report.contentId.Some? && env.parseUuid(report.contentId.value).Some?)
  {}

  /** The three removing actions, applied: the content is gone, and the user is sanctioned as the action says. */
  lemma {:induction false} RemovalApplies(env: Environment, s: State, id: ReportId, action: Action, reviewedBy: UserId, notes: Option<string>, now: Time)
    requires id in s.reports && s.reports[id].reported in s.users && (action.RemoveContent? || action.RemoveAndLimit? || action.RemoveAndSuspend?)
    ensures var (r, applied) := (s.reports[id], Apply(env, s, id, action, notes, Some(reviewedBy), now));
            && (applied.Ok? <==> Removable(env, r)) && (applied.Err? ==> applied.error == BadRequest)
            && (applied.Ok? ==>
                  var (t, u) := (applied.value, r.reported);
                  && u in t.users && t.reports == s.reports[id := DecidedReport(r, Resolved, action, notes, reviewedBy, now)]
                  && ContentGone(env, s, t.(users := t.users[u := WithoutSanction(t.users[u], s.users[u])]), r, now)
                  && (t.users[u].active <==> s.users[u].active && !action.RemoveAndSuspend?)
                  && t.users[u].warnings == s.users[u].warnings + (if action.RemoveAndLimit? then 1 else 0)
                  && t.users[u].restrictedUntil ==
                     (if action.RemoveAndLimit? then Some(LaterOf(s.users[u].restrictedUntil, now + 7 * DAY)) else s.users[u].restrictedUntil))
  {
    var r := s.reports[id];
    if Removable(env, r) {
      RemovalMarks(env, s.messages, DIRECT_MESSAGE, r, action, now);
      RemovalMarks(env, s.roomMessages, ROOM_MESSAGE, r, action, now);
    }
    RemovalSanctions(s.users, r, action, now);
  }

  lemma {:induction false} RemovalMarks(env: Environment, table: map<MessageId, Message>, kind: string, r: Report, action: Action, now: Time)
    requires Removes(action) && Removable(env, r) && kind != PROFILE
    ensures MessagesWith(env, table, kind, r, action, now) == MarkedIn(table, if r.kind == kind then TargetOf(env, r) else None, now)
  {
    MarkedIsMarked(table, if TargetOf(env, r).Some? then TargetOf(env, r).value else 0, now);
  }

  lemma {:induction false} RemovalSanctions(users: map<UserId, User>, r: Report, action: Action, now: Time)
    requires Removes(action) && r.reported in users
    ensures var (after, u) := (UsersWith(users, r, action, now), r.reported);
            && u in after
            && after[u := WithoutSanction(after[u], users[u])] ==
               (if r.kind == PROFILE then users[u := users[u].(avatar := None, description := None)] else users)
            && (after[u].active <==> users[u].active && !action.RemoveAndSuspend?)
            && after[u].warnings == users[u].warnings + (if action.RemoveAndLimit? then 1 else 0)
            && after[u].restrictedUntil ==
               (if action.RemoveAndLimit? then Some(LaterOf(users[u].restrictedUntil, now + 7 * DAY)) else users[u].restrictedUntil)
  {
    var after := UsersWith(users, r, action, now);
    UsersRestored(users, after, r.reported, WithoutSanction(after[r.reported], users[r.reported]));
  }

  lemma {:induction false} UsersRestored(users: map<UserId, User>, users': map<UserId, User>, u: UserId, v: User)
    requires u in users && u in users' && users' == users[u := users'[u]]
    ensures users'[u := v] == users[u := v] && (v == users[u] ==> users'[u := v] == users)
  {}

  /** The user row with the standing it had before. */
  function WithoutSanction(after: User, before: User): User {
    after.(active := before.active, warnings := before.warnings, restrictedUntil := before.restrictedUntil)
  }

  function LaterOf(current: Option<Time>, until: Time): Time { if current.Some? then Max(current.value, until) else until }

  /** A decision with one of the three removing texts is that action applied. */
  lemma {:induction false} RemovalDecides(env: Environment, s: State, id: ReportId, reviewedBy: UserId, notes: Option<string>, now: Time)
    requires id in s.reports && s.reports[id].status == Open
    ensures Decide(env, s, id, reviewedBy, "remove_content", notes, now) ==
            Apply(env, s, id, RemoveContent, notes, Some(reviewedBy), now)
    ensures Decide(env, s, id, reviewedBy, "remove_content_and_limit_new_direct_messages", notes, now) ==
            Apply(env, s, id, RemoveAndLimit, notes, Some(reviewedBy), now)
    ensures Decide(env, s, id, reviewedBy, "remove_content_and_suspend_user", notes, now) ==
            Apply(env, s, id, RemoveAndSuspend, notes, Some(reviewedBy), now)
  {
    ActionTexts();
  }

  /** An unknown report, one already reviewed and an unknown action are refused, in this order. */
  lemma {:induction false} DecisionRefusals(env: Environment, s: State, id: ReportId, reviewedBy: UserId, raw: string, notes: Option<string>, now: Time)
    ensures id !in s.reports ==> Decide(env, s, id, reviewedBy, raw, notes, now) == Err(NotFound)
    ensures id in s.reports && s.reports[id].status != Open ==> Decide(env, s, id, reviewedBy, raw, notes, now) == Err(Conflict)
    ensures id in s.reports && s.reports[id].status == Open && ParseAction(raw).None? ==>
              Decide(env, s, id, reviewedBy, raw, notes, now) == Err(BadRequest)
    ensures ParseAction(raw).Some? <==>
            Trim(raw) in {"dismiss", "remove_content", "remove_content_and_limit_new_direct_messages", "suspend_user", "remove_content_and_suspend_user"}
  {}

  // ---------------------------------------------------------------------
  // Whole runs
  // ---------------------------------------------------------------------

  datatype Operation =
    | FileIt(id: ReportId, reporter: UserId, input: Input)
    | ResolveIt(id: ReportId, reviewedBy: UserId, action: string, notes: Option<string>)
    | ReviewPass
      /** Whatever other services do to users and messages. */
    | Elsewhere(users: map<UserId, User>, messages: map<MessageId, Message>, roomMessages: map<MessageId, Message>)

  datatype Event = Event(now: Time, op: Operation)

  const EMPTY: State := State(map[], map[], map[], map[])

  /** A transaction that fails leaves the tables as they were. */
  function Commit(s: State, r: Result<State, Refusal>): State { if r.Ok? then r.value else s }

  function Step(env: Environment, s: State, e: Event): State {
    match e.op
    case FileIt(id, reporter, input) => Commit(s, FileReport(env, s, id, reporter, input, e.now))
    case ResolveIt(id, reviewedBy, action, notes) => Commit(s, Decide(env, s, id, reviewedBy, action, notes, e.now))
    case ReviewPass => Reviewed(env, s, e.now)
    case Elsewhere(users, messages, roomMessages) => State(users, messages, roomMessages, s.reports)
  }

  function After(env: Environment, run: seq<Event>): State {
    if run == [] then EMPTY else Step(env, After(env, run[..|run| - 1]), run[|run| - 1])
  }

  /** Report ids are new, users persist, and only moderation changes restrictions and warnings. */
  predicate Allowed(s: State, e: Event) {
    match e.op
    case FileIt(id, _, _) => id !in s.reports
    case Elsewhere(users, _, _) =>
      forall u | u in s.users ::
        u in users && users[u].restrictedUntil == s.users[u].restrictedUntil && users[u].warnings == s.users[u].warnings
    case _ => true
  }

  ghost predicate Legal(env: Environment, run: seq<Event>) {
    forall i | 0 <= i < |run| :: Allowed(After(env, run[..i]), run[i])
  }

  lemma {:induction false} LegalLast(env: Environment, run: seq<Event>)
    requires Legal(env, run) && run != []
    ensures Legal(env, run[..|run| - 1]) && Allowed(After(env, run[..|run| - 1]), run[|run| - 1])
  {
    var init := run[..|run| - 1];
    assert forall i | 0 <= i < |init| :: init[..i] == run[..i];
  }

  /** Every report names removable content and a user that exists. */
  predicate WellFiled(env: Environment, s: State) {
    forall id | id in s.reports :: Removable(env, s.reports[id]) && s.reports[id].reported in s.users
  }

  /** A report is filed only for another, existing user and for content that can be removed later. */
  lemma {:induction false} FiledReportsRemovable(env: Environment, s: State, id: ReportId, reporter: UserId, input: Input, now: Time)
    requires FileReport(env, s, id, reporter, input, now).Ok?
    ensures var report := FileReport(env, s, id, reporter, input, now).value.reports[id];
            && Removable(env, report) && report.reported in s.users && report.reporter != report.reported
            && report.status == Open && report.dueAt == now + 24 * 3600 * SECOND
  {}

  lemma {:induction false} PassKeepsWellFiled(env: Environment, s: State, now: Time)
    requires WellFiled(env, s)
    ensures WellFiled(env, Reviewed(env, s, now))
  {}

  lemma {:induction false} ApplyKeepsWellFiled(env: Environment, s: State, id: ReportId, action: Action, notes: Option<string>,
                                               reviewedBy: Option<UserId>, now: Time)
    requires WellFiled(env, s) && id in s.reports && Apply(env, s, id, action, notes, reviewedBy, now).Ok?
    ensures WellFiled(env, Apply(env, s, id, action, notes, reviewedBy, now).value)
  {}

  lemma {:induction false} StepKeepsWellFiled(env: Environment, s: State, e: Event)
    requires WellFiled(env, s) && Allowed(s, e)
    ensures WellFiled(env, Step(env, s, e))
  {
    match e.op
    case FileIt(id, reporter, input) =>
      if FileReport(env, s, id, reporter, input, e.now).Ok? { FiledReportsRemovable(env, s, id, reporter, input, e.now); }
    case ResolveIt(id, reviewedBy, raw, notes) =>
      if Decide(env, s, id, reviewedBy, raw, notes, e.now).Ok? {
        ApplyKeepsWellFiled(env, s, id, ParseAction(raw).value, notes, Some(reviewedBy), e.now);
      }
    case ReviewPass => PassKeepsWellFiled(env, s, e.now);
    case Elsewhere(_, _, _) =>
  }

  lemma {:induction false} ReportsStayWellFiled(env: Environment, run: seq<Event>)
    requires Legal(env, run)
    ensures WellFiled(env, After(env, run))
  {
    if run != [] {
      LegalLast(env, run);
      ReportsStayWellFiled(env, run[..|run| - 1]);
      StepKeepsWellFiled(env, After(env, run[..|run| - 1]), run[|run| - 1]);
    }
  }

  /** In every run the automatic pass goes through at any time, and leaves nothing overdue behind. */
  lemma {:induction false} PassNeverAborts(env: Environment, run: seq<Event>, now: Time)
    requires Legal(env, run)
    ensures Passable(env, After(env, run), now)
    ensures Due(Reviewed(env, After(env, run), now), now) == {}
  {
    var s := After(env, run);
    ReportsStayWellFiled(env, run);
    forall id | id in s.reports ensures id !in Due(Reviewed(env, s, now), now) {
      PassClosesExactlyDue(env, s, now, id);
    }
    assert Reviewed(env, s, now).reports.Keys == s.reports.Keys;
  }

  /** What no later step may undo: closed reports stay as they are, restrictions and warnings only grow. */
  ghost predicate Onward(s: State, t: State) {
    && (forall id | id in s.reports :: id in t.reports && (s.reports[id].status != Open ==> t.reports[id] == s.reports[id]))
    && (forall u | u in s.users :: u in t.users && s.users[u].warnings <= t.users[u].warnings
                                && NotShortened(s.users[u].restrictedUntil, t.users[u].restrictedUntil))
  }

  lemma {:induction false} PassOnward(env: Environment, s: State, now: Time)
    ensures Onward(s, Reviewed(env, s, now))
  {
    forall u | u in s.users { PassRestrictions(env, s, now, u); }
    if Passable(env, s, now) {
      forall id | id in s.reports { PassClosesExactlyDue(env, s, now, id); }
    }
  }

  lemma {:induction false} SanctionOnward(u: User, profile: bool, action: Action, now: Time)
    ensures var v := Sanctioned(u, profile, action, now);
            u.warnings <= v.warnings && NotShortened(u.restrictedUntil, v.restrictedUntil)
  {}

  lemma {:induction false} ApplyOnward(env: Environment, s: State, id: ReportId, action: Action, notes: Option<string>, reviewedBy: Option<UserId>, now: Time)
    requires id in s.reports && s.reports[id].status == Open && Apply(env, s, id, action, notes, reviewedBy, now).Ok?
    ensures Onward(s, Apply(env, s, id, action, notes, reviewedBy, now).value)
  {
    var report := s.reports[id];
    if report.reported in s.users { SanctionOnward(s.users[report.reported], report.kind == PROFILE, action, now); }
  }

  lemma {:induction false} StepOnward(env: Environment, s: State, e: Event)
    requires Allowed(s, e)
    ensures Onward(s, Step(env, s, e))
  {
    match e.op
    case ReviewPass => PassOnward(env, s, e.now);
    case ResolveIt(id, reviewedBy, raw, notes) =>
      if Decide(env, s, id, reviewedBy, raw, notes, e.now).Ok? {
        ApplyOnward(env, s, id, ParseAction(raw).value, notes, Some(reviewedBy), e.now);
      }
    case _ =>
  }

  /** Over every run, a closed report never reopens or changes, and no restriction is ever shortened. */
  lemma {:induction false} RunOnward(env: Environment, run: seq<Event>, k: nat)
    requires Legal(env, run) && k <= |run|
    ensures Onward(After(env, run[..k]), After(env, run))
  {
    if k == |run| {
      assert run[..k] == run;
    } else {
      var init := run[..|run| - 1];
      assert init[..k] == run[..k];
      LegalLast(env, run);
      RunOnward(env, init, k);
      StepOnward(env, After(env, init), run[|run| - 1]);
    }
  }

  // ---------------------------------------------------------------------
  // The service, updating the tables in place
  // ---------------------------------------------------------------------

  function Elements(ids: seq<ReportId>): set<ReportId> { set id | id in ids }

  /** The ids of a set, each once, in any order. */
  ghost predicate Lists(ids: seq<ReportId>, all: set<ReportId>) {
    Elements(ids) == all && forall i, j | 0 <= i < j < |ids| :: ids[i] != ids[j]
  }

  lemma {:induction false} ListLength(ids: seq<ReportId>, all: set<ReportId>)
    requires Lists(ids, all)
    ensures |ids| == |all|
  {
    if ids != [] {
      var last := ids[|ids| - 1];
      var init := ids[..|ids| - 1];
      assert ids == init + [last];
      assert Elements(init) == all - {last};
      ListLength(init, all - {last});
    }
  }

  lemma {:induction false} ElementsGrow(ids: seq<ReportId>, i: nat)
    requires i < |ids| && Lists(ids, Elements(ids))
    ensures Elements(ids[..i + 1]) == Elements(ids[..i]) + {ids[i]}
    ensures ids[i] in Elements(ids) && ids[i] !in Elements(ids[..i])
  {
    assert ids[..i + 1] == ids[..i] + [ids[i]];
  }

  lemma {:induction false} CountGrows(s: State, ids: seq<ReportId>, i: nat, u: UserId)
    requires i < |ids| && Lists(ids, Elements(ids)) && Elements(ids) <= s.reports.Keys
    ensures |Against(s, Elements(ids[..i + 1]), u)| ==
            |Against(s, Elements(ids[..i]), u)| + if s.reports[ids[i]].reported == u then 1 else 0
  {
    assert ids[..i + 1] == ids[..i] + [ids[i]];
    var more := if s.reports[ids[i]].reported == u then {ids[i]} else {};
    assert Against(s, Elements(ids[..i + 1]), u) == Against(s, Elements(ids[..i]), u) + more;
  }

  function CountFor(counts: map<UserId, nat>, u: UserId): nat { if u in counts then counts[u] else 0 }

  /** The counts say how many of the reports `ids` concern each user. */
  ghost predicate CountsFit(counts: map<UserId, nat>, s: State, ids: set<ReportId>) {
    ids <= s.reports.Keys && forall u :: CountFor(counts, u) == |Against(s, ids, u)|
  }

  lemma {:induction false} CountsFitMore(counts: map<UserId, nat>, s: State, ids: seq<ReportId>, i: nat)
    requires i < |ids| && Lists(ids, Elements(ids)) && Elements(ids) <= s.reports.Keys
    requires CountsFit(counts, s, Elements(ids[..i]))
    ensures var u := s.reports[ids[i]].reported;
            CountsFit(counts[u := CountFor(counts, u) + 1], s, Elements(ids[..i + 1]))
  {
    var u := s.reports[ids[i]].reported;
    ElementsGrow(ids, i);
    var more, listed := counts[u := CountFor(counts, u) + 1], Elements(ids[..i + 1]);
    forall v ensures CountFor(more, v) == |Against(s, listed, v)| {
      CountGrows(s, ids, i, v);
      assert CountFor(counts, v) == |Against(s, Elements(ids[..i]), v)|;
    }
  }

  /** Removing, then restricting, then suspending adds up to the sanction for the action. */
  lemma {:induction false} SanctionInStages(users: map<UserId, User>, report: Report, action: Action, now: Time)
    ensures var target := report.reported;
            var users1 := if Removes(action) then UsersWith(users, report, RemoveContent, now) else users;
            var users2 := if action == RemoveAndLimit && target in users1 then users1[target := Limited(users1[target], now)] else users1;
            var users3 := if Suspends(action) && target in users2 then users2[target := users2[target].(active := false)] else users2;
            users3 == UsersWith(users, report, action, now)
  {}

  class ModerationService {
    const env: Environment
    var users: map<UserId, User>
    var messages: map<MessageId, Message>
    var roomMessages: map<MessageId, Message>
    var reports: map<ReportId, Report>

    ghost function Tables(): State
      reads this
    {
      State(users, messages, roomMessages, reports)
    }

    constructor (env: Environment)
      ensures this.env == env && Tables() == EMPTY
    {
      this.env := env;
      users, messages, roomMessages, reports := map[], map[], map[], map[];
    }

    method RemoveReportedContent(report: Report, now: Time) returns (r: Result<(), Refusal>)
      modifies this
      ensures r == if Removable(env, report) then Ok(()) else Err(BadRequest)
      ensures r.Err? ==> Tables() == old(Tables())
      ensures r.Ok? ==> Tables() == State(UsersWith(old(users), report, RemoveContent, now),
                                          MessagesWith(env, old(messages), DIRECT_MESSAGE, report, RemoveContent, now),
                                          MessagesWith(env, old(roomMessages), ROOM_MESSAGE, report, RemoveContent, now),
                                          old(reports))
    {
      if report.kind == PROFILE {
        if report.reported in users {
          users := users[report.reported := users[report.reported].(avatar := None, description := None)];
        }
        return Ok(());
      }
      if report.kind != DIRECT_MESSAGE && report.kind != ROOM_MESSAGE { return Err(BadRequest); }
      if report.contentId.None? { return Err(BadRequest); }
      var m := env.parseUuid(report.contentId.value);
      if m.None? { return Err(BadRequest); }
      if report.kind == DIRECT_MESSAGE {
        messages := MarkDeleted(messages, m.value, now);
      } else {
        roomMessages := MarkDeleted(roomMessages, m.value, now);
      }
      assert report.reported in users ==> users[report.reported := users[report.reported]] == users;
      r := Ok(());
    }

    method ApplyTemporaryDmRestriction(user: UserId, now: Time) returns (r: Result<(), Refusal>)
      modifies this`users
      ensures r == if user in old(users) then Ok(()) else Err(NotFound)
      ensures users == if user in old(users) then old(users)[user := Limited(old(users)[user], now)] else old(users)
    {
      if user !in users { return Err(NotFound); }
      var restrictionUntil := now + RESTRICTION_DAYS * DAY;
      var current := users[user].restrictedUntil;
      var effective := if current.Some? && current.value > restrictionUntil then current.value else restrictionUntil;
      users := users[user := users[user].(restrictedUntil := Some(effective), warnings := users[user].warnings + 1)];
      r := Ok(());
    }

    /** On an error the caller's transaction is rolled back. */
    method ResolveReportConn(id: ReportId, rawAction: string, notes: Option<string>, reviewedBy: Option<UserId>, now: Time)
      returns (r: Result<(), Refusal>)
      requires id in reports
      modifies this
      ensures r.Ok? ==> Resolve(env, old(Tables()), id, rawAction, notes, reviewedBy, now) == Ok(Tables())
      ensures r.Err? ==> Resolve(env, old(Tables()), id, rawAction, notes, reviewedBy, now) == Err(r.error)
    {
      var action := ParseAction(rawAction);
      if action.None? { return Err(BadRequest); }
      r := ApplyAction(id, action.value, notes, reviewedBy, now);
    }

    method ApplyAction(id: ReportId, action: Action, notes: Option<string>, reviewedBy: Option<UserId>, now: Time)
      returns (r: Result<(), Refusal>)
      requires id in reports
      modifies this
      ensures r.Ok? ==> Apply(env, old(Tables()), id, action, notes, reviewedBy, now) == Ok(Tables())
      ensures r.Err? ==> Apply(env, old(Tables()), id, action, notes, reviewedBy, now) == Err(r.error)
    {
      var report := reports[id];
      SanctionInStages(users, report, action, now);
      if Removes(action) {
        r := RemoveReportedContent(report, now);
        if r.Err? { return; }
      }
      if action == RemoveAndLimit {
        r := ApplyTemporaryDmRestriction(report.reported, now);
        if r.Err? { return; }
      }
      if Suspends(action) && report.reported in users {
        users := users[report.reported := users[report.reported].(active := false)];
      }
      reports := reports[id := Closed(report, action, notes, reviewedBy, now)];
      r := Ok(());
    }

    method Rollback(s: State)
      modifies this
      ensures Tables() == s
    {
      users, messages, roomMessages, reports := s.users, s.messages, s.roomMessages, s.reports;
    }

    /** A moderator's decision on one report. */
    method ResolveReport(id: ReportId, reviewedBy: UserId, rawAction: string, notes: Option<string>, now: Time)
      returns (r: Result<(), Refusal>)
      modifies this
      ensures Tables() == Step(env, old(Tables()), Event(now, ResolveIt(id, reviewedBy, rawAction, notes)))
      ensures r.Ok? <==> Decide(env, old(Tables()), id, reviewedBy, rawAction, notes, now).Ok?
      ensures r.Err? ==> Decide(env, old(Tables()), id, reviewedBy, rawAction, notes, now) == Err(r.error)
    {
      var saved := State(users, messages, roomMessages, reports);
      if id !in reports { return Err(NotFound); }
      if reports[id].status != Open { return Err(Conflict); }
      r := ResolveReportConn(id, rawAction, notes, Some(reviewedBy), now);
      if r.Err? { Rollback(saved); }
    }

    /** How many of the listed reports concern each user; users without any are left out. */
    method CountByUser(due: seq<ReportId>) returns (counts: map<UserId, nat>)
      requires Lists(due, Elements(due)) && Elements(due) <= reports.Keys
      ensures CountsFit(counts, Tables(), Elements(due))
    {
      counts := map[];
      for i := 0 to |due|
        invariant Elements(due[..i]) <= reports.Keys
        invariant CountsFit(counts, Tables(), Elements(due[..i]))
      {
        var u := reports[due[i]].reported;
        ElementsGrow(due, i);
        CountsFitMore(counts, Tables(), due, i);
        counts := counts[u := CountFor(counts, u) + 1];
      }
      assert due[..|due|] == due;
    }

    /** Whether a report is to be escalated. */
    method Judge(report: Report, count: nat) returns (escalated: bool)
      ensures escalated == (HighRisk(env, report) || count >= REPEAT_THRESHOLD)
    {
      var found: Option<string> := None;
      if report.excerpt.Some? { found := DetectBlockedTerm(env.terms, report.excerpt.value); }
      escalated := found.Some? || count >= REPEAT_THRESHOLD;
    }

    /** The body of the pass's loop: report `id`, with the reports `done` already dealt with. */
    method ReviewOne(id: ReportId, report: Report, count: nat, now: Time, ghost s: State, ghost due: set<ReportId>, ghost done: set<ReportId>)
      returns (r: Result<(), Refusal>)
      requires done <= due <= s.reports.Keys && id in due - done
      requires Tables() == Handled(env, s, due, done, now)
      requires report == s.reports[id] && count == |Against(s, due, report.reported)|
      modifies this
      ensures r.Ok? <==> Closable(env, s, due, id)
      ensures r.Ok? ==> Tables() == Handled(env, s, due, done + {id}, now)
    {
      var escalated := Judge(report, count);
      OneMoreHandled(env, s, due, done, id, now);
      PassActionsParse();
      r := ResolveReportConn(id, if escalated then ESCALATE else LIMIT, Some(PassNote(escalated)), None, now);
    }

    /** The pass's loop over the due reports, in whatever order the query lists them; an error leaves the tables half done. */
    method ReviewAll(due: seq<ReportId>, counts: map<UserId, nat>, now: Time, s: State) returns (r: Result<(), Refusal>)
      requires Tables() == s && Lists(due, Due(s, now))
      requires CountsFit(counts, s, Due(s, now))
      modifies this
      ensures r.Ok? <==> forall id | id in Due(s, now) :: Closable(env, s, Due(s, now), id)
      ensures r.Ok? ==> Tables() == Handled(env, s, Due(s, now), Due(s, now), now)
    {
      ghost var all := Due(s, now);
      NothingHandled(env, s, all, now);
      assert Elements(due[..0]) == {};
      for i := 0 to |due|
        invariant Elements(due[..i]) <= all
        invariant Tables() == Handled(env, s, all, Elements(due[..i]), now)
        invariant forall id | id in Elements(due[..i]) :: Closable(env, s, all, id)
      {
        var id := due[i];
        ElementsGrow(due, i);
        var report := s.reports[id];
        var count := CountFor(counts, report.reported);
        r := ReviewOne(id, report, count, now, s, all, Elements(due[..i]));
        if r.Err? { return; }
      }
      assert due[..|due|] == due;
      r := Ok(());
    }

    /** The automatic review pass. */
    method RunAutomaticReviewPass(due: seq<ReportId>, now: Time) returns (r: Result<nat, Refusal>)
      requires Lists(due, Due(Tables(), now))
      modifies this
      ensures Tables() == Step(env, old(Tables()), Event(now, ReviewPass))
      ensures r.Ok? <==> Passable(env, old(Tables()), now)
      ensures r.Ok? ==> r.value == |Due(old(Tables()), now)|
    {
      var saved := State(users, messages, roomMessages, reports);
      ListLength(due, Due(saved, now));
      var counts := CountByUser(due);
      var step := ReviewAll(due, counts, now, saved);
      if step.Err? {
        Rollback(saved);
        return Err(step.error);
      }
      r := Ok(|due|);
    }

    method CreateReport(id: ReportId, reporter: UserId, input: Input, now: Time) returns (r: Result<(), Refusal>)
      modifies this
      ensures Tables() == Step(env, old(Tables()), Event(now, FileIt(id, reporter, input)))
      ensures r.Ok? <==> FileReport(env, old(Tables()), id, reporter, input, now).Ok?
      ensures r.Err? ==> FileReport(env, old(Tables()), id, reporter, input, now) == Err(r.error)
    {
      if reporter == input.reported { return Err(BadRequest); }
      if input.reported !in users { return Err(NotFound); }
      if Trim(input.source) !in SOURCES { return Err(BadRequest); }
      var kind := Trim(input.kind);
      if kind != PROFILE && kind != DIRECT_MESSAGE && kind != ROOM_MESSAGE { return Err(BadRequest); }
      var excerpt := ContentExcerpt(env, State(users, messages, roomMessages, reports), input.reported, kind, OptionalText(input.contentId));
      if excerpt.Err? { return Err(excerpt.error); }
      reports := reports[id := Draft(reporter, input, excerpt.value, now)];
      r := Ok(());
    }
  }
}
