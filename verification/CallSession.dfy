/**
 * Call signalling: WebSocket sessions that share one table of calls. Each database access and each
 * wait on the socket is a step of its own, so steps of different sessions interleave freely.
 * Failures of the database and of the socket are part of the events.
 */
module CallSession {
  import opened Core

  type UserId = nat
  type CallId = nat
  type SessionId = nat

  datatype Status = Initiated | Answered | Ended | Rejected | Missed | Failed

  datatype Call = Call(
    caller: UserId,
    callee: UserId,
    callType: string,
    status: Status,
    answeredAt: Option<Time>,
    endedAt: Option<Time>)

  datatype Tracked = Tracked(call: CallId, peer: UserId)

  datatype Verb = Answer | Reject | Hangup

  /** Where a session stands between two steps. */
  datatype Phase =
    | Waiting
    | Acknowledging(call: CallId, callee: UserId)
    | Verified(verb: Verb, call: CallId, peer: UserId)
    | Closing
    | Closed

  datatype Session = Session(user: UserId, tracked: Option<Tracked>, lastHeard: Time, phase: Phase)

  /** One status change a session made. */
  datatype Entry = Entry(session: SessionId, user: UserId, call: CallId, status: Status, at: Time)

  const CLIENT_TIMEOUT: int := 60_000_000_000

  /** What reaches the loop, with the outcome of the I/O it causes. */
  datatype Input =
    | UnreadableText
    | Ping(sent: bool)
    | Typing
    | Offer(callee: UserId, callType: string, created: Option<CallId>)
    | Signal(verb: Verb, call: CallId, peer: UserId, readable: bool)
    | Candidate(call: CallId, readable: bool)
    | SocketPing(sent: bool)
    | SocketClosed
    | OtherFrame
    | Pushed(sent: bool)
    | Tick

  datatype Move =
    | Hear(input: Input)
    | Acknowledge(sent: bool)
    | Write(ok: bool)
    | CleanUp(ok: bool)

  // ---------------------------------------------------------------------
  // The call table
  // ---------------------------------------------------------------------

  type Calls = map<CallId, Call>

  predicate IsParticipant(calls: Calls, c: CallId, user: UserId) {
    c in calls && (calls[c].caller == user || calls[c].callee == user)
  }

  function WithStatus(call: Call, status: Status, now: Time): Call {
    match status
    case Initiated => call
    case Answered => call.(status := Answered, answeredAt := Some(now))
    case _ => call.(status := status, endedAt := Some(now))
  }

  function Updated(calls: Calls, c: CallId, status: Status, now: Time): Calls {
    if c in calls then calls[c := WithStatus(calls[c], status, now)] else calls
  }

  // ---------------------------------------------------------------------
  // The steps of one session
  // ---------------------------------------------------------------------

  /** A session together with the shared table and the record of status changes. */
  datatype Local = Local(calls: Calls, log: seq<Entry>, session: Session)

  function Enter(l: Local, phase: Phase): Local { l.(session := l.session.(phase := phase)) }

  function HeardFrom(l: Local, now: Time): Local { l.(session := l.session.(lastHeard := now)) }

  function Unless(l: Local, broken: bool): Local { if broken then Enter(l, Closing) else l }

  function Change(l: Local, id: SessionId, c: CallId, status: Status, ok: bool, now: Time): Local {
    if ok then l.(calls := Updated(l.calls, c, status, now), log := l.log + [Entry(id, l.session.user, c, status, now)])
    else l
  }

  function StatusOf(verb: Verb): Status {
    match verb
    case Answer => Answered
    case Reject => Rejected
    case Hangup => Ended
  }

  function HearStep(l: Local, input: Input, now: Time): Local {
    match input
    case UnreadableText => HeardFrom(l, now)
    case Ping(sent) => Unless(HeardFrom(l, now), !sent)
    case Typing => HeardFrom(l, now)
    case Offer(callee, callType, created) =>
      var heard := HeardFrom(l, now);
      if created.None? then heard
      else Enter(heard.(calls := l.calls[created.value := Call(l.session.user, callee, callType, Initiated, None, None)]),
                 Acknowledging(created.value, callee))
    case Signal(verb, c, peer, readable) =>
      var heard := HeardFrom(l, now);
      if readable && IsParticipant(l.calls, c, l.session.user) then Enter(heard, Verified(verb, c, peer)) else heard
    case Candidate(_, _) => HeardFrom(l, now)
    case SocketPing(sent) => Unless(HeardFrom(l, now), !sent)
    case SocketClosed => Enter(l, Closing)
    case OtherFrame => l
    case Pushed(sent) => Unless(l, !sent)
    case Tick => Unless(l, now - l.session.lastHeard > CLIENT_TIMEOUT)
  }

  /** The offer is tracked only once the client has been told about it. */
  function AcknowledgeStep(l: Local, sent: bool): Local
    requires l.session.phase.Acknowledging?
  {
    var p := l.session.phase;
    if sent then l.(session := l.session.(tracked := Some(Tracked(p.call, p.callee)), phase := Waiting))
    else Enter(l, Closing)
  }

  /** A failed write is ignored, and tracking changes all the same. */
  function WriteStep(l: Local, id: SessionId, ok: bool, now: Time): Local
    requires l.session.phase.Verified?
  {
    var p := l.session.phase;
    var changed := Change(l, id, p.call, StatusOf(p.verb), ok, now);
    changed.(session := l.session.(tracked := if p.verb == Answer then Some(Tracked(p.call, p.peer)) else None,
                                   phase := Waiting))
  }

  function CleanUpStep(l: Local, id: SessionId, ok: bool, now: Time): Local {
    var cleaned := if l.session.tracked.Some? then Change(l, id, l.session.tracked.value.call, Ended, ok, now) else l;
    cleaned.(session := l.session.(tracked := None, phase := Closed))
  }

  /** A step that the session is not ready for does nothing. */
  function Advance(l: Local, id: SessionId, now: Time, m: Move): Local {
    match m
    case Hear(input) => if l.session.phase.Waiting? then HearStep(l, input, now) else l
    case Acknowledge(sent) => if l.session.phase.Acknowledging? then AcknowledgeStep(l, sent) else l
    case Write(ok) => if l.session.phase.Verified? then WriteStep(l, id, ok, now) else l
    case CleanUp(ok) => if l.session.phase.Closing? then CleanUpStep(l, id, ok, now) else l
  }

  // ---------------------------------------------------------------------
  // All sessions together
  // ---------------------------------------------------------------------

  datatype World = World(calls: Calls, log: seq<Entry>, sessions: map<SessionId, Session>)

  const EMPTY: World := World(map[], [], map[])

  datatype Event =
    | Connect(at: Time, id: SessionId, user: UserId)
    | Act(at: Time, id: SessionId, move: Move)

  function View(w: World, id: SessionId): Local
    requires id in w.sessions
  {
    Local(w.calls, w.log, w.sessions[id])
  }

  function Step(w: World, e: Event): World {
    match e
    case Connect(at, id, user) => w.(sessions := w.sessions[id := Session(user, None, at, Waiting)])
    case Act(at, id, m) =>
      if id !in w.sessions then w
      else
        var l := Advance(View(w, id), id, at, m);
        World(l.calls, l.log, w.sessions[id := l.session])
  }

  function After(run: seq<Event>): World {
    if run == [] then EMPTY else Step(After(run[..|run| - 1]), run[|run| - 1])
  }

  /** Sessions and calls get identifiers that were not in use. */
  predicate FreshIds(w: World, e: Event) {
    match e
    case Connect(_, id, _) => id !in w.sessions
    case Act(_, _, m) => m.Hear? && m.input.Offer? && m.input.created.Some? ==> m.input.created.value !in w.calls
  }

  ghost predicate Legal(run: seq<Event>) {
    forall i | 0 <= i < |run| :: FreshIds(After(run[..i]), run[i])
  }

  lemma {:induction false} LegalLast(run: seq<Event>)
    requires Legal(run) && run != []
    ensures Legal(run[..|run| - 1]) && FreshIds(After(run[..|run| - 1]), run[|run| - 1])
  {
    var init := run[..|run| - 1];
    assert forall i | 0 <= i < |init| :: init[..i] == run[..i];
  }

  // ---------------------------------------------------------------------
  // The invariant
  // ---------------------------------------------------------------------

  /** Every call a session tracks, has offered or is about to change is one of its user's own. */
  predicate OwnCalls(calls: Calls, s: Session) {
    && (s.tracked.Some? ==> IsParticipant(calls, s.tracked.value.call, s.user))
    && (s.phase.Acknowledging? ==> IsParticipant(calls, s.phase.call, s.user))
    && (s.phase.Verified? ==> IsParticipant(calls, s.phase.call, s.user))
  }

  predicate OwnEntry(calls: Calls, e: Entry) { IsParticipant(calls, e.call, e.user) }

  /** The status recorded last for a call. */
  function LastStatus(log: seq<Entry>, c: CallId): Status {
    if log == [] then Initiated
    else if log[|log| - 1].call == c then log[|log| - 1].status
    else LastStatus(log[..|log| - 1], c)
  }

  predicate Logged(calls: Calls, log: seq<Entry>) {
    forall c | c in calls :: calls[c].status == LastStatus(log, c)
  }

  ghost predicate Sound(w: World) {
    && (forall id | id in w.sessions :: OwnCalls(w.calls, w.sessions[id]))
    && (forall e | e in w.log :: OwnEntry(w.calls, e) && e.session in w.sessions && w.sessions[e.session].user == e.user)
    && Logged(w.calls, w.log)
  }

  /** Rows stay, with the same two participants. */
  predicate Keeps(calls: Calls, calls': Calls) {
    forall c | c in calls :: c in calls' && calls'[c].caller == calls[c].caller && calls'[c].callee == calls[c].callee
  }

  lemma {:induction false} StepKeepsCalls(w: World, e: Event)
    requires FreshIds(w, e)
    ensures Keeps(w.calls, Step(w, e).calls)
  {}

  lemma {:induction false} LoggedChange(calls: Calls, log: seq<Entry>, e: Entry)
    requires Logged(calls, log) && !e.status.Initiated?
    ensures Logged(Updated(calls, e.call, e.status, e.at), log + [e])
  {}

  lemma {:induction false} UnknownCall(log: seq<Entry>, c: CallId)
    requires forall e | e in log :: e.call != c
    ensures LastStatus(log, c) == Initiated
  {
    if log != [] { UnknownCall(log[..|log| - 1], c); }
  }

  /** What one step does to the record: nothing, or one entry about a call of the acting user. */
  lemma {:induction false} MoveEffect(l: Local, id: SessionId, now: Time, m: Move)
    requires OwnCalls(l.calls, l.session) && Logged(l.calls, l.log)
    requires forall e | e in l.log :: OwnEntry(l.calls, e)
    requires FreshIds(World(l.calls, l.log, map[]), Act(now, id, m))
    ensures var t := Advance(l, id, now, m);
            && t.session.user == l.session.user && OwnCalls(t.calls, t.session) && Logged(t.calls, t.log)
            && (t.log == l.log || exists c, status :: t.log == l.log + [Entry(id, l.session.user, c, status, now)]
                                                   && IsParticipant(l.calls, c, l.session.user))
  {
    match m
    case Hear(input) =>
      if l.session.phase.Waiting? && input.Offer? && input.created.Some? {
        UnknownCall(l.log, input.created.value);
      }
    case Acknowledge(_) =>
    case Write(_) =>
      if l.session.phase.Verified? {
        LoggedChange(l.calls, l.log, Entry(id, l.session.user, l.session.phase.call, StatusOf(l.session.phase.verb), now));
      }
    case CleanUp(_) =>
      if l.session.tracked.Some? {
        LoggedChange(l.calls, l.log, Entry(id, l.session.user, l.session.tracked.value.call, Ended, now));
      }
  }

  lemma {:induction false} StepKeepsSound(w: World, e: Event)
    requires Sound(w) && FreshIds(w, e)
    ensures Sound(Step(w, e))
  {
    StepKeepsCalls(w, e);
    if e.Act? && e.id in w.sessions {
      MoveEffect(View(w, e.id), e.id, e.at, e.move);
    }
  }

  /**
   * In every interleaving of sessions, each status change was made to a call whose caller or callee
   * is the acting user, each tracked call is the user's own, and the table shows the last change.
   */
  lemma {:induction false} SessionsStaySound(run: seq<Event>)
    requires Legal(run)
    ensures Sound(After(run))
  {
    if run != [] {
      LegalLast(run);
      SessionsStaySound(run[..|run| - 1]);
      StepKeepsSound(After(run[..|run| - 1]), run[|run| - 1]);
    }
  }

  lemma {:induction false} ChangedCallIsOwn(l: Local, id: SessionId, now: Time, m: Move, c: CallId)
    requires OwnCalls(l.calls, l.session) && FreshIds(World(l.calls, l.log, map[]), Act(now, id, m))
    requires c in l.calls
    ensures c in Advance(l, id, now, m).calls
    ensures Advance(l, id, now, m).calls[c] != l.calls[c] ==> IsParticipant(l.calls, c, l.session.user)
  {}

  /** A row changes only in a step of a session whose user takes part in that call. */
  lemma {:induction false} OnlyParticipantsChangeCalls(run: seq<Event>, e: Event, c: CallId)
    requires Legal(run) && FreshIds(After(run), e) && c in After(run).calls
    ensures c in Step(After(run), e).calls
    ensures Step(After(run), e).calls[c] != After(run).calls[c] ==>
              e.Act? && e.id in After(run).sessions && IsParticipant(After(run).calls, c, After(run).sessions[e.id].user)
  {
    SessionsStaySound(run);
    var w := After(run);
    if e.Act? && e.id in w.sessions { ChangedCallIsOwn(View(w, e.id), e.id, e.at, e.move, c); }
  }

  /** The tracked call is ended, the session is closed, and no other call is touched. */
  predicate CleanedUp(w: World, t: World, id: SessionId, c: CallId, now: Time) {
    && c in t.calls && t.calls[c].status == Ended && t.calls[c].endedAt == Some(now)
    && id in t.sessions && t.sessions[id].phase.Closed? && t.sessions[id].tracked.None?
    && forall other | other in w.calls && other != c :: other in t.calls && t.calls[other] == w.calls[other]
  }

  lemma {:induction false} CleanUpEndsTrackedCall(w: World, id: SessionId, now: Time)
    requires id in w.sessions && OwnCalls(w.calls, w.sessions[id])
    requires w.sessions[id].phase.Closing? && w.sessions[id].tracked.Some?
    ensures CleanedUp(w, Step(w, Act(now, id, CleanUp(true))), id, w.sessions[id].tracked.value.call, now)
  {}

  /** In every run, a session that closes while tracking a call leaves that call ended. */
  lemma {:induction false} ClosingEndsTrackedCall(run: seq<Event>, id: SessionId, now: Time)
    requires Legal(run) && id in After(run).sessions
    requires After(run).sessions[id].phase.Closing? && After(run).sessions[id].tracked.Some?
    ensures CleanedUp(After(run), After(run + [Act(now, id, CleanUp(true))]), id, After(run).sessions[id].tracked.value.call, now)
  {
    var e := Act(now, id, CleanUp(true));
    SessionsStaySound(run);
    CleanUpEndsTrackedCall(After(run), id, now);
    assert (run + [e])[..|run|] == run;
  }

  // ---------------------------------------------------------------------
  // Heartbeats
  // ---------------------------------------------------------------------

  /** Text frames and socket pings count as signs of life. */
  predicate Speaks(input: Input) {
    !input.SocketClosed? && !input.OtherFrame? && !input.Pushed? && !input.Tick?
  }

  /** The event is a sign of life for session `id`: it connects, or its client is heard. */
  predicate SignOfLife(w: World, e: Event, id: SessionId) {
    e.id == id &&
    (e.Connect? || (e.move.Hear? && Speaks(e.move.input) && id in w.sessions && w.sessions[id].phase.Waiting?))
  }

  /** When session `id` gave signs of life, in order. */
  function SignsOfLife(run: seq<Event>, id: SessionId): seq<Time> {
    if run == [] then []
    else
      var init, last := run[..|run| - 1], run[|run| - 1];
      SignsOfLife(init, id) + if SignOfLife(After(init), last, id) then [last.at] else []
  }

  ghost predicate ClockMonotone(run: seq<Event>) {
    forall i, j | 0 <= i < j < |run| :: run[i].at <= run[j].at
  }

  lemma {:induction false} HeardStep(w: World, e: Event, id: SessionId)
    requires FreshIds(w, e) && id in Step(w, e).sessions
    ensures if SignOfLife(w, e, id) then Step(w, e).sessions[id].lastHeard == e.at
            else id in w.sessions && Step(w, e).sessions[id].lastHeard == w.sessions[id].lastHeard
  {}

  /** The heartbeat field is the time of the latest sign of life. */
  lemma {:induction false} HeartbeatIsLatest(run: seq<Event>, id: SessionId)
    requires Legal(run) && id in After(run).sessions
    ensures var times := SignsOfLife(run, id);
            times != [] && times[|times| - 1] == After(run).sessions[id].lastHeard
  {
    var init, last := run[..|run| - 1], run[|run| - 1];
    LegalLast(run);
    HeardStep(After(init), last, id);
    if !SignOfLife(After(init), last, id) { HeartbeatIsLatest(init, id); }
  }

  lemma {:induction false} SignsBounded(run: seq<Event>, id: SessionId, bound: Time)
    requires forall e | e in run :: e.at <= bound
    ensures forall i | 0 <= i < |SignsOfLife(run, id)| :: SignsOfLife(run, id)[i] <= bound
  {
    if run != [] { SignsBounded(run[..|run| - 1], id, bound); }
  }

  predicate LastIsGreatest(times: seq<Time>) {
    forall i | 0 <= i < |times| :: times[i] <= times[|times| - 1]
  }

  lemma {:induction false} LatestIsGreatest(run: seq<Event>, id: SessionId)
    requires ClockMonotone(run)
    ensures LastIsGreatest(SignsOfLife(run, id))
  {
    if run != [] {
      var init, last := run[..|run| - 1], run[|run| - 1];
      var before, after := SignsOfLife(init, id), SignsOfLife(run, id);
      LatestIsGreatest(init, id);
      SignsBounded(init, id, last.at);
      assert after == before || after == before + [last.at];
    }
  }

  /** A tick drops the connection exactly when the client has been silent for more than a minute. */
  lemma {:induction false} TickDropsIffSilent(run: seq<Event>, id: SessionId, now: Time)
    requires Legal(run) && ClockMonotone(run) && id in After(run).sessions && After(run).sessions[id].phase.Waiting?
    ensures Step(After(run), Act(now, id, Hear(Tick))).sessions[id].phase.Closing?
       <==> forall t | t in SignsOfLife(run, id) :: t < now - 60 * SECOND
  {
    HeartbeatIsLatest(run, id);
    LatestIsGreatest(run, id);
    TickStep(After(run), id, now);
    GreatestBelow(SignsOfLife(run, id), now - 60 * SECOND);
  }

  lemma {:induction false} GreatestBelow(times: seq<Time>, bound: Time)
    requires times != [] && LastIsGreatest(times)
    ensures times[|times| - 1] < bound <==> forall t | t in times :: t < bound
  {
    assert times[|times| - 1] in times;
  }

  lemma {:induction false} TickStep(w: World, id: SessionId, now: Time)
    requires id in w.sessions && w.sessions[id].phase.Waiting?
    ensures Step(w, Act(now, id, Hear(Tick))).sessions[id].phase.Closing? <==> w.sessions[id].lastHeard < now - 60 * SECOND
  {}

  // ---------------------------------------------------------------------
  // Which call a session tracks, told from its history
  // ---------------------------------------------------------------------

  /** The input that session `id` takes up at an event, if any. */
  function InputAt(w: World, e: Event, id: SessionId): seq<Input> {
    if e.Act? && e.id == id && e.move.Hear? && id in w.sessions && w.sessions[id].phase.Waiting? then [e.move.input] else []
  }

  /** The inputs that session `id` took up, in order. */
  function Inputs(run: seq<Event>, id: SessionId): seq<Input> {
    if run == [] then [] else Inputs(run[..|run| - 1], id) + InputAt(After(run[..|run| - 1]), run[|run| - 1], id)
  }

  /** What a session has done about calls: offered one and told its client, answered one, or rejected or left one. */
  datatype Deed = Began(call: CallId, peer: UserId) | Took(call: CallId, peer: UserId) | Quit(call: CallId)

  /** The deed that a step completes, given the last input taken up. */
  function DeedOf(phase: Phase, m: Move, input: Input): Option<Deed> {
    if phase.Acknowledging? && m == Acknowledge(true) && input.Offer? && input.created.Some? then
      Some(Began(input.created.value, input.callee))
    else if phase.Verified? && m.Write? && input.Signal? then
      Some(if input.verb == Answer then Took(input.call, input.peer) else Quit(input.call))
    else None
  }

  function DeedAt(w: World, e: Event, id: SessionId, inputs: seq<Input>): seq<Deed> {
    if e.Act? && e.id == id && id in w.sessions && inputs != [] then
      var deed := DeedOf(w.sessions[id].phase, e.move, inputs[|inputs| - 1]);
      if deed.Some? then [deed.value] else []
    else []
  }

  function Deeds(run: seq<Event>, id: SessionId): seq<Deed> {
    if run == [] then []
    else Deeds(run[..|run| - 1], id) + DeedAt(After(run[..|run| - 1]), run[|run| - 1], id, Inputs(run[..|run| - 1], id))
  }

  /** The call offered or answered last, unless any call at all was rejected or left since. */
  function Current(deeds: seq<Deed>): Option<Tracked> {
    if deeds == [] || deeds[|deeds| - 1].Quit? then None
    else Some(Tracked(deeds[|deeds| - 1].call, deeds[|deeds| - 1].peer))
  }

  /** A session in the middle of an exchange is there because of the last input it took up. */
  predicate PhaseFits(phase: Phase, inputs: seq<Input>) {
    && (phase.Acknowledging? ==>
          inputs != [] && var i := inputs[|inputs| - 1]; i.Offer? && i.created == Some(phase.call) && i.callee == phase.callee)
    && (phase.Verified? ==>
          inputs != [] && var i := inputs[|inputs| - 1]; i.Signal? && i.verb == phase.verb && i.call == phase.call && i.peer == phase.peer)
  }

  predicate TrackedFits(s: Session, deeds: seq<Deed>) {
    s.tracked == if s.phase.Closed? then None else Current(deeds)
  }

  lemma {:induction false} MoveFitsPhase(l: Local, id: SessionId, now: Time, m: Move, inputs: seq<Input>)
    requires PhaseFits(l.session.phase, inputs)
    ensures PhaseFits(Advance(l, id, now, m).session.phase,
                      inputs + if m.Hear? && l.session.phase.Waiting? then [m.input] else [])
  {}

  lemma {:induction false} MoveFitsTracked(l: Local, id: SessionId, now: Time, m: Move, inputs: seq<Input>, deeds: seq<Deed>)
    requires PhaseFits(l.session.phase, inputs) && TrackedFits(l.session, deeds)
    ensures var deed := if inputs != [] then DeedOf(l.session.phase, m, inputs[|inputs| - 1]) else None;
            TrackedFits(Advance(l, id, now, m).session, deeds + if deed.Some? then [deed.value] else [])
  {}

  lemma {:induction false} StepFits(w: World, e: Event, id: SessionId, inputs: seq<Input>, deeds: seq<Deed>)
    requires id in w.sessions && FreshIds(w, e)
    requires PhaseFits(w.sessions[id].phase, inputs) && TrackedFits(w.sessions[id], deeds)
    ensures id in Step(w, e).sessions
    ensures PhaseFits(Step(w, e).sessions[id].phase, inputs + InputAt(w, e, id))
    ensures TrackedFits(Step(w, e).sessions[id], deeds + DeedAt(w, e, id, inputs))
  {
    if e.Act? && e.id == id {
      MoveFitsPhase(View(w, id), id, e.at, e.move, inputs);
      MoveFitsTracked(View(w, id), id, e.at, e.move, inputs, deeds);
    } else {
      assert inputs + [] == inputs && deeds + [] == deeds;
    }
  }

  /** A session that has not connected yet has no history. */
  lemma {:induction false} NoHistory(run: seq<Event>, id: SessionId)
    requires id !in After(run).sessions
    ensures Inputs(run, id) == [] && Deeds(run, id) == []
  {
    if run != [] {
      SessionsPersist(After(run[..|run| - 1]), run[|run| - 1]);
      NoHistory(run[..|run| - 1], id);
    }
  }

  lemma {:induction false} SessionsPersist(w: World, e: Event)
    ensures w.sessions.Keys <= Step(w, e).sessions.Keys
  {}

  lemma {:induction false} NewSession(w: World, e: Event, id: SessionId)
    requires id !in w.sessions && id in Step(w, e).sessions
    ensures Step(w, e).sessions[id].phase.Waiting? && Step(w, e).sessions[id].tracked.None?
    ensures InputAt(w, e, id) == [] && DeedAt(w, e, id, []) == []
  {}

  /**
   * In every run an open session tracks the call it offered or answered last, unless it rejected or
   * left any call since; a closed one tracks nothing.
   */
  lemma {:induction false} TrackedIsCurrent(run: seq<Event>, id: SessionId)
    requires Legal(run) && id in After(run).sessions
    ensures PhaseFits(After(run).sessions[id].phase, Inputs(run, id))
    ensures TrackedFits(After(run).sessions[id], Deeds(run, id))
  {
    var init, e := run[..|run| - 1], run[|run| - 1];
    LegalLast(run);
    if id in After(init).sessions {
      TrackedIsCurrent(init, id);
      StepFits(After(init), e, id, Inputs(init, id), Deeds(init, id));
    } else {
      NoHistory(init, id);
      NewSession(After(init), e, id);
    }
  }

  /**
   * When a session closes and its write succeeds, a call is ended afterwards exactly when it was
   * ended before or is the session's current call; every other call is left as it was.
   */
  lemma {:induction false} ClosingEndsExactlyCurrent(run: seq<Event>, id: SessionId, c: CallId, now: Time)
    requires Legal(run) && id in After(run).sessions && After(run).sessions[id].phase.Closing? && c in After(run).calls
    ensures var w, t := After(run), After(run + [Act(now, id, CleanUp(true))]);
            var current := Current(Deeds(run, id)).Some? && Current(Deeds(run, id)).value.call == c;
            && c in t.calls && t.sessions[id].phase.Closed?
            && (t.calls[c].status == Ended <==> w.calls[c].status == Ended || current)
            && (!current ==> t.calls[c] == w.calls[c])
  {
    AfterSnoc(run, Act(now, id, CleanUp(true)));
    TrackedIsCurrent(run, id);
    CleanUpEffect(After(run), id, c, now);
  }

  lemma {:induction false} CleanUpEffect(w: World, id: SessionId, c: CallId, now: Time)
    requires id in w.sessions && w.sessions[id].phase.Closing? && c in w.calls
    ensures var t := Step(w, Act(now, id, CleanUp(true)));
            var tracked := w.sessions[id].tracked.Some? && w.sessions[id].tracked.value.call == c;
            && c in t.calls && id in t.sessions && t.sessions[id].phase.Closed?
            && t.calls[c] == if tracked then w.calls[c].(status := Ended, endedAt := Some(now)) else w.calls[c]
  {}

  lemma {:induction false} AfterSnoc(run: seq<Event>, e: Event)
    ensures After(run + [e]) == Step(After(run), e)
    ensures Legal(run) && FreshIds(After(run), e) ==> Legal(run + [e])
  {
    var all := run + [e];
    assert all[..|run|] == run;
    assert forall i | 0 <= i < |run| :: all[..i] == run[..i] && all[i] == run[i];
  }

  // ---------------------------------------------------------------------
  // What a step writes
  // ---------------------------------------------------------------------

  /** Answering, rejecting and hanging up each leave their own status and time on that one call. */
  lemma {:induction false} SignalWrites(w: World, id: SessionId, verb: Verb, c: CallId, peer: UserId, at: Time)
    requires id in w.sessions && w.sessions[id].phase.Waiting? && IsParticipant(w.calls, c, w.sessions[id].user)
    ensures var t := Step(Step(w, Act(at, id, Hear(Signal(verb, c, peer, true)))), Act(at, id, Write(true)));
            && t.calls == w.calls[c := match verb
                                       case Answer => w.calls[c].(status := Answered, answeredAt := Some(at))
                                       case Reject => w.calls[c].(status := Rejected, endedAt := Some(at))
                                       case Hangup => w.calls[c].(status := Ended, endedAt := Some(at))]
            && t.sessions == w.sessions[id := Session(w.sessions[id].user, if verb == Answer then Some(Tracked(c, peer)) else None, at, Waiting)]
  {
    var s, e := w.sessions[id], Act(at, id, Hear(Signal(verb, c, peer, true)));
    var verified := Session(s.user, s.tracked, at, Verified(verb, c, peer));
    assert Step(w, e) == w.(sessions := w.sessions[id := verified]);
    var settled := Session(s.user, if verb == Answer then Some(Tracked(c, peer)) else None, at, Waiting);
    assert w.sessions[id := verified][id := settled] == w.sessions[id := settled];
  }

  /** A signal about a call of others, or one whose row cannot be read, changes no call and nothing that is tracked. */
  lemma {:induction false} StrangerIgnored(w: World, id: SessionId, verb: Verb, c: CallId, peer: UserId, readable: bool, at: Time)
    requires id in w.sessions && w.sessions[id].phase.Waiting? && (!readable || !IsParticipant(w.calls, c, w.sessions[id].user))
    ensures Step(w, Act(at, id, Hear(Signal(verb, c, peer, readable)))) ==
            w.(sessions := w.sessions[id := w.sessions[id].(lastHeard := at)])
  {}

  /** An offer whose insert succeeds adds one initiated call from the user to the callee, and nothing is tracked yet. */
  lemma {:induction false} OfferAdds(w: World, id: SessionId, callee: UserId, callType: string, created: Option<CallId>, at: Time)
    requires id in w.sessions && w.sessions[id].phase.Waiting?
    ensures var t := Step(w, Act(at, id, Hear(Offer(callee, callType, created))));
            && t.calls == (if created.None? then w.calls
                           else w.calls[created.value := Call(w.sessions[id].user, callee, callType, Initiated, None, None)])
            && t.log == w.log && t.sessions[id].tracked == w.sessions[id].tracked
  {}

  /** The loop is left exactly on a lost socket, a reply or push that cannot be sent, and a tick after silence. */
  lemma {:induction false} LoopLeftIff(w: World, id: SessionId, m: Move, at: Time)
    requires id in w.sessions && (w.sessions[id].phase.Waiting? || w.sessions[id].phase.Acknowledging?)
    ensures var waiting := w.sessions[id].phase.Waiting?;
            Step(w, Act(at, id, m)).sessions[id].phase.Closing? <==>
              || (!waiting && m == Acknowledge(false))
              || (waiting && m.Hear? &&
                  (|| m.input.SocketClosed? || m.input == Ping(false) || m.input == SocketPing(false) || m.input == Pushed(false)
                   || (m.input.Tick? && at - w.sessions[id].lastHeard > 60 * SECOND)))
  {}

  /** The status a signal stands for. */
  predicate Stands(verb: Verb, status: Status) {
    (verb == Answer && status == Answered) || (verb == Reject && status == Rejected) || (verb == Hangup && status == Ended)
  }

  /**
   * In every run, each entry of the record is made by a write or a cleanup: a write sets the status that
   * the last input taken up stands for, on the call that input names; a cleanup ends the current call.
   */
  lemma {:induction false} EntryFollowsInput(run: seq<Event>, e: Event)
    requires Legal(run) && FreshIds(After(run), e)
    ensures var log, log' := After(run).log, After(run + [e]).log;
            || log' == log
            || (&& e.Act? && e.id in After(run).sessions && log' == log + [log'[|log|]] && log'[|log|].session == e.id
                && log'[|log|].user == After(run).sessions[e.id].user && log'[|log|].at == e.at
                && var (entry, inputs) := (log'[|log|], Inputs(run, e.id));
                   || (e.move == Write(true) && inputs != [] && inputs[|inputs| - 1].Signal?
                       && inputs[|inputs| - 1].call == entry.call && Stands(inputs[|inputs| - 1].verb, entry.status))
                   || (e.move == CleanUp(true) && entry.status == Ended && Current(Deeds(run, e.id)).Some?
                       && Current(Deeds(run, e.id)).value.call == entry.call))
  {
    AfterSnoc(run, e);
    if e.Act? && e.id in After(run).sessions {
      TrackedIsCurrent(run, e.id);
      MoveLogs(View(After(run), e.id), e.id, e.at, e.move);
    }
  }

  lemma {:induction false} MoveLogs(l: Local, id: SessionId, now: Time, m: Move)
    ensures var log' := Advance(l, id, now, m).log;
            || log' == l.log
            || (m == Write(true) && l.session.phase.Verified? && exists status ::
                  Stands(l.session.phase.verb, status) && log' == l.log + [Entry(id, l.session.user, l.session.phase.call, status, now)])
            || (m == CleanUp(true) && l.session.phase.Closing? && l.session.tracked.Some?
                && log' == l.log + [Entry(id, l.session.user, l.session.tracked.value.call, Ended, now)])
  {
    if m == Write(true) && l.session.phase.Verified? {
      assert Stands(l.session.phase.verb, StatusOf(l.session.phase.verb));
    }
  }

  // ---------------------------------------------------------------------
  // Calls that nobody cleans up
  // ---------------------------------------------------------------------

  /** The session of `caller` is gone, and call 1, which `caller` offered in it, is still open. */
  predicate Stranded(w: World, caller: UserId) {
    && 0 in w.sessions && w.sessions[0].phase.Closed? && w.sessions[0].user == caller
    && 1 in w.calls && w.calls[1].caller == caller && w.calls[1].status == Initiated
  }

  const AUDIO: string := "audio"

  function Fresh(caller: UserId, callee: UserId): Call { Call(caller, callee, AUDIO, Initiated, None, None) }

  /** An offer that the client is told about. */
  function OfferMade(at: Time, id: SessionId, callee: UserId, c: CallId): seq<Event> {
    [Act(at, id, Hear(Offer(callee, AUDIO, Some(c)))), Act(at, id, Acknowledge(true))]
  }

  /** The socket is lost and the cleanup's write succeeds. */
  function Lost(at: Time, id: SessionId): seq<Event> { [Act(at, id, Hear(SocketClosed)), Act(at, id, CleanUp(true))] }

  lemma {:induction false} AfterTwo(run: seq<Event>, e: Event, f: Event)
    ensures After(run + [e, f]) == Step(Step(After(run), e), f)
    ensures Legal(run) && FreshIds(After(run), e) && FreshIds(Step(After(run), e), f) ==> Legal(run + [e, f])
  {
    AfterSnoc(run, e);
    AfterSnoc(run + [e], f);
    assert run + [e, f] == run + [e] + [f];
  }

  lemma {:induction false} OfferMadeWorld(w: World, at: Time, id: SessionId, callee: UserId, c: CallId)
    requires id in w.sessions && w.sessions[id].phase.Waiting?
    ensures var user := w.sessions[id].user;
            Step(Step(w, OfferMade(at, id, callee, c)[0]), OfferMade(at, id, callee, c)[1]) ==
            World(w.calls[c := Fresh(user, callee)], w.log, w.sessions[id := Session(user, Some(Tracked(c, callee)), at, Waiting)])
  {
    var s := w.sessions[id];
    var told := Session(s.user, Some(Tracked(c, callee)), at, Waiting);
    var waiting := w.sessions[id := Session(s.user, s.tracked, at, Acknowledging(c, callee))];
    assert Step(w, OfferMade(at, id, callee, c)[0]) == World(w.calls[c := Fresh(s.user, callee)], w.log, waiting);
    assert waiting[id := told] == w.sessions[id := told];
  }

  lemma {:induction false} OfferMadeSteps(run: seq<Event>, at: Time, id: SessionId, callee: UserId, c: CallId)
    requires Legal(run) && id in After(run).sessions && After(run).sessions[id].phase.Waiting? && c !in After(run).calls
    ensures var w := After(run);
            var user := w.sessions[id].user;
            && Legal(run + OfferMade(at, id, callee, c))
            && After(run + OfferMade(at, id, callee, c)) ==
               World(w.calls[c := Fresh(user, callee)], w.log, w.sessions[id := Session(user, Some(Tracked(c, callee)), at, Waiting)])
  {
    AfterTwo(run, OfferMade(at, id, callee, c)[0], OfferMade(at, id, callee, c)[1]);
    OfferMadeWorld(After(run), at, id, callee, c);
  }

  lemma {:induction false} LostWorld(w: World, at: Time, id: SessionId)
    requires id in w.sessions && w.sessions[id].phase.Waiting?
    ensures var t := Step(Step(w, Lost(at, id)[0]), Lost(at, id)[1]);
            && id in t.sessions && t.sessions[id].phase.Closed? && t.sessions[id].user == w.sessions[id].user
            && forall c | c in w.calls && (w.sessions[id].tracked.Some? ==> w.sessions[id].tracked.value.call != c) ::
                 c in t.calls && t.calls[c] == w.calls[c]
  {}

  lemma {:induction false} LostSteps(run: seq<Event>, at: Time, id: SessionId)
    requires Legal(run) && id in After(run).sessions && After(run).sessions[id].phase.Waiting?
    ensures var w, t := After(run), After(run + Lost(at, id));
            && Legal(run + Lost(at, id)) && id in t.sessions && t.sessions[id].phase.Closed? && t.sessions[id].user == w.sessions[id].user
            && forall c | c in w.calls && (w.sessions[id].tracked.Some? ==> w.sessions[id].tracked.value.call != c) ::
                 c in t.calls && t.calls[c] == w.calls[c]
  {
    AfterTwo(run, Lost(at, id)[0], Lost(at, id)[1]);
    LostWorld(After(run), at, id);
  }

  lemma {:induction false} Connected(run: seq<Event>, at: Time, id: SessionId, user: UserId)
    requires Legal(run) && id !in After(run).sessions
    ensures var w := After(run);
            && Legal(run + [Connect(at, id, user)])
            && After(run + [Connect(at, id, user)]) == w.(sessions := w.sessions[id := Session(user, None, at, Waiting)])
  {
    AfterSnoc(run, Connect(at, id, user));
  }

  /** First stranding history: the user offers call 1, then offers call 2. */
  function TwoOffers(caller: UserId, callee: UserId): seq<Event> {
    [Connect(0, 0, caller)] + OfferMade(1, 0, callee, 1) + OfferMade(2, 0, callee, 2) + Lost(3, 0)
  }

  lemma {:induction false} LaterOfferStrandsEarlier(caller: UserId, callee: UserId)
    ensures Legal(TwoOffers(caller, callee)) && Stranded(After(TwoOffers(caller, callee)), caller)
  {
    var connected := [Connect(0, 0, caller)];
    Connected([], 0, 0, caller);
    assert [] + connected == connected;
    OfferMadeSteps(connected, 1, 0, callee, 1);
    var first := connected + OfferMade(1, 0, callee, 1);
    OfferMadeSteps(first, 2, 0, callee, 2);
    LostSteps(first + OfferMade(2, 0, callee, 2), 3, 0);
  }

  /** Second: the user offers call 1, another user offers them call 2, and they reject that one. */
  function RejectsOther(caller: UserId, callee: UserId, other: UserId): seq<Event> {
    [Connect(0, 0, caller)] + OfferMade(1, 0, callee, 1) + [Connect(2, 1, other)] + OfferMade(3, 1, caller, 2)
    + Rejection(4, 0, other) + Lost(5, 0)
  }

  function Rejection(at: Time, id: SessionId, peer: UserId): seq<Event> {
    [Act(at, id, Hear(Signal(Reject, 2, peer, true))), Act(at, id, Write(true))]
  }

  lemma {:induction false} RejectionWorld(w: World, at: Time, peer: UserId)
    requires 0 in w.sessions && w.sessions[0].phase.Waiting? && 1 in w.calls && IsParticipant(w.calls, 2, w.sessions[0].user)
    ensures var t := Step(Step(w, Rejection(at, 0, peer)[0]), Rejection(at, 0, peer)[1]);
            && 1 in t.calls && t.calls[1] == w.calls[1]
            && 0 in t.sessions && t.sessions[0] == Session(w.sessions[0].user, None, at, Waiting)
  {}

  lemma {:induction false} RejectingOtherStrandsOwn(caller: UserId, callee: UserId, other: UserId)
    ensures Legal(RejectsOther(caller, callee, other)) && Stranded(After(RejectsOther(caller, callee, other)), caller)
  {
    var connected := [Connect(0, 0, caller)];
    Connected([], 0, 0, caller);
    assert [] + connected == connected;
    OfferMadeSteps(connected, 1, 0, callee, 1);
    var first := connected + OfferMade(1, 0, callee, 1);
    Connected(first, 2, 1, other);
    var both := first + [Connect(2, 1, other)];
    OfferMadeSteps(both, 3, 1, caller, 2);
    var second := both + OfferMade(3, 1, caller, 2);
    AfterTwo(second, Rejection(4, 0, other)[0], Rejection(4, 0, other)[1]);
    RejectionWorld(After(second), 4, other);
    LostSteps(second + Rejection(4, 0, other), 5, 0);
  }

  /** Third: the client cannot be told about call 1, which ends the loop before the call is tracked. */
  function UntoldOffer(caller: UserId, callee: UserId): seq<Event> {
    [Connect(0, 0, caller)] + [Act(1, 0, Hear(Offer(callee, AUDIO, Some(1))))] + [Act(1, 0, Acknowledge(false))]
    + [Act(2, 0, CleanUp(true))]
  }

  lemma {:induction false} FailedAcknowledgementStrands(caller: UserId, callee: UserId)
    ensures Legal(UntoldOffer(caller, callee)) && Stranded(After(UntoldOffer(caller, callee)), caller)
  {
    var e, f, g := Act(1, 0, Hear(Offer(callee, AUDIO, Some(1)))), Act(1, 0, Acknowledge(false)), Act(2, 0, CleanUp(true));
    var connected := [Connect(0, 0, caller)];
    Connected([], 0, 0, caller);
    assert [] + connected == connected;
    AfterSnoc(connected, e);
    var offered := Step(After(connected), e);
    assert offered.calls == map[1 := Fresh(caller, callee)];
    assert offered.sessions == map[0 := Session(caller, None, 1, Acknowledging(1, callee))];
    AfterSnoc(connected + [e], f);
    AfterSnoc(connected + [e] + [f], g);
  }

  // ---------------------------------------------------------------------
  // The session driver
  // ---------------------------------------------------------------------

  /** One turn of the loop: an input, and whether a reply or a write it leads to goes through. */
  datatype Turn = Turn(at: Time, input: Input, sent: bool, ok: bool)

  function TurnStep(l: Local, id: SessionId, t: Turn): Local {
    Advance(Advance(Advance(l, id, t.at, Hear(t.input)), id, t.at, Acknowledge(t.sent)), id, t.at, Write(t.ok))
  }

  function Played(l: Local, id: SessionId, turns: seq<Turn>): Local {
    if turns == [] then l else TurnStep(Played(l, id, turns[..|turns| - 1]), id, turns[|turns| - 1])
  }

  /** After the loop is left, further input is not looked at. */
  lemma {:induction false} ClosingIgnoresTurns(l: Local, id: SessionId, turns: seq<Turn>, k: nat)
    requires k <= |turns| && Played(l, id, turns[..k]).session.phase.Closing?
    ensures Played(l, id, turns) == Played(l, id, turns[..k])
  {
    if k == |turns| {
      assert turns[..k] == turns;
    } else {
      var init := turns[..|turns| - 1];
      assert init[..k] == turns[..k];
      ClosingIgnoresTurns(l, id, init, k);
    }
  }

  /** A turn of one session is three of its steps in the shared world. */
  lemma {:induction false} TurnIsThreeSteps(w: World, id: SessionId, t: Turn)
    requires id in w.sessions
    ensures var l := TurnStep(View(w, id), id, t);
            Step(Step(Step(w, Act(t.at, id, Hear(t.input))), Act(t.at, id, Acknowledge(t.sent))), Act(t.at, id, Write(t.ok)))
            == World(l.calls, l.log, w.sessions[id := l.session])
  {}

  function Finished(l: Local, id: SessionId, ok: bool, now: Time): Local { Advance(l, id, now, CleanUp(ok)) }

  class SignallingServer {
    var calls: Calls
    ghost var log: seq<Entry>

    constructor ()
      ensures calls == map[] && log == []
    {
      calls, log := map[], [];
    }

    /** `call_service::create`: the new call's id, or nothing when the insert fails. */
    method Create(caller: UserId, callee: UserId, callType: string, created: Option<CallId>)
      modifies this`calls
      ensures calls == if created.None? then old(calls)
                       else old(calls)[created.value := Call(caller, callee, callType, Initiated, None, None)]
    {
      if created.Some? {
        calls := calls[created.value := Call(caller, callee, callType, Initiated, None, None)];
      }
    }

    /** `call_service::update_status`: neither a missing row nor a status it does not set is an error. */
    method UpdateStatus(id: SessionId, user: UserId, c: CallId, status: Status, ok: bool, now: Time)
      modifies this
      ensures calls == if ok then Updated(old(calls), c, status, now) else old(calls)
      ensures log == if ok && status != Initiated then old(log) + [Entry(id, user, c, status, now)] else old(log)
    {
      if ok && status != Initiated {
        if c in calls {
          if status == Answered {
            calls := calls[c := calls[c].(status := Answered, answeredAt := Some(now))];
          } else {
            calls := calls[c := calls[c].(status := status, endedAt := Some(now))];
          }
        }
        log := log + [Entry(id, user, c, status, now)];
      }
    }

    /** `call_service::is_call_participant`: no such call and not a participant look the same. */
    method IsCallParticipant(c: CallId, user: UserId, readable: bool) returns (r: Option<bool>)
      ensures r == if readable then Some(IsParticipant(calls, c, user)) else None
    {
      if !readable { return None; }
      r := Some(c in calls && (calls[c].caller == user || calls[c].callee == user));
    }

    /** The three arms of the loop; `go` is false when the loop is to be left. */
    method HandleTurn(id: SessionId, user: UserId, tracked: Option<Tracked>, lastHeard: Time, t: Turn)
      returns (tracked': Option<Tracked>, lastHeard': Time, go: bool)
      modifies this
      ensures Local(calls, log, Session(user, tracked', lastHeard', if go then Waiting else Closing)) ==
              TurnStep(Local(old(calls), old(log), Session(user, tracked, lastHeard, Waiting)), id, t)
    {
      tracked', lastHeard', go := tracked, lastHeard, true;
      match t.input
      case UnreadableText => lastHeard' := t.at;
      case Ping(sent) => lastHeard', go := t.at, sent;
      case Typing => lastHeard' := t.at;
      case Offer(callee, callType, created) =>
        lastHeard' := t.at;
        Create(user, callee, callType, created);
        if created.Some? {
          if t.sent { tracked' := Some(Tracked(created.value, callee)); } else { go := false; }
        }
      case Signal(verb, c, peer, readable) =>
        lastHeard' := t.at;
        var verified := IsCallParticipant(c, user, readable);
        if verified == Some(true) {
          UpdateStatus(id, user, c, StatusOf(verb), t.ok, t.at);
          tracked' := if verb == Answer then Some(Tracked(c, peer)) else None;
        }
      case Candidate(c, readable) => lastHeard' := t.at;
      case SocketPing(sent) => lastHeard', go := t.at, sent;
      case SocketClosed => go := false;
      case OtherFrame =>
      case Pushed(sent) => go := sent;
      case Tick => go := t.at - lastHeard <= CLIENT_TIMEOUT;
    }

    /** The session's loop over what reaches it, and the cleanup once the loop is left. */
    method RunWsSession(id: SessionId, user: UserId, connected: Time, turns: seq<Turn>, cleanedUp: bool, closedAt: Time)
      returns (session: Session)
      modifies this
      ensures Local(calls, log, session) ==
              Finished(Played(Local(old(calls), old(log), Session(user, None, connected, Waiting)), id, turns), id, cleanedUp, closedAt)
    {
      ghost var start := Local(calls, log, Session(user, None, connected, Waiting));
      var activeCall: Option<Tracked> := None;
      var lastHeartbeat := connected;
      var go := true;
      var i := 0;
      assert turns[..0] == [];
      while i < |turns| && go
        invariant 0 <= i <= |turns|
        invariant Local(calls, log, Session(user, activeCall, lastHeartbeat, if go then Waiting else Closing)) == Played(start, id, turns[..i])
      {
        assert turns[..i + 1][..i] == turns[..i];
        activeCall, lastHeartbeat, go := HandleTurn(id, user, activeCall, lastHeartbeat, turns[i]);
        i := i + 1;
      }
      assert turns[..|turns|] == turns;
      if go {
        return Session(user, activeCall, lastHeartbeat, Waiting);
      }
      ClosingIgnoresTurns(start, id, turns, i);
      if activeCall.Some? {
        UpdateStatus(id, user, activeCall.value.call, Ended, cleanedUp, closedAt);
      }
      session := Session(user, None, lastHeartbeat, Closed);
    }
  }
}
