/** Rooms: who may enter, who owns them, and that nothing outlives them. */
module Rooms {
  import opened Core
  import opened Text

  type UserId = nat
  type RoomId = nat
  type MessageId = nat

  datatype Role = Owner | Member

  datatype Room = Room(name: string, creator: UserId)

  datatype Seat = Seat(room: RoomId, user: UserId)

  datatype RoomMessage = RoomMessage(room: RoomId, sender: UserId, content: string)

  /** The tables, and the identifiers ever issued to a room. */
  datatype State = State(
    users: set<UserId>,
    rooms: map<RoomId, Room>,
    members: map<Seat, Role>,
    messages: map<MessageId, RoomMessage>,
    issued: set<RoomId>)

  const EMPTY: State := State({}, map[], map[], map[], {})

  datatype Refusal = NotFound | Forbidden | BadRequest

  datatype Operation =
    | RegisterUser(user: UserId)
    | CreateRoom(id: RoomId, creator: UserId, name: string, nameAllowed: bool, invited: seq<UserId>)
    | RenameRoom(room: RoomId, actor: UserId, name: string, nameAllowed: bool)
    | AddMembers(room: RoomId, actor: UserId, invited: seq<UserId>)
    | RemoveMember(room: RoomId, actor: UserId, target: UserId)
    | SendMessage(room: RoomId, sender: UserId, id: MessageId, body: string, bodyAllowed: bool)
    | LeaveRoom(room: RoomId, user: UserId)
    | DeleteRoom(room: RoomId, user: UserId)

  /** `normalize_room_name`; `allowed` is the verdict of the text filter. */
  function NormalizeName(raw: string, allowed: bool): Option<string> {
    var name := Trim(raw);
    if name == [] || |name| > 80 || !allowed then None else Some(name)
  }

  function MembersOf(s: State, room: RoomId): set<UserId> {
    set seat | seat in s.members && seat.room == room :: seat.user
  }

  predicate IsMember(s: State, room: RoomId, user: UserId) { Seat(room, user) in s.members }

  /** `ensure_room_member_conn`: why `user` may not act in the room, if so. */
  function Barrier(s: State, room: RoomId, user: UserId): Option<Refusal> {
    if room !in s.rooms then Some(NotFound)
    else if !IsMember(s, room, user) then Some(Forbidden)
    else None
  }

  /** The same for operations reserved to the creator. */
  function OwnerBarrier(s: State, room: RoomId, user: UserId): Option<Refusal> {
    if Barrier(s, room, user).Some? then Barrier(s, room, user)
    else if s.rooms[room].creator != user then Some(Forbidden)
    else None
  }

  function Seats(room: RoomId, users: set<UserId>, creator: UserId): map<Seat, Role> {
    map u | u in users :: Seat(room, u) := if u == creator then Owner else Member
  }

  function WithoutSeats(members: map<Seat, Role>, room: RoomId): map<Seat, Role> {
    map seat | seat in members && seat.room != room :: members[seat]
  }

  function WithoutMessages(messages: map<MessageId, RoomMessage>, room: RoomId): map<MessageId, RoomMessage> {
    map m | m in messages && messages[m].room != room :: messages[m]
  }

  function CreateStep(s: State, o: Operation): (State, Result<(), Refusal>)
    requires o.CreateRoom?
  {
    var name := NormalizeName(o.name, o.nameAllowed);
    var everyone := (set u | u in o.invited) + {o.creator};
    if name.None? || !(everyone <= s.users) then (s, Err(BadRequest))
    else (s.(rooms := s.rooms[o.id := Room(name.value, o.creator)],
             members := s.members + Seats(o.id, everyone, o.creator),
             issued := s.issued + {o.id}), Ok(()))
  }

  function AddStep(s: State, room: RoomId, actor: UserId, invited: seq<UserId>): (State, Result<(), Refusal>) {
    if OwnerBarrier(s, room, actor).Some? then (s, Err(OwnerBarrier(s, room, actor).value))
    else
      var requested := (set u | u in invited) - {actor};
      if !(requested <= s.users) then (s, Err(BadRequest))
      else
        var newcomers := requested - MembersOf(s, room);
        (s.(members := s.members + Seats(room, newcomers, actor)), Ok(()))
  }

  function RemoveStep(s: State, room: RoomId, actor: UserId, target: UserId): (State, Result<(), Refusal>) {
    if OwnerBarrier(s, room, actor).Some? then (s, Err(OwnerBarrier(s, room, actor).value))
    else if target == s.rooms[room].creator then (s, Err(BadRequest))
    else if !IsMember(s, room, target) then (s, Err(NotFound))
    else (s.(members := s.members - {Seat(room, target)}), Ok(()))
  }

  function LeaveStep(s: State, room: RoomId, user: UserId): (State, Result<(), Refusal>) {
    if !IsMember(s, room, user) then (s, Err(if room in s.rooms then Forbidden else NotFound))
    else
      var members := s.members - {Seat(room, user)};
      if exists seat | seat in members :: seat.room == room then (s.(members := members), Ok(()))
      else (s.(members := members, messages := WithoutMessages(s.messages, room), rooms := s.rooms - {room}), Ok(()))
  }

  function DeleteStep(s: State, room: RoomId, user: UserId): (State, Result<(), Refusal>) {
    if room !in s.rooms then (s, Err(NotFound))
    else if s.rooms[room].creator != user then (s, Err(Forbidden))
    else (s.(members := WithoutSeats(s.members, room),
             messages := WithoutMessages(s.messages, room),
             rooms := s.rooms - {room}), Ok(()))
  }

  function SendStep(s: State, room: RoomId, sender: UserId, id: MessageId, body: string, allowed: bool)
    : (State, Result<(), Refusal>)
  {
    if Barrier(s, room, sender).Some? then (s, Err(Barrier(s, room, sender).value))
    else if Trim(body) == [] || !allowed then (s, Err(BadRequest))
    else (s.(messages := s.messages[id := RoomMessage(room, sender, Trim(body))]), Ok(()))
  }

  function RenameStep(s: State, room: RoomId, actor: UserId, raw: string, allowed: bool): (State, Result<(), Refusal>) {
    if OwnerBarrier(s, room, actor).Some? then (s, Err(OwnerBarrier(s, room, actor).value))
    else if NormalizeName(raw, allowed).None? then (s, Err(BadRequest))
    else (s.(rooms := s.rooms[room := s.rooms[room].(name := NormalizeName(raw, allowed).value)]), Ok(()))
  }

  function Step(s: State, o: Operation): (State, Result<(), Refusal>) {
    match o
    case RegisterUser(u) => (s.(users := s.users + {u}), Ok(()))
    case CreateRoom(_, _, _, _, _) => CreateStep(s, o)
    case RenameRoom(room, actor, name, allowed) => RenameStep(s, room, actor, name, allowed)
    case AddMembers(room, actor, invited) => AddStep(s, room, actor, invited)
    case RemoveMember(room, actor, target) => RemoveStep(s, room, actor, target)
    case SendMessage(room, sender, id, body, allowed) => SendStep(s, room, sender, id, body, allowed)
    case LeaveRoom(room, user) => LeaveStep(s, room, user)
    case DeleteRoom(room, user) => DeleteStep(s, room, user)
  }

  function After(run: seq<Operation>): State {
    if run == [] then EMPTY else Step(After(run[..|run| - 1]), run[|run| - 1]).0
  }

  /** Room and message identifiers are random and never issued twice. */
  predicate FreshIds(s: State, o: Operation) {
    && (o.CreateRoom? ==> o.id !in s.issued)
    && (o.SendMessage? ==> o.id !in s.messages)
  }

  ghost predicate Legal(run: seq<Operation>) {
    forall i | 0 <= i < |run| :: FreshIds(After(run[..i]), run[i])
  }

  lemma {:induction false} LegalLast(run: seq<Operation>)
    requires Legal(run) && run != []
    ensures Legal(run[..|run| - 1]) && FreshIds(After(run[..|run| - 1]), run[|run| - 1])
  {
    var init := run[..|run| - 1];
    assert forall i | 0 <= i < |init| :: init[..i] == run[..i];
  }

  // ---------------------------------------------------------------------
  // The invariant
  // ---------------------------------------------------------------------

  ghost predicate Occupied(s: State) { forall r | r in s.rooms :: exists seat :: seat in s.members && seat.room == r }

  ghost predicate NoOrphans(s: State) {
    && (forall seat | seat in s.members :: seat.room in s.rooms && seat.user in s.users)
    && (forall m | m in s.messages :: s.messages[m].room in s.rooms)
    && s.rooms.Keys <= s.issued
  }

  ghost predicate CreatorOwns(s: State) {
    forall seat | seat in s.members ::
      seat.room in s.rooms && (s.members[seat] == Owner <==> s.rooms[seat.room].creator == seat.user)
  }

  ghost predicate Sound(s: State) { Occupied(s) && NoOrphans(s) && CreatorOwns(s) }

  lemma {:induction false} CreateKeepsSound(s: State, o: Operation)
    requires Sound(s) && o.CreateRoom? && FreshIds(s, o)
    ensures Sound(Step(s, o).0)
  {}

  lemma {:induction false} AddKeepsSound(s: State, o: Operation)
    requires Sound(s) && o.AddMembers?
    ensures Sound(Step(s, o).0)
  {}

  lemma {:induction false} RemoveKeepsSound(s: State, o: Operation)
    requires Sound(s) && o.RemoveMember?
    ensures Sound(Step(s, o).0)
  {}

  lemma {:induction false} LeaveKeepsSound(s: State, o: Operation)
    requires Sound(s) && o.LeaveRoom?
    ensures Sound(Step(s, o).0)
  {}

  lemma {:induction false} DeleteKeepsSound(s: State, o: Operation)
    requires Sound(s) && o.DeleteRoom?
    ensures Sound(Step(s, o).0)
  {}

  lemma {:induction false} StepKeepsSound(s: State, o: Operation)
    requires Sound(s) && FreshIds(s, o)
    ensures Sound(Step(s, o).0)
  {
    match o
    case CreateRoom(_, _, _, _, _) => CreateKeepsSound(s, o);
    case AddMembers(_, _, _) => AddKeepsSound(s, o);
    case RemoveMember(_, _, _) => RemoveKeepsSound(s, o);
    case LeaveRoom(_, _) => LeaveKeepsSound(s, o);
    case DeleteRoom(_, _) => DeleteKeepsSound(s, o);
    case _ =>
  }

  /**
   * In every run each stored room has a member, no membership or message
   * outlives its room, and a member holds the owner role exactly when it is the creator.
   */
  lemma {:induction false} RoomsStaySound(run: seq<Operation>)
    requires Legal(run)
    ensures Occupied(After(run)) && NoOrphans(After(run)) && CreatorOwns(After(run))
  {
    if run != [] {
      LegalLast(run);
      RoomsStaySound(run[..|run| - 1]);
      StepKeepsSound(After(run[..|run| - 1]), run[|run| - 1]);
    }
  }

  // ---------------------------------------------------------------------
  // After the creator has left
  // ---------------------------------------------------------------------

  /** The room is gone for good, or its creator is, and only earlier members remain. */
  ghost predicate Fading(s: State, room: RoomId, creator: UserId, before: set<UserId>) {
    && room in s.issued
    && MembersOf(s, room) <= before && !IsMember(s, room, creator)
    && (room in s.rooms ==> s.rooms[room].creator == creator)
  }

  lemma {:induction false} StepKeepsFading(s: State, o: Operation, room: RoomId, creator: UserId, before: set<UserId>)
    requires Sound(s) && FreshIds(s, o) && Fading(s, room, creator, before)
    ensures Fading(Step(s, o).0, room, creator, before)
  {}

  lemma {:induction false} FadingLasts(run: seq<Operation>, k: nat, room: RoomId, creator: UserId, before: set<UserId>)
    requires Legal(run) && k <= |run| && Fading(After(run[..k]), room, creator, before)
    ensures Fading(After(run), room, creator, before)
  {
    if k == |run| {
      assert run[..k] == run;
    } else {
      var init := run[..|run| - 1];
      assert init[..k] == run[..k];
      LegalLast(run);
      FadingLasts(init, k, room, creator, before);
      RoomsStaySound(init);
      StepKeepsFading(After(init), run[|run| - 1], room, creator, before);
    }
  }

  /** Once the creator has left, they never return and membership only shrinks. */
  lemma {:induction false} CreatorNeverReturns(run: seq<Operation>, k: nat, room: RoomId)
    requires Legal(run) && k <= |run|
    requires room in After(run[..k]).rooms
    requires !IsMember(After(run[..k]), room, After(run[..k]).rooms[room].creator)
    ensures MembersOf(After(run), room) <= MembersOf(After(run[..k]), room)
    ensures !IsMember(After(run), room, After(run[..k]).rooms[room].creator)
  {
    var s := After(run[..k]);
    assert Legal(run[..k]) by {
      assert forall i | 0 <= i < k :: run[..k][..i] == run[..i];
    }
    RoomsStaySound(run[..k]);
    FadingLasts(run, k, room, s.rooms[room].creator, MembersOf(s, room));
  }

  // ---------------------------------------------------------------------
  // Who may change membership
  // ---------------------------------------------------------------------

  /** Only the creator, while a member, admits others to an existing room. */
  lemma {:induction false} OnlyCreatorAdmits(s: State, o: Operation, seat: Seat)
    requires Sound(s) && FreshIds(s, o) && seat.room in s.rooms
    requires seat !in s.members && seat in Step(s, o).0.members
    ensures o.AddMembers? && o.room == seat.room && o.actor == s.rooms[seat.room].creator && IsMember(s, o.room, o.actor)
    ensures seat.user in o.invited && seat.user in s.users
  {}

  /** A seat is given up by its holder, or taken by the creator, who cannot be removed but may delete the room. */
  lemma {:induction false} OnlyHolderOrCreatorVacates(s: State, o: Operation, seat: Seat)
    requires Sound(s) && FreshIds(s, o) && seat in s.members && seat !in Step(s, o).0.members
    ensures || o == LeaveRoom(seat.room, seat.user)
            || (o == RemoveMember(seat.room, s.rooms[seat.room].creator, seat.user) && seat.user != s.rooms[seat.room].creator)
            || o == DeleteRoom(seat.room, s.rooms[seat.room].creator)
  {}

  // ---------------------------------------------------------------------
  // What each operation answers
  // ---------------------------------------------------------------------

  /** A name is kept trimmed, if it has 1 to 80 characters and passes the text filter. */
  lemma {:induction false} NameIff(raw: string, allowed: bool)
    ensures NormalizeName(raw, allowed).Some? <==> allowed && 1 <= |Trim(raw)| <= 80
    ensures NormalizeName(raw, allowed).Some? ==> NormalizeName(raw, allowed).value == Trim(raw)
  {}

  /** A room is created exactly with a good name and existing users, and then its members are the invited and the creator. */
  lemma {:induction false} CreateIff(s: State, o: Operation)
    requires o.CreateRoom?
    ensures var (t, r) := Step(s, o);
            && (r.Ok? <==> o.nameAllowed && 1 <= |Trim(o.name)| <= 80 && o.creator in s.users && forall u | u in o.invited :: u in s.users)
            && (r.Err? ==> r == Err(BadRequest) && t == s)
            && (r.Ok? ==>
                  && t.rooms == s.rooms[o.id := Room(Trim(o.name), o.creator)] && t.messages == s.messages && t.users == s.users
                  && (forall u :: IsMember(t, o.id, u) <==> IsMember(s, o.id, u) || u == o.creator || u in o.invited)
                  && (forall room, u | room != o.id :: IsMember(t, room, u) <==> IsMember(s, room, u))
                  && t.members[Seat(o.id, o.creator)] == Owner)
  {}

  /** Acting in a room needs the room, then membership; what only its creator may do needs that as well. */
  lemma {:induction false} BarrierMeans(s: State, room: RoomId, user: UserId)
    ensures Barrier(s, room, user) ==
            if room !in s.rooms then Some(NotFound) else if Seat(room, user) !in s.members then Some(Forbidden) else None
    ensures OwnerBarrier(s, room, user).None? <==> room in s.rooms && Seat(room, user) in s.members && s.rooms[room].creator == user
    ensures room in s.rooms ==> OwnerBarrier(s, room, user) != Some(NotFound)
    ensures room !in s.rooms ==> OwnerBarrier(s, room, user) == Some(NotFound)
  {}

  /** Everybody the creator invites is seated, as a member unless already seated, and nobody else is. */
  lemma {:induction false} AddSeatsInvited(s: State, room: RoomId, actor: UserId, invited: seq<UserId>)
    ensures var (t, r) := Step(s, AddMembers(room, actor, invited));
            && (r.Ok? <==> OwnerBarrier(s, room, actor).None? && forall u | u in invited && u != actor :: u in s.users)
            && (r.Err? ==> t == s && (OwnerBarrier(s, room, actor).None? ==> r == Err(BadRequest)))
            && (r.Ok? ==>
                  && t == s.(members := t.members)
                  && (forall x, u :: IsMember(t, x, u) <==> IsMember(s, x, u) || (x == room && u in invited))
                  && (forall seat | seat in s.members :: seat in t.members && t.members[seat] == s.members[seat])
                  && (forall seat | seat in t.members && seat !in s.members :: t.members[seat] == Member))
  {
    var (t, r) := Step(s, AddMembers(room, actor, invited));
    if r.Ok? {
      forall u ensures u in MembersOf(s, room) <==> IsMember(s, room, u) { if IsMember(s, room, u) { assert Seat(room, u) in s.members; } }
    }
  }

  /** Whoever has registered can be invited by the creator and then takes part. */
  lemma {:induction false} RegisteredCanBeInvited(s: State, room: RoomId, creator: UserId, user: UserId)
    requires OwnerBarrier(s, room, creator).None?
    ensures var s1 := Step(s, RegisterUser(user)).0;
            var s2 := Step(s1, AddMembers(room, creator, [user])).0;
            s1 == s.(users := s.users + {user}) && Barrier(s2, room, user).None?
  {
    AddSeatsInvited(Step(s, RegisterUser(user)).0, room, creator, [user]);
  }

  /** A removal takes exactly the target's seat; the creator's cannot be taken, and a stranger has none. */
  lemma {:induction false} RemoveTakesSeat(s: State, room: RoomId, actor: UserId, target: UserId)
    ensures var (t, r) := Step(s, RemoveMember(room, actor, target));
            && (r.Ok? <==> OwnerBarrier(s, room, actor).None? && target != actor && IsMember(s, room, target))
            && (OwnerBarrier(s, room, actor).None? && target == actor ==> r == Err(BadRequest))
            && (OwnerBarrier(s, room, actor).None? && target != actor && !IsMember(s, room, target) ==> r == Err(NotFound))
            && (r.Err? ==> t == s) && (r.Ok? ==> t == s.(members := s.members - {Seat(room, target)}))
  {}

  /** Leaving gives up one seat; the last to leave takes the room and its messages along. */
  lemma {:induction false} LeaveGivesUpSeat(s: State, room: RoomId, user: UserId)
    ensures var (t, r) := Step(s, LeaveRoom(room, user));
            && (r.Ok? <==> IsMember(s, room, user))
            && (r.Err? ==> t == s && r == Err(if room in s.rooms then Forbidden else NotFound))
            && (r.Ok? ==>
                  && t.members == s.members - {Seat(room, user)}
                  && (room !in t.rooms <==> room !in s.rooms || forall u | u != user :: !IsMember(s, room, u))
                  && (forall x | x in s.rooms && x != room :: x in t.rooms) && (forall x | x in t.rooms :: x in s.rooms && t.rooms[x] == s.rooms[x])
                  && (forall m | m in s.messages :: m in t.messages <==>
                        s.messages[m].room != room || exists u :: u != user && IsMember(s, room, u))
                  && (forall m | m in t.messages :: m in s.messages && t.messages[m] == s.messages[m]))
  {
    var members := s.members - {Seat(room, user)};
    if seat :| seat in members && seat.room == room { assert seat == Seat(room, seat.user) && IsMember(s, room, seat.user); }
    if u :| u != user && IsMember(s, room, u) { assert Seat(room, u) in members; }
  }

  /** Only the creator deletes a room, and then nothing of it is left. */
  lemma {:induction false} DeleteRemovesAll(s: State, room: RoomId, user: UserId)
    ensures var (t, r) := Step(s, DeleteRoom(room, user));
            && (r.Ok? <==> room in s.rooms && s.rooms[room].creator == user)
            && (r.Err? ==> t == s && r == Err(if room in s.rooms then Forbidden else NotFound))
            && (r.Ok? ==>
                  && t.rooms == s.rooms - {room} && t.users == s.users
                  && (forall seat :: seat in t.members <==> seat in s.members && seat.room != room)
                  && (forall seat | seat in t.members :: t.members[seat] == s.members[seat])
                  && (forall m :: m in t.messages <==> m in s.messages && s.messages[m].room != room)
                  && (forall m | m in t.messages :: t.messages[m] == s.messages[m]))
  {}

  /** A member's message with text in it is stored trimmed. */
  lemma {:induction false} SendStores(s: State, room: RoomId, user: UserId, id: MessageId, body: string, allowed: bool)
    ensures var (t, r) := Step(s, SendMessage(room, user, id, body, allowed));
            && (r.Ok? <==> Barrier(s, room, user).None? && Trim(body) != [] && allowed)
            && (r.Err? ==> t == s && r == Err(if Barrier(s, room, user).Some? then Barrier(s, room, user).value else BadRequest))
            && (r.Ok? ==> t == s.(messages := s.messages[id := RoomMessage(room, user, Trim(body))]))
  {}

  /** Only the creator renames a room, and only its name changes. */
  lemma {:induction false} RenameChangesName(s: State, room: RoomId, actor: UserId, raw: string, allowed: bool)
    ensures var (t, r) := Step(s, RenameRoom(room, actor, raw, allowed));
            && (r.Ok? <==> OwnerBarrier(s, room, actor).None? && allowed && 1 <= |Trim(raw)| <= 80)
            && (r.Err? ==> t == s && (OwnerBarrier(s, room, actor).None? ==> r == Err(BadRequest)))
            && (r.Ok? ==> t == s.(rooms := s.rooms[room := Room(Trim(raw), s.rooms[room].creator)]))
  {}

  // ---------------------------------------------------------------------
  // The service, updating the tables in place
  // ---------------------------------------------------------------------

  class RoomService {
    var users: set<UserId>
    var rooms: map<RoomId, Room>
    var members: map<Seat, Role>
    var messages: map<MessageId, RoomMessage>
    ghost var issued: set<RoomId>

    ghost function Tables(): State
      reads this
    {
      State(users, rooms, members, messages, issued)
    }

    constructor ()
      ensures Tables() == EMPTY
    {
      users, rooms, members, messages, issued := {}, map[], map[], map[], {};
    }

    /** `normalize_member_ids`. */
    static method NormalizeMemberIds(creator: UserId, invited: seq<UserId>) returns (ids: set<UserId>)
      ensures ids == (set u | u in invited) + {creator}
    {
      ids := {creator};
      for i := 0 to |invited|
        invariant ids == (set u | u in invited[..i]) + {creator}
      {
        assert invited[..i + 1] == invited[..i] + [invited[i]];
        ids := ids + {invited[i]};
      }
      assert invited[..|invited|] == invited;
    }

    method Create(id: RoomId, creator: UserId, name: string, nameAllowed: bool, invited: seq<UserId>)
      returns (r: Result<(), Refusal>)
      modifies this
      ensures (Tables(), r) == Step(old(Tables()), CreateRoom(id, creator, name, nameAllowed, invited))
    {
      var normalized := NormalizeName(name, nameAllowed);
      if normalized.None? { return Err(BadRequest); }
      var ids := NormalizeMemberIds(creator, invited);
      if !(ids <= users) { return Err(BadRequest); }
      rooms := rooms[id := Room(normalized.value, creator)];
      issued := issued + {id};
      members := members + Seats(id, ids, creator);
      r := Ok(());
    }

    method Add(room: RoomId, actor: UserId, invited: seq<UserId>) returns (r: Result<(), Refusal>)
      modifies this
      ensures (Tables(), r) == Step(old(Tables()), AddMembers(room, actor, invited))
    {
      if room !in rooms { return Err(NotFound); }
      if Seat(room, actor) !in members || rooms[room].creator != actor { return Err(Forbidden); }
      var requested := (set u | u in invited) - {actor};
      if requested == {} {
        assert Tables().members + Seats(room, {}, actor) == members;
        return Ok(());
      }
      if !(requested <= users) { return Err(BadRequest); }
      var existing := set seat | seat in members && seat.room == room :: seat.user;
      members := members + Seats(room, requested - existing, actor);
      r := Ok(());
    }

    method Remove(room: RoomId, actor: UserId, target: UserId) returns (r: Result<(), Refusal>)
      modifies this
      ensures (Tables(), r) == Step(old(Tables()), RemoveMember(room, actor, target))
    {
      if room !in rooms { return Err(NotFound); }
      if Seat(room, actor) !in members || rooms[room].creator != actor { return Err(Forbidden); }
      if target == rooms[room].creator { return Err(BadRequest); }
      if Seat(room, target) !in members { return Err(NotFound); }
      members := members - {Seat(room, target)};
      r := Ok(());
    }

    method Leave(room: RoomId, user: UserId) returns (r: Result<(), Refusal>)
      modifies this
      ensures (Tables(), r) == Step(old(Tables()), LeaveRoom(room, user))
    {
      if Seat(room, user) !in members {
        return Err(if room in rooms then Forbidden else NotFound);
      }
      members := members - {Seat(room, user)};
      if !exists seat | seat in members :: seat.room == room {
        messages := WithoutMessages(messages, room);
        rooms := rooms - {room};
      }
      r := Ok(());
    }

    method Delete(room: RoomId, user: UserId) returns (r: Result<(), Refusal>)
      modifies this
      ensures (Tables(), r) == Step(old(Tables()), DeleteRoom(room, user))
    {
      if room !in rooms { return Err(NotFound); }
      if rooms[room].creator != user { return Err(Forbidden); }
      members := WithoutSeats(members, room);
      messages := WithoutMessages(messages, room);
      rooms := rooms - {room};
      r := Ok(());
    }

    method Send(room: RoomId, sender: UserId, id: MessageId, body: string, bodyAllowed: bool)
      returns (r: Result<(), Refusal>)
      modifies this
      ensures (Tables(), r) == Step(old(Tables()), SendMessage(room, sender, id, body, bodyAllowed))
    {
      if room !in rooms { return Err(NotFound); }
      if Seat(room, sender) !in members { return Err(Forbidden); }
      var trimmed := Trim(body);
      if trimmed == [] || !bodyAllowed { return Err(BadRequest); }
      messages := messages[id := RoomMessage(room, sender, trimmed)];
      r := Ok(());
    }
  }
}
