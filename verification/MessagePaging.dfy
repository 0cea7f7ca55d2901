/**
 * Keyset paging through a conversation or a room, newest first. The client asks
 * for the page before the last message it received, while the table goes on changing.
 */
module MessagePaging {
  import opened Core
  import Sorting

  type UserId = nat
  type RoomId = nat
  type MessageId = nat

  /** A row of `messages` (`target` is the recipient) or of `room_messages` (`target` is the room). */
  datatype Message = Message(id: MessageId, at: Time, sender: UserId, target: nat, deleted: bool)

  type Table = seq<Message>

  /** The position of a message in `(created_at, id)` order. */
  datatype Key = Key(at: Time, id: MessageId)

  function KeyOf(m: Message): Key { Key(m.at, m.id) }

  predicate Before(a: Key, b: Key) { a.at < b.at || (a.at == b.at && a.id < b.id) }

  predicate NewerFirst(a: Message, b: Message) { !Before(KeyOf(a), KeyOf(b)) }

  /** What is being paged through: the exchange of two users, or a room as one viewer sees it. */
  datatype Scope = Conversation(a: UserId, b: UserId) | RoomView(room: RoomId, blocked: set<UserId>)

  predicate InScope(scope: Scope, m: Message) {
    match scope
    case Conversation(a, b) => (m.sender == a && m.target == b) || (m.sender == b && m.target == a)
    case RoomView(room, blocked) => m.target == room && m.sender !in blocked
  }

  predicate Visible(scope: Scope, m: Message) { InScope(scope, m) && !m.deleted }

  predicate Below(m: Message, cursor: Option<Key>) { cursor.Some? ==> Before(KeyOf(m), cursor.value) }

  function Selects(scope: Scope, cursor: Option<Key>): Message -> bool {
    m => Visible(scope, m) && Below(m, cursor)
  }

  /** The visible messages below a cursor, newest first. */
  function Listing(table: Table, scope: Scope, cursor: Option<Key>): seq<Message> {
    Sorting.Sort(Filter(table, Selects(scope, cursor)), NewerFirst)
  }

  function Take(s: seq<Message>, n: nat): seq<Message> { if |s| <= n then s else s[..n] }

  function Page(table: Table, scope: Scope, cursor: Option<Key>, limit: nat): seq<Message> {
    Take(Listing(table, scope, cursor), Min(limit, 100))
  }

  // ---------------------------------------------------------------------
  // The two services
  // ---------------------------------------------------------------------

  datatype Refusal = NotFound | Forbidden

  function Find(table: Table, id: MessageId): (r: Option<Message>)
    ensures r.Some? ==> r.value in table && r.value.id == id
    ensures r.None? ==> forall m | m in table :: m.id != id
  {
    if table == [] then None
    else if table[0].id == id then Some(table[0])
    else Find(table[1..], id)
  }

  /** `get_conversation`; the cursor is looked up in the whole table, deleted messages included. */
  function GetConversation(table: Table, blocked: bool, a: UserId, b: UserId, before: Option<MessageId>, limit: nat)
    : Result<seq<Message>, Refusal>
  {
    if blocked then Ok([])
    else if before.None? then Ok(Page(table, Conversation(a, b), None, limit))
    else
      match Find(table, before.value)
      case None => Err(NotFound)
      case Some(c) => Ok(Page(table, Conversation(a, b), Some(KeyOf(c)), limit))
  }

  /** `get_room_messages`; the cursor must belong to the room. */
  function GetRoomMessages(
    table: Table, roomExists: bool, isMember: bool, room: RoomId, blocked: set<UserId>, before: Option<MessageId>, limit: nat)
    : Result<seq<Message>, Refusal>
  {
    if !roomExists then Err(NotFound)
    else if !isMember then Err(Forbidden)
    else if before.None? then Ok(Page(table, RoomView(room, blocked), None, limit))
    else
      match Find(table, before.value)
      case None => Err(NotFound)
      case Some(c) =>
        if c.target != room then Err(NotFound) else Ok(Page(table, RoomView(room, blocked), Some(KeyOf(c)), limit))
  }

  /** One request of a client that is not blocked and, for a room, is a member. */
  function Fetch(table: Table, scope: Scope, before: Option<MessageId>, limit: nat): Result<seq<Message>, Refusal> {
    match scope
    case Conversation(a, b) => GetConversation(table, false, a, b, before, limit)
    case RoomView(room, blocked) => GetRoomMessages(table, true, true, room, blocked, before, limit)
  }

  /** What the client collects: each fetch sees the next table and names the last message of the page before. */
  function Walk(tables: seq<Table>, scope: Scope, before: Option<MessageId>, limit: nat): Result<seq<Message>, Refusal>
    decreases |tables|
  {
    if tables == [] then Ok([])
    else
      match Fetch(tables[0], scope, before, limit)
      case Err(e) => Err(e)
      case Ok(page) =>
        if page == [] then Ok([])
        else
          match Walk(tables[1..], scope, Some(page[|page| - 1].id), limit)
          case Err(e) => Err(e)
          case Ok(rest) => Ok(page + rest)
  }

  /** The client met an empty page, so it knows that it is done. */
  predicate Ends(tables: seq<Table>, scope: Scope, before: Option<MessageId>, limit: nat)
    decreases |tables|
  {
    tables != [] &&
    match Fetch(tables[0], scope, before, limit)
    case Err(_) => false
    case Ok(page) => page == [] || Ends(tables[1..], scope, Some(page[|page| - 1].id), limit)
  }

  // ---------------------------------------------------------------------
  // How the table may change between fetches
  // ---------------------------------------------------------------------

  function IdOf(): Message -> MessageId { (m: Message) => m.id }

  ghost predicate UniqueIds(table: Table) { Sorting.DistinctBy(table, IdOf()) }

  /**
   * Rows of the conversation or room stay: they may be soft-deleted, but keep their identity, time,
   * sender and target. Rows elsewhere may come and go.
   */
  ghost predicate RowsStay(t: Table, t': Table, scope: Scope) {
    forall m | m in t && InScope(scope, m) :: exists m' :: m' in t' && m'.(deleted := m.deleted) == m
  }

  ghost predicate Evolves(tables: seq<Table>, scope: Scope) {
    && (forall i | 0 <= i < |tables| :: UniqueIds(tables[i]))
    && (forall i, j | 0 <= i < j < |tables| :: RowsStay(tables[i], tables[j], scope))
  }

  // ---------------------------------------------------------------------
  // One page
  // ---------------------------------------------------------------------

  predicate Newer(a: Message, b: Message) { Before(KeyOf(b), KeyOf(a)) }

  ghost predicate Descending(ms: seq<Message>) { Sorting.Strict(ms, Newer) }

  lemma {:induction false} NewerFirstIsOrder()
    ensures Sorting.TotalPreorder(NewerFirst)
  {}

  /** A listing holds exactly the visible messages below the cursor, in strictly descending order. */
  lemma {:induction false} ListingIsExact(table: Table, scope: Scope, cursor: Option<Key>)
    requires UniqueIds(table)
    ensures Descending(Listing(table, scope, cursor))
    ensures forall m :: m in Listing(table, scope, cursor) <==> m in table && Visible(scope, m) && Below(m, cursor)
  {
    var chosen, listing := Filter(table, Selects(scope, cursor)), Listing(table, scope, cursor);
    FilterMembers(table, Selects(scope, cursor));
    Sorting.FilterDistinct(table, Selects(scope, cursor), IdOf());
    NewerFirstIsOrder();
    Sorting.SortSorts(chosen, NewerFirst);
    Sorting.PermutedDistinct(chosen, listing, IdOf());
    forall i, j | 0 <= i < j < |listing| ensures Newer(listing[i], listing[j]) {
      assert NewerFirst(listing[i], listing[j]) && IdOf()(listing[i]) != IdOf()(listing[j]);
    }
    forall m ensures m in listing <==> m in chosen {
      assert m in multiset(listing) <==> m in multiset(chosen);
    }
  }

  /** A page is a top segment: what is visible but not on it lies below its last message. */
  lemma {:induction false} PageIsTop(table: Table, scope: Scope, cursor: Option<Key>, limit: nat)
    requires UniqueIds(table) && limit >= 1
    ensures var page := Page(table, scope, cursor, limit);
            && Descending(page)
            && (forall m | m in page :: m in table && Visible(scope, m) && Below(m, cursor))
            && (forall m | m in table && Visible(scope, m) && Below(m, cursor) && m !in page ::
                  page != [] && Before(KeyOf(m), KeyOf(page[|page| - 1])))
  {
    ListingIsExact(table, scope, cursor);
    var listing, page := Listing(table, scope, cursor), Page(table, scope, cursor, limit);
    assert page <= listing;
    forall m | m in listing && m !in page ensures page != [] && Before(KeyOf(m), KeyOf(page[|page| - 1])) {
      var k :| 0 <= k < |listing| && listing[k] == m;
      assert forall i | 0 <= i < |page| :: page[i] == listing[i];
    }
  }

  // ---------------------------------------------------------------------
  // The cursor
  // ---------------------------------------------------------------------

  /** `before` names a message of the scope, deleted or not, whose key is `cursor`. */
  ghost predicate NamesCursor(table: Table, scope: Scope, before: Option<MessageId>, cursor: Option<Key>) {
    if before.None? then cursor.None?
    else cursor.Some? && exists m :: m in table && m.id == before.value && KeyOf(m) == cursor.value && InScope(scope, m)
  }

  /** Fetching before a message is paging below its key, even after it was soft-deleted. */
  lemma {:induction false} FetchIsPage(table: Table, scope: Scope, before: Option<MessageId>, cursor: Option<Key>, limit: nat)
    requires UniqueIds(table) && NamesCursor(table, scope, before, cursor)
    ensures Fetch(table, scope, before, limit) == Ok(Page(table, scope, cursor, limit))
  {}

  lemma {:induction false} CursorSurvives(t: Table, t': Table, scope: Scope, m: Message)
    requires RowsStay(t, t', scope) && m in t && InScope(scope, m)
    ensures NamesCursor(t', scope, Some(m.id), Some(KeyOf(m)))
  {}

  /** After a non-empty page, the rest of the walk starts from a cursor that its first table knows. */
  lemma {:induction false} NextCursor(tables: seq<Table>, scope: Scope, cursor: Option<Key>, limit: nat)
    requires Evolves(tables, scope) && |tables| >= 2 && limit >= 1
    requires Page(tables[0], scope, cursor, limit) != []
    ensures var page := Page(tables[0], scope, cursor, limit);
            var last := page[|page| - 1];
            NamesCursor(tables[1], scope, Some(last.id), Some(KeyOf(last)))
    ensures Evolves(tables[1..], scope)
  {
    PageIsTop(tables[0], scope, cursor, limit);
    var page := Page(tables[0], scope, cursor, limit);
    CursorSurvives(tables[0], tables[1], scope, page[|page| - 1]);
  }

  // ---------------------------------------------------------------------
  // The whole walk
  // ---------------------------------------------------------------------

  ghost predicate CursorKnown(tables: seq<Table>, scope: Scope, before: Option<MessageId>, cursor: Option<Key>) {
    tables != [] ==> NamesCursor(tables[0], scope, before, cursor)
  }

  /** One fetch of a walk: its page, and what the rest of the walk depends on. */
  lemma {:induction false} WalkUnfolds(tables: seq<Table>, scope: Scope, before: Option<MessageId>, cursor: Option<Key>, limit: nat)
    returns (page: seq<Message>)
    requires Evolves(tables, scope) && tables != [] && NamesCursor(tables[0], scope, before, cursor) && limit >= 1
    ensures Descending(page)
    ensures forall m | m in page :: m in tables[0] && Visible(scope, m) && Below(m, cursor)
    ensures forall m | m in tables[0] && Visible(scope, m) && Below(m, cursor) && m !in page ::
              page != [] && Before(KeyOf(m), KeyOf(page[|page| - 1]))
    ensures page == [] ==> Walk(tables, scope, before, limit) == Ok([]) && Ends(tables, scope, before, limit)
    ensures page != [] ==>
              var last := page[|page| - 1];
              var rest := Walk(tables[1..], scope, Some(last.id), limit);
              && Walk(tables, scope, before, limit) == (if rest.Ok? then Ok(page + rest.value) else rest)
              && (Ends(tables, scope, before, limit) <==> Ends(tables[1..], scope, Some(last.id), limit))
              && Evolves(tables[1..], scope) && CursorKnown(tables[1..], scope, Some(last.id), Some(KeyOf(last)))
  {
    FetchIsPage(tables[0], scope, before, cursor, limit);
    PageIsTop(tables[0], scope, cursor, limit);
    page := Page(tables[0], scope, cursor, limit);
    if page != [] && |tables| >= 2 { NextCursor(tables, scope, cursor, limit); }
  }

  /** A walk never fails, and what it collects descends strictly below the cursor. */
  lemma {:induction false} WalkDescends(tables: seq<Table>, scope: Scope, before: Option<MessageId>, cursor: Option<Key>, limit: nat)
    requires Evolves(tables, scope) && CursorKnown(tables, scope, before, cursor) && limit >= 1
    ensures Walk(tables, scope, before, limit).Ok?
    ensures Descending(Walk(tables, scope, before, limit).value)
    ensures forall m | m in Walk(tables, scope, before, limit).value :: Below(m, cursor)
    decreases |tables|
  {
    if tables != [] {
      var page := WalkUnfolds(tables, scope, before, cursor, limit);
      if page != [] {
        var last := page[|page| - 1];
        WalkDescends(tables[1..], scope, Some(last.id), Some(KeyOf(last)), limit);
        assert last in page;
        JoinDescends(page, Walk(tables[1..], scope, Some(last.id), limit).value);
      }
    }
  }

  ghost predicate WasVisible(tables: seq<Table>, scope: Scope, m: Message) {
    Visible(scope, m) && exists i :: 0 <= i < |tables| && m in tables[i]
  }

  /** Every message a walk collects was visible in the table of the fetch that returned it. */
  lemma {:induction false} WalkShowsVisible(
    tables: seq<Table>, scope: Scope, before: Option<MessageId>, cursor: Option<Key>, limit: nat, m: Message)
    requires Evolves(tables, scope) && CursorKnown(tables, scope, before, cursor) && limit >= 1
    requires Walk(tables, scope, before, limit).Ok? && m in Walk(tables, scope, before, limit).value
    ensures WasVisible(tables, scope, m)
    decreases |tables|
  {
    var page := WalkUnfolds(tables, scope, before, cursor, limit);
    if m in page {
      assert m in tables[0];
    } else {
      var last := page[|page| - 1];
      WalkShowsVisible(tables[1..], scope, Some(last.id), Some(KeyOf(last)), limit, m);
      var i :| 0 <= i < |tables[1..]| && m in tables[1..][i];
      assert m in tables[i + 1];
    }
  }

  lemma {:induction false} JoinDescends(page: seq<Message>, rest: seq<Message>)
    requires page != [] && Descending(page) && Descending(rest)
    requires forall m | m in rest :: Before(KeyOf(m), KeyOf(page[|page| - 1]))
    ensures Descending(page + rest)
  {}

  /** The row is in every table of the walk, unchanged. */
  ghost predicate Stays(tables: seq<Table>, m: Message) { forall i | 0 <= i < |tables| :: m in tables[i] }

  lemma {:induction false} StaysInTail(tables: seq<Table>, m: Message)
    requires tables != [] && Stays(tables, m)
    ensures Stays(tables[1..], m)
  {}

  /** A message that stays visible throughout is collected by every walk that ends. */
  lemma {:induction false} WalkMissesNothing(
    tables: seq<Table>, scope: Scope, before: Option<MessageId>, cursor: Option<Key>, limit: nat, m: Message)
    requires Evolves(tables, scope) && CursorKnown(tables, scope, before, cursor) && limit >= 1
    requires Ends(tables, scope, before, limit)
    requires Stays(tables, m) && Visible(scope, m) && Below(m, cursor)
    ensures Walk(tables, scope, before, limit).Ok? && m in Walk(tables, scope, before, limit).value
    decreases |tables|
  {
    var page := WalkUnfolds(tables, scope, before, cursor, limit);
    WalkDescends(tables, scope, before, cursor, limit);
    assert m in tables[0];
    if m !in page {
      var last := page[|page| - 1];
      StaysInTail(tables, m);
      WalkMissesNothing(tables[1..], scope, Some(last.id), Some(KeyOf(last)), limit, m);
    }
  }

  /** From the newest message down, every message that stays visible is returned exactly once, in descending order. */
  lemma {:induction false} PagingIsExact(tables: seq<Table>, scope: Scope, limit: nat)
    requires Evolves(tables, scope) && limit >= 1 && Ends(tables, scope, None, limit)
    ensures Walk(tables, scope, None, limit).Ok? && Descending(Walk(tables, scope, None, limit).value)
    ensures forall m | Visible(scope, m) && Stays(tables, m) ::
              multiset(Walk(tables, scope, None, limit).value)[m] == 1
  {
    WalkDescends(tables, scope, None, None, limit);
    var got := Walk(tables, scope, None, limit).value;
    forall m | Visible(scope, m) && Stays(tables, m) ensures multiset(got)[m] == 1 {
      WalkMissesNothing(tables, scope, None, None, limit, m);
      Sorting.DistinctMultiplicity(got, m);
    }
  }

  // ---------------------------------------------------------------------
  // Termination
  // ---------------------------------------------------------------------

  /** New rows in the conversation or room are newer than every row it had before. */
  ghost predicate OnlyNewerArrive(t: Table, t': Table, scope: Scope) {
    forall m' | m' in t' && InScope(scope, m') ::
      || (exists m :: m in t && InScope(scope, m) && KeyOf(m) == KeyOf(m'))
      || (forall m | m in t && InScope(scope, m) :: Before(KeyOf(m), KeyOf(m')))
  }

  ghost predicate Arrivals(tables: seq<Table>, scope: Scope) {
    forall i, j | 0 <= i < j < |tables| :: OnlyNewerArrive(tables[i], tables[j], scope)
  }

  /** The positions in the conversation or room that lie below the cursor. */
  function KeysBelow(table: Table, scope: Scope, cursor: Option<Key>): set<Key> {
    set i | 0 <= i < |table| && InScope(scope, table[i]) && Below(table[i], cursor) :: KeyOf(table[i])
  }

  lemma {:induction false} KeysShrink(t: Table, t': Table, scope: Scope, last: Message, cursor: Option<Key>)
    requires OnlyNewerArrive(t, t', scope) && last in t && InScope(scope, last) && Below(last, cursor)
    ensures KeysBelow(t', scope, Some(KeyOf(last))) < KeysBelow(t, scope, cursor)
  {
    forall k | k in KeysBelow(t', scope, Some(KeyOf(last))) ensures k in KeysBelow(t, scope, cursor) {
      var i :| 0 <= i < |t'| && InScope(scope, t'[i]) && Below(t'[i], Some(KeyOf(last))) && KeyOf(t'[i]) == k;
      assert t'[i] in t';
      var m :| m in t && InScope(scope, m) && KeyOf(m) == k;
      var j :| 0 <= j < |t| && t[j] == m;
      assert Below(t[j], cursor);
    }
    var j :| 0 <= j < |t| && t[j] == last;
    assert KeyOf(last) in KeysBelow(t, scope, cursor);
  }

  lemma {:induction false} ProperSubsetSize(a: set<Key>, b: set<Key>)
    requires a < b
    ensures |a| < |b|
  {
    var x :| x in b && x !in a;
    SubsetSize(a, b - {x});
  }

  /**
   * If what arrives in the conversation or room is newer than what it had, the walk ends within one
   * fetch more than there are messages to see; other conversations may change in any way.
   */
  lemma {:induction false} WalkEnds(tables: seq<Table>, scope: Scope, before: Option<MessageId>, cursor: Option<Key>, limit: nat)
    requires Evolves(tables, scope) && Arrivals(tables, scope) && CursorKnown(tables, scope, before, cursor) && limit >= 1
    requires tables != [] && |tables| > |KeysBelow(tables[0], scope, cursor)|
    ensures Ends(tables, scope, before, limit)
    decreases |tables|
  {
    var page := WalkUnfolds(tables, scope, before, cursor, limit);
    if page != [] {
      var last := page[|page| - 1];
      assert last in page;
      KeyCounted(tables[0], scope, cursor, last);
      KeysShrink(tables[0], tables[1], scope, last, cursor);
      ProperSubsetSize(KeysBelow(tables[1], scope, Some(KeyOf(last))), KeysBelow(tables[0], scope, cursor));
      WalkEnds(tables[1..], scope, Some(last.id), Some(KeyOf(last)), limit);
    }
  }

  lemma {:induction false} KeyCounted(t: Table, scope: Scope, cursor: Option<Key>, m: Message)
    requires m in t && InScope(scope, m) && Below(m, cursor)
    ensures |KeysBelow(t, scope, cursor)| >= 1
  {
    var j :| 0 <= j < |t| && t[j] == m;
    assert KeyOf(m) in KeysBelow(t, scope, cursor);
  }

  // ---------------------------------------------------------------------
  // A table at rest
  // ---------------------------------------------------------------------

  lemma {:induction false} DescendingUnique(xs: seq<Message>, ys: seq<Message>)
    requires Descending(xs) && Descending(ys)
    requires forall m :: m in xs <==> m in ys
    ensures xs == ys
  {
    assert Sorting.Asymmetric(Newer);
    Sorting.StrictUnique(xs, ys, Newer);
  }

  /** When nothing changes, enough pages add up to the plain sorted list. */
  lemma {:induction false} PagesAddUp(table: Table, fetches: nat, scope: Scope, limit: nat)
    requires UniqueIds(table) && limit >= 1 && fetches > |KeysBelow(table, scope, None)|
    ensures Walk(seq(fetches, _ => table), scope, None, limit) == Ok(Listing(table, scope, None))
  {
    StillTable(table, fetches, scope);
    StillWalk(seq(fetches, _ => table), table, scope, limit);
  }

  lemma {:induction false} StillWalk(tables: seq<Table>, table: Table, scope: Scope, limit: nat)
    requires Evolves(tables, scope) && Arrivals(tables, scope) && limit >= 1
    requires UniqueIds(table) && |tables| > |KeysBelow(table, scope, None)| && forall i | 0 <= i < |tables| :: tables[i] == table
    ensures Walk(tables, scope, None, limit) == Ok(Listing(table, scope, None))
  {
    WalkEnds(tables, scope, None, None, limit);
    WalkDescends(tables, scope, None, None, limit);
    ListingIsExact(table, scope, None);
    var got, listing := Walk(tables, scope, None, limit).value, Listing(table, scope, None);
    forall m ensures m in got <==> m in listing {
      if m in listing { WalkMissesNothing(tables, scope, None, None, limit, m); }
      if m in got { WalkShowsVisible(tables, scope, None, None, limit, m); }
    }
    DescendingUnique(got, listing);
  }

  lemma {:induction false} StillTable(table: Table, fetches: nat, scope: Scope)
    requires UniqueIds(table)
    ensures Evolves(seq(fetches, _ => table), scope) && Arrivals(seq(fetches, _ => table), scope)
  {
    SameTable(table, scope);
    var tables := seq(fetches, _ => table);
    forall i, j | 0 <= i < j < |tables| ensures RowsStay(tables[i], tables[j], scope) && OnlyNewerArrive(tables[i], tables[j], scope) {
      assert tables[i] == table && tables[j] == table;
    }
  }

  lemma {:induction false} SameTable(table: Table, scope: Scope)
    ensures RowsStay(table, table, scope) && OnlyNewerArrive(table, table, scope)
  {
    forall m | m in table ensures exists m' :: m' in table && m'.(deleted := m.deleted) == m {
      assert m.(deleted := m.deleted) == m;
    }
  }

  // ---------------------------------------------------------------------
  // What one request answers
  // ---------------------------------------------------------------------

  /** Time decides, and the id only among messages of the same time; so the order is strict and total. */
  lemma {:induction false} OrderIsByTimeThenId(a: Message, b: Message)
    ensures Newer(a, b) <==> b.at < a.at || (b.at == a.at && b.id < a.id)
    ensures a.id != b.id ==> Newer(a, b) || Newer(b, a)
  {}

  /** Both directions of a conversation are visible, and of a room what its unblocked members sent; deleted messages never. */
  lemma {:induction false} VisibleMessages(m: Message, a: UserId, b: UserId, room: RoomId, blocked: set<UserId>)
    ensures Visible(Conversation(a, b), m) <==> !m.deleted && ((m.sender == a && m.target == b) || (m.sender == b && m.target == a))
    ensures Visible(RoomView(room, blocked), m) <==> !m.deleted && m.target == room && m.sender !in blocked
    ensures Visible(Conversation(a, b), m) == Visible(Conversation(b, a), m)
  {}

  /** The positions of the visible messages below the cursor. */
  ghost function VisibleBelow(table: Table, scope: Scope, cursor: Option<Key>): set<nat> {
    set i: nat | i < |table| && Visible(scope, table[i]) && Below(table[i], cursor)
  }

  /** A page is as long as the limit allows, up to 100, and as there are visible messages below the cursor. */
  lemma {:induction false} PageLength(table: Table, scope: Scope, cursor: Option<Key>, limit: nat)
    ensures |Page(table, scope, cursor, limit)| == Min(Min(limit, 100), |Listing(table, scope, cursor)|)
    ensures |Page(table, scope, cursor, limit)| == Min(Min(limit, 100), |VisibleBelow(table, scope, cursor)|)
  {
    var chosen := Filter(table, Selects(scope, cursor));
    NewerFirstIsOrder();
    Sorting.SortSorts(chosen, NewerFirst);
    FilterCounts(table, Selects(scope, cursor));
    assert VisibleBelow(table, scope, cursor) == Hits(table, Selects(scope, cursor));
  }

  /** What a request returns is the first part of the plain sorted list. */
  lemma {:induction false} PageIsPrefix(table: Table, scope: Scope, cursor: Option<Key>, limit: nat)
    ensures Page(table, scope, cursor, limit) <= Listing(table, scope, cursor)
  {}

  lemma {:induction false} FetchLength(table: Table, scope: Scope, before: Option<MessageId>, cursor: Option<Key>, limit: nat)
    requires UniqueIds(table) && NamesCursor(table, scope, before, cursor)
    ensures Fetch(table, scope, before, limit).Ok?
    ensures |Fetch(table, scope, before, limit).value| == Min(Min(limit, 100), |VisibleBelow(table, scope, cursor)|)
  {
    FetchIsPage(table, scope, before, cursor, limit);
    PageLength(table, scope, cursor, limit);
  }

  /** A block hides the conversation; otherwise the one error is a cursor that no row has. */
  lemma {:induction false} ConversationRefusals(table: Table, blocked: bool, a: UserId, b: UserId, before: Option<MessageId>, limit: nat)
    ensures blocked ==> GetConversation(table, blocked, a, b, before, limit) == Ok([])
    ensures GetConversation(table, blocked, a, b, before, limit) == Err(NotFound) <==>
            !blocked && before.Some? && forall m | m in table :: m.id != before.value
    ensures GetConversation(table, blocked, a, b, before, limit) != Err(Forbidden)
  {}

  /** A room answers its members only, and takes only cursors of its own. */
  lemma {:induction false} RoomRefusals(
    table: Table, roomExists: bool, isMember: bool, room: RoomId, blocked: set<UserId>, before: Option<MessageId>, limit: nat)
    requires UniqueIds(table)
    ensures var r := GetRoomMessages(table, roomExists, isMember, room, blocked, before, limit);
            && (r == Err(Forbidden) <==> roomExists && !isMember)
            && (r == Err(NotFound) <==>
                  !roomExists || (isMember && before.Some? && forall m | m in table :: m.id == before.value ==> m.target != room))
  {
    if before.Some? && Find(table, before.value).Some? {
      var c := Find(table, before.value).value;
      forall m | m in table && m.id == before.value ensures m == c { SameIdSameRow(table, m, c); }
    }
  }

  lemma {:induction false} SameIdSameRow(table: Table, x: Message, y: Message)
    requires UniqueIds(table) && x in table && y in table && x.id == y.id
    ensures x == y
  {}
}
