/** The room broadcast manager of the chat backend (backend/src/config/ws.ts)
    as values: the two tables the manager keeps, what every connection has
    been sent, and one function per socket event saying what that event does
    to them. The class in module WsManager performs the same steps in place
    and is proved to agree with these functions. */
module ChatServer {
  import opened Js

  /** A connection: the `ws` socket object, known only by its identity. */
  type Conn = nat

  /** A clock reading in milliseconds; the ISO-8601 text the source sends is
      a rendering of it. */
  type Timestamp = nat

  const DefaultRoom: Value := Str("general")

  const InvalidFormat := "Invalid message format"
  const UnknownType := "Unknown message type"
  const UsernameRequired := "Username is required"
  const JoinFirst := "You must join a room first"
  const EmptyContent := "Message content cannot be empty"

  /** An inbound frame after `JSON.parse`, classified by its `type` field. */
  datatype Frame =
    | JoinFrame(username: Option<Value>, room: Option<Value>)
    | MessageFrame(content: Option<Value>)
    | LeaveFrame
      /** parsed, but `type` is none of `join`, `message`, `leave` */
    | UnknownFrame
      /** `JSON.parse` threw, or produced `null` so that reading `type` threw */
    | Malformed

  /** An outbound frame; `timestamp` is the clock reading at send time. */
  datatype Event =
    | JoinEvent(username: Value, room: Value, timestamp: Timestamp)
    | MessageEvent(content: string, username: Value, room: Value, timestamp: Timestamp)
    | LeaveEvent(username: Value, room: Value, timestamp: Timestamp)
    | UserJoinedEvent(username: Value, room: Value, timestamp: Timestamp)
    | UserLeftEvent(username: Value, room: Value, timestamp: Timestamp)
    | ErrorEvent(content: string)

  /** The `id` of a user record, `${username}_${Date.now()}`, kept as its parts. */
  datatype UserId = UserId(username: Value, millis: Timestamp)

  /** The identity a connection acquires by joining. */
  datatype User = User(id: UserId, username: Value, room: Value)

  /** The transport as the manager sees it during one event: the connections
      whose `readyState` is OPEN, and those whose `send` throws. */
  datatype Net = Net(open: set<Conn>, failing: set<Conn>)

  /** A send to `c` reaches it: the socket is OPEN and `send` does not throw. */
  predicate CanSend(net: Net, c: Conn)
  {
    c in net.open && c !in net.failing
  }

  /** Every frame `send` has delivered, per connection. */
  type Outbox = map<Conn, seq<Event>>

  function Received(o: Outbox, c: Conn): seq<Event>
  {
    if c in o then o[c] else []
  }

  /** The manager's `users` and `rooms` maps, and the transport's outbox. */
  datatype State = State(users: map<Conn, User>, rooms: map<Value, set<Conn>>, outbox: Outbox)

  /** The manager as constructed: no users, no rooms, nothing sent. */
  function Initial(): (s: State)
    ensures Consistent(s.users, s.rooms) && Pruned(s.rooms)
  {
    State(map[], map[], map[])
  }

  predicate Member(rooms: map<Value, set<Conn>>, room: Value, c: Conn)
  {
    room in rooms && c in rooms[room]
  }

  /** Every user record's connection is a member of the room it names. */
  ghost predicate RecordsSeated(users: map<Conn, User>, rooms: map<Value, set<Conn>>)
  {
    forall c :: c in users ==> Member(rooms, users[c].room, c)
  }

  /** Every member of a room has a user record naming that room; in
      particular no connection is a member of two rooms. */
  ghost predicate MembersRecorded(users: map<Conn, User>, rooms: map<Value, set<Conn>>)
  {
    forall r, c :: Member(rooms, r, c) ==> c in users && users[c].room == r
  }

  /** `users` and `rooms` agree: both of the above. */
  ghost predicate Consistent(users: map<Conn, User>, rooms: map<Value, set<Conn>>)
  {
    RecordsSeated(users, rooms) && MembersRecorded(users, rooms)
  }

  /** No user record holds a username or room that cannot be converted to
      a string. */
  ghost predicate Convertible(users: map<Conn, User>)
  {
    forall c :: c in users ==> !ConversionThrows(users[c].username) && !ConversionThrows(users[c].room)
  }

  /** A room key is present only while its member set is non-empty. */
  ghost predicate Pruned(rooms: map<Value, set<Conn>>)
  {
    forall r :: r in rooms ==> rooms[r] != {}
  }

  /** Every connection that is a member of some room. */
  ghost function Members(rooms: map<Value, set<Conn>>): set<Conn>
  {
    set r, c | r in rooms && c in rooms[r] :: c
  }

  // ---------------------------------------------------------------------
  // Sending

  /** `sendToClient`: one frame to one connection, if it is OPEN; a send
      that throws is swallowed. */
  function SendTo(o: Outbox, net: Net, c: Conn, e: Event): (o': Outbox)
    ensures Received(o', c) == Received(o, c) + (if CanSend(net, c) then [e] else [])
    ensures forall d :: d != c ==> Received(o', d) == Received(o, d)
  {
    if CanSend(net, c) then o[c := Received(o, c) + [e]] else o
  }

  /** The connections `broadcastToRoom(room, _, exclude)` delivers to:
      members of the room other than the excluded one, whose socket is OPEN
      and whose send does not throw. */
  function Recipients(rooms: map<Value, set<Conn>>, room: Value, net: Net, exclude: Option<Conn>): set<Conn>
  {
    if room in rooms then set c | c in rooms[room] && Some(c) != exclude && CanSend(net, c) else {}
  }

  /** The outbox after `e` has been delivered once to every connection in `to`. */
  function Deliver(o: Outbox, to: set<Conn>, e: Event): Outbox
  {
    map c | c in o.Keys + to :: Received(o, c) + (if c in to then [e] else [])
  }

  lemma DeliverReceived(o: Outbox, to: set<Conn>, e: Event, c: Conn)
    ensures Received(Deliver(o, to, e), c) == Received(o, c) + (if c in to then [e] else [])
  {
  }

  /** `broadcastToRoom`: the number it counts is the number of recipients,
      at most the size of the room, and neither table changes (the function
      only yields an outbox). */
  lemma {:induction false} BroadcastCount(rooms: map<Value, set<Conn>>, room: Value, net: Net, exclude: Option<Conn>)
    ensures room in rooms ==> |Recipients(rooms, room, net, exclude)| <= |rooms[room]|
    ensures room !in rooms ==> Recipients(rooms, room, net, exclude) == {}
    ensures forall c :: c in Recipients(rooms, room, net, exclude) ==>
              Member(rooms, room, c) && Some(c) != exclude && CanSend(net, c)
  {
    if room in rooms {
      SubsetSize(Recipients(rooms, room, net, exclude), rooms[room]);
    }
  }

  lemma {:induction false} SubsetSize(a: set<Conn>, b: set<Conn>)
    requires a <= b
    ensures |a| <= |b|
  {
    if a != {} {
      var x :| x in a;
      SubsetSize(a - {x}, b - {x});
    }
  }

  // ---------------------------------------------------------------------
  // Room membership

  /** The room a join frame names: `room = 'general'` in a destructuring
      applies only when `room` is `undefined`. */
  function JoinRoom(room: Option<Value>): (r: Value)
    ensures room.None? ==> r == DefaultRoom
    ensures room.Some? ==> r == room.value
  {
    if room.Some? then room.value else DefaultRoom
  }

  /** Leave and close: drop `c` from `room`, deleting the key when the set
      becomes empty. */
  function RemoveMember(rooms: map<Value, set<Conn>>, room: Value, c: Conn): (r: map<Value, set<Conn>>)
    ensures room in r <==> room in rooms && rooms[room] - {c} != {}
    ensures room in r ==> r[room] == rooms[room] - {c}
    ensures forall q :: q != room ==> (q in r <==> q in rooms) && (q in r ==> r[q] == rooms[q])
  {
    if room !in rooms then rooms
    else if rooms[room] - {c} == {} then rooms - {room}
    else rooms[room := rooms[room] - {c}]
  }

  /** Join: drop `c` from its previous room but keep the key, even when the
      set becomes empty. */
  function DetachMember(rooms: map<Value, set<Conn>>, room: Value, c: Conn): (r: map<Value, set<Conn>>)
    ensures r.Keys == rooms.Keys
    ensures room in r ==> r[room] == rooms[room] - {c}
    ensures forall q :: q != room && q in r ==> r[q] == rooms[q]
  {
    if room in rooms then rooms[room := rooms[room] - {c}] else rooms
  }

  /** The rooms once `c` has left the room its user record names, if it
      has one. */
  function Unseat(users: map<Conn, User>, rooms: map<Value, set<Conn>>, c: Conn): map<Value, set<Conn>>
  {
    if c in users then DetachMember(rooms, users[c].room, c) else rooms
  }

  /** Add `c` to `room`, creating the set when the key is absent. */
  function AddMember(rooms: map<Value, set<Conn>>, room: Value, c: Conn): (r: map<Value, set<Conn>>)
    ensures r.Keys == rooms.Keys + {room}
    ensures r[room] == (if room in rooms then rooms[room] else {}) + {c}
    ensures forall q :: q != room && q in r ==> r[q] == rooms[q]
  {
    rooms[room := (if room in rooms then rooms[room] else {}) + {c}]
  }

  // ---------------------------------------------------------------------
  // One function per socket event

  /** `handleJoin`, and the answer of the message listener when it throws.
      The connection leaves the room its record names before the user id
      `${username}_${Date.now()}` is built; when that conversion throws,
      the join stops there and the catch answers with an invalid-format
      error. A room that cannot be converted throws only at the log lines
      after every send (in `broadcastToRoom`, and after it), so the join
      completes and the joiner is then sent the same error. */
  function JoinStep(s: State, ws: Conn, username: Option<Value>, room: Option<Value>, net: Net, now: Timestamp): (s': State)
    ensures !TruthyField(username) ==>
              s'.users == s.users && s'.rooms == s.rooms && s'.outbox == SendTo(s.outbox, net, ws, ErrorEvent(UsernameRequired))
    ensures TruthyField(username) && !ConversionThrows(username.value) ==>
              && s'.users == s.users[ws := User(UserId(username.value, now), username.value, JoinRoom(room))]
              && Member(s'.rooms, JoinRoom(room), ws)
  {
    if !TruthyField(username) then
      s.(outbox := SendTo(s.outbox, net, ws, ErrorEvent(UsernameRequired)))
    else
      var name, r := username.value, JoinRoom(room);
      var detached := Unseat(s.users, s.rooms, ws);
      if ConversionThrows(name) then
        State(s.users, detached, SendTo(s.outbox, net, ws, ErrorEvent(InvalidFormat)))
      else
        var rooms' := AddMember(detached, r, ws);
        var o := SendTo(s.outbox, net, ws, JoinEvent(name, r, now));
        var announced := Deliver(o, Recipients(rooms', r, net, Some(ws)), UserJoinedEvent(name, r, now));
        State(s.users[ws := User(UserId(name, now), name, r)], rooms',
              if ConversionThrows(r) then SendTo(announced, net, ws, ErrorEvent(InvalidFormat)) else announced)
  }

  /** A join that refuses, before either table changes, a username or a
      room that cannot be converted to a string; otherwise it is `JoinStep`. */
  function ValidatedJoinStep(s: State, ws: Conn, username: Option<Value>, room: Option<Value>, net: Net, now: Timestamp): State
  {
    if TruthyField(username) && (ConversionThrows(username.value) || ConversionThrows(JoinRoom(room))) then
      s.(outbox := SendTo(s.outbox, net, ws, ErrorEvent(InvalidFormat)))
    else
      JoinStep(s, ws, username, room, net, now)
  }

  /** `handleChatMessage`, including the TypeErrors the message listener
      answers with its own error: `trim` on content that is truthy but not
      a string, and the log line that names the user and the room when
      either cannot be converted to a string. */
  function ChatStep(s: State, ws: Conn, content: Option<Value>, net: Net, now: Timestamp): (s': State)
    ensures s'.users == s.users && s'.rooms == s.rooms
    ensures ws !in s.users ==> s'.outbox == SendTo(s.outbox, net, ws, ErrorEvent(JoinFirst))
  {
    if ws !in s.users then
      s.(outbox := SendTo(s.outbox, net, ws, ErrorEvent(JoinFirst)))
    else if !TruthyField(content) then
      s.(outbox := SendTo(s.outbox, net, ws, ErrorEvent(EmptyContent)))
    else if !content.value.Str? then
      s.(outbox := SendTo(s.outbox, net, ws, ErrorEvent(InvalidFormat)))
    else if Trim(content.value.s) == "" then
      s.(outbox := SendTo(s.outbox, net, ws, ErrorEvent(EmptyContent)))
    else if ConversionThrows(s.users[ws].username) || ConversionThrows(s.users[ws].room) then
      s.(outbox := SendTo(s.outbox, net, ws, ErrorEvent(InvalidFormat)))
    else
      var u := s.users[ws];
      var e := MessageEvent(Trim(content.value.s), u.username, u.room, now);
      s.(outbox := Deliver(s.outbox, Recipients(s.rooms, u.room, net, None), e))
  }

  /** `handleLeave`: silently ignored for a connection that never joined.
      When the room or the username cannot be converted to a string, a log
      line after every send throws and the leaver is also sent the message
      listener's invalid-format error. */
  function LeaveStep(s: State, ws: Conn, net: Net, now: Timestamp): (s': State)
    ensures ws !in s.users ==> s' == s
    ensures ws !in s'.users && s'.users == s.users - {ws}
  {
    if ws !in s.users then s
    else
      var u := s.users[ws];
      var rooms' := RemoveMember(s.rooms, u.room, ws);
      var o := SendTo(s.outbox, net, ws, LeaveEvent(u.username, u.room, now));
      var announced := Deliver(o, Recipients(rooms', u.room, net, Some(ws)), UserLeftEvent(u.username, u.room, now));
      State(s.users - {ws}, rooms',
            if ConversionThrows(u.username) || ConversionThrows(u.room) then
              SendTo(announced, net, ws, ErrorEvent(InvalidFormat))
            else announced)
  }

  /** The socket's `close` listener: the cleanup of a leave, without the
      confirmation to the closed socket. */
  function CloseStep(s: State, ws: Conn, net: Net, now: Timestamp): (s': State)
    ensures ws !in s.users ==> s' == s
    ensures ws !in s'.users && s'.users == s.users - {ws}
  {
    if ws !in s.users then s
    else
      var u := s.users[ws];
      var rooms' := RemoveMember(s.rooms, u.room, ws);
      State(s.users - {ws}, rooms',
            Deliver(s.outbox, Recipients(rooms', u.room, net, Some(ws)), UserLeftEvent(u.username, u.room, now)))
  }

  /** The close listener throws, after its sends, at the log line of
      `broadcastToRoom` that names the room, and nothing catches it there. */
  predicate CloseEscapes(s: State, ws: Conn)
  {
    ws in s.users && ConversionThrows(s.users[ws].room)
  }

  /** The socket's `message` listener together with `handleMessage`. */
  function FrameStep(s: State, ws: Conn, f: Frame, net: Net, now: Timestamp): (s': State)
    ensures (f.UnknownFrame? || f.Malformed?) ==>
              s'.users == s.users && s'.rooms == s.rooms &&
              s'.outbox == SendTo(s.outbox, net, ws, ErrorEvent(if f.Malformed? then InvalidFormat else UnknownType))
  {
    match f
    case JoinFrame(username, room) => JoinStep(s, ws, username, room, net, now)
    case MessageFrame(content) => ChatStep(s, ws, content, net, now)
    case LeaveFrame => LeaveStep(s, ws, net, now)
    case UnknownFrame => s.(outbox := SendTo(s.outbox, net, ws, ErrorEvent(UnknownType)))
    case Malformed => s.(outbox := SendTo(s.outbox, net, ws, ErrorEvent(InvalidFormat)))
  }
}
