/** The `WebSocketManager` class of backend/src/config/ws.ts: its two maps,
    changed in place by the socket listeners, and the transport's outbox.
    Every listener is proved to perform the step that module ChatServer
    defines for it, and to keep every room member recorded under its room;
    module ChatServerProperties proves when the full agreement of the two
    maps survives. */
module WsManager {
  import opened Js
  import opened ChatServer
  import opened ChatServerProperties

  class WebSocketManager {
    /** connection -> identity, from its last successful join */
    var users: map<Conn, User>
    /** room -> its member connections */
    var rooms: map<Value, set<Conn>>
    /** what the transport has delivered to each connection */
    var outbox: Outbox

    function State(): State
      reads this
    {
      ChatServer.State(users, rooms, outbox)
    }

    /** The invariant every listener keeps, whatever the frames. */
    ghost predicate Valid()
      reads this
    {
      MembersRecorded(users, rooms)
    }

    /** A manager with no connections and no rooms. */
    constructor ()
      ensures Valid() && Consistent(users, rooms) && Pruned(rooms)
      ensures State() == Initial()
    {
      users, rooms, outbox := map[], map[], map[];
    }

    /** The `message` listener: a parsed frame goes to `handleMessage`,
        which routes it by type; a frame that did not parse is answered
        with an error. */
    method OnMessage(ws: Conn, f: Frame, net: Net, now: Timestamp)
      requires Valid()
      modifies this
      ensures Valid()
      ensures State() == FrameStep(old(State()), ws, f, net, now)
    {
      FrameKeepsInvariants(State(), ws, f, net, now);
      match f
      case JoinFrame(username, room) => HandleJoin(ws, username, room, net, now);
      case MessageFrame(content) => HandleChatMessage(ws, content, net, now);
      case LeaveFrame => HandleLeave(ws, net, now);
      case UnknownFrame => SendToClient(ws, ErrorEvent(UnknownType), net);
      case Malformed => SendToClient(ws, ErrorEvent(InvalidFormat), net);
    }

    /** `handleJoin`, answering as the message listener's catch does when
        building the user id, or a log line naming the room, throws. */
    method HandleJoin(ws: Conn, username: Option<Value>, room: Option<Value>, net: Net, now: Timestamp)
      requires Valid()
      modifies this
      ensures Valid()
      ensures State() == JoinStep(old(State()), ws, username, room, net, now)
    {
      ghost var s0 := State();
      if !TruthyField(username) {
        SendToClient(ws, ErrorEvent(UsernameRequired), net);
        return;
      }
      var name, r := username.value, JoinRoom(room);
      LeavePreviousRoom(ws);
      if ConversionThrows(name) {
        // `${username}_${Date.now()}` throws before the record is replaced
        SendToClient(ws, ErrorEvent(InvalidFormat), net);
        JoinKeepsConsistent(s0, ws, username, room, net, now);
        return;
      }
      users := users[ws := User(UserId(name, now), name, r)];
      AddToRoom(r, ws);
      ghost var seated := rooms;
      assert seated == AddMember(Unseat(s0.users, s0.rooms, ws), r, ws);
      SendToClient(ws, JoinEvent(name, r, now), net);
      ghost var confirmed := outbox;
      assert confirmed == SendTo(s0.outbox, net, ws, JoinEvent(name, r, now));
      var _, threw := BroadcastToRoom(r, UserJoinedEvent(name, r, now), Some(ws), net);
      ghost var announced := outbox;
      if threw {
        SendToClient(ws, ErrorEvent(InvalidFormat), net);
      }
      assert rooms == seated;
      JoinStepIs(s0, ws, username, room, net, now, users, seated, announced, outbox);
    }

    /** Out of the room the user record names; the key stays, even when
        its set becomes empty. */
    method LeavePreviousRoom(ws: Conn)
      modifies this`rooms
      ensures rooms == Unseat(users, old(rooms), ws)
    {
      if ws in users {
        var previous := users[ws].room;
        if previous in rooms {
          rooms := rooms[previous := rooms[previous] - {ws}];
        }
      }
    }

    /** Into `room`, creating its set when the key is absent. */
    method AddToRoom(room: Value, ws: Conn)
      modifies this`rooms
      ensures rooms == AddMember(old(rooms), room, ws)
    {
      if room !in rooms {
        rooms := rooms[room := {}];
      }
      rooms := rooms[room := rooms[room] + {ws}];
    }

    method HandleChatMessage(ws: Conn, content: Option<Value>, net: Net, now: Timestamp)
      requires Valid()
      modifies this
      ensures Valid()
      ensures State() == ChatStep(old(State()), ws, content, net, now)
    {
      if ws !in users {
        SendToClient(ws, ErrorEvent(JoinFirst), net);
        return;
      }
      var user := users[ws];
      if !TruthyField(content) {
        SendToClient(ws, ErrorEvent(EmptyContent), net);
        return;
      }
      if !content.value.Str? {
        // `trim` is not a function of this value: the TypeError reaches
        // the catch of the message listener.
        SendToClient(ws, ErrorEvent(InvalidFormat), net);
        return;
      }
      var text := Trim(content.value.s);
      if text == "" {
        SendToClient(ws, ErrorEvent(EmptyContent), net);
        return;
      }
      if ConversionThrows(user.username) || ConversionThrows(user.room) {
        // the log line naming the user and the room throws
        SendToClient(ws, ErrorEvent(InvalidFormat), net);
        return;
      }
      var _, _ := BroadcastToRoom(user.room, MessageEvent(text, user.username, user.room, now), None, net);
    }

    method HandleLeave(ws: Conn, net: Net, now: Timestamp)
      requires Valid()
      modifies this
      ensures Valid()
      ensures State() == LeaveStep(old(State()), ws, net, now)
    {
      ghost var s0 := State();
      if ws !in users {
        return;
      }
      var user := users[ws];
      RemoveFromRoom(user.room, ws);
      ghost var left := rooms;
      users := users - {ws};
      SendToClient(ws, LeaveEvent(user.username, user.room, now), net);
      ghost var confirmed := outbox;
      assert confirmed == SendTo(s0.outbox, net, ws, LeaveEvent(user.username, user.room, now));
      var _, threw := BroadcastToRoom(user.room, UserLeftEvent(user.username, user.room, now), Some(ws), net);
      ghost var announced := outbox;
      if threw || ConversionThrows(user.username) {
        // `broadcastToRoom`'s log line, or the one after it, throws
        SendToClient(ws, ErrorEvent(InvalidFormat), net);
      }
      assert rooms == left;
      RemovalIs(s0, ws, net, now, users, left, confirmed, announced, outbox);
    }

    /** The `close` listener. `escaped` reports that its broadcast threw,
        after every send, with no handler to catch it. */
    method OnClose(ws: Conn, net: Net, now: Timestamp) returns (escaped: bool)
      requires Valid()
      modifies this
      ensures Valid()
      ensures State() == CloseStep(old(State()), ws, net, now)
      ensures escaped == CloseEscapes(old(State()), ws)
    {
      ghost var s0 := State();
      if ws !in users {
        return false;
      }
      var user := users[ws];
      RemoveFromRoom(user.room, ws);
      ghost var left := rooms;
      users := users - {ws};
      var _, threw := BroadcastToRoom(user.room, UserLeftEvent(user.username, user.room, now), Some(ws), net);
      escaped := threw;
      assert rooms == left;
      RemovalIs(s0, ws, net, now, users, left, s0.outbox, outbox, outbox);
    }

    /** The removal shared by leave and close: delete the connection from
        its room and the room from the map once it is empty. */
    method RemoveFromRoom(room: Value, ws: Conn)
      modifies this`rooms
      ensures rooms == RemoveMember(old(rooms), room, ws)
    {
      if room in rooms {
        var members := rooms[room] - {ws};
        rooms := rooms[room := members];
        if |members| == 0 {
          rooms := rooms - {room};
        }
      }
    }

    method SendToClient(ws: Conn, e: Event, net: Net)
      modifies this`outbox
      ensures outbox == SendTo(old(outbox), net, ws, e)
    {
      if ws in net.open && ws !in net.failing {
        outbox := outbox[ws := Received(outbox, ws) + [e]];
      }
    }

    /** Fan-out: one send per member of the room that is not excluded and
        whose socket is OPEN; a send that throws is skipped and not counted.
        Neither table changes. `threw` reports that the closing log line,
        which names the room, throws once the sends are done. */
    method BroadcastToRoom(room: Value, e: Event, exclude: Option<Conn>, net: Net) returns (sentCount: nat, threw: bool)
      modifies this`outbox
      ensures outbox == Deliver(old(outbox), Recipients(rooms, room, net, exclude), e)
      ensures sentCount == |Recipients(rooms, room, net, exclude)|
      ensures threw == ConversionThrows(room)
    {
      sentCount, threw := 0, ConversionThrows(room);
      if room !in rooms || |rooms[room]| == 0 {
        assert Recipients(rooms, room, net, exclude) == {};
        DeliverNone(outbox, e);
        return;
      }
      var members := rooms[room];
      var pending := members;
      ghost var sent: set<Conn> := {};
      DeliverNone(outbox, e);
      while pending != {}
        invariant pending <= members
        invariant forall c :: c in sent <==> c in members && c !in pending && Eligible(net, exclude, c)
        invariant outbox == Deliver(old(outbox), sent, e)
        invariant sentCount == |sent|
        decreases pending
      {
        var c :| c in pending;
        if Some(c) != exclude && c in net.open {
          if c !in net.failing {
            DeliverOneMore(old(outbox), sent, c, e);
            outbox := outbox[c := Received(outbox, c) + [e]];
            sent := sent + {c};
            sentCount := sentCount + 1;
          }
        }
        pending := pending - {c};
      }
      RecipientsAre(rooms, room, net, exclude, sent);
    }

    /** `getRoomUsers`: the usernames of the room's members that have a
        user record, one per member, in the order the members were visited
        (`order`). */
    method GetRoomUsers(room: Value) returns (names: seq<Value>, ghost order: seq<Conn>)
      ensures |names| == |order|
      ensures forall i :: 0 <= i < |order| ==> order[i] in users && names[i] == users[order[i]].username
      ensures forall i, j :: 0 <= i < j < |order| ==> order[i] != order[j]
      ensures forall c :: c in order <==> Member(rooms, room, c) && c in users
      ensures Valid() ==> forall c :: c in order <==> Member(rooms, room, c)
      ensures forall i :: 0 <= i < |names| ==>
                exists c :: Member(rooms, room, c) && c in users && names[i] == users[c].username
      ensures forall c :: Member(rooms, room, c) && c in users ==> users[c].username in names
      ensures room !in rooms ==> names == []
    {
      names, order := [], [];
      if room !in rooms {
        return;
      }
      var pending := rooms[room];
      while pending != {}
        invariant pending <= rooms[room]
        invariant |names| == |order|
        invariant forall i :: 0 <= i < |order| ==> order[i] in users && names[i] == users[order[i]].username
        invariant forall i, j :: 0 <= i < j < |order| ==> order[i] != order[j]
        invariant forall c :: c in order <==> c in rooms[room] - pending && c in users
        decreases pending
      {
        var c :| c in pending;
        pending := pending - {c};
        if c in users {
          names := names + [users[c].username];
          order := order + [c];
        }
      }
      assert forall i :: 0 <= i < |names| ==> Member(rooms, room, order[i]) && names[i] == users[order[i]].username;
      forall c | Member(rooms, room, c) && c in users
        ensures users[c].username in names
      {
        var i :| 0 <= i < |order| && order[i] == c;
        assert names[i] == users[c].username;
      }
    }

    /** `getAllRooms`: every room key, each once. */
    method GetAllRooms() returns (all: seq<Value>)
      ensures forall r :: r in all <==> r in rooms
      ensures forall i, j :: 0 <= i < j < |all| ==> all[i] != all[j]
    {
      all := [];
      var pending := rooms.Keys;
      while pending != {}
        invariant pending <= rooms.Keys
        invariant forall r :: r in all <==> r in rooms && r !in pending
        invariant forall i, j :: 0 <= i < j < |all| ==> all[i] != all[j]
        decreases pending
      {
        var r :| r in pending;
        all := all + [r];
        pending := pending - {r};
      }
    }

    /** `getUserCount`: the number of user records, which is the number of
        connections that are members of a room. */
    function GetUserCount(): (n: nat)
      reads this
      ensures n == |users|
      ensures Consistent(users, rooms) ==> n == |Members(rooms)|
    {
      UsersAreMembersWhenConsistent(users, rooms);
      |users|
    }
  }

  /** A join that gets past building the user id, component by component:
      the state the listener builds is the join step's, and it keeps every
      member recorded. `announced` is the outbox once the broadcast is done. */
  lemma JoinStepIs(s: State, ws: Conn, username: Option<Value>, room: Option<Value>, net: Net, now: Timestamp,
                   users: map<Conn, User>, rooms: map<Value, set<Conn>>, announced: Outbox, outbox: Outbox)
    requires MembersRecorded(s.users, s.rooms) && TruthyField(username) && !ConversionThrows(username.value)
    requires users == s.users[ws := User(UserId(username.value, now), username.value, JoinRoom(room))]
    requires rooms == AddMember(Unseat(s.users, s.rooms, ws), JoinRoom(room), ws)
    requires announced == Deliver(SendTo(s.outbox, net, ws, JoinEvent(username.value, JoinRoom(room), now)),
                                  Recipients(rooms, JoinRoom(room), net, Some(ws)),
                                  UserJoinedEvent(username.value, JoinRoom(room), now))
    requires outbox == if ConversionThrows(JoinRoom(room)) then SendTo(announced, net, ws, ErrorEvent(InvalidFormat)) else announced
    ensures State(users, rooms, outbox) == JoinStep(s, ws, username, room, net, now)
    ensures MembersRecorded(users, rooms)
  {
    JoinKeepsConsistent(s, ws, username, room, net, now);
  }

  /** The cleanup of a leave or a close, component by component: `before`
      is the outbox before the departure notice goes out, which is the
      leave confirmation for a leave and nothing for a close, and
      `announced` the outbox after it. */
  lemma RemovalIs(s: State, ws: Conn, net: Net, now: Timestamp,
                  users: map<Conn, User>, rooms: map<Value, set<Conn>>, before: Outbox, announced: Outbox, outbox: Outbox)
    requires MembersRecorded(s.users, s.rooms) && ws in s.users
    requires users == s.users - {ws}
    requires rooms == RemoveMember(s.rooms, s.users[ws].room, ws)
    requires announced == Deliver(before, Recipients(rooms, s.users[ws].room, net, Some(ws)),
                                  UserLeftEvent(s.users[ws].username, s.users[ws].room, now))
    ensures before == SendTo(s.outbox, net, ws, LeaveEvent(s.users[ws].username, s.users[ws].room, now)) &&
            outbox == (if ConversionThrows(s.users[ws].username) || ConversionThrows(s.users[ws].room)
                       then SendTo(announced, net, ws, ErrorEvent(InvalidFormat)) else announced) ==>
              State(users, rooms, outbox) == LeaveStep(s, ws, net, now)
    ensures before == s.outbox && outbox == announced ==> State(users, rooms, outbox) == CloseStep(s, ws, net, now)
    ensures MembersRecorded(users, rooms)
  {
    LeaveKeepsInvariants(s, ws, net, now);
  }

  /** A member `broadcastToRoom` sends to. */
  predicate Eligible(net: Net, exclude: Option<Conn>, c: Conn)
  {
    Some(c) != exclude && CanSend(net, c)
  }

  lemma RecipientsAre(rooms: map<Value, set<Conn>>, room: Value, net: Net, exclude: Option<Conn>, sent: set<Conn>)
    requires room in rooms
    requires forall c :: c in sent <==> c in rooms[room] && Eligible(net, exclude, c)
    ensures sent == Recipients(rooms, room, net, exclude)
  {
  }

  lemma UsersAreMembersWhenConsistent(users: map<Conn, User>, rooms: map<Value, set<Conn>>)
    ensures Consistent(users, rooms) ==> |users| == |Members(rooms)|
  {
    if Consistent(users, rooms) {
      UsersAreMembers(users, rooms);
      assert |users| == |users.Keys|;
    }
  }

  /** Delivering to nobody changes nothing. */
  lemma DeliverNone(o: Outbox, e: Event)
    ensures Deliver(o, {}, e) == o
  {
    assert Deliver(o, {}, e).Keys == o.Keys;
    forall c | c in o ensures Deliver(o, {}, e)[c] == o[c] {
      DeliverReceived(o, {}, e, c);
    }
  }

  /** Delivering to one more connection extends the outbox at that
      connection only. */
  lemma DeliverOneMore(o: Outbox, sent: set<Conn>, c: Conn, e: Event)
    requires c !in sent
    ensures Deliver(o, sent + {c}, e) == Deliver(o, sent, e)[c := Received(Deliver(o, sent, e), c) + [e]]
  {
    var a := Deliver(o, sent + {c}, e);
    var b := Deliver(o, sent, e)[c := Received(Deliver(o, sent, e), c) + [e]];
    assert a.Keys == b.Keys;
    forall d | d in a.Keys ensures a[d] == b[d] {
      DeliverReceived(o, sent, e, d);
    }
  }
}
