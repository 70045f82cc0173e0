/** What the handlers of backend/src/config/ws.ts promise, proved about the
    step functions of module ChatServer: the agreement of `users` and
    `rooms`, single-room membership, who receives each event, and the
    cleanup shared by leave and close. */
module ChatServerProperties {
  import opened Js
  import opened ChatServer

  // ---------------------------------------------------------------------
  // Join

  /** Every join keeps each member of a room recorded under that room.
      It keeps `users` and `rooms` in full agreement too, except when the
      username cannot be converted to a string on a connection that has
      joined before (`JoinConversionFails`). After a successful join the
      connection is a member of the named room (`general` when none is
      named) and of no other room. */
  lemma JoinKeepsConsistent(s: State, ws: Conn, username: Option<Value>, room: Option<Value>, net: Net, now: Timestamp)
    requires MembersRecorded(s.users, s.rooms)
    ensures var s' := JoinStep(s, ws, username, room, net, now); MembersRecorded(s'.users, s'.rooms)
    ensures Consistent(s.users, s.rooms) && !(TruthyField(username) && ConversionThrows(username.value) && ws in s.users) ==>
              var s' := JoinStep(s, ws, username, room, net, now); Consistent(s'.users, s'.rooms)
    ensures TruthyField(username) && !ConversionThrows(username.value) ==>
              var s' := JoinStep(s, ws, username, room, net, now);
              && s'.users[ws].room == JoinRoom(room)
              && forall r :: Member(s'.rooms, r, ws) <==> r == JoinRoom(room)
  {
    var s' := JoinStep(s, ws, username, room, net, now);
    if TruthyField(username) {
      var R := JoinRoom(room);
      var detached := Unseat(s.users, s.rooms, ws);
      if ConversionThrows(username.value) {
        assert s'.users == s.users && s'.rooms == detached;
        forall r, c | Member(s'.rooms, r, c)
          ensures c in s'.users && s'.users[c].room == r
        {
          assert Member(s.rooms, r, c);
        }
        if Consistent(s.users, s.rooms) && ws !in s.users {
          assert s'.rooms == s.rooms;
        }
      } else {
        assert s'.rooms == AddMember(detached, R, ws);
        forall r, c | Member(s'.rooms, r, c)
          ensures c in s'.users && s'.users[c].room == r
        {
          if c != ws || r != R {
            assert Member(s.rooms, r, c);
          }
        }
        if RecordsSeated(s.users, s.rooms) {
          forall c | c in s'.users
            ensures Member(s'.rooms, s'.users[c].room, c)
          {
            if c != ws {
              assert Member(s.rooms, s.users[c].room, c);
            }
          }
        }
      }
    }
  }

  /** A username that cannot be converted to a string: the connection has
      already left the room its record names when building the user id
      throws, so the record stays and names a room the connection is no
      longer in, the room's key stays, and the frame is answered as an
      invalid format. */
  lemma JoinConversionFails(s: State, ws: Conn, username: Option<Value>, room: Option<Value>, net: Net, now: Timestamp)
    requires TruthyField(username) && ConversionThrows(username.value)
    ensures var s' := JoinStep(s, ws, username, room, net, now);
            && s'.users == s.users
            && s'.rooms.Keys == s.rooms.Keys
            && (forall r, c :: Member(s'.rooms, r, c) <==> Member(s.rooms, r, c) && !(c == ws && ws in s.users && r == s.users[ws].room))
            && s'.outbox == SendTo(s.outbox, net, ws, ErrorEvent(InvalidFormat))
            && (ws in s.users ==> !RecordsSeated(s'.users, s'.rooms))
  {
    var s' := JoinStep(s, ws, username, room, net, now);
    assert s'.rooms == Unseat(s.users, s.rooms, ws);
    if ws in s.users {
      assert !Member(s'.rooms, s'.users[ws].room, ws);
    }
  }

  /** Connection 1 is in `general` and sends a join whose username is
      `{"toString": 1}`: afterwards its record still names `general`, but
      `general` no longer lists it, so the tables disagree. */
  lemma ObjectUsernameBreaksAgreement()
    ensures var alice := User(UserId(Str("alice"), 0), Str("alice"), DefaultRoom);
            var s := State(map[1 := alice], map[DefaultRoom := {1}], map[]);
            var s' := JoinStep(s, 1, Some(Compound(0, true)), Some(Str("random")), Net({1}, {}), 1);
            && Consistent(s.users, s.rooms)
            && s'.users[1].room == DefaultRoom && DefaultRoom in s'.rooms && 1 !in s'.rooms[DefaultRoom]
            && !Consistent(s'.users, s'.rooms)
            && Received(s'.outbox, 1) == [ErrorEvent(InvalidFormat)]
  {
    var alice := User(UserId(Str("alice"), 0), Str("alice"), DefaultRoom);
    var s := State(map[1 := alice], map[DefaultRoom := {1}], map[]);
    JoinConversionFails(s, 1, Some(Compound(0, true)), Some(Str("random")), Net({1}, {}), 1);
  }

  /** A join into a room `{"toString": 1}` completes, and the joiner is then
      sent an invalid-format error as well; when that connection closes,
      the close listener throws with nothing to catch it. */
  lemma ObjectRoomEscapesClose(net: Net, now: Timestamp)
    requires CanSend(net, 1)
    ensures var R := Compound(0, true);
            var s := JoinStep(Initial(), 1, Some(Str("alice")), Some(R), net, now);
            && Member(s.rooms, R, 1) && s.users[1].room == R
            && Received(s.outbox, 1) == [JoinEvent(Str("alice"), R, now), ErrorEvent(InvalidFormat)]
            && CloseEscapes(s, 1)
  {
    JoinNotifications(Initial(), 1, Some(Str("alice")), Some(Compound(0, true)), net, now, 1);
  }

  /** The corrected join keeps `users` and `rooms` in full agreement on
      every frame, and never stores a value that cannot be converted to a
      string, so no close listener can throw. */
  lemma ValidatedJoinKeepsConsistent(s: State, ws: Conn, username: Option<Value>, room: Option<Value>, net: Net, now: Timestamp)
    requires Consistent(s.users, s.rooms)
    ensures var s' := ValidatedJoinStep(s, ws, username, room, net, now); Consistent(s'.users, s'.rooms)
    ensures Convertible(s.users) ==>
              var s' := ValidatedJoinStep(s, ws, username, room, net, now);
              Convertible(s'.users) && forall c :: !CloseEscapes(s', c)
  {
    var s' := ValidatedJoinStep(s, ws, username, room, net, now);
    if !(TruthyField(username) && (ConversionThrows(username.value) || ConversionThrows(JoinRoom(room)))) {
      JoinKeepsConsistent(s, ws, username, room, net, now);
      if Convertible(s.users) && TruthyField(username) {
        assert s'.users == s.users[ws := User(UserId(username.value, now), username.value, JoinRoom(room))];
      }
    }
  }

  /** Re-joining the room one is already in leaves every member set as it
      was: the connection is there once, before and after. */
  lemma JoinSameRoomKeepsRooms(s: State, ws: Conn, username: Option<Value>, room: Option<Value>, net: Net, now: Timestamp)
    requires Consistent(s.users, s.rooms)
    requires ws in s.users && s.users[ws].room == JoinRoom(room) && TruthyField(username) && !ConversionThrows(username.value)
    ensures JoinStep(s, ws, username, room, net, now).rooms == s.rooms
  {
    var R := JoinRoom(room);
    assert Member(s.rooms, R, ws);
    assert DetachMember(s.rooms, R, ws)[R] + {ws} == s.rooms[R];
  }

  /** Moving to another room takes the connection out of the old room's set
      but keeps that room's key, empty or not; no third room changes. */
  lemma JoinMovesWithoutPruning(s: State, ws: Conn, username: Option<Value>, room: Option<Value>, net: Net, now: Timestamp)
    requires ws in s.users && s.users[ws].room in s.rooms && s.users[ws].room != JoinRoom(room)
    requires TruthyField(username) && !ConversionThrows(username.value)
    ensures var s' := JoinStep(s, ws, username, room, net, now);
            var old_ := s.users[ws].room;
            && old_ in s'.rooms && s'.rooms[old_] == s.rooms[old_] - {ws}
            && s'.rooms[JoinRoom(room)] == (if JoinRoom(room) in s.rooms then s.rooms[JoinRoom(room)] else {}) + {ws}
            && forall q :: q != old_ && q != JoinRoom(room) ==> (q in s'.rooms <==> q in s.rooms) && (q in s.rooms ==> s'.rooms[q] == s.rooms[q])
  {
  }

  /** So join does not keep empty rooms pruned: alice, alone in `general`,
      moves to `random`, and `general` stays behind with no members. */
  lemma JoinCanLeaveEmptyRoom()
    ensures var alice := User(UserId(Str("alice"), 0), Str("alice"), DefaultRoom);
            var s := State(map[1 := alice], map[DefaultRoom := {1}], map[]);
            var s' := JoinStep(s, 1, Some(Str("alice")), Some(Str("random")), Net({1}, {}), 1);
            && Consistent(s.users, s.rooms) && Pruned(s.rooms)
            && DefaultRoom in s'.rooms && s'.rooms[DefaultRoom] == {}
            && !Pruned(s'.rooms)
  {
    var alice := User(UserId(Str("alice"), 0), Str("alice"), DefaultRoom);
    var s := State(map[1 := alice], map[DefaultRoom := {1}], map[]);
    var s' := JoinStep(s, 1, Some(Str("alice")), Some(Str("random")), Net({1}, {}), 1);
    assert Str("random") != DefaultRoom;
    JoinMovesWithoutPruning(s, 1, Some(Str("alice")), Some(Str("random")), Net({1}, {}), 1);
    assert s'.rooms[DefaultRoom] == {};
  }

  /** Who hears of a join: the joiner gets the `join` confirmation, every
      other OPEN member of the room gets `user_joined`, and nobody else gets
      anything; in particular the joiner never gets its own `user_joined`.
      When the room cannot be converted to a string, the joiner is sent an
      invalid-format error after its confirmation. */
  lemma JoinNotifications(s: State, ws: Conn, username: Option<Value>, room: Option<Value>, net: Net, now: Timestamp, c: Conn)
    requires TruthyField(username) && !ConversionThrows(username.value)
    ensures var s' := JoinStep(s, ws, username, room, net, now);
            var name, R := username.value, JoinRoom(room);
            Received(s'.outbox, c) == Received(s.outbox, c) +
              if c == ws then
                (if CanSend(net, ws) then [JoinEvent(name, R, now)] + (if ConversionThrows(R) then [ErrorEvent(InvalidFormat)] else [])
                 else [])
              else if Member(s.rooms, R, c) && CanSend(net, c) then [UserJoinedEvent(name, R, now)]
              else []
  {
    var name, R := username.value, JoinRoom(room);
    var s' := JoinStep(s, ws, username, room, net, now);
    var detached := Unseat(s.users, s.rooms, ws);
    var rooms' := AddMember(detached, R, ws);
    var o := SendTo(s.outbox, net, ws, JoinEvent(name, R, now));
    var announced := Deliver(o, Recipients(rooms', R, net, Some(ws)), UserJoinedEvent(name, R, now));
    DeliverReceived(o, Recipients(rooms', R, net, Some(ws)), UserJoinedEvent(name, R, now), c);
    assert c != ws ==> (c in Recipients(rooms', R, net, Some(ws)) <==> Member(s.rooms, R, c) && CanSend(net, c));
    assert s'.outbox == if ConversionThrows(R) then SendTo(announced, net, ws, ErrorEvent(InvalidFormat)) else announced;
  }

  // ---------------------------------------------------------------------
  // Chat messages

  /** The rejected chat frames: each yields one error to the sender (if its
      socket takes it) and changes nothing else. Empty or whitespace-only
      content is refused; truthy content that is not a string makes `trim`
      throw, which the message listener reports as an invalid format. */
  lemma ChatRejections(s: State, ws: Conn, content: Option<Value>, net: Net, now: Timestamp)
    ensures ws !in s.users ==>
              ChatStep(s, ws, content, net, now).outbox == SendTo(s.outbox, net, ws, ErrorEvent(JoinFirst))
    ensures ws in s.users && (!TruthyField(content) ||
                              (content.value.Str? && forall k :: 0 <= k < |content.value.s| ==> IsWhitespace(content.value.s[k]))) ==>
              ChatStep(s, ws, content, net, now).outbox == SendTo(s.outbox, net, ws, ErrorEvent(EmptyContent))
    ensures ws in s.users && TruthyField(content) && !content.value.Str? ==>
              ChatStep(s, ws, content, net, now).outbox == SendTo(s.outbox, net, ws, ErrorEvent(InvalidFormat))
  {
    if content.Some? && content.value.Str? {
      TrimEmptyIffBlank(content.value.s);
    }
  }

  /** Valid content from a user whose username or room cannot be
      converted to a string: the log line naming them throws before the
      broadcast, and the message listener answers with an invalid-format
      error; nothing else changes. */
  lemma ChatConversionFails(s: State, ws: Conn, text: string, net: Net, now: Timestamp)
    requires ws in s.users && (ConversionThrows(s.users[ws].username) || ConversionThrows(s.users[ws].room))
    requires exists k :: 0 <= k < |text| && !IsWhitespace(text[k])
    ensures ChatStep(s, ws, Some(Str(text)), net, now).outbox == SendTo(s.outbox, net, ws, ErrorEvent(InvalidFormat))
  {
    TrimEmptyIffBlank(text);
  }

  /** A valid chat frame reaches every OPEN member of the sender's current
      room, the sender included, and no one outside it; the content is sent
      trimmed, and is neither empty nor padded with whitespace. */
  lemma ChatBroadcast(s: State, ws: Conn, text: string, net: Net, now: Timestamp, c: Conn)
    requires ws in s.users && !ConversionThrows(s.users[ws].username) && !ConversionThrows(s.users[ws].room)
    requires exists k :: 0 <= k < |text| && !IsWhitespace(text[k])
    ensures var u := s.users[ws];
            var e := MessageEvent(Trim(text), u.username, u.room, now);
            Received(ChatStep(s, ws, Some(Str(text)), net, now).outbox, c) ==
              Received(s.outbox, c) + (if Member(s.rooms, u.room, c) && CanSend(net, c) then [e] else [])
    ensures Trim(text) != "" && !IsWhitespace(Trim(text)[0]) && !IsWhitespace(Trim(text)[|Trim(text)| - 1])
    ensures Consistent(s.users, s.rooms) && CanSend(net, ws) ==> Member(s.rooms, s.users[ws].room, ws)
  {
    TrimEmptyIffBlank(text);
    TrimIsSlice(text);
    var u := s.users[ws];
    var e := MessageEvent(Trim(text), u.username, u.room, now);
    DeliverReceived(s.outbox, Recipients(s.rooms, u.room, net, None), e, c);
  }

  // ---------------------------------------------------------------------
  // Leave and close

  /** Leave and close apply the same cleanup: the user record goes, the
      connection leaves its room, and the room key goes with its last
      member. Their outboxes differ only at the leaving connection. */
  lemma LeaveAndCloseCleanUpAlike(s: State, ws: Conn, net: Net, now: Timestamp, c: Conn)
    requires ws in s.users
    ensures var l := LeaveStep(s, ws, net, now);
            var k := CloseStep(s, ws, net, now);
            var R := s.users[ws].room;
            && l.users == k.users == s.users - {ws}
            && l.rooms == k.rooms
            && (R in k.rooms <==> R in s.rooms && s.rooms[R] - {ws} != {})
            && (R in k.rooms ==> k.rooms[R] == s.rooms[R] - {ws})
            && (forall q :: q != R ==> (q in k.rooms <==> q in s.rooms) && (q in k.rooms ==> k.rooms[q] == s.rooms[q]))
            && (c != ws ==> Received(l.outbox, c) == Received(k.outbox, c))
  {
    var u := s.users[ws];
    var rooms' := RemoveMember(s.rooms, u.room, ws);
    var o := SendTo(s.outbox, net, ws, LeaveEvent(u.username, u.room, now));
    var e := UserLeftEvent(u.username, u.room, now);
    var announced := Deliver(o, Recipients(rooms', u.room, net, Some(ws)), e);
    DeliverReceived(o, Recipients(rooms', u.room, net, Some(ws)), e, c);
    DeliverReceived(s.outbox, Recipients(rooms', u.room, net, Some(ws)), e, c);
    assert c != ws ==> Received(LeaveStep(s, ws, net, now).outbox, c) == Received(announced, c) by {
      if c != ws && (ConversionThrows(u.username) || ConversionThrows(u.room)) {
        assert LeaveStep(s, ws, net, now).outbox == SendTo(announced, net, ws, ErrorEvent(InvalidFormat));
      }
    }
  }

  /** Who hears of a leave: the leaver gets the `leave` confirmation, the
      remaining OPEN members of its room get `user_left`, nobody else gets
      anything. When the room or username cannot be converted to a string,
      the leaver is then sent an invalid-format error as well. */
  lemma LeaveNotifications(s: State, ws: Conn, net: Net, now: Timestamp, c: Conn)
    requires ws in s.users
    ensures var u := s.users[ws];
            Received(LeaveStep(s, ws, net, now).outbox, c) == Received(s.outbox, c) +
              if c == ws then
                (if CanSend(net, ws) then
                   [LeaveEvent(u.username, u.room, now)] +
                   (if ConversionThrows(u.username) || ConversionThrows(u.room) then [ErrorEvent(InvalidFormat)] else [])
                 else [])
              else if Member(s.rooms, u.room, c) && CanSend(net, c) then [UserLeftEvent(u.username, u.room, now)]
              else []
  {
    var u := s.users[ws];
    var rooms' := RemoveMember(s.rooms, u.room, ws);
    var o := SendTo(s.outbox, net, ws, LeaveEvent(u.username, u.room, now));
    var announced := Deliver(o, Recipients(rooms', u.room, net, Some(ws)), UserLeftEvent(u.username, u.room, now));
    DeliverReceived(o, Recipients(rooms', u.room, net, Some(ws)), UserLeftEvent(u.username, u.room, now), c);
    assert c != ws ==> (c in Recipients(rooms', u.room, net, Some(ws)) <==> Member(s.rooms, u.room, c) && CanSend(net, c));
    assert LeaveStep(s, ws, net, now).outbox ==
           if ConversionThrows(u.username) || ConversionThrows(u.room) then SendTo(announced, net, ws, ErrorEvent(InvalidFormat)) else announced;
  }

  /** Who hears of a close: the remaining OPEN members of the room get
      `user_left`; the closed connection itself is sent nothing. */
  lemma CloseNotifications(s: State, ws: Conn, net: Net, now: Timestamp, c: Conn)
    requires ws in s.users
    ensures var u := s.users[ws];
            Received(CloseStep(s, ws, net, now).outbox, c) == Received(s.outbox, c) +
              if c != ws && Member(s.rooms, u.room, c) && CanSend(net, c) then [UserLeftEvent(u.username, u.room, now)]
              else []
  {
    var u := s.users[ws];
    var rooms' := RemoveMember(s.rooms, u.room, ws);
    DeliverReceived(s.outbox, Recipients(rooms', u.room, net, Some(ws)), UserLeftEvent(u.username, u.room, now), c);
    assert c != ws ==> (c in Recipients(rooms', u.room, net, Some(ws)) <==> Member(s.rooms, u.room, c) && CanSend(net, c));
  }

  /** A second close of the same connection finds no user record and
      changes nothing, so closing is idempotent. */
  lemma CloseIdempotent(s: State, ws: Conn, net: Net, net': Net, now: Timestamp, now': Timestamp)
    ensures CloseStep(CloseStep(s, ws, net, now), ws, net', now') == CloseStep(s, ws, net, now)
  {
    assert ws !in CloseStep(s, ws, net, now).users;
  }

  /** When the last member of a room leaves or disconnects, the room no
      longer exists. */
  lemma LastMemberRemovesRoom(s: State, ws: Conn, net: Net, now: Timestamp)
    requires Consistent(s.users, s.rooms)
    requires ws in s.users && s.rooms[s.users[ws].room] == {ws}
    ensures s.users[ws].room !in LeaveStep(s, ws, net, now).rooms
    ensures s.users[ws].room !in CloseStep(s, ws, net, now).rooms
  {
  }

  /** Leave and close keep each member recorded under its room, keep
      `users` and `rooms` in full agreement, and keep empty rooms pruned. */
  lemma LeaveKeepsInvariants(s: State, ws: Conn, net: Net, now: Timestamp)
    requires MembersRecorded(s.users, s.rooms)
    ensures var l := LeaveStep(s, ws, net, now); MembersRecorded(l.users, l.rooms)
    ensures var k := CloseStep(s, ws, net, now); MembersRecorded(k.users, k.rooms)
    ensures Consistent(s.users, s.rooms) ==>
              var l, k := LeaveStep(s, ws, net, now), CloseStep(s, ws, net, now);
              Consistent(l.users, l.rooms) && Consistent(k.users, k.rooms)
    ensures Pruned(s.rooms) ==> Pruned(LeaveStep(s, ws, net, now).rooms) && Pruned(CloseStep(s, ws, net, now).rooms)
  {
    if ws in s.users {
      var R := s.users[ws].room;
      var rooms' := RemoveMember(s.rooms, R, ws);
      var users' := s.users - {ws};
      forall r, c | Member(rooms', r, c)
        ensures c in users' && users'[c].room == r
      {
        assert Member(s.rooms, r, c);
      }
      if RecordsSeated(s.users, s.rooms) {
        forall c | c in users'
          ensures Member(rooms', users'[c].room, c)
        {
          assert Member(s.rooms, s.users[c].room, c);
        }
      }
    }
  }

  // ---------------------------------------------------------------------
  // The router as a whole

  /** Every inbound frame keeps each member of a room recorded under that
      room, and keeps `users` and `rooms` in full agreement except for a
      join, from a connection that has joined before, whose username cannot
      be converted to a string. Every frame but `join` keeps empty rooms
      pruned. */
  lemma FrameKeepsInvariants(s: State, ws: Conn, f: Frame, net: Net, now: Timestamp)
    requires MembersRecorded(s.users, s.rooms)
    ensures var s' := FrameStep(s, ws, f, net, now); MembersRecorded(s'.users, s'.rooms)
    ensures Consistent(s.users, s.rooms) &&
            !(f.JoinFrame? && TruthyField(f.username) && ConversionThrows(f.username.value) && ws in s.users) ==>
              var s' := FrameStep(s, ws, f, net, now); Consistent(s'.users, s'.rooms)
    ensures !f.JoinFrame? && Pruned(s.rooms) ==> Pruned(FrameStep(s, ws, f, net, now).rooms)
  {
    match f
    case JoinFrame(username, room) => JoinKeepsConsistent(s, ws, username, room, net, now);
    case MessageFrame(_) =>
    case LeaveFrame => LeaveKeepsInvariants(s, ws, net, now);
    case UnknownFrame =>
    case Malformed =>
  }

  /** With the tables in agreement, the connections with a user record are
      exactly the members of the rooms, so `getUserCount` counts members. */
  lemma UsersAreMembers(users: map<Conn, User>, rooms: map<Value, set<Conn>>)
    requires Consistent(users, rooms)
    ensures users.Keys == Members(rooms)
  {
    forall c | c in users ensures c in Members(rooms) {
      assert Member(rooms, users[c].room, c);
    }
    forall c | c in Members(rooms) ensures c in users {
      var r :| r in rooms && c in rooms[r];
      assert Member(rooms, r, c);
    }
  }

  // ---------------------------------------------------------------------
  // Scenarios

  /** bob (connection 2) and then alice (1) join `general`: each has been
      sent a confirmation, bob has heard of alice, and both are members. */
  lemma ScenarioJoins(t0: Timestamp, t1: Timestamp)
    ensures var net := Net({1, 2}, {});
            var s1 := JoinStep(Initial(), 2, Some(Str("bob")), Some(DefaultRoom), net, t0);
            var s2 := JoinStep(s1, 1, Some(Str("alice")), Some(DefaultRoom), net, t1);
            && Consistent(s2.users, s2.rooms)
            && 1 in s2.users && s2.users[1].username == Str("alice") && s2.users[1].room == DefaultRoom
            && Member(s2.rooms, DefaultRoom, 1) && Member(s2.rooms, DefaultRoom, 2)
            && Received(s2.outbox, 1) == [JoinEvent(Str("alice"), DefaultRoom, t1)]
            && Received(s2.outbox, 2) == [JoinEvent(Str("bob"), DefaultRoom, t0), UserJoinedEvent(Str("alice"), DefaultRoom, t1)]
  {
    var net := Net({1, 2}, {});
    var s1 := JoinStep(Initial(), 2, Some(Str("bob")), Some(DefaultRoom), net, t0);
    JoinKeepsConsistent(Initial(), 2, Some(Str("bob")), Some(DefaultRoom), net, t0);
    JoinKeepsConsistent(s1, 1, Some(Str("alice")), Some(DefaultRoom), net, t1);
    JoinNotifications(Initial(), 2, Some(Str("bob")), Some(DefaultRoom), net, t0, 1);
    JoinNotifications(Initial(), 2, Some(Str("bob")), Some(DefaultRoom), net, t0, 2);
    JoinNotifications(s1, 1, Some(Str("alice")), Some(DefaultRoom), net, t1, 1);
    JoinNotifications(s1, 1, Some(Str("alice")), Some(DefaultRoom), net, t1, 2);
  }

  /** `" hi ".trim()` is `"hi"`. */
  lemma TrimHi()
    ensures Trim(" hi ") == "hi"
  {
    assert IsWhitespace(' ') && !IsWhitespace('h') && !IsWhitespace('i');
    var a, b, c := " hi ", "hi ", "hi";
    assert a[0] == ' ' && a[1..] == b;
    assert b[0] == 'h' && TrimStart(b) == b;
    assert TrimStart(a) == b;
    assert b[2] == ' ' && b[..2] == c;
    assert c[1] == 'i' && TrimEnd(c) == c;
    assert TrimEnd(b) == c;
  }

  /** Continuing the scenario above from any state it can end in: alice
      says " hi ". alice sees her confirmation and then "hi"; bob sees his
      confirmation, alice's arrival and "hi". */
  lemma ScenarioChat(s: State, t0: Timestamp, t1: Timestamp, t2: Timestamp)
    requires 1 in s.users && s.users[1].username == Str("alice") && s.users[1].room == DefaultRoom
    requires Member(s.rooms, DefaultRoom, 1) && Member(s.rooms, DefaultRoom, 2)
    requires Received(s.outbox, 1) == [JoinEvent(Str("alice"), DefaultRoom, t1)]
    requires Received(s.outbox, 2) == [JoinEvent(Str("bob"), DefaultRoom, t0), UserJoinedEvent(Str("alice"), DefaultRoom, t1)]
    ensures var s' := ChatStep(s, 1, Some(Str(" hi ")), Net({1, 2}, {}), t2);
            && Received(s'.outbox, 1) == [JoinEvent(Str("alice"), DefaultRoom, t1),
                                          MessageEvent("hi", Str("alice"), DefaultRoom, t2)]
            && Received(s'.outbox, 2) == [JoinEvent(Str("bob"), DefaultRoom, t0),
                                          UserJoinedEvent(Str("alice"), DefaultRoom, t1),
                                          MessageEvent("hi", Str("alice"), DefaultRoom, t2)]
  {
    var net, text := Net({1, 2}, {}), " hi ";
    TrimHi();
    assert !IsWhitespace(text[1]);
    var u := s.users[1];
    assert u.username == Str("alice") && u.room == DefaultRoom;
    assert !ConversionThrows(u.username) && !ConversionThrows(u.room);
    var s' := ChatStep(s, 1, Some(Str(text)), net, t2);
    var e := MessageEvent("hi", Str("alice"), DefaultRoom, t2);
    ChatBroadcast(s, 1, text, net, t2, 1);
    ChatBroadcast(s, 1, text, net, t2, 2);
    assert Received(s'.outbox, 1) == Received(s.outbox, 1) + [e];
    assert Received(s'.outbox, 2) == Received(s.outbox, 2) + [e];
  }

  /** alice and bob are in `general`; alice's socket closes abruptly. bob
      gets exactly one `user_left` for alice, alice is sent nothing, and
      `general` no longer lists alice. */
  lemma ScenarioAbruptClose(s: State, net: Net, now: Timestamp)
    requires Consistent(s.users, s.rooms)
    requires 1 in s.users && 2 in s.users && s.users[1].room == DefaultRoom && s.users[2].room == DefaultRoom
    requires CanSend(net, 2)
    ensures var s' := CloseStep(s, 1, net, now);
            && Received(s'.outbox, 2) == Received(s.outbox, 2) + [UserLeftEvent(s.users[1].username, DefaultRoom, now)]
            && Received(s'.outbox, 1) == Received(s.outbox, 1)
            && DefaultRoom in s'.rooms && 1 !in s'.rooms[DefaultRoom] && 2 in s'.rooms[DefaultRoom]
  {
    assert Member(s.rooms, DefaultRoom, 2);
    CloseNotifications(s, 1, net, now, 1);
    CloseNotifications(s, 1, net, now, 2);
  }
}
