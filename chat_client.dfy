/** The browser side of the chat (frontend/src/lib/websocket.ts): one
    module-level connection, a flag for a connection in progress, an attempt
    counter and the list of message handlers, reassigned by the exported
    functions and by the socket's callbacks. */
module ChatClient {
  import opened Js

  /** `WebSocket.readyState`: CONNECTING (0), OPEN (1), CLOSING (2), CLOSED (3). */
  datatype ReadyState = Connecting | Open | Closing | Closed

  const GeneralRoom := "general"
  const AlreadyConnecting := "Already connecting"
  const ConnectionFailed := "WebSocket connection failed"

  /** A frame the client sends: the automatic join, or an application
      message as the text `JSON.stringify` made of it. */
  datatype Outgoing = JoinRequest(username: string, room: string) | Text(json: string)

  /** A promise: settled at most once, by whichever of `resolve` and
      `reject` is called first. */
  datatype Settlement = Pending | Resolved | Rejected(reason: string)

  function Settle(p: Settlement, q: Settlement): (r: Settlement)
    ensures p.Pending? ==> r == q
    ensures !p.Pending? ==> r == p
  {
    if p.Pending? then q else p
  }

  /** The state `close()` leaves a socket in: a connection that is being
      established or is open starts closing; otherwise nothing happens. */
  function AfterClose(s: ReadyState): ReadyState
  {
    if s == Connecting || s == Open then Closing else s
  }

  /** A browser `WebSocket`, with the callbacks `connectWebSocket`
      installed on it: `joinAs` is the username its onopen callback joins
      with, `promise` the promise its onopen and onerror callbacks settle. */
  class BrowserSocket {
    var readyState: ReadyState
    /** every frame the socket has accepted for transmission */
    var sent: seq<Outgoing>
    const joinAs: string
    var promise: Settlement

    constructor (username: string)
      ensures readyState == Connecting && sent == [] && joinAs == username && promise == Pending
    {
      readyState, sent, joinAs, promise := Connecting, [], username, Pending;
    }

    method Close()
      modifies this`readyState
      ensures readyState == AfterClose(old(readyState))
    {
      readyState := AfterClose(readyState);
    }

    /** `send()`: throws InvalidStateError while CONNECTING, transmits
        while OPEN, and silently discards once CLOSING or CLOSED. */
    method Send(f: Outgoing) returns (threw: bool)
      modifies this`sent
      ensures threw <==> readyState == Connecting
      ensures sent == if readyState == Open then old(sent) + [f] else old(sent)
    {
      threw := readyState == Connecting;
      if readyState == Open {
        sent := sent + [f];
      }
    }

    method SettlePromise(q: Settlement)
      modifies this`promise
      ensures promise == Settle(old(promise), q)
    {
      if promise.Pending? {
        promise := q;
      }
    }
  }

  /** A message handler, known by its identity (the function reference). */
  type Handler = nat

  /** An inbound frame: the value `JSON.parse` made of it, or a parse failure. */
  datatype Incoming = Parsed(data: Value) | Unparseable

  /** One call of a handler with a parsed frame. */
  datatype Call = Call(handler: Handler, data: Value)

  /** The calls `handlers.forEach(h => h(data))` makes inside its `try`:
      every handler in registration order, until one throws (that one is
      called, the rest are not). */
  function Dispatch(handlers: seq<Handler>, data: Value, throwing: set<Handler>): (calls: seq<Call>)
    ensures |calls| <= |handlers|
    ensures forall i :: 0 <= i < |calls| ==> calls[i] == Call(handlers[i], data)
    ensures forall i :: 0 <= i < |calls| - 1 ==> handlers[i] !in throwing
    ensures |calls| < |handlers| ==> |calls| > 0 && handlers[|calls| - 1] in throwing
  {
    if handlers == [] then []
    else if handlers[0] in throwing then [Call(handlers[0], data)]
    else [Call(handlers[0], data)] + Dispatch(handlers[1..], data, throwing)
  }

  /** When no handler throws, every handler is called once, in the order
      of registration. */
  lemma DispatchReachesAll(handlers: seq<Handler>, data: Value, throwing: set<Handler>)
    requires forall i :: 0 <= i < |handlers| ==> handlers[i] !in throwing
    ensures Dispatch(handlers, data, throwing) == seq(|handlers|, i requires 0 <= i < |handlers| => Call(handlers[i], data))
  {
  }

  /** `handlers.filter(x => x !== h)`. */
  function Without(handlers: seq<Handler>, h: Handler): (r: seq<Handler>)
    ensures |r| <= |handlers|
    ensures forall x :: x in r ==> x in handlers && x != h
  {
    if handlers == [] then []
    else (if handlers[0] == h then [] else [handlers[0]]) + Without(handlers[1..], h)
  }

  /** `a` is `b` with some entries deleted, the rest in their order. */
  ghost predicate Subsequence(a: seq<Handler>, b: seq<Handler>)
    decreases |b|
  {
    if a == [] then true
    else if b == [] then false
    else (a[0] == b[0] && Subsequence(a[1..], b[1..])) || Subsequence(a, b[1..])
  }

  /** Removing a handler keeps the other entries in their original order. */
  lemma {:induction false} WithoutIsSubsequence(handlers: seq<Handler>, h: Handler)
    ensures Subsequence(Without(handlers, h), handlers)
  {
    if handlers != [] {
      WithoutIsSubsequence(handlers[1..], h);
      var rest := Without(handlers[1..], h);
      if handlers[0] != h {
        assert Without(handlers, h) == [handlers[0]] + rest;
        assert ([handlers[0]] + rest)[1..] == rest;
      } else {
        assert Without(handlers, h) == rest;
        SubsequenceOfTail(rest, handlers);
      }
    }
  }

  /** Removing a handler keeps every copy of every other handler: only the
      entries equal to `h` go. */
  lemma {:induction false} WithoutCounts(handlers: seq<Handler>, h: Handler)
    ensures forall x :: x != h ==> multiset(Without(handlers, h))[x] == multiset(handlers)[x]
    ensures multiset(Without(handlers, h))[h] == 0
  {
    if handlers != [] {
      WithoutCounts(handlers[1..], h);
      var head := if handlers[0] == h then [] else [handlers[0]];
      var rest := Without(handlers[1..], h);
      assert Without(handlers, h) == head + rest;
      assert multiset(Without(handlers, h)) == multiset(head) + multiset(rest);
      assert handlers == [handlers[0]] + handlers[1..];
      assert multiset(handlers) == multiset([handlers[0]]) + multiset(handlers[1..]);
    }
  }

  lemma {:induction false} SubsequenceOfTail(a: seq<Handler>, b: seq<Handler>)
    requires b != [] && Subsequence(a, b[1..])
    ensures Subsequence(a, b)
  {
  }

  /** Removing distributes over concatenation. */
  lemma {:induction false} WithoutConcat(a: seq<Handler>, b: seq<Handler>, h: Handler)
    ensures Without(a + b, h) == Without(a, h) + Without(b, h)
  {
    if a == [] {
      assert a + b == b;
    } else {
      var head := if a[0] == h then [] else [a[0]];
      assert (a + b)[0] == a[0];
      assert (a + b)[1..] == a[1..] + b;
      assert Without(a + b, h) == head + Without(a[1..] + b, h);
      WithoutConcat(a[1..], b, h);
      assert Without(a, h) == head + Without(a[1..], h);
    }
  }

  /** Removing a handler that is not registered changes nothing. */
  lemma {:induction false} WithoutAbsent(handlers: seq<Handler>, h: Handler)
    requires h !in handlers
    ensures Without(handlers, h) == handlers
  {
    if handlers != [] {
      WithoutAbsent(handlers[1..], h);
      assert handlers == [handlers[0]] + handlers[1..];
    }
  }

  /** Removing twice is removing once. */
  lemma {:induction false} WithoutTwice(handlers: seq<Handler>, h: Handler)
    ensures Without(Without(handlers, h), h) == Without(handlers, h)
  {
    WithoutAbsent(Without(handlers, h), h);
  }

  /** A handler added and then removed leaves the list as a plain removal
      of it would. */
  lemma AddThenRemove(handlers: seq<Handler>, h: Handler)
    ensures Without(handlers + [h], h) == Without(handlers, h)
  {
    WithoutConcat(handlers, [h], h);
    assert Without([h], h) == [];
  }

  /** The module-level state of the client. */
  class WebSocketClient {
    var ws: BrowserSocket?
    var messageHandlers: seq<Handler>
    var isConnecting: bool
    var connectionAttempts: nat
    /** every handler call made so far, in order */
    var calls: seq<Call>

    /** The module as loaded. */
    constructor ()
      ensures ws == null && messageHandlers == [] && !isConnecting && connectionAttempts == 0 && calls == []
    {
      ws, messageHandlers, isConnecting, connectionAttempts, calls := null, [], false, 0, [];
    }

    /** `connectWebSocket(username)`. `creationError` is the error that
        `getWsUrl` or `new WebSocket` throws, if any. The promise is
        returned settled (`settled`) when the call decides at once, and is
        otherwise the new socket's `promise`, which its callbacks settle. */
    method ConnectWebSocket(username: string, creationError: Option<string>)
      returns (created: BrowserSocket?, settled: Settlement)
      modifies this, ws
      ensures messageHandlers == old(messageHandlers) && calls == old(calls)
      ensures old(isConnecting) ==>
                && settled == Rejected(AlreadyConnecting) && created == null
                && ws == old(ws) && isConnecting && connectionAttempts == old(connectionAttempts)
                && (ws != null ==> ws.readyState == old(ws.readyState))
      ensures !old(isConnecting) && old(ws) != null && old(ws.readyState) == Open ==>
                && settled == Resolved && created == null
                && ws == old(ws) && !isConnecting && connectionAttempts == old(connectionAttempts)
                && ws.readyState == Open
      ensures !old(isConnecting) && !(old(ws) != null && old(ws.readyState) == Open) ==>
                && connectionAttempts == old(connectionAttempts) + 1
                && (old(ws) != null ==> old(ws).readyState == AfterClose(old(ws.readyState)))
                && (creationError.Some? ==>
                      settled == Rejected(creationError.value) && created == null && ws == null && !isConnecting)
                && (creationError.None? ==>
                      && settled == Pending && created != null && fresh(created) && ws == created && isConnecting
                      && created.readyState == Connecting && created.sent == [] && created.promise == Pending
                      && created.joinAs == username)
      ensures old(ws) != null ==> old(ws).sent == old(ws.sent) && old(ws).promise == old(ws.promise)
    {
      created := null;
      if isConnecting {
        return null, Rejected(AlreadyConnecting);
      }
      if ws != null && ws.readyState == Open {
        return null, Resolved;
      }
      if ws != null {
        ws.Close();
        ws := null;
      }
      isConnecting := true;
      connectionAttempts := connectionAttempts + 1;
      if creationError.Some? {
        isConnecting := false;
        return null, Rejected(creationError.value);
      }
      created := new BrowserSocket(username);
      ws := created;
      settled := Pending;
    }

    /** The browser opens socket `s` and runs its onopen callback, which
        joins `general` through the module-level socket, whichever that is
        now, and then resolves. A join sent on a socket that is still
        CONNECTING throws, and the promise is then left unresolved. */
    method OnOpen(s: BrowserSocket)
      modifies this, s, ws
      ensures s.readyState == Open
      ensures !isConnecting && connectionAttempts == 0
      ensures ws == old(ws) && messageHandlers == old(messageHandlers) && calls == old(calls)
      ensures ws != null && ws != s ==> ws.readyState == old(ws.readyState) && ws.promise == old(ws.promise)
      ensures ws != s ==> s.sent == old(s.sent)
      ensures ws != null && s.joinAs != "" ==>
                ws.sent == if ws.readyState == Open then old(ws.sent) + [JoinRequest(s.joinAs, GeneralRoom)] else old(ws.sent)
      ensures ws != null && s.joinAs == "" ==> ws.sent == old(ws.sent)
      ensures s.promise ==
                if ws != null && s.joinAs != "" && ws.readyState == Connecting then old(s.promise)
                else Settle(old(s.promise), Resolved)
    {
      s.readyState := Open;
      isConnecting := false;
      connectionAttempts := 0;
      var threw := false;
      if ws != null && s.joinAs != "" {
        threw := ws.Send(JoinRequest(s.joinAs, GeneralRoom));
      }
      if !threw {
        s.SettlePromise(Resolved);
      }
    }

    /** The browser closes socket `s` and runs its onclose callback, which
        clears the module-level socket whether or not it is `s`. */
    method OnClose(s: BrowserSocket)
      modifies this, s`readyState
      ensures s.readyState == Closed
      ensures ws == null && !isConnecting
      ensures connectionAttempts == old(connectionAttempts) && messageHandlers == old(messageHandlers) && calls == old(calls)
    {
      s.readyState := Closed;
      isConnecting := false;
      ws := null;
    }

    /** The onerror callback of socket `s`: the connection attempt is over
        and `s`'s promise is rejected, unless it was already settled. */
    method OnError(s: BrowserSocket)
      modifies this`isConnecting, s`promise
      ensures !isConnecting
      ensures s.promise == Settle(old(s.promise), Rejected(ConnectionFailed))
    {
      isConnecting := false;
      s.SettlePromise(Rejected(ConnectionFailed));
    }

    /** The onmessage callback: a frame that parses is handed to the
        registered handlers in order; one that does not reaches none.
        `throwing` are the handlers that throw. */
    method OnMessage(m: Incoming, throwing: set<Handler>)
      modifies this`calls
      ensures m.Unparseable? ==> calls == old(calls)
      ensures m.Parsed? ==> calls == old(calls) + Dispatch(messageHandlers, m.data, throwing)
    {
      if m.Unparseable? {
        return;
      }
      var rest := messageHandlers;
      while rest != []
        invariant old(calls) + Dispatch(messageHandlers, m.data, throwing) == calls + Dispatch(rest, m.data, throwing)
        decreases |rest|
      {
        var call := Call(rest[0], m.data);
        assert Dispatch(rest, m.data, throwing) ==
          [call] + (if rest[0] in throwing then [] else Dispatch(rest[1..], m.data, throwing));
        assert (calls + [call]) + Dispatch(rest[1..], m.data, throwing) ==
          calls + ([call] + Dispatch(rest[1..], m.data, throwing));
        calls := calls + [call];
        if rest[0] in throwing {
          return;
        }
        rest := rest[1..];
      }
    }

    /** `disconnectWebSocket`: whatever the state, afterwards there is no
        socket, no connection in progress, no handler and no attempt. */
    method DisconnectWebSocket()
      modifies this, ws
      ensures ws == null && !isConnecting && messageHandlers == [] && connectionAttempts == 0
      ensures calls == old(calls)
      ensures old(ws) != null ==>
                && old(ws).readyState == AfterClose(old(ws.readyState))
                && old(ws).sent == old(ws.sent) && old(ws).promise == old(ws.promise)
    {
      if ws != null {
        ws.Close();
        ws := null;
      }
      isConnecting := false;
      messageHandlers := [];
      connectionAttempts := 0;
    }

    /** `sendWebSocketMessage`: `message` is what `JSON.stringify` makes of
        the argument, `None` when it throws. Sends only on an OPEN socket
        and reports whether it did. */
    method SendWebSocketMessage(message: Option<string>) returns (ok: bool)
      modifies ws
      ensures ok <==> ws != null && ws.readyState == Open && message.Some?
      ensures ws != null ==>
                && ws.sent == (if ok then old(ws.sent) + [Text(message.value)] else old(ws.sent))
                && ws.readyState == old(ws.readyState) && ws.promise == old(ws.promise)
    {
      if ws == null {
        return false;
      }
      if ws.readyState != Open {
        return false;
      }
      if message.None? {
        return false;
      }
      var threw := ws.Send(Text(message.value));
      ok := !threw;
    }

    method AddMessageHandler(h: Handler)
      modifies this`messageHandlers
      ensures messageHandlers == old(messageHandlers) + [h]
    {
      messageHandlers := messageHandlers + [h];
    }

    method RemoveMessageHandler(h: Handler)
      modifies this`messageHandlers
      ensures messageHandlers == Without(old(messageHandlers), h)
    {
      messageHandlers := Without(messageHandlers, h);
    }

    /** `getWebSocketState`: CLOSED when there is no socket. */
    function GetWebSocketState(): (st: ReadyState)
      reads this, ws
      ensures ws == null ==> st == Closed
      ensures ws != null ==> st == ws.readyState
    {
      if ws == null then Closed else ws.readyState
    }

    /** `isConnected`: there is a socket and it is OPEN. */
    function IsConnected(): (r: bool)
      reads this, ws
      ensures r <==> ws != null && ws.readyState == Open
      ensures r <==> GetWebSocketState() == Open
    {
      ws != null && ws.readyState == Open
    }
  }
}
