# Secure chat: room broadcast manager, URL scanner and chat client in Dafny

This project models three parts of a chat application written in TypeScript, and proves properties of each model:

- **The server's room broadcast manager** (`WebSocketManager`, backend/src/config/ws.ts). It holds two tables that its socket listeners change in place:
  - `users` maps a connection to its identity (username and current room);
  - `rooms` maps a room name to the set of its member connections.

  The manager routes inbound frames (`join`, `message`, `leave`, anything else, or unparseable text). It answers errors to the sender and fans events out to the open members of a room, skipping an excluded connection. When a socket closes, it cleans up after it.
- **The urlscan.io client of the security service** (`UrlScanService`, security/src/services/url.service.ts):
  - the guard in the constructor;
  - how a fetch outcome becomes "ready", "not ready" (HTTP 404 or an empty body) or an error;
  - the bounded polling loop;
  - the reduction of a raw scan record to a verdict (score threshold 80, category split, per-engine classification).
- **The browser client** (frontend/src/lib/websocket.ts). It is a module-level state machine over the current socket, a "connecting" flag, an attempt counter and a list of message handlers. These are changed by the exported functions and by the socket's `onopen`, `onclose`, `onerror` and `onmessage` callbacks.

## Layout

| file | module | what it holds |
|---|---|---|
| js.dfy | `Js` | `Option` and `Result` types, and JSON values with JavaScript truthiness. Also `String.prototype.trim`, which strips ECMAScript WhiteSpace and LineTerminator characters. |
| chat_server.dfy | `ChatServer` | The server state as a value (`users`, `rooms`, and an outbox per connection recording every frame delivered to it), with one step function per socket event. |
| chat_server_properties.dfy | `ChatServerProperties` | Lemmas about the step functions: the invariants, who receives each event, error paths, and concrete scenarios. |
| ws_manager.dfy | `WsManager` | Class `WebSocketManager`, whose fields are changed in place. Each listener is proved to perform its step function and to keep every room member recorded under its room. |
| url_scan.dfy | `UrlScan` | The constructor guard, `getScanResult`'s error mapping, `processResults`, and the `waitForResults` loop over a sequence of poll outcomes. |
| chat_client.dfy | `ChatClient` | Classes `BrowserSocket` (a browser `WebSocket` with its `readyState`) and `WebSocketClient` (the module's variables), with a method per exported function and callback. |

How the model treats its inputs:

- Connections are natural numbers.
- The transport during one event is `Net(open, failing)`: the connections whose `readyState` is OPEN, and those whose `send` throws.
- A frame "reaches" a connection when it is appended to that connection's outbox.
- Usernames, rooms and message contents are JSON values, because the code uses whatever `JSON.parse` produced:
  - a `room` that is present but not a string is used as a map key as it is;
  - truthy content that is not a string makes `trim` throw;
  - an object or array carries a flag saying whether converting it to a string throws a TypeError, as `{"toString": 1}` does. Strings, numbers, booleans and `null` always convert. The handlers convert usernames and rooms in the user id (ws.ts:136) and in log lines (ws.ts:167, 190, 242, 261, 278), so such values follow the error paths those throws open.
- The wall clock is one `now` parameter per event.
- Per poll, the HTTP layer is an oracle `outcomes(i)`.
- For the browser, the model takes the following as parameters:
  - the error `new WebSocket` throws;
  - the outcome of `JSON.stringify`;
  - the set of handlers that throw.

`js.dfy` models two JavaScript behaviours that the other modules rely on:

- JavaScript truthiness, used by the `!username` and `!message.content` guards in ws.ts and by the `||` defaults in url.service.ts.
- `trim`, with the full ECMAScript whitespace set.
- Whether a value's conversion to a string throws (`Js.ConversionThrows`).

Agreement of the two tables has two halves. `MembersRecorded`: every member of a room has a user record naming that room. `RecordsSeated`: every user record's connection is a member of the room it names. `Consistent` is both. Every event keeps `MembersRecorded`, and the class keeps it as its invariant. One event can break `RecordsSeated`, as the Findings section shows.

## Model

| member | source | states |
|---|---|---|
| Js.OrElse | security/src/services/url.service.ts:155-156 | `a \|\| b` on an optional string: `a` when it is present and non-empty, `b` otherwise. |
| Js.TrimStart | backend/src/config/ws.ts:182 | The result is a suffix of the input. Every character dropped is whitespace, and the result does not start with whitespace. |
| Js.TrimEnd | backend/src/config/ws.ts:182 | The result is a prefix of the input. Every character dropped is whitespace, and the result does not end with whitespace. |
| Js.TrimIsSlice | backend/src/config/ws.ts:195 | `trim()` is the slice of `s` between leading and trailing whitespace, and it neither starts nor ends with whitespace. |
| Js.TrimEmptyIffBlank | backend/src/config/ws.ts:182 | `s.trim() === ''` holds exactly when every character of `s` is whitespace. |
| Js.TrimIdempotent | backend/src/config/ws.ts:195 | Trimming twice is trimming once. |
| ChatServer.Initial | backend/src/config/ws.ts:22-23 | The empty tables are in agreement and have no empty room. |
| ChatServer.SendTo | backend/src/config/ws.ts:245-255 | The target's outbox grows by the event exactly when its socket is OPEN and `send` does not throw. No other connection's outbox changes. |
| ChatServer.DeliverReceived | backend/src/config/ws.ts:266-276 | A fan-out appends the event once to each recipient's outbox and leaves every other connection's outbox unchanged. |
| ChatServer.BroadcastCount | backend/src/config/ws.ts:257-279 | The broadcast recipients are OPEN, non-throwing members of the room other than the excluded connection. They number at most the room's size, and a missing room has none. |
| ChatServer.JoinRoom | backend/src/config/ws.ts:113 | The default `general` applies only when `room` is absent. A present value is used as it is. |
| ChatServer.RemoveMember | backend/src/config/ws.ts:62-68 | The connection is dropped from the room. The room key remains exactly when members are left. No other room changes. |
| ChatServer.DetachMember | backend/src/config/ws.ts:126-132 | Join's removal from the previous room keeps every room key, even one whose set becomes empty. |
| ChatServer.AddMember | backend/src/config/ws.ts:146-149 | The room's set gains the connection, and the set is created when the key is absent. No other room changes. |
| ChatServer.JoinStep | backend/src/config/ws.ts:112-169 | Without a truthy username, the sender gets a "Username is required" error (if its socket takes it) and neither table changes. With a username that converts to a string, the user record is replaced and the connection is a member of the named room. The other cases are stated by `ChatServerProperties.JoinConversionFails` and `ChatServerProperties.JoinNotifications`. |
| ChatServer.ChatStep | backend/src/config/ws.ts:171-205 | A chat frame never changes `users` or `rooms`. From a connection that has not joined, it yields the "join first" error. |
| ChatServer.LeaveStep | backend/src/config/ws.ts:207-243 | A leave from a connection that has not joined changes nothing. Afterwards the connection has no user record, and every other record is kept. |
| ChatServer.CloseStep | backend/src/config/ws.ts:53-81 | Closing an unjoined connection changes nothing. Afterwards the connection has no user record, and every other record is kept. |
| ChatServer.FrameStep | backend/src/config/ws.ts:36-50 | An unknown type, or text that does not parse (including JSON `null`), yields one error to the sender ("Unknown message type" or "Invalid message format") and no change to either table. |
| ChatServerProperties.JoinKeepsConsistent | backend/src/config/ws.ts:125-149 | Every join keeps each room member recorded under its room. It keeps the tables in full agreement unless the username does not convert to a string and the connection had joined before. After a join whose username converts, `users[ws].room` is the named room (default `general`), and the connection is a member of that room and of no other. |
| ChatServerProperties.JoinConversionFails | backend/src/config/ws.ts:125-140 | When the username does not convert to a string, the connection has already left the room its record names when building the id throws. The record stays, the room key stays, the sender gets "Invalid message format", and a connection that had joined is then no longer seated in its recorded room. |
| ChatServerProperties.ObjectUsernameBreaksAgreement | backend/src/config/ws.ts:125-140 | A concrete join: connection 1 in `general` sends username `{"toString": 1}`. Its record still names `general`, `general` no longer lists it, the tables disagree, and it receives only the invalid-format error. |
| ChatServerProperties.ObjectRoomEscapesClose | backend/src/config/ws.ts:53-81 | A join into room `{"toString": 1}` completes, and the joiner receives its confirmation followed by the invalid-format error. A later close of that connection throws out of the close listener. |
| ChatServerProperties.ValidatedJoinKeepsConsistent | backend/src/config/ws.ts:125-140 | The corrected join, which refuses an unconvertible username or room before changing either table, keeps the tables in full agreement on every input. It never stores an unconvertible value, so no close listener can throw. |
| ChatServerProperties.JoinSameRoomKeepsRooms | backend/src/config/ws.ts:126-149 | Re-joining the current room leaves every member set as it was, so the connection is there exactly once. |
| ChatServerProperties.JoinMovesWithoutPruning | backend/src/config/ws.ts:128-131 | Moving to another room takes the connection out of the old set but keeps the old key. The new room gains the connection, and no third room changes. |
| ChatServerProperties.JoinCanLeaveEmptyRoom | backend/src/config/ws.ts:128-131 | A concrete join (alice alone in `general` moves to `random`) starts from tables in agreement with no empty room, and leaves `general` present and empty. So join does not keep rooms pruned. |
| ChatServerProperties.JoinNotifications | backend/src/config/ws.ts:152-168 | For a username that converts: the joiner gets the `join` confirmation and every other OPEN member of the room gets `user_joined`. Nobody else gets anything: the joiner never sees its own `user_joined`. When the room does not convert, the joiner's confirmation is followed by "Invalid message format". |
| ChatServerProperties.ChatRejections | backend/src/config/ws.ts:172-188 | Each rejection is one error to the sender and nothing else: not joined, empty or whitespace-only content, or truthy non-string content (whose `trim` throws and is answered as an invalid format). |
| ChatServerProperties.ChatConversionFails | backend/src/config/ws.ts:190 | Content that is not blank, from a user whose username or room does not convert, is answered with "Invalid message format" and broadcast to nobody. |
| ChatServerProperties.ChatBroadcast | backend/src/config/ws.ts:190-202 | From a user whose username and room convert, content that is not blank reaches every OPEN member of the sender's room, sender included, trimmed; no connection outside the room receives it. The trimmed text is non-empty and unpadded. |
| ChatServerProperties.LeaveAndCloseCleanUpAlike | backend/src/config/ws.ts:60-79 | Leave and close produce the same `users` and `rooms`. The connection leaves its room, and the room key goes with its last member. Their outboxes differ only at the leaving connection. |
| ChatServerProperties.LeaveNotifications | backend/src/config/ws.ts:226-242 | The leaver gets `leave` and the remaining OPEN members of its room get `user_left`. Nobody else gets anything. When the room or username does not convert, the leaver's confirmation is followed by "Invalid message format". |
| ChatServerProperties.CloseNotifications | backend/src/config/ws.ts:73-79 | On close, the remaining OPEN members get `user_left`, and the closed connection is sent nothing. |
| ChatServerProperties.CloseIdempotent | backend/src/config/ws.ts:54-60 | A second close finds no user record and changes nothing. |
| ChatServerProperties.LastMemberRemovesRoom | backend/src/config/ws.ts:215-221 | When the last member leaves or disconnects, the room key is deleted. |
| ChatServerProperties.LeaveKeepsInvariants | backend/src/config/ws.ts:207-224 | Leave and close keep each room member recorded under its room, keep the tables in full agreement, and keep empty rooms pruned. |
| ChatServerProperties.FrameKeepsInvariants | backend/src/config/ws.ts:36-110 | Every inbound frame keeps each room member recorded under its room. Every frame keeps full agreement except a join, from a connection that had joined, whose username does not convert to a string. Every frame but `join` keeps empty rooms pruned. |
| ChatServerProperties.UsersAreMembers | backend/src/config/ws.ts:301-303 | With the tables in agreement, the connections with a user record are exactly the members of the rooms. |
| ChatServerProperties.ScenarioJoins | backend/src/config/ws.ts:143-165 | bob and then alice join `general`. Each gets a confirmation, bob hears of alice, alice hears of nobody, and both are members. |
| ChatServerProperties.TrimHi | backend/src/config/ws.ts:195 | `" hi ".trim()` is `"hi"`. |
| ChatServerProperties.ScenarioChat | backend/src/config/ws.ts:193-202 | alice says `" hi "` and both alice and bob receive `"hi"`, after what each had received before. |
| ChatServerProperties.ScenarioAbruptClose | backend/src/config/ws.ts:53-81 | alice's socket closes. bob gets exactly one `user_left`, alice is sent nothing, and `general` keeps bob but not alice. |
| WsManager.WebSocketManager.constructor | backend/src/config/ws.ts:20-28 | A new manager is the initial state, in agreement and pruned. |
| WsManager.WebSocketManager.OnMessage | backend/src/config/ws.ts:36-50 | The message listener and router perform the frame step in place, including the answers of its catch, and keep every room member recorded. |
| WsManager.WebSocketManager.HandleJoin | backend/src/config/ws.ts:112-169 | Performs the join step in place, including the id conversion that throws after the old room was left, and keeps every room member recorded. |
| WsManager.WebSocketManager.LeavePreviousRoom | backend/src/config/ws.ts:125-132 | Takes the connection out of the room its record names, in place, keeping the key. |
| WsManager.WebSocketManager.AddToRoom | backend/src/config/ws.ts:145-149 | Adds the connection to the room in place, creating its set when the key is absent. |
| WsManager.WebSocketManager.HandleChatMessage | backend/src/config/ws.ts:171-205 | Performs the chat step in place, including the `trim` and log-line TypeError paths, and keeps every room member recorded. |
| WsManager.WebSocketManager.HandleLeave | backend/src/config/ws.ts:207-243 | Performs the leave step in place and keeps every room member recorded. |
| WsManager.WebSocketManager.OnClose | backend/src/config/ws.ts:53-81 | The close listener performs the close step in place and keeps every room member recorded. It reports an exception escaping the listener exactly when the closed user's room does not convert to a string. |
| WsManager.WebSocketManager.RemoveFromRoom | backend/src/config/ws.ts:215-221 | The in-place removal shared by leave and close: it deletes the room key with its last member. |
| WsManager.WebSocketManager.SendToClient | backend/src/config/ws.ts:245-255 | Changes only the outbox, and only at the target, when its socket is OPEN and `send` does not throw. |
| WsManager.WebSocketManager.BroadcastToRoom | backend/src/config/ws.ts:257-279 | The loop over the room's members delivers the event once to each recipient and to nobody else. It counts exactly the successful sends and continues past a send that throws. `users` and `rooms` are untouched. It reports a throw from its log line exactly when the room does not convert to a string. |
| WsManager.WebSocketManager.GetRoomUsers | backend/src/config/ws.ts:282-295 | Every name returned is the username of a member of the room that has a user record, and every such member's username is returned. There is one name per such member, with no member visited twice. When every room member is recorded, the invariant the class keeps, that covers every member. A missing room gives none. |
| WsManager.WebSocketManager.GetAllRooms | backend/src/config/ws.ts:297-299 | Every room key exactly once, and nothing else. |
| WsManager.WebSocketManager.GetUserCount | backend/src/config/ws.ts:301-303 | The number of user records, which with the tables in agreement is the number of connections that are members of a room. |
| WsManager.UsersAreMembersWhenConsistent | backend/src/config/ws.ts:301-303 | With the tables in agreement, the user count equals the number of room members. |
| UrlScan.NewUrlScanService | security/src/services/url.service.ts:13-28 | Fails exactly when the API key is empty, with the "API key is required" message. Otherwise the service holds the key, the base URL, an interval of 5000 ms and 12 retries. |
| UrlScan.PageScore | security/src/services/url.service.ts:128-129 | The overall score, or 0 when the verdicts or the score are absent. |
| UrlScan.Classify | security/src/services/url.service.ts:147 | `malicious` exactly when the malicious flag is set. `suspicious` exactly when only the suspicious flag is set. `clean` exactly when neither is set. |
| UrlScan.ProcessResults | security/src/services/url.service.ts:126-180 | `completed` status, and `threat.malicious` iff score >= 80 with `isSafe` its negation. Primary category is the first (or `uncategorized`), secondary the rest in order. Every raw engine is classified with its confidence, and the URLs use the `\|\|` fallbacks. A screenshot is present only for a non-empty `screenshotURL`. |
| UrlScan.GetScanResult | security/src/services/url.service.ts:71-96 | A 404, or a response with an empty body, means "not ready". Every error other than a 404 fails with the "Failed to retrieve scan results: " prefix, and a response with a body yields that body. |
| UrlScan.WaitForResults | security/src/services/url.service.ts:103-119 | At most `maxRetries` polls, all but the last not ready. The first poll with a body ends the loop with the processed body, and a fetch error ends it with that error. A timeout happens exactly when all `maxRetries` polls were not ready. |
| ChatClient.Settle | frontend/src/lib/websocket.ts:17 | A promise settles once: the first of `resolve` and `reject` wins. |
| ChatClient.BrowserSocket.constructor | frontend/src/lib/websocket.ts:46 | A new socket is CONNECTING, has sent nothing, and its promise is pending. |
| ChatClient.BrowserSocket.Close | frontend/src/lib/websocket.ts:35 | `close()` turns CONNECTING or OPEN into CLOSING, and otherwise does nothing. |
| ChatClient.BrowserSocket.Send | frontend/src/lib/websocket.ts:56 | `send()` throws exactly while CONNECTING and transmits exactly while OPEN. |
| ChatClient.BrowserSocket.SettlePromise | frontend/src/lib/websocket.ts:58 | `resolve` and `reject` settle the socket's promise only if it is still pending. |
| ChatClient.Dispatch | frontend/src/lib/websocket.ts:84 | Handlers are called in registration order with the parsed data, none after the first that throws. Fewer calls than handlers means the last one called threw. |
| ChatClient.DispatchReachesAll | frontend/src/lib/websocket.ts:80-88 | When no handler throws, every handler is called exactly once, in registration order. |
| ChatClient.Without | frontend/src/lib/websocket.ts:158 | The filtered list is no longer than the original and holds only handlers of the original other than the removed one. |
| ChatClient.WithoutIsSubsequence | frontend/src/lib/websocket.ts:155-160 | Removal keeps the other handlers in their original order. |
| ChatClient.WithoutCounts | frontend/src/lib/websocket.ts:155-160 | Removal deletes every entry equal to the handler and keeps every copy of every other handler. |
| ChatClient.WithoutConcat | frontend/src/lib/websocket.ts:158 | Removal distributes over concatenation. |
| ChatClient.WithoutAbsent | frontend/src/lib/websocket.ts:158 | Removing a handler that is not registered changes nothing. |
| ChatClient.WithoutTwice | frontend/src/lib/websocket.ts:158 | Removing a handler twice is removing it once. |
| ChatClient.AddThenRemove | frontend/src/lib/websocket.ts:146-160 | Adding a handler and then removing it is the same as just removing it. |
| ChatClient.WebSocketClient.constructor | frontend/src/lib/websocket.ts:3-6 | At module load: no socket, no handlers, not connecting, no attempts. |
| ChatClient.WebSocketClient.ConnectWebSocket | frontend/src/lib/websocket.ts:12-96 | While already connecting, it rejects with "Already connecting" and changes nothing. On an OPEN socket, it resolves and changes nothing. Otherwise it closes any old socket and counts one more attempt. It then either creates a fresh CONNECTING socket (connecting flag set, pending promise) or, when creation throws, clears the flag and rejects with that error. Handlers are never touched. |
| ChatClient.WebSocketClient.OnOpen | frontend/src/lib/websocket.ts:48-59 | Clears the connecting flag and the attempt counter. With a non-empty username, one `join` for `general` goes to the module's socket if it is OPEN. The promise resolves unless that send threw. |
| ChatClient.WebSocketClient.OnClose | frontend/src/lib/websocket.ts:61-71 | The socket is CLOSED, the module's socket becomes null, and the connecting flag is cleared. |
| ChatClient.WebSocketClient.OnError | frontend/src/lib/websocket.ts:73-78 | Clears the connecting flag and rejects the promise with "WebSocket connection failed", unless it was already settled. |
| ChatClient.WebSocketClient.OnMessage | frontend/src/lib/websocket.ts:80-88 | A frame that parses is dispatched to the handlers in order. One that does not parse reaches no handler. |
| ChatClient.WebSocketClient.DisconnectWebSocket | frontend/src/lib/websocket.ts:101-112 | Whatever the prior state, afterwards there is no socket, no connecting flag, no handler and no attempt, and the old socket was closed. |
| ChatClient.WebSocketClient.SendWebSocketMessage | frontend/src/lib/websocket.ts:117-141 | True exactly when there is an OPEN socket and serialisation succeeded. The frame is transmitted exactly then, and the socket's state is otherwise unchanged. |
| ChatClient.WebSocketClient.AddMessageHandler | frontend/src/lib/websocket.ts:146-150 | Appends exactly one entry. |
| ChatClient.WebSocketClient.RemoveMessageHandler | frontend/src/lib/websocket.ts:155-160 | The new list is the old one with every entry equal to the handler removed (see `ChatClient.WithoutCounts` and `ChatClient.WithoutIsSubsequence`). |
| ChatClient.WebSocketClient.GetWebSocketState | frontend/src/lib/websocket.ts:165-167 | CLOSED when there is no socket, otherwise the socket's state. |
| ChatClient.WebSocketClient.IsConnected | frontend/src/lib/websocket.ts:172-176 | Holds iff there is a socket and it is OPEN, which is also iff `getWebSocketState()` is OPEN. |

## Left out

- Transport, serialisation and logging. The `ws` and browser `WebSocket` transports, `JSON.parse`/`JSON.stringify` and console output are not modelled. A parsed inbound frame is a datatype, the transport is the `Net` snapshot or the `readyState` field, and what was sent is an outbox log.
- Timestamps and ids. `new Date().toISOString()` and the `${username}_${Date.now()}` id are one `now` parameter per event. The source reads the clock separately for the confirmation and the broadcast; the model uses the same value for both.
- Concurrency. Each listener or callback runs to completion as one atomic step, as Node's and the browser's event loops run them. Interleavings are not modelled.
- Timing and other HTTP calls. The `setTimeout` delay between polls, `submitUrl` and `scanUrl` are network and timer code. Only the poll-outcome abstraction `outcomes(i)` is kept.
- Floating point. The threat score is a JavaScript `number`; it is modelled as an integer.
- WsManager.WebSocketManager.GetRoomUsers: the order of the names is left unspecified. JavaScript iterates a `Set` in insertion order, and the model's sets have no order; the visiting order is returned as a ghost sequence.
- WsManager.WebSocketManager.GetAllRooms: the order of the keys is left unspecified, for the same reason (JavaScript `Map` insertion order).
- WsManager.WebSocketManager.BroadcastToRoom: the count it returns is only logged by the source, whose function returns nothing. The model returns it so that the count can be stated.
- Compound JSON values (objects and arrays used as a room or username) are compared by an identity number. The source's `Map` compares them by reference. Their contents are not modelled, only whether their conversion to a string throws.
- WsManager.WebSocketManager.OnClose: what Node does once an exception escapes the close listener (an `uncaughtException`, by default the end of the process) is not modelled. The method reports the escape in `escaped`, and the state is the one the listener had built when it threw.
- ChatClient.WebSocketClient.OnError: the caller's `onError` and `onClose` callbacks are not modelled; they are opaque caller code.
- ChatClient.WebSocketClient.OnMessage: a handler's own effects are not modelled, including re-entrant calls into the client. Only the call and whether it throws are recorded.
- ChatClient.WebSocketClient.ConnectWebSocket: `getWsUrl` is not part of this model. It wraps the `URL` parser and the build environment, so the error it or `new WebSocket` may throw is a parameter.
- The other parts of the repository are not part of this model: `extractUrls`, which depends on a regex engine; the Express routes and controllers; the database-backed room, message and user services; authentication; the React pages.
- The model follows the code, including these behaviours:
  - a join does not delete the old room when it becomes empty (ws.ts:128-131);
  - the default room applies only when `room` is absent, not when it is present and not a string (ws.ts:113);
  - a leave from a connection that has not joined is silently ignored (ws.ts:210-212).

## Findings

| source | as written | input that shows it | evidently intended | confidence | as-written member | corrected member |
|---|---|---|---|---|---|---|
| backend/src/config/ws.ts:125-143 | The connection leaves its old room before the id `${username}_${Date.now()}` is built. When that conversion throws, the record is not replaced, so it names a room the connection is no longer in. | Connection 1 is in `general` and sends `{"type":"join","username":{"toString":1},"room":"random"}`. | A refused join leaves both tables as they were, so `users` and `rooms` stay in agreement. | medium, not executed | ChatServerProperties.ObjectUsernameBreaksAgreement | ChatServerProperties.ValidatedJoinKeepsConsistent |
| backend/src/config/ws.ts:53-81, 257-279 | A join stores a room whose conversion throws. When that connection closes, the close listener's broadcast throws at its log line, and the listener has no catch. | Connection 1 sends `{"type":"join","username":"alice","room":{"toString":1}}`, then its socket closes. | No exception escapes a socket listener. | medium, not executed | ChatServerProperties.ObjectRoomEscapesClose | ChatServerProperties.ValidatedJoinKeepsConsistent |

The corrected join is `ChatServer.ValidatedJoinStep`. The class `WsManager.WebSocketManager` performs the code as written.
