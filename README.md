# Anonymous chat: relay and client session, modelled in Dafny

This project models the two pieces of sequential logic in the anonymous chat
application.

**The relay server** (`backend/src/server.ts`):
- `join_room` puts a socket into a room, with no checks.
- `send_message` builds a `messages` row from the payload and inserts it. When the insert returns a row, the server broadcasts `receive_message` to the room.
- `GET /api/messages/:roomId` returns a room's history.

**The browser session** (`frontend/src/ChatRoom.tsx`):
- The component state: `joined`, `roomId`, `username`, `userId`, the draft, `replyTo` and the message list.
- The handlers that change that state.
- The mention updater, `formatDate`, and the rule for showing a date line.

Files, one module each:
- `wire.dfy` (`Wire`): `Option`, `Result`, the calendar `Timestamp`, and the `Message` payload that the relay and the client share.
- `js_text.dfy` (`JsText`): the JavaScript string operations the code relies on. These are `trim`, `includes`, `Number#toString` on integers and `padStart`. `DecimalValue` reads the digits back; it is the inverse of `toString` on naturals.
- `store.dfy` (`Store`): the Supabase `messages` table as an abstract append-only store. The `MessageStore` class holds the rows as a sequence.
- `relay.dfy` (`Relay`): the server. The `Server` class holds the store, a map from room id to a set of socket ids, and an outbox of emissions.
- `client.dfy` (`Client`): the `ChatRoom` class and the pure helpers of the component.
- `end_to_end.dfy` (`EndToEnd`): what the relay stores and broadcasts for a message that the client sent.

External behaviour is supplied as parameters:
- **Insert outcome.** `InsertChoice` says whether the database refuses an insert, or which `id` and `created_at` it assigns and whether the row comes back from `.select('*')`.
- **Query availability.** `Availability` says whether a history query reaches the database.
- **Client randomness and clock.** `uuidv4()`, the random default name and `new Date()` arrive as `freshId`, `initialName`, `sessionId` and `now`.

Each handler call is one atomic step.

The model follows the code as written:
- **No send validation.** The relay does not reject a send whose `roomId`, `userId`, `username` or `message` is empty. The four fields are copied as they are.
- **Reply fields are independent.** The relay normalises each reply field on its own with `|| null`, so a stored reply triple can be partly `null`. `Relay.PartialReplyTripleIsStored` and `EndToEnd.StoredReplyTriple` state when this happens. Only the client sends the triple whole or not at all.
- **Rooms are open.** A socket may join any number of rooms, with any name, including an empty one. Nothing tracks a per-socket state.
- **Own room on connect.** Socket.IO puts each connecting socket into a room named after its own id. `Relay.Server.Connect` models this, so a `send_message` whose `roomId` is a socket id reaches that socket.
- **Room removal on disconnect.** The relay's own `disconnect` handler only logs. Removing the socket from its rooms is done by Socket.IO, and `Relay.Server.Disconnect` models that library behaviour.

## Model

| member | source | states |
|---|---|---|
| Relay.OrNull | backend/src/server.ts:118-120 | `v \|\| null` on a reply field keeps a present non-empty string and yields `null` for an absent or empty one |
| Relay.BuildRecord | backend/src/server.ts:111-121 | `roomId`, `userId`, `username` and `message` are copied unchanged into `room_id`, `user_id`, `username` and `message`. Each reply column is `null` exactly when its own payload field is absent or `""`, and is otherwise that field's value |
| Relay.BuildRecordRoundTrip | backend/src/server.ts:111-121 | The payload can be recovered from the record exactly when no reply field was `""`. The only information lost is "empty" versus "absent" |
| Relay.PartialReplyTripleIsStored | backend/src/server.ts:118-120 | Some payload is stored with a reply id and reply username but a `null` reply text. The triple is not enforced all-or-nothing |
| Relay.ToWire | backend/src/server.ts:144-155 | The row-to-payload mapping renames `room_id` to `roomId`, `user_id` to `userId`, `created_at` to `timestamp` and each `reply_to_*` to `replyTo*`. It is invertible: `FromWire` gives the row back |
| Relay.History | backend/src/server.ts:67-78 | The history body has one entry per ordered row of the room. Entry i is the same mapping `ToWire` applied to row i |
| Relay.HistoryCorrect | backend/src/server.ts:60-78 | Every history entry belongs to the requested room, and timestamps never decrease. A payload is in the history exactly when its row is stored and has that room id |
| Relay.Members | backend/src/server.ts:157 | The sockets `io.to(roomId)` addresses: a socket is a member exactly when the room exists in the map and lists it, and a room nobody joined has no members |
| Relay.Inbox | backend/src/server.ts:157 | The payloads a socket was sent, in emission order. Each emission contributes at most one entry, and the inbox is empty exactly when no emission listed the socket |
| Relay.InboxAppend | backend/src/server.ts:157 | An emission reaches a socket exactly once if the socket is a recipient, and not at all otherwise. Earlier deliveries keep their order |
| Relay.InboxMembership | backend/src/server.ts:157 | A socket was sent a payload exactly when some emission listing that socket as a recipient carried that payload |
| Relay.NothingReachesAbsentSocket | backend/src/server.ts:166-168 | A socket that is in no room gets nothing from any later broadcast |
| Relay.Server.Connect | backend/src/server.ts:86 | A connecting socket is put into the room named after its own id, as Socket.IO does. Other rooms and the outbox are unchanged |
| Relay.Server.JoinRoom | backend/src/server.ts:89-92 | The socket is added to the named room, with no check on the name. Other rooms and the outbox are unchanged, and joining twice has no further effect |
| Relay.Server.Broadcast | backend/src/server.ts:157 | One emission is recorded to the room's current members. Each member's inbox grows by that payload and no other socket's inbox changes |
| Relay.Server.SendMessage | backend/src/server.ts:95-164 | On a refused or duplicate-id insert, nothing is stored or emitted and no error escapes. On an insert that returns no row, the row is stored and nothing is emitted. Otherwise the payload of the first returned row is emitted once to the members of `data.roomId`. Rooms never change |
| Relay.Server.Disconnect | backend/src/server.ts:166-168 | The socket is in no room afterwards. Other memberships, the store and the outbox are unchanged |
| Relay.Server.GetMessages | backend/src/server.ts:57-83 | When the database is down, the reply is status 500 with a generic error and no data. Otherwise it is the room's rows as payloads: only that room's rows, all of them, earliest `timestamp` first |
| Store.MessageStore.Insert | backend/src/server.ts:124-127 | A refused insert, or one whose id is taken, stores nothing and reports the error. Otherwise exactly one row is appended, with the assigned id and time, and it is returned unless the database withholds it. Ids stay unique |
| Store.MessageStore.Query | backend/src/server.ts:60-64 | The query fails only when the database is down, never because the room is empty. It returns the room's rows sorted by `created_at`, each row of the room and no other |
| Store.InRoom | backend/src/server.ts:63 | `.eq('room_id', roomId)`: every row kept belongs to the room, and there are no more of them than stored rows |
| Store.Ordered | backend/src/server.ts:60-64 | The room query's result is sorted by `created_at` and is a permutation of the room's rows |
| Store.OrderedCorrect | backend/src/server.ts:60-64 | The filtered and ordered query is sorted. It holds each row of the room as often as it is stored, and no row of another room |
| Store.SortByTimeCorrect | backend/src/server.ts:64 | Ordering by `created_at` gives a sorted permutation of its input |
| JsText.Trim | frontend/src/ChatRoom.tsx:112 | `trim` removes a white-space prefix and a white-space suffix and nothing else, and the result neither starts nor ends with white space. The result is empty exactly when the input is all white space |
| JsText.Includes | frontend/src/ChatRoom.tsx:179 | `includes` holds for the empty string and for the string itself, and never for a string longer than the one searched |
| JsText.NatToString | frontend/src/ChatRoom.tsx:229-230 | `toString()` of a non-negative integer is at least one decimal digit and starts with `0` only for zero. It is one digit exactly when the number is below 10 |
| JsText.IntToString | frontend/src/ChatRoom.tsx:228-231 | `${year}` of an integer is non-empty and starts with `-` exactly when the integer is negative |
| JsText.PadStart | frontend/src/ChatRoom.tsx:229-230 | `padStart(n, c)` returns a string of length `n` or more unchanged. A shorter one becomes exactly `n` long, ends with the original, and every added character is `c` |
| JsText.NatToStringRoundTrip | frontend/src/ChatRoom.tsx:229-230 | Reading back the decimal digits `toString` writes for a non-negative integer gives that integer |
| JsText.IntToStringInjective | frontend/src/ChatRoom.tsx:228 | Two integers have the same `toString` exactly when they are equal |
| JsText.TwoDigitsRoundTrip | frontend/src/ChatRoom.tsx:229-230 | `toString().padStart(2, '0')` of a number from 1 to 99 is two digits that read back as that number |
| Client.WithMention | frontend/src/ChatRoom.tsx:177-184 | The updated draft always contains `@name ` and starts with the old draft. It equals the old draft exactly when the mention was already there, and otherwise it is the draft with `@name ` appended |
| Client.WithMentionIdempotent | frontend/src/ChatRoom.tsx:177-184 | Applying the mention twice gives the same draft as applying it once |
| Client.FormatDate | frontend/src/ChatRoom.tsx:227-232 | The result is the year's `toString`, then `-MM-DD`. The two digit groups read back as the 1-based month and the day |
| Client.FormatDateInjective | frontend/src/ChatRoom.tsx:227-232 | Two timestamps format to the same text exactly when they fall on the same calendar day |
| Client.ShowDateLine | frontend/src/ChatRoom.tsx:245-248 | A date line appears above message i exactly when i = 0 or message i is on a different day from message i-1 |
| Client.ChatRoom.constructor | frontend/src/ChatRoom.tsx:22-30 | The session starts not joined, with an empty room id, draft and list, no reply target, the socket not connected, and the given name and session id |
| Client.ChatRoom.EditRoomId | frontend/src/ChatRoom.tsx:211 | The room id field sets `roomId`. It exists only before joining |
| Client.ChatRoom.EditUsername | frontend/src/ChatRoom.tsx:218 | The name field sets `username`. It exists only before joining |
| Client.ChatRoom.EditDraft | frontend/src/ChatRoom.tsx:333 | The message box sets the draft |
| Client.ChatRoom.CancelReply | frontend/src/ChatRoom.tsx:324 | The preview's close button clears the reply target |
| Client.ChatRoom.HandleJoinRoom | frontend/src/ChatRoom.tsx:109-119 | Joins exactly when the trimmed room id and the trimmed name are both non-empty. Otherwise the user is alerted and nothing changes. While joined, both stay non-blank |
| Client.ChatRoom.ConnectSocket | frontend/src/ChatRoom.tsx:50-57 | Once joined, the socket is connected and `join_room` is emitted for the current, non-blank room id. Before joining nothing happens. The socket is connected only while joined |
| Client.ChatRoom.HandleSendMessage | frontend/src/ChatRoom.tsx:121-159 | Emits only when joined and the trimmed draft is non-empty. The message carries the trimmed draft and the session's room, id and name, and either all three reply fields from `replyTo` or none. After a send the draft is empty and there is no reply target. Otherwise nothing changes |
| Client.ChatRoom.HandleReplyAreaClick | frontend/src/ChatRoom.tsx:162-169 | The reply target becomes the clicked message's id, text and author name |
| Client.ChatRoom.HandleMentionClick | frontend/src/ChatRoom.tsx:177-186 | The draft becomes the mention update of the old draft |
| Client.ChatRoom.ReceiveMessage | frontend/src/ChatRoom.tsx:81-88 | Messages arrive only while the socket is connected. A received message is appended at the end, and every earlier message keeps its place |
| Client.ChatRoom.HistoryLoaded | frontend/src/ChatRoom.tsx:70-76 | The loaded history replaces the message list |
| Client.ChatRoom.HandleLeaveRoom | frontend/src/ChatRoom.tsx:189-199 | Announces the current room and disconnects the socket, so no further message is received. On the relay that disconnect is `Relay.Server.Disconnect`, which takes the socket out of every room. Then `joined`, `roomId`, the list, the draft and the reply target are reset, and the name and session id are kept |
| EndToEnd.EchoMatchesSent | frontend/src/ChatRoom.tsx:131-146 | When no reply field is `""`, the relay's broadcast of a client message is that message with the store's id and time |
| EndToEnd.StoredReplyTriple | backend/src/server.ts:118-120 | Suppose the client sends a reply triple whole or not at all. The stored triple is then whole or absent exactly when the three texts are all non-empty or all empty |

## Left out

- Express setup, CORS, HTTP listening, `connectToDatabase` and `process.exit` on startup (backend/src/server.ts:13-50, 176-180), and the `/` health route: these are process lifecycle and I/O.
- The Supabase client: it is replaced by the abstract `MessageStore`. The database's choices (refusal, assigned `id` and `created_at`, a withheld returned row) arrive as parameters. The store refuses an id already in use, as the table's primary key would.
- The order of rows with equal `created_at`: the database leaves it unspecified. The model picks one order, and its lemmas state only sortedness and membership.
- `SendData` has the declared TypeScript types. A missing, `null` or non-object payload throws at backend/src/server.ts:106 and :112, outside the `try`, so the rejection escapes the async handler; this is not modelled. Neither is a reply field holding a non-string value, which `|| null` would treat by JavaScript truthiness. "No error escapes" in `Relay.Server.SendMessage` holds for payloads of the declared type.
- Socket.IO internals: delivery is recorded as one emission per broadcast, with the set of recipients. Transport failures, the socket `error` handler (logging only) and the ordering between connections are not modelled.
- Interleaving of awaited handlers across connections: each handler call is one atomic step.
- Logging (`console.*`) and the join `alert`. The alert is returned as a boolean.
- `leave_room`: the client's announcement is returned by `HandleLeaveRoom`. The relay has no handler for it. The client leaves the room on the relay only through the `socket.disconnect()` at frontend/src/ChatRoom.tsx:192, which is `Relay.Server.Disconnect` there.
- React rendering, styles, focus and scroll effects (frontend/src/ChatRoom.tsx:36-48, 98-107, 202-225, 234-641), the `isMyMessage` styling and the scroll-to-reply-source click.
- The history `fetch` and the listener registration in the effect at frontend/src/ChatRoom.tsx:58-96. The connect and `join_room` at lines 55-57 are `ConnectSocket`. Results arrive through `HistoryLoaded` and `ReceiveMessage`. The effect's cleanup disconnect at line 92 is covered by the disconnect in `HandleLeaveRoom`, the only handler that changes `joined` or `roomId` while joined. `HistoryLoaded` has no `joined` guard, so a fetch that resolves after `HandleLeaveRoom` can refill `messages` while not joined, as a late `.then` at frontend/src/ChatRoom.tsx:70-76 does.
- JavaScript `Date` and time zones: a `Timestamp` holds the local calendar fields directly. The relay's `created_at` string and the client's `new Date(...)` conversion are the identity in the model.
- frontend/src/index.tsx, frontend/src/App.tsx and frontend/src/socket.ts: these only mount components or configure the socket client.
