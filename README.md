# Single-room chat: history log, replay and broadcast

This project models `server.js` of a small real-time chat service. It has two parts, and the Dafny follows the same split.

**The server.** It holds one in-memory array `messages` for the life of the process.
- When a socket.io connection opens, the server sends that socket the array (`loadMessages`).
- A `chat message` payload is pushed onto the array without any validation. It is then re-emitted to every connected socket, the sender included.
- A `join` event only writes a log line. Building that line converts the name to a string; when the conversion throws, nothing catches the exception and the Node process exits.

**The page script.** This is the code in the HTML page the server serves. It picks a username, guards the send form, renames the user with a system notice, and escapes names into CSS class names.

Modules:

- `ChatRoom` (chat_room.dfy) is the server as a pure state machine. The state `Room` is the history, the set of connected socket ids, one outbox per socket (the `Event`s emitted to it, in order), and whether the process has exited. There is one step function per handler: `OnConnect`, `OnJoin`, `OnChatMessage` and `OnDisconnect`. `Step` and `Run` apply handlers one after another, since Node runs one handler at a time; once the process has exited, no handler runs. `WellFormed` is the invariant every reachable state keeps: each outbox is a replay snapshot followed by exactly the messages appended while that socket was connected. `Displayed` is what a client lists from its events: `loadMessages` replaces the list and `chat message` appends to it, each only as far as the payloads render. The payload type is a type parameter, because the server never inspects a payload.
- `Server` (server.dfy) is the same server as an object whose handlers update fields in place: `messages`, `sockets`, `outbox` and `halted`. Each method is proved equal to the matching `ChatRoom` step and keeps `Valid()`. The methods require `!halted`, because a handler runs only while the process lives. `ChatMessage` fans out through `Emit`, a loop over the connected sockets.
- `JsString` (js_string.dfy) models JavaScript strings as sequences of UTF-16 code units. It holds the UTF-16 encoding of a character, ECMAScript white space, and `String.prototype.trim`.
- `JsValue` (js_value.dfy) holds `Json`, the values a handler receives, with JavaScript truthiness and whether conversion to a string throws.
- `PageScript` (page_script.dfy) holds `cssEscape`, the username fallback, the send guard of the form and the rename rule. Browser inputs (`localStorage.getItem`, `prompt`, the input box) are parameters. `None` stands for `null`. `Renders` describes which received payloads the page can list.
- `Wrappers` (wrappers.dfy) holds `Option`.

The server keeps no per-socket registry or display name (`join` only logs) and takes a message's author from the payload's `user` field. Its one error case is in `join` (server.js:194): `username + " joined"` throws for a name whose string conversion throws, such as the JSON `{"toString":0}` or an array holding one. The exception escapes the listener, so the process exits and every socket closes. `OnJoin` models that as `halted` with no socket connected, and no later handler changes the state.

The page's handlers (server.js:119-129) list a received payload only when `addMessage` completes. It throws for a payload that is `null` or not an object, and for a payload that is not a system notice and whose `user` is not a string, because `cssEscape` calls `str.replace`. It also throws when `text` cannot be converted to a string: a system notice assigns it to `textContent` (server.js:164), any other payload appends `": " + text` (server.js:170). `ChatRoom.Displayed` takes that test as a parameter, and `PageScript.Renders` states it for JSON values.

## Model

| member | source | states |
|---|---|---|
| Server.ChatServer.constructor | server.js:7 | The server starts with an empty history, no sockets and no outboxes, and the invariant holds. |
| Server.ChatServer.Connect | server.js:190-191 | The new socket's outbox is exactly one `loadMessages` carrying the current history, in order. The socket joins the connected set. History and all other outboxes are unchanged. |
| Server.ChatServer.Join | server.js:193-195 | A join whose name converts to a string changes nothing. For any other name the log line throws: the process exits, so `halted` is set and no socket stays connected. History and outboxes stay as they were in both cases. |
| Server.ChatServer.ChatMessage | server.js:197-200 | Any payload `m` is accepted and appended exactly once at the end of the history; earlier entries are unchanged. Every socket connected at that moment, the sender included, gets exactly one `chat message` event with `m` at the end of its outbox. Every other outbox is unchanged. |
| Server.ChatServer.Emit | server.js:199 | `io.emit` appends the event once to the outbox of every connected socket and of no other. The set of outboxes stays the same. |
| Server.ChatServer.Disconnect | server.js:190-201 | A dropped socket leaves the connected set. History and outboxes are unchanged, and dropping twice is the same as once. |
| ChatRoom.OnConnect | server.js:190-191 | The new socket's outbox is exactly one `loadMessages` of the current history. It becomes connected. History and every other outbox are unchanged. |
| ChatRoom.OnJoin | server.js:193-195 | A join whose name converts to a string leaves the state as it was. For any other name the process exits: the room is halted with no socket connected, and the history and outboxes are kept. |
| ChatRoom.OnChatMessage | server.js:197-199 | The history gains `m` at its end. Every outbox of a connected socket gains exactly one `chat message` with `m`; every other outbox is unchanged; the connected set is unchanged. |
| ChatRoom.OnDisconnect | server.js:190-201 | The socket is no longer connected, every other connected socket still is, and history and outboxes are unchanged. |
| ChatRoom.Step | server.js:190-201 | One handler per event-loop turn. Only a `chat message` of a live process changes the history, by appending its payload, and no outbox ever disappears. The process has exited after the step if and only if it had before, or the handler is a `join` whose name does not convert. |
| ChatRoom.Run | server.js:190-201 | Handlers run one after another. The history is append-only: what it held before a run is a prefix of what it holds after. |
| ChatRoom.EmptyWellFormed | server.js:7 | The process-start state satisfies the replay-then-live invariant. |
| ChatRoom.DeliveredAfterAppend | server.js:198-199 | Appending to the history leaves past deliveries intact. It extends a live socket's delivery by exactly one broadcast of the new message. |
| ChatRoom.ConnectPreservesWellFormed | server.js:190-191 | A connection to a live process keeps the invariant: the new outbox is a snapshot of the whole history with nothing live after it. |
| ChatRoom.JoinPreservesWellFormed | server.js:193-195 | A join keeps the invariant, also when it ends the process. |
| ChatRoom.ChatPreservesWellFormed | server.js:197-199 | A chat message keeps the invariant: every connected outbox grows by one broadcast of the new last entry, and every other outbox stays as it was. |
| ChatRoom.DisconnectPreservesWellFormed | server.js:190-201 | A dropped socket keeps the invariant: its outbox stays a finished delivery. |
| ChatRoom.StepPreservesWellFormed | server.js:190-201 | Each of the four handlers keeps the invariant. After it, every socket's outbox is still a snapshot of the first k history entries, followed by one broadcast each of entries k to j, with j equal to the history length while the socket is connected. |
| ChatRoom.RunPreservesWellFormed | server.js:190-201 | Every sequence of handler runs keeps the invariant. |
| ChatRoom.HaltedRunsNothing | server.js:194 | Once the process has exited, a run of any handlers leaves the state exactly as it was. |
| ChatRoom.HistoryStep | server.js:193-198 | One handler of a live process adds to the history what `Sent` counts for it: a `chat message` its payload; a `join` whose name does not convert ends the count. |
| ChatRoom.HistoryIsSentMessages | server.js:193-198 | After any run from a live state, the history is the old history followed by exactly the `chat message` payloads of the run, in handling order, up to the first `join` whose name does not convert; from an exited state it is unchanged. Nothing is lost, duplicated or reordered, and connect, join and disconnect add nothing. |
| ChatRoom.ConnectedOutboxIsReplayThenLive | server.js:190-200 | In any state reached from process start, a connected socket's outbox is the history snapshot taken when it connected, then every later message once, in history order. So each message reaches it by replay or by broadcast, never both and never neither. |
| ChatRoom.RenderedPrefix | server.js:119-124 | The replay handler lists the longest prefix of the snapshot whose payloads all render: everything listed renders, and the next payload, if any, does not. |
| ChatRoom.Rendered | server.js:127-129 | The live handler keeps the payloads that render, in order: the result is no longer than the input and everything in it renders. |
| ChatRoom.RenderedConcat | server.js:127-129 | Each payload is kept or dropped on its own: filtering `a + b` gives the filtered `a` followed by the filtered `b`. |
| ChatRoom.RenderedSingleton | server.js:127-129 | A single payload is kept exactly when it renders. |
| ChatRoom.RenderedAllRender | server.js:127-129 | When every payload renders, all are kept. |
| ChatRoom.Displayed | server.js:119-129 | What a client lists from its events: `loadMessages` clears the list and shows the renderable prefix of the snapshot; a `chat message` adds its payload when it renders. Everything listed renders. |
| ChatRoom.DeliveredExtend | server.js:199 | A delivery up to entry j is the delivery up to entry j - 1 followed by one broadcast of entry j - 1. |
| ChatRoom.DisplayedChat | server.js:127-129 | A live `chat message` adds its payload to the end of what a client lists exactly when it renders, and nothing otherwise. |
| ChatRoom.DisplayedDeliveredStep | server.js:119-129 | One more live broadcast extends the client's list as the snapshot-then-live description says. |
| ChatRoom.DisplayedDelivered | server.js:119-129 | A client that received the first k history entries as a snapshot, then entries k to j live, lists the renderable prefix of the snapshot followed by the live entries that render. |
| ChatRoom.DisplayedDeliveredAllRender | server.js:119-129 | When every history entry renders, such a client lists exactly the first j entries. |
| ChatRoom.WellFormedClientView | server.js:119-129 | In a well-formed state whose history renders, a connected client lists exactly the history, and any client lists a prefix of it. |
| ChatRoom.ClientsShowHistory | server.js:119-129 | In any reachable state where every payload sent renders, a connected client lists exactly the server's history. A client that has gone lists a prefix of it. |
| JsString.TrimStart | server.js:133 | The result is the suffix of the input starting at its first non-white-space unit. Everything removed is white space. |
| JsString.TrimEnd | server.js:133 | The result is the prefix of the input ending at its last non-white-space unit. Everything removed is white space. |
| JsString.Trim | server.js:133 | `trim()` strips both ends. The result is empty, and so falsy, exactly when every unit is white space. |
| JsString.TrimIdempotent | server.js:133 | Trimming twice gives the same as trimming once. |
| PageScript.CssEscape | server.js:181-183 | The output has the same length in UTF-16 code units, and every output unit is in `[a-zA-Z0-9_-]`. Allowed units stay in place and every other unit becomes one `_`. |
| PageScript.CssEscapeFixesExactlyClassNames | server.js:182 | Escaping leaves a string unchanged if and only if all its units are already in `[a-zA-Z0-9_-]`. |
| PageScript.CssEscapeIdempotent | server.js:182 | Escaping twice gives the same as escaping once. |
| PageScript.CssEscapeAstral | server.js:182 | A character outside the Basic Multilingual Plane is two code units, and it becomes `__`. |
| PageScript.Truthy | server.js:112 | A string-or-`null` operand of `||` or `&&` is truthy when it is present and non-empty. |
| PageScript.InitialUsername | server.js:112 | The username is never empty. It is the stored value if that is non-empty, else the prompt answer if that is non-empty, else "Anonymous". |
| PageScript.StoredUsernameIsKept | server.js:112-113 | The chosen name is written back to storage, so the next page load picks it again whatever the prompt answer. |
| PageScript.Submit | server.js:131-137 | A submit emits a message if and only if the input has a unit that is not white space. The emitted payload is `{user: username, text: input}` with the text untrimmed and no `system` field, and the box is then cleared. Otherwise nothing is emitted and the box keeps its text. |
| PageScript.Rename | server.js:139-157 | A rename happens if and only if the answer is present, non-empty and different from the current name. The name then becomes the answer, and the payload `{user: "System", text: old + " changed username to " + new, system: true}` is emitted. Otherwise the name is kept and nothing is emitted. |
| PageScript.RenameSettles | server.js:141 | Giving the same answer a second time changes nothing and emits nothing. |
| PageScript.RenameKeepsUsernameNonEmpty | server.js:141-143 | A non-empty username stays non-empty after a rename. Together with InitialUsername, the page never holds an empty name. |
| PageScript.RenameEmitsIffNameChanges | server.js:141-155 | A notice is emitted exactly when the username actually changes. |
| JsValue.JsTruthy | server.js:161 | JavaScript truthiness of a received property value, where a missing property is falsy. |
| JsValue.ConvertsToString | server.js:164-170 | Conversion to a string throws exactly for an object with an own `toString`, which JSON cannot make callable, or an array with such an element at any depth. |
| JsValue.PropertyConverts | server.js:164-170 | A missing property converts (to "undefined"); a present one converts when its value does. |
| JsValue.HiddenToStringThrows | server.js:194 | An object with an own `toString`, and an array holding one after a `null`, cannot be converted. |
| PageScript.Renders | server.js:159-171 | `addMessage` completes exactly for an object that is a system notice (truthy `system`) or has a string `user`, and whose `text` converts to a string. |
| PageScript.Encode | server.js:134 | The JSON a page payload is sent as; a missing `system` is left out. |
| PageScript.PagePayloadsRender | server.js:134 | Every payload the page itself sends renders on every page. |
| PageScript.UnconvertibleTextDoesNotRender | server.js:164-170 | A payload whose `text` cannot be converted never renders, whatever its `user` and `system`. |
| PageScript.ReplayStopsAtUnrenderable | server.js:121-122 | A replay stops at the first payload that does not render: with snapshot `[a, x, b]` where `x` does not render, the client lists only `[a]`. |

## Left out

- The Express route and the page's HTML and CSS (server.js:9-100, 185-188) are presentation only.
- DOM work is left out: `addMessage`, `updateUsernameDisplay`, rewriting the `msg-user-*` classes on rename, and scrolling (server.js:119-129, 145-152, 159-178). `ChatRoom.Displayed` keeps only which messages a client lists, in order, and when rendering a payload fails; it does not model how they are drawn.
- `localStorage` and `prompt` (server.js:112-113, 140, 144) are browser I/O. Their results are parameters.
- socket.io framing, delivery, `http.listen` and `console.log` (server.js:1-5, 194, 203-205) are network I/O and library code. Delivery is modelled as appending to a per-socket outbox. The text of the `join` log line is not modelled; only whether building it throws is.
- Payloads are JSON values. socket.io can also carry binary attachments, which no handler here expects; they are not modelled. Of an object, `Json` keeps only `user`, `text`, `system` and whether it has an own `toString`, the properties the handlers' behaviour depends on.
- Disconnection has no handler in the code. It is modelled as socket.io removing the socket from the connected set, which is an assumption about the library.
- A payload that fails to render throws inside a socket.io listener of the page, not of the server; the model assumes the page still handles later events.
- socket.io gives every connection a fresh id. `OnConnect` on an id seen before starts that id's outbox afresh, which real ids never trigger.
- The `chat message` handler never looks at which socket sent the event, and neither does the model. socket.io delivers no events from a closed socket, but the model admits them, so its theorems cover more traces than socket.io produces.
- The white-space test and `cssEscape` work per UTF-16 code unit. This matches `trim()`, because every ECMAScript white-space character is a single unit outside the surrogate range. The Unicode `Zs` set is the one current ECMAScript engines use.
- Concurrency, backpressure and delivery failures are left out. The code has none of them, and each handler runs as one atomic turn of Node's event loop.

