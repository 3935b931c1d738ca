# aiohttp-chat: the room registry and relay, in Dafny

This project models the core of the aiohttp chat server in
`aiohttp_chat/server.py`:

- the application-wide registry `app['websockets']`, a `defaultdict(dict)`
  from room name to (user name -> websocket connection);
- the chat endpoint `ws_chat`:
  - it greets each new connection with a 'connecting' frame under a random
    name `User<n>` in room `Default`;
  - it refuses the connection with close code TRY_AGAIN_LATER (1013) when
    that name is already taken;
  - otherwise it registers the connection and announces a 'join' frame to
    the whole room, the newcomer included;
  - for each inbound text frame it gates the 'action' against
    `ALLOWED_USER_ACTIONS`, then relays the raw data: 'confirm' goes to the
    sender and 'sent' to every other connection in the room;
- the shutdown hook, which clears the registry. Its close requests are
  never awaited (see Findings); `Server.App.Shutdown` models the corrected
  hook;
- the echo endpoint `ws_echo`, which wraps each decoded JSON value as
  `{'echo': value}`.

The project has four modules:

- `Json` (`json.dfy`): decoded JSON values.
- `Protocol` (`protocol.dfy`): the frames, the close codes, the
  allowed-action gate, the generated name `User<n>` with its decimal
  rendering and parsing, and the echo wrapping.
- `Registry` (`registry.dfy`): the application state as a value. Each
  endpoint step is a function of it, and lemmas state what each step
  promises.
- `Server` (`server.dfy`): the application as a class whose methods update
  the registry and the outboxes in place, in loops. Each method is proved
  equal to the matching `Registry` function. The module also holds the echo
  loop.

The server is not transcribed as-is. These choices stand in for parts of it:

- A connection is an opaque identity (`Conn`, a natural number). The class
  hands out a fresh one to each new session.
- "What the server sent to connection c" is an outbox: the sequence of
  events (sent frames and close requests) addressed to c, in order.
- Each `await ws.send_json(...)` appends one frame to its target's outbox.

Where the docstring of `ws_chat` and the code differ, the model follows the
code:

- The announcement frame's action is 'join', not 'joined'.
- A chat message is answered with 'confirm' to the sender and 'sent' to the
  other occupants. The documented `chat_message` echo is not sent.
- The 'set_nick', 'user_list' and 'chat_message' branches do nothing. The
  branch tests 'change_room', while the allowed list names 'join_room'.
  Every inbound text frame is relayed to the room, whether or not its action
  was allowed and whatever the action is.
- Nothing is removed from the registry when a connection ends. The
  leave/unregister step is a TODO in the source. A stale entry therefore
  keeps its name taken and keeps receiving relayed frames.

## Model

| member | source | states |
|---|---|---|
| Protocol.IsAllowed | aiohttp_chat/server.py:151 | No ensures of its own. `action not in ALLOWED_USER_ACTIONS` as membership by equality; stated by Protocol.AllowedExactly. |
| Protocol.NotAllowed | aiohttp_chat/server.py:152 | No ensures of its own. The rejection frame `{'action': action, 'success': False, 'message': 'Not allowed.'}`; its delivery is stated by Registry.ReceiveDelivers. |
| Protocol.GeneratedName | aiohttp_chat/server.py:126 | No ensures of its own. `f'User{n}'`; stated by Protocol.GeneratedNameShape and Protocol.GeneratedNameInjective. |
| Protocol.EchoReply | aiohttp_chat/server.py:47 | No ensures of its own. `{'echo': m}`; stated by Protocol.EchoRoundTrip and Server.Echo. |
| Protocol.AllowedExactly | aiohttp_chat/server.py:14-19 | The action gate accepts exactly the strings 'set_nick', 'join_room', 'chat_message' and 'user_list'. A missing action (null) and 'change_room' are rejected. |
| Protocol.Decimal | aiohttp_chat/server.py:126 | The rendering of the random number is non-empty and all digits. It has a leading '0' only for the number 0. |
| Protocol.DecimalRoundTrip | aiohttp_chat/server.py:126 | Parsing the rendered digits gives back the drawn number. |
| Protocol.DecimalLength | aiohttp_chat/server.py:126 | A number below 10^k is rendered in at most k digits. |
| Protocol.GeneratedNameShape | aiohttp_chat/server.py:126 | Every number `randint(0, 999999)` can draw gives a name 'User' followed by one to six canonical digits, which read back as that number. |
| Protocol.GeneratedNameInjective | aiohttp_chat/server.py:125-126 | Two draws give the same user name if and only if they are the same number. |
| Protocol.EchoRoundTrip | aiohttp_chat/server.py:47 | Reading 'echo' back out of the reply gives the received value. Distinct values give distinct replies. |
| Server.Echo | aiohttp_chat/server.py:42-48 | The echo endpoint sends one reply per text frame, in order. The i-th reply is `{'echo': msgs[i]}` and reads back as `msgs[i]`. |
| Registry.Touch | aiohttp_chat/server.py:133 | Subscripting the defaultdict adds the room if it is absent and changes no room's occupants. |
| Registry.Insert | aiohttp_chat/server.py:139 | Storing `rooms[room][user] = conn` sets that one entry. Every other room and every other user entry is unchanged. |
| Registry.Connect | aiohttp_chat/server.py:122-142 | No ensures of its own. The connect step of the chat endpoint; stated by Registry.ConnectRefused, Registry.ConnectRegisters, Registry.ConnectAnnounces and Registry.ConnectKeepsSound. |
| Registry.Receive | aiohttp_chat/server.py:145-173 | No ensures of its own. The handling of one inbound text frame; stated by Registry.ReceiveDelivers and Registry.ReceiveKeepsOccupants. |
| Registry.ReceiveAll | aiohttp_chat/server.py:145-173 | No ensures of its own. The receive loop over a session's inbound frames; stated by Registry.ReceiveAllDelivers and Registry.ReceiveAllKeepsOccupants. |
| Registry.ChatSession | aiohttp_chat/server.py:115-178 | No ensures of its own. A whole chat session, returning after a refusal; its in-place counterpart is Server.App.Chat. |
| Registry.Shutdown | aiohttp_chat/server.py:196-200 | No ensures of its own. The shutdown hook with each close awaited (the corrected hook); stated by Registry.ShutdownClosesAll. |
| Registry.ShutdownAsWritten | aiohttp_chat/server.py:196-200 | No ensures of its own. The shutdown hook as written, where only the clear at line 200 takes effect; stated by Registry.ShutdownAsWrittenClosesNothing. |
| Registry.ConnectRefused | aiohttp_chat/server.py:130-136 | If the name is taken in Default: the registry is unchanged; the newcomer gets 'connecting' and then a close with code 1013 and 'Username already in use'; no other connection gets anything. |
| Registry.ConnectRegisters | aiohttp_chat/server.py:137-139 | If the name is free: Default's occupants are the old ones plus user -> newcomer. No other room changes. |
| Registry.ConnectAnnounces | aiohttp_chat/server.py:130-142 | If the name is free: the newcomer gets 'connecting' and then exactly one 'join'. Every earlier occupant of Default gets exactly one 'join'. Nobody else gets anything. |
| Registry.InsertRegistered | aiohttp_chat/server.py:139 | Registering a user not yet in the room adds exactly that connection to the set of registered connections. |
| Registry.InsertInjective | aiohttp_chat/server.py:139 | Registering a connection that is registered nowhere keeps every connection under at most one (room, user) entry. |
| Registry.RegisteredTouch | aiohttp_chat/server.py:133 | The empty room the defaultdict inserts registers nobody. It keeps connections unique. |
| Registry.ConnectKeepsSound | aiohttp_chat/server.py:122-142 | A connection step keeps the registry sound: every connection sits under at most one entry, and each was handed out before the next fresh one. |
| Registry.ReceiveDelivers | aiohttp_chat/server.py:149-173 | One inbound frame works as follows. A disallowed action first earns the sender a `{'action': a, 'success': False, 'message': 'Not allowed.'}` reply. Then, allowed or not, the sender gets one 'confirm' and each other occupant of the room one 'sent', both carrying the raw data. Connections outside the room get nothing. |
| Registry.ReceiveKeepsOccupants | aiohttp_chat/server.py:145-173 | Handling an inbound frame never changes any room's occupants or the registered connections, and it keeps them unique. The only possible change is an empty entry for the room. |
| Registry.ReceiveAllKeepsOccupants | aiohttp_chat/server.py:145-173 | A whole run of inbound frames leaves occupancy, the registered set and uniqueness unchanged. |
| Registry.ReceiveAllDelivers | aiohttp_chat/server.py:145-173 | After a run of inbound frames, each connection's outbox is its old contents followed by the frames delivered to it, message by message, in arrival order. |
| Registry.OthersSeeEveryMessage | aiohttp_chat/server.py:166-169 | Another occupant of the sender's room receives exactly one 'sent' per inbound frame. The i-th carries the i-th frame's data. |
| Registry.OutsidersSeeNothing | aiohttp_chat/server.py:166-169 | A connection outside the sender's room receives nothing from the sender's messages. |
| Registry.SenderConfirmed | aiohttp_chat/server.py:151-173 | A registered sender receives between one and two frames per inbound frame. The last of them is the 'confirm' of its latest message. |
| Registry.ShutdownClosesAll | aiohttp_chat/server.py:196-200 | The corrected shutdown asks each registered connection to close exactly once, with the normal code, then empties the registry. |
| Registry.ShutdownAsWrittenClosesNothing | aiohttp_chat/server.py:196-200 | As written, shutdown empties the registry but leaves every registered connection's outbox without a close request. |
| Server.App.constructor | aiohttp_chat/server.py:186-187 | The application starts with an empty registry. |
| Server.App.Connect | aiohttp_chat/server.py:115-142 | The new session gets a fresh connection in room Default under `User<n>`. It is accepted exactly when that name is free. The new registry and outboxes are exactly the connect step's, and the registry stays sound. |
| Server.App.Receive | aiohttp_chat/server.py:145-173 | The in-place receive step (gate, then the relay loop over the room) leaves exactly the state the receive step defines, and the registry stays sound. |
| Server.App.ReceiveEach | aiohttp_chat/server.py:145-173 | The in-place receive loop over a session's inbound frames leaves exactly the state of the run of receive steps, in arrival order, and the registry stays sound. |
| Server.App.Chat | aiohttp_chat/server.py:115-178 | A whole session, connect and then every inbound frame in order, leaves exactly the state of the session function and advances the connection counter by one. It returns after the refusal when the name is taken. |
| Server.App.Shutdown | aiohttp_chat/server.py:196-200 | The nested loops over rooms and their connections, with the close awaited, leave exactly the corrected shutdown's state. |
| Server.SendEach | aiohttp_chat/server.py:141-142 | A loop sending one frame to each target connection appends exactly that frame to each target's outbox and nothing to anyone else's. |

## Left out

- Transport:
  - `can_prepare`/`prepare` and the PROTOCOL_ERROR close on a bad handshake;
  - non-text messages (ping, pong, binary, close);
  - decoding the text into JSON. An inbound frame is given already decoded, with its raw text alongside.
- JSON numbers are integers only. Floating point is not modelled.
- A JSON body that is not an object is not modelled. `.get` on it would raise and end the session.
- Concurrency: asyncio sessions interleave at every `await`. The model runs one session's steps at a time, and `Server.App.Chat` runs a whole session with no other session in between.
- `random.randint(0, 999999)` becomes the parameter `n`.
- Logging.
- The route setup in `init_app`, `main`, and `web.run_app`.
- The stub `_broadcast_room`, the stubs in `aiohttp_chat/utils.py`, and the client scripts.
- A send to a connection the peer has already closed is taken to succeed. In aiohttp it may raise and abort the sending session's loop.
- The order in which `.values()` visits a room's connections is not modelled. The loops send to the set of connections. Each connection's outbox is its own, so the order of frames seen by any one connection is unaffected. Soundness (each connection is stored once) makes the set visit each connection exactly as often as the dict does.
- The truth test in `.get(user)` is assumed true for every stored connection. This holds for aiohttp 3.x, whose `StreamResponse` defines `__bool__` to return true; aiohttp itself is not part of this model. Without that override the response's `__len__` would make a fresh connection falsy and the refusal would never fire.
- The close reason is modelled as text rather than bytes.
- Registry.SenderConfirmed: does not give the sender's exact frame count (one more for each disallowed action). `Registry.ReceiveDelivers` and `Registry.ReceiveAllDelivers` state the sender's frames exactly.

## Findings

| source | as written | input that shows it | evidently intended | confidence | as-written member | corrected member |
|---|---|---|---|---|---|---|
| aiohttp_chat/server.py:199 | `ws.close()` is called without `await`, so each close coroutine is created and dropped and never runs. Shutdown only clears the registry. | A registry holding one connection, e.g. `User7` in `Default`, at application shutdown: that connection is never sent a close. | Await the close of every registered connection, then clear the registry. | high; not executed | Registry.ShutdownAsWrittenClosesNothing | Registry.ShutdownClosesAll |
