# Spacebrew p5.js client, modelled in Dafny

This project models the client side of Spacebrew, a publish/subscribe toolkit in which
browser sketches exchange named, typed messages through a relay server. The core is the
`Spacebrew` connection manager of the p5.js library. It keeps two route tables
(`publishes`, `subscribes`), two flags (`connectionEstablished`, `connectionRequested`),
a reconnect timestamp polled every frame with a fixed 5000 ms interval, and a cached
config object (`tConfig`). It announces its routes to the server, sends data messages
only while connected, and dispatches each inbound message to the string, boolean, range
or custom callback. Two helpers of the button-pad site are modelled beside it:
`shuffle`, an in-place Fisher–Yates loop, and `gup`, which reads a query parameter out
of the page address.

The outside world is explicit:

- The WebSocket is an **outbox**, the sequence of calls the client makes on it:
  `OpenSocket(url)`, `ConfigFrame(config)`, `DataFrame(message)`, `CloseSocket`.
- The document's event bus is an **event log**, the sequence of events dispatched:
  `SbOpen`, `SbClose`, `StringMessage`, `BooleanMessage`, `RangeMessage`, `CustomMessage`.
- The WebSocket's `onopen`/`onclose`/`onmessage` notifications are the methods
  `OnOpen`, `OnClose` and `OnMessage`. Inbound messages arrive already decoded.
- p5's `millis()` is the `now` argument of `Pre`.
- `Math.random()` in `shuffle` is a sequence of supplied picks, each below the current
  `counter`. `window.location.href` in `gup` is the `href` argument.

Files and modules:

- `decimal.dfy` (`Decimal`): the text `toString()` gives an integer, and its reading back.
- `routes.dfy` (`Routes`): routes, the `_default` coercion, the config entries built
  from the tables, and the two loops of `updatePubSub`.
- `messages.dfy` (`Messages`): data messages, events, and the dispatch by type.
- `client.dfy` (`Client`): the class `Spacebrew`, with field-by-field `modifies` frames.
  `Valid()` holds these invariants:
  - an open connection implies a socket exists;
  - a socket implies a cached config exists;
  - the cached config carries the current name and description;
  - the cached config lists a prefix of each route table, in order;
  - subscribe routes have the empty default;
  - `connectionEstablished` holds exactly when the last open/close event in the log
    is an open.
- `scenarios.dfy` (`Scenarios`): properties of call sequences. Covered: declare, then
  connect, then open; close, then tick; dropped connection, then ticks.
- `plugins.dfy` (`Plugins`): `shuffle` and `gup`.

Behaviours of the code that the model keeps, some of them easy to miss:

- `connect` sends the config only if a connection is already open
  (library/p5.spacebrew.js:145, 291-293). It does not send it as soon as the socket
  exists.
- Routes declared after `connect` but before the socket opens are missing from the
  config that `onOpen` sends. `onOpen` re-sends the config cached by `connect`
  (library/p5.spacebrew.js:331) and does not rebuild it.
  `Scenarios.DeclareBetweenConnectAndOpen` states this.
- A reconnect needs strictly more than 5000 ms since the last attempt
  (library/p5.spacebrew.js:239). A tick at exactly 5000 ms does nothing.
- The reconnect clock runs from the last attempt made by `pre`, starting at 0. Neither
  `connect` nor a dropped connection resets it (library/p5.spacebrew.js:133-146,
  340-346). So a tick right after a drop reconnects at once when the last attempt is
  over 5000 ms old. A tick right after an explicit `connect`, made more than 5000 ms
  after the last attempt and before the socket opens, creates a second socket and
  abandons the first. `Scenarios.ConnectThenTick` states this.
- `connect` called without a description leaves the description undefined, and
  `JSON.stringify` leaves that key out of every config frame. The model's description
  is optional; None stands for the undefined one.
- There is no three-valued connection state, only the two flags. Re-declaring a route
  name appends a second entry.
- `close()` leaves the flags as one call does, however often it is called. While the
  connection is open, every call asks the socket to close again.

## Model

| member | source | states |
|---|---|---|
| Decimal.NatToString | library/p5.spacebrew.js:141 | the port in the socket address is its canonical decimal text: digits only, never empty, no leading zero except "0" |
| Decimal.IntToString | library/p5.spacebrew.js:106 | an integer default's `toString()` is digit text with a leading '-' exactly when the number is negative, in canonical spelling: no leading zero except for "0" itself |
| Decimal.ParseIntRoundTrip | library/p5.spacebrew.js:106 | reading the rendered text back gives the integer, so distinct integer defaults are stored as distinct text |
| Routes.DefaultString | library/p5.spacebrew.js:106 | the stored default is "" for an undefined default, the string itself for a string, the canonical decimal text of the number (`IntToString`, which reads back as that number) for an integer, and "true"/"false" for a boolean |
| Routes.PublishEntriesAt | library/p5.spacebrew.js:256-265 | the k-th publish entry of the config is {name, type, default} of the k-th publish route |
| Routes.SubscribeEntriesAt | library/p5.spacebrew.js:270-278 | the k-th subscribe entry of the config is {name, type} of the k-th subscribe route, with no default |
| Routes.PublishEntriesAppend | library/p5.spacebrew.js:102-109 | declaring one more publish route adds exactly one config entry, at the end, leaving the earlier ones as they were |
| Routes.SubscribeEntriesAppend | library/p5.spacebrew.js:118-124 | declaring one more subscribe route adds exactly one config entry, at the end |
| Routes.PublishEntriesRoundTrip | library/p5.spacebrew.js:256-265 | the publish list of the config determines the publish table exactly: nothing is lost or reordered |
| Routes.SubscribeEntriesRoundTrip | library/p5.spacebrew.js:268-278 | the subscribe list of the config determines the subscribe table, whose defaults are all "" |
| Routes.CollectPublishers | library/p5.spacebrew.js:254-265 | the first loop of updatePubSub builds exactly the publish entries of the table, in order |
| Routes.CollectSubscribers | library/p5.spacebrew.js:268-278 | the second loop of updatePubSub builds exactly the subscribe entries of the table, in order |
| Messages.Classify | library/p5.spacebrew.js:351-371 | "string", "boolean" and "range" go to the event of that kind, and every other type goes to the custom event carrying that type; each direction is an if-and-only-if; name and value pass through unchanged |
| Messages.ClassifyKeepsAllButSender | library/p5.spacebrew.js:354-370 | the dispatched event gives back the message's name, type and value: dispatch loses only the sender |
| Client.Spacebrew.constructor | library/p5.spacebrew.js:33-94 | a new client has an empty name and description, the sandbox host and port 9000, both flags false, attempt time 0, no config, empty tables, nothing sent and nothing dispatched |
| Client.Spacebrew.AddPublish | library/p5.spacebrew.js:102-109 | appends exactly one route with the given name, type and coerced default; the subscribe table is untouched; when connected, the config is rebuilt and one config frame is sent, otherwise nothing is sent and the cached config is kept; the invariants are preserved |
| Client.Spacebrew.AddSubscribe | library/p5.spacebrew.js:118-124 | appends exactly one route with the given name and type; the publish table is untouched; when connected, the config is rebuilt and one config frame is sent, otherwise nothing is sent |
| Client.Spacebrew.Connect | library/p5.spacebrew.js:133-146 | records identity (the description may be undefined, as when connect is called with three arguments, and is then left out of the config) and address, sets connectionRequested, opens one socket at ws://host:port, rebuilds the config from the tables, and sends it only if already connected |
| Client.Spacebrew.Close | library/p5.spacebrew.js:151-156 | always leaves connectionRequested false; asks the socket to close only when connected; changes nothing else |
| Client.Spacebrew.Pre | library/p5.spacebrew.js:236-245 | when a connection is wanted, not open, and the last attempt is more than 5000 ms before `now`, opens one socket with the stored address and identity, rebuilds the config and stamps the attempt time with `now`; otherwise changes nothing |
| Client.Spacebrew.UpdatePubSub | library/p5.spacebrew.js:251-294 | the cached config becomes the current identity plus the full tables (publish entries with defaults, subscribe entries without) and is sent only when connected |
| Client.Spacebrew.Send | library/p5.spacebrew.js:302-314 | when connected, sends exactly one data frame {clientName: name, name, type, value}; otherwise sends nothing |
| Client.Spacebrew.Connected | library/p5.spacebrew.js:319-321 | reports true exactly when the last open/close event dispatched is an open |
| Client.Spacebrew.OnOpen | library/p5.spacebrew.js:326-335 | marks the connection open, sends the cached config exactly once, and dispatches one open event |
| Client.Spacebrew.OnClose | library/p5.spacebrew.js:340-346 | dispatches one close event and marks the connection closed; connectionRequested and the outbox are untouched |
| Client.Spacebrew.OnMessage | library/p5.spacebrew.js:351-371 | dispatches exactly one event per inbound message, the one Classify chooses, and changes nothing else |
| Scenarios.DeclareConnectOpen | library/p5.spacebrew.js:133-146 | for any routes declared on a fresh client before connect, the first config sent after open lists exactly those routes in declaration order, publish entries with defaults, subscribe entries without |
| Scenarios.DeclareBetweenConnectAndOpen | library/p5.spacebrew.js:326-331 | a subscribe route declared between connect and open is absent from the config sent on open, which is the one built by connect |
| Scenarios.CloseThenTick | library/p5.spacebrew.js:236-245 | after close, a tick at any time opens no socket and leaves the attempt time alone |
| Scenarios.CloseTwice | library/p5.spacebrew.js:151-156 | closing twice leaves the flags as closing once does; while connected, each call asks the socket to close |
| Scenarios.DropThenTicks | library/p5.spacebrew.js:236-245 | after the socket drops while a connection is wanted, a tick exactly 5000 ms after the last attempt does nothing, a tick more than 5000 ms after the last attempt opens exactly one socket, and a tick one interval after that attempt does nothing |
| Scenarios.ConnectThenTick | library/p5.spacebrew.js:236-245 | after an explicit connect with the socket not yet open, a tick more than 5000 ms after the last attempt opens a second socket and stamps the attempt time |
| Plugins.SwapPermutes | spacebrew_button_pad/website/js/plugins.js:31-34 | one round's exchange of two cells keeps the multiset of elements |
| Plugins.ShuffleRoundsPermutes | spacebrew_button_pad/website/js/plugins.js:24-35 | the remaining rounds keep the length and the multiset of elements |
| Plugins.ShuffleRoundsKeepsFixed | spacebrew_button_pad/website/js/plugins.js:24-35 | cells at or beyond `counter` are final: the remaining rounds leave them unchanged |
| Plugins.ShuffledPermutes | spacebrew_button_pad/website/js/plugins.js:20-38 | a shuffle returns a permutation of its input, of the same length |
| Plugins.ShuffledLast | spacebrew_button_pad/website/js/plugins.js:26-34 | the last cell ends up holding the element chosen in the first round |
| Plugins.Shuffle | spacebrew_button_pad/website/js/plugins.js:20-38 | rearranges the array in place, exactly as the rounds chosen by the picks do, runs once per cell, and returns the same array |
| Plugins.FirstMatchFrom | spacebrew_button_pad/website/js/plugins.js:45-47 | finds the leftmost "?name=" or "&name=" at or after a position, or reports that there is none |
| Plugins.ValueEnd | spacebrew_button_pad/website/js/plugins.js:45 | the captured value runs up to the next '&' or '#', or to the end, and contains neither |
| Plugins.Gup | spacebrew_button_pad/website/js/plugins.js:43-53 | returns "" when href holds no "?name=" or "&name="; otherwise returns the characters after the first of them, up to and excluding the next '&' or '#', or to the end; the result never holds '&' or '#' |
| Plugins.GupOfQuery | spacebrew_button_pad/website/js/plugins.js:43-53 | a value written as "?name=value" into an address whose base holds no '?' or '&' is read back unchanged |

## Left out

- Logging: `console.log`/`console.warn` and the `verbose` flag. A `send` while disconnected is modelled as sending nothing; the warning is not modelled.
- Callback registration (`onRangeMessage`, `onStringMessage`, `onBooleanMessage`, `onCustomMessage`, `onOpen`, `onClose` at library/p5.spacebrew.js:166-230) and `document.addEventListener`/`dispatchEvent` plumbing. These are replaced by the event log. Listeners run synchronously inside `dispatchEvent`, so a close listener still sees `connected()` true; the log does not record what listeners observe.
- `p5.prototype.registerMethod('pre', …)` (library/p5.spacebrew.js:374). `Pre` is called directly.
- Client.Spacebrew.Pre: `millis()` is read twice (library/p5.spacebrew.js:239, 242), before and after `connect`. Both reads are modelled by the one `now`.
- JSON text: `JSON.stringify`/`JSON.parse` (library/p5.spacebrew.js:292, 312, 331, 352). Frames and inbound messages are datatypes. A malformed inbound payload makes `JSON.parse` throw; this is not modelled.
- Client.Spacebrew.Connect, Client.Spacebrew.Pre: `new WebSocket(url)` (library/p5.spacebrew.js:141) throws a SyntaxError on an address it cannot parse, such as a host holding a space or a port above 65535. `connect` has then already stored name, description, host, port and `connectionRequested`, but attaches no handlers and skips `updatePubSub`, so the cached config keeps the old identity and every later due `pre` tick throws again. The model assumes every address opens a socket: `Connect` always appends `OpenSocket` and rebuilds the config.
- WebSocket behaviour (RFC 6455): the outbox records each call the client makes. The socket's own reactions are not modelled: `send` on a socket that is still connecting throws, and `close` on a closing socket does nothing. The model also does not tell apart notifications from an old, abandoned socket and from the current one.
- Routes.DefaultString: only undefined, string, integer (|n| ≤ 2^53 − 1) and boolean defaults are modelled. Floating-point numbers, `null` (whose `toString` throws), objects, and integers beyond 2^53 are left out.
- The unused variables `nameConfig`, `callbacks` and `on…Method` (library/p5.spacebrew.js:65-70, 87, 94) are never read by the code and are not modelled.
- A legacy `"host:port"` overload of `connect` and named per-route callbacks are not in library/p5.spacebrew.js. They are not part of this model.
- spacebrew_p5_drawer/p5.spacebrew.js is a broken copy of the library. It returns nothing from its wrapper, and its custom branch dispatches an undefined variable. The sketches in spacebrew_p5_drawer and spacebrew_p5_audio_player only consume the library. None of these is part of this model.
- Plugins.Gup: names must hold no regular-expression operator and at most one '[' and one ']'. Line 44 escapes only the first bracket of each kind, so other names change the pattern's meaning or make `RegExp` throw.
- Plugins.Shuffle: `Math.floor(Math.random() * counter)` is a supplied pick below `counter`. Randomness and the distribution of the result are not modelled.
- `convertToServerTimeZone` (Date and floating-point arithmetic), `getRandomArbitary`/`getRandomInt` (floating-point random numbers) and the `requestAnimFrame` browser shim (spacebrew_button_pad/website/js/plugins.js:5-14, 58-68, 74-83).
