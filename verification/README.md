# dm-table WebSocket relay — Dafny model

This project models the message relay in `server.js` of the dm-table WebSocket
server. Each WebSocket connection is registered in a `clients` Map. The Map
binds a connection to the table (room) and client identifier the connection
declared with `join`. A `broadcast` or `state` message is fanned out to every
other open connection bound to the same table.

The model is a pure state machine:
`Relay.Step(clients, open, event) -> Outcome(clients', sends)`.

- `event` is `Connect(c)`, `Close(c)` or `Message(c, parsed)`.
- `parsed` is the value `JSON.parse` returned, within the limits of the value model listed under "## Left out", or `None` when it threw.
- `open` is the set of connections whose transport is currently open.
- `sends` is the sequence of `(recipient, outbound message)` pairs that the
  handler passes to `ws.send`, in the order it passes them.

Files:

- `options.dfy`: `Option`, used for nullable strings.
- `js.dfy`: the JavaScript semantics the handler relies on. This covers
  truthiness, `typeof … === 'object'`, property reads, `??`, `===` against a
  stored table id, and `typeof v === 'string' ? v : null`.
- `clients.dfy`: the `clients` Map. It is an association list in insertion
  order with distinct keys. `View` turns it into a plain finite map.
  `ViewOfSet` and `ViewOfDelete` prove that `Set` and `Delete` behave as map
  update and map removal.
- `messages.dfy`: decoding an inbound frame into a closed kind (`Malformed`,
  `NonObject`, `Join`, `Broadcast`, `State`, `Other`), and the outbound
  message shapes. `Encode` is the object a client writes for a handled kind.
  It exists only so that decoding has an inverse to be checked against.
- `relay.dfy`: `broadcastToRoom`, the per-message dispatcher, the step
  function, runs of steps, and the lemmas about them.

A `join` gets only a `joined` reply. A `state` message is re-broadcast without any check.

## Model

| member | source | states |
|---|---|---|
| `Clients.Lookup` | server.js:46 | `clients.get(ws)` finds an entry exactly when the connection is a key of the registry |
| `Clients.Set` | server.js:40 | `clients.set` gives the connection the new entry and leaves every other entry unchanged; an existing key keeps its position and a new key is appended; keys stay distinct |
| `Clients.Delete` | server.js:63 | `clients.delete` removes exactly that connection's entry and leaves every other entry unchanged; the registry shrinks by one exactly when the key was present |
| `Clients.ViewOfSet` | server.js:40 | as a finite map, setting an entry is map update `m[c := e]` |
| `Clients.ViewOfDelete` | server.js:63 | as a finite map, deleting an entry is map removal `m - {c}` |
| `Js.StringOrNull` | server.js:38-39 | a `join` field is kept exactly when it is a string, and becomes null otherwise |
| `Js.FromNullable` | server.js:19 | a stored table id is a primitive that is null exactly when no table is bound |
| `Js.MatchesNullableOnlyAsString` | server.js:19 | a truthy value is strictly equal to a stored table id only when it is that same string; numbers, booleans, arrays and objects never match |
| `Js.Get` | server.js:37-56 | a property read yields an own property of a parsed object, and undefined otherwise |
| `Messages.Decode` | server.js:29-56 | a frame is malformed exactly when parsing fails; it is ignored as non-object exactly when the parsed value is falsy or its `typeof` is not `object`; it is `Other` exactly when it is an object whose `type` is not `join`, `broadcast` or `state`; an object whose `type` is `join`, `broadcast` or `state` decodes to that kind carrying its `tableId` and `clientId` or `tableId` and `payload` properties, whatever other properties it has |
| `Messages.DecodeEncode` | server.js:37-55 | each handled kind the dispatcher reads from an object's `type`, `tableId`, `clientId` and `payload` decodes back to that kind and those fields |
| `Relay.FanOut` | server.js:17-22 | every send carries the one message and goes to a registered, open, non-excluded connection bound to the target table; every such connection gets exactly one send |
| `Relay.BroadcastToRoom` | server.js:14-23 | a falsy table id (undefined, null, `""`, `0`, `false`) sends nothing; otherwise the fan-out is sound and complete as for `FanOut` |
| `Relay.NonStringRoomReachesNobody` | server.js:15-19 | a truthy table id that is not a string never matches a stored table id, so it reaches nobody |
| `Relay.Dispatch` | server.js:28-60 | the registry changes only on `join`; a send reaches the sender exactly when it is the `joined` reply |
| `Relay.Step` | server.js:25-64 | every event keeps the registry's keys distinct; only the event's own connection's entry can change; only `Connect`, `Close` and `join` change the registry; the sender never receives its own fan-out |
| `Relay.ConnectRegisters` | server.js:26 | a new connection gets the entry `{tableId: null, clientId: null}`, nothing else changes, and nothing is sent |
| `Relay.CloseUnregisters` | server.js:62-64 | closing removes exactly that connection's entry, nothing else changes, and nothing is sent |
| `Relay.JoinBinds` | server.js:37-43 | `join` sets the sender's entry to its string `tableId` and `clientId` fields, with null for non-strings, changes no other entry, and sends exactly one `joined{tableId}` reply, to the sender only, with no open check |
| `Relay.RelayFields` | server.js:45-59 | a relayed message targets the message's `tableId` unless that is null or missing; then it targets the sender's bound table, or undefined when the sender has no entry; the payload defaults to null; a `state` carries `sender` equal to the sender's bound client id or null |
| `Relay.RelayReachesRoom` | server.js:45-59 | `broadcast` and `state` leave the registry unchanged; with a falsy room they send nothing; otherwise they reach exactly the open connections bound to the room, other than the sender, once each |
| `Relay.IgnoredInputs` | server.js:28-60 | unparseable input, a falsy or non-object value, and an object whose `type` is unhandled leave the registry unchanged and send nothing |
| `Relay.ClosedHearsNothing` | server.js:62-64 | right after a close, the next event sends to the closed connection only when that event is a `join` on the same connection |
| `Relay.Run` | server.js:12 | any sequence of events keeps the registry a map with distinct keys |
| `Relay.EntryStableAcrossRun` | server.js:25-64 | across any run with no connect, close or `join` of its own, a connection's entry stays the same |

## Left out

- The HTTP server, its placeholder response, and port selection (server.js:4-9 and server.js:67-70). These are plumbing and contain no logic.
- The `ws` library, socket objects and `readyState` transitions (server.js:2, server.js:11, server.js:18). Which connections are open is an input to every step, not modelled behaviour.
- `JSON.parse` and `JSON.stringify`. An event carries the parsed value, or `None` when parsing threw. Outbound messages are values, and serialisation is left abstract. Every recipient of one fan-out gets the same value, so it also gets the same serialised text.
- Numbers are reals. `JSON.parse` never yields NaN, so the only falsy number is zero. The overflow of a huge literal to Infinity is floating point and is not modelled.
- Objects and arrays are compared by identity in JavaScript, and a value model has no identity. `Js.StrictEquals` is exact whenever one side is a primitive. That is always the case in the relay, because a stored table id is a string or null.
- Strings are sequences of Unicode scalar values. `JSON.parse` can return a string holding a lone surrogate, such as the one in `"\ud800"`, and such a string has no representation here.
- Object properties are a finite map, so their order is not kept. `JSON.stringify` writes a relayed payload's properties in their original order. The model keeps the payload as the same value but does not describe that order.
- Property reads cover only the four names the relay reads: `type`, `tableId`, `clientId` and `payload`. No inherited property or array property has one of these names.
- Delivery failures inside `ws.send` are not modelled. A send is recorded when the handler issues it.
