# Session registry of the Apple push provider

`APNProvider` (`src/apple-push.js`) is the part of node-xmpp-bosh that is meant to
forward the body of each message stanza sent on a registered stream to that
stream's iOS device. Clients
register a session id (sid) together with a device token by posting a JSON body to
`/register`, and drop it with `/unregister`. The provider keeps the registrations in
one in-memory table, `this.sessions`, keyed by sid. When the stream server reports
that a stream terminated, the provider drops that stream's sid. When the stream
server reports a response stanza, the provider looks up the sid and inspects the
stanza, then returns before any notification is built.

This project models that table and every operation on it:

- `wrappers.dfy`: module `Wrappers`, the `Option` type.
- `registry.dfy`: module `Registry`. It holds the values (the JSON value of the
  `device-token` property and its JavaScript truthiness, the stored request object,
  the stanza) and the pure meaning of `_add_sid`, `_remove_sid`, `stream_terminated`
  and the reachable part of `response_received`, each as a function on
  `map<string, Request>`.
- `requests.dfy`: module `Requests`. It models the `on_end` closures of the register
  and unregister handlers: the closures as written, and the corrected closures that
  the rest of the model uses (see Findings).
- `provider.dfy`: module `Provider`. It holds the class `APNProvider`, whose
  `sessions` field the methods update in place. Each method is proved against the
  functions above. `Valid()` states the invariant that every stored registration has
  a truthy device token.
- `events.dfy`: module `Events`. It models any sequence of handler calls, as the
  single-threaded event loop delivers them. It proves that the registry invariant
  holds after every sequence. It also proves that sessions are independent: one
  sid's entry depends only on the events naming that sid. A removal or accepted
  registration of a sid, with no later event naming that sid, decides its entry.
  The corrected closures leave the same table as the code as written on every
  input, so these results hold for the code as written too, provided the thrown
  TypeError does not end the process.

Modelling choices:

- `JSON.parse` is an external call. It appears as `Option<Body>`, where `None`
  means the parse threw. A `Body` is the literal `null`, another non-object value,
  or an object.
- Of the posted object, only `sid` and `device-token` are represented. The object
  is stored as given.
- Truthiness of `info['device-token']` follows JavaScript. A missing property,
  `null`, `false`, `0` and `""` are falsy. A non-empty string, a non-zero number,
  `true`, an array and an object are truthy.
- The stream objects of the stream server appear as their `stream.state.sid`.
- `response_received` sends nothing. The method returns the message text that the
  source's trace line announces ("Should notify message"). That lets its contract say
  which branch is reached. The registry is left unchanged.

The code differs from the usual expectations of such a registry:

- The code keeps no device-to-sid index and evicts nothing. Two sids may hold the
  same device token (`Events.SharedTokenNotEvicted`).
- The code has no set-badge request and no payload builder with truncation or
  badge counts.
- The code never sends a push, because `response_received` returns before the
  notification is built.
- The code accepts an empty-string sid.

## Model

| member | source | states |
|---|---|---|
| Registry.AddSid | src/apple-push.js:171-181 | returns true iff `device-token` is truthy; on success the sid reads as exactly the given info, overwriting any earlier entry; on failure the table is unchanged; every other sid reads as before; the all-have-tokens invariant is kept |
| Registry.RemoveSid | src/apple-push.js:183-186 | afterwards the sid is absent, its key set is the old one minus the sid, every other sid reads as before, and an absent sid leaves the table unchanged (never fails) |
| Registry.StreamTerminated | src/apple-push.js:228-232 | for every table and sid the guarded removal has exactly the effect of `_remove_sid` |
| Registry.PushCandidate | src/apple-push.js:188-197 | a message text is produced iff the sid is registered, the stanza is a `message` and it has a `body` child, and then it is that body's text |
| Registry.RemoveSidIdempotent | src/apple-push.js:183-186 | removing a sid twice equals removing it once |
| Registry.AddSidIdempotent | src/apple-push.js:171-181 | registering the same sid and info twice equals registering once, result included |
| Registry.AddSidOverwrites | src/apple-push.js:173-175 | an accepted registration replaces any earlier one for the same sid (last writer wins) |
| Registry.RemoveUndoesAdd | src/apple-push.js:171-186 | removal after registration leaves the table as removal alone would |
| Registry.AddRemoveCommute | src/apple-push.js:171-186 | registering one sid and removing another commute |
| Requests.SidOf | src/apple-push.js:53 | a sid is produced iff the body parsed to an object whose `sid` is defined, and it is that `sid` value |
| Requests.OnRegisterEndAsWritten | src/apple-push.js:39-64 | as written, the closure throws (no reply) iff the body is `null`; every outcome but "Registered" leaves the table unchanged |
| Requests.OnUnregisterEndAsWritten | src/apple-push.js:84-105 | as written, the closure throws (no reply) iff the body is `null`; every outcome but "Unregistered" leaves the table unchanged |
| Requests.OnRegisterEnd | src/apple-push.js:39-64 | replies "Registered" iff the body parsed, `sid` is defined and the device token is truthy, and then stores the body under that sid with all other sids unchanged; otherwise replies "Invalid request." with the table unchanged; never replies "Unregistered" |
| Requests.OnUnregisterEnd | src/apple-push.js:84-105 | replies "Unregistered" iff the body parsed and `sid` is defined, and then that sid is absent with all other sids unchanged; otherwise replies "Invalid request." with the table unchanged |
| Requests.NullBodyGetsNoReply | src/apple-push.js:45-56 | the body `null` makes both closures as written throw, while the corrected closures reply "Invalid request." and change nothing |
| Requests.CorrectedAgreesElsewhere | src/apple-push.js:45-63 | on every parse result other than `null` the corrected closures give the same reply and table as the code |
| Requests.SameTableAsWritten | src/apple-push.js:45-104 | on every parse result, `null` included, the corrected closures leave the same table as the closures as written |
| Requests.UnregisterIdempotent | src/apple-push.js:90-104 | repeating an unregister request gives the same reply and table as sending it once |
| Provider.APNProvider.constructor | src/apple-push.js:13-15 | the provider starts with an empty table, satisfying the invariant |
| Provider.APNProvider.AddSid | src/apple-push.js:171-181 | updates `sessions` in place as `Registry.AddSid` says, returns whether the device token is truthy, keeps the invariant |
| Provider.APNProvider.RemoveSid | src/apple-push.js:183-186 | deletes the sid in place as `Registry.RemoveSid` says; the sid is absent afterwards |
| Provider.APNProvider.StreamTerminated | src/apple-push.js:228-232 | the guarded removal leaves `sessions` exactly as `_remove_sid` would |
| Provider.APNProvider.ResponseReceived | src/apple-push.js:188-197 | modifies nothing and yields the text `Registry.PushCandidate` names |
| Provider.APNProvider.OnRegisterEnd | src/apple-push.js:39-64 | reply and new table are those of `Requests.OnRegisterEnd`; the invariant is kept |
| Provider.APNProvider.OnUnregisterEnd | src/apple-push.js:84-105 | reply and new table are those of `Requests.OnUnregisterEnd`; the invariant is kept |
| Events.StepKeepsWellFormed | src/apple-push.js:39-105 | one handler call keeps every stored registration holding a truthy token and stored under its own sid |
| Events.RunKeepsWellFormed | src/apple-push.js:39-105 | any sequence of handler calls keeps that invariant |
| Events.StepFrame | src/apple-push.js:39-105 | an event that names another sid (or a response stanza) leaves a sid's entry as it was |
| Events.StepLocal | src/apple-push.js:39-105 | a sid's entry after an event depends only on its entry before |
| Events.RunLocal | src/apple-push.js:39-105 | a sid's entry after any sequence equals what the events naming that sid alone make of it |
| Events.UntouchedKeepsEntry | src/apple-push.js:188-232 | a sequence of events none of which names the sid leaves its entry as it was |
| Events.RemovalIsFinal | src/apple-push.js:98-104 | after an unregister request or stream termination for a sid, followed by events not naming it, the sid is absent |
| Events.RegistrationPersists | src/apple-push.js:58-59 | after an accepted register request for a sid, followed by events not naming it, exactly that request is stored |
| Events.SharedTokenNotEvicted | src/apple-push.js:173-175 | from any table, two different sids registered in turn with the same truthy device token are both stored, each with its own request (there is no eviction) |
| Events.MissingTokenRefused | src/apple-push.js:173-179 | a register request without a device token, or with an empty one, is refused and stores nothing |

## Left out

- The HTTP server, the `EventPipe` router, `url.parse` and path matching, and
  streaming the request body through the `data` and `end` events. These are I/O
  plumbing. The model starts from the parsed body.
- `JSON.parse` is an external library call. It is modelled only as its possible
  results.
- The HTML status page that lists `sessions` is output formatting over I/O.
- The wiring of the stream server's `response`, `terminate` and `stream-terminate`
  events is callback registration on an external object. The handlers are called
  directly, and `Events.Step` applies them in sequence.
- The APNs device, connection and notification setup is left out. It cannot be
  reached after the `return` in `response_received`, and it wraps the external
  `apn` library.
- `http_error_handler` is left out. It is the listener's error path and refers to
  names that are not defined.
- All logging is left out.
- The implicit global `added` is left out. It does not affect the return value, so
  the model uses a local.
- A `sid` that is not a JSON string is a gap in the model. JavaScript converts the
  property key to a string, and the model takes the sid as that string.
- `sessions` is a JavaScript array used as a dictionary, and that is not captured.
  Keys that clash with array or prototype properties (`length`, `__proto__`,
  inherited method names) behave differently there. The model treats every key as
  an ordinary entry.
- JSON numbers are modelled as integers, because floating point is out of scope. A
  fractional device-token number is truthy in JavaScript. In the model such a
  number is any non-zero integer.
- `ThrewTypeError` is modelled as "no reply, table unchanged". The TypeError is
  thrown inside the request's `end` listener and nothing in this file catches it.
  Under Node's default an uncaught exception ends the process, and the in-memory
  table is lost with it. Ending the process is not modelled. Whether an
  `uncaughtException` handler keeps the server alive is decided in `bosh.js`,
  which is not part of this model.
- `Requests.Reply.Text` gives the reply strings. It has no contract of its own.

## Findings

| source | as written | input that shows it | evidently intended | confidence | as-written member | corrected member |
|---|---|---|---|---|---|---|
| src/apple-push.js:46-53 | `req.sid` is read on the result of `JSON.parse` outside the `try`, so a body that parses to `null` throws a TypeError in the `end` callback and no reply is ever written | register request with body `null` | reply "Invalid request." and leave the registry unchanged, as for every other body without a `sid` | medium, not executed | Requests.OnRegisterEndAsWritten (shown by Requests.NullBodyGetsNoReply) | Requests.OnRegisterEnd |
| src/apple-push.js:91-98 | the same read of `req.sid` on `null` in the unregister closure | unregister request with body `null` | reply "Invalid request." and leave the registry unchanged | medium, not executed | Requests.OnUnregisterEndAsWritten (shown by Requests.NullBodyGetsNoReply) | Requests.OnUnregisterEnd |
