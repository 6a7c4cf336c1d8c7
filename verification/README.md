# Serial connection manager — a Dafny model

This project models the part of the `sad_server_test` server that holds state: the serial port
manager that talks to the microcontroller, in both of its variants, plus the small request
decisions of the HTTP routes.

- `serial/serial.js` — the **reconnecting manager**. Its state is `isOpen`, `currentTries` and
  `maxTries`. The transport's open, error and close events reset or advance the attempt counter.
  Between two resets of the counter, a `reconnect` guard schedules at most the attempts that
  remain (`RetriesBounded`). Each retry fires 5000 ms after the reconnect that scheduled it, and
  several can be pending at once. `sendBytes` writes a message one byte at a time.
- `serial/serial_dev.js` — the **singleton manager** the server uses. It has a class-wide
  `instance` slot, filled on creation and cleared on close. Error and close events only drop the
  `isOpen` flag. Parsed lines are re-emitted on an event emitter. `sendData` is the same paced
  writer.
- `routes/img.js` and its copy `routes/index.js` — the `GET /:id` image decision: range check,
  then environment lookup.
- `routes/serdes.js` — the NaN checks of `POST /write` and `POST /read`.

Each manager is an immutable state datatype with pure step functions. What the serialport
library and the timers deliver is an event. Every call the manager makes on them (create, open,
close, schedule a retry, emit a line) is an effect in the step's result. The byte writer is a
function from the callback results of its writes to the bytes it handed to the transport.

Files:

- `common.dfy`: `Option`, `Byte`, `Max`.
- `paced_writer.dfy`: the shared byte-at-a-time writer.
- `reconnecting_manager.dfy`: serial/serial.js.
- `singleton_manager.dfy`: serial/serial_dev.js. Objects have identity there: a `World` is a
  sequence of manager objects plus the `instance` slot.
- `routes.dfy`: the three route files.

Two source functions have no row of their own, because they only compute. `PacedWriter.TransmitMeaning`
states what the `sendNextByte` chain (`PacedWriter.Transmit`) does. `Routes.IndexRouteMatchesImageRoute`
states what the index.js copy (`Routes.IndexRoute`) does.

Behaviours of the code that a reader might not expect, kept as written:

- The code has no terminal `Failed` state. The manager just stops scheduling retries
  (`TwoAttemptsThenSilence`).
- Nothing limits pending retry timers to one (`RetriesCanOverlap`), and none is ever cancelled.
- After an explicit `close()`, the transport's close event still schedules a reconnect, when
  `maxTries` is at least 1 (`CloseIsFollowedByReconnect`).
- Sends are not queued.
- The registry is a single slot, not a map per device name.
- The singleton manager sets `isOpen` before any open event arrives.

## Model

| member | source | states |
|---|---|---|
| PacedWriter.AsciiBytes | serial/serial.js:110 | the message becomes one byte per character. Codes below 256 are kept, as latin1 does; a larger code keeps its low eight bits |
| PacedWriter.TransmitMeaning | serial/serial.js:113-125 | the bytes written are an in-order prefix of the message. Each write is issued only after all earlier ones succeeded. The message completes iff every write is acknowledged, and then exactly all its bytes were written. An error stops it right after the failed write. Otherwise the last write is still pending |
| PacedWriter.TransmitAfterAcknowledged | serial/serial.js:113-121 | after k acknowledged writes, the rest of the send is the send of the remaining bytes |
| PacedWriter.SendLoop | serial/serial.js:111-127 | the index-advancing loop issues the same writes and ends the same way as the callback chain, for every message and every sequence of callback results |
| PacedWriter.Send | serial/serial_dev.js:94-118 | a closed port refuses the send with zero writes. An open port writes a prefix of the message's bytes, each only after every earlier write succeeded. It completes iff every write succeeds, and then all of the message's bytes were written, one write each. A pending last write leaves exactly one more write than callbacks. An error ends the send right after the failed write |
| PacedWriter.FirstFailureAborts | serial/serial.js:113-118 | when write j is the first to fail, an open port writes exactly the first j + 1 bytes and the send is aborted |
| ReconnectingManager.New | serial/serial.js:29-88 | unset arguments default to baud rate 115200, delay 50 and 5 attempts; given ones are kept. The counter starts at 0 and the port starts closed. The transport is created for the port and opened once |
| ReconnectingManager.Reconnect | serial/serial.js:90-102 | once the counter has reached the limit, nothing is scheduled and nothing changes. Below it, the counter rises by exactly one and exactly one open is scheduled 5000 ms later. Nothing but the counter changes |
| ReconnectingManager.Handle | serial/serial.js:55-142 | an open event sets isOpen and resets the counter. An error sets isOpen false and reconnects. A failed open reconnects without touching isOpen. A close event sets isOpen false and resets the counter before reconnecting, so with a limit of at least 1 the counter ends at 1. A due retry calls open. close() calls the transport only when open. A successful close sets isOpen false, a failed one changes nothing. No event changes the settings or breaks the counter bound |
| ReconnectingManager.Run | serial/serial.js:29-37 | no sequence of events changes the port name, baud rate, delay or attempt limit |
| ReconnectingManager.RunKeepsTriesBounded | serial/serial.js:34-98 | the counter stays within 0..max(maxTries, 0) through any sequence of events |
| ReconnectingManager.ReachableTriesBounded | serial/serial.js:29-101 | every state reachable from a new manager has its counter within 0..max(maxTries, 0) |
| ReconnectingManager.RetriesFollowCounter | serial/serial.js:90-101 | with no open or close event in between, the retries scheduled equal the counter's increase |
| ReconnectingManager.RetriesBounded | serial/serial.js:92-101 | with no open or close event in between, at most the remaining attempts are ever scheduled |
| ReconnectingManager.TwoAttemptsThenSilence | serial/serial.js:81-101 | with 2 attempts and every open failing: two retries, counter 2, and the third failure schedules nothing |
| ReconnectingManager.RetriesCanOverlap | serial/serial.js:65-101 | an error followed by a failed open schedules two retries with none fired in between |
| ReconnectingManager.CloseIsFollowedByReconnect | serial/serial.js:71-142 | close(), its success and the close event that follows leave the port closed, the counter at 1 and a reconnect scheduled |
| ReconnectingManager.SendBytes | serial/serial.js:104-127 | a closed manager writes nothing. An open one writes a prefix of the message's bytes, each only after every earlier write succeeded. It completes iff every write succeeds, and then all of the message's bytes were written, one write each. A pending last write leaves exactly one more write than callbacks. An error ends the send right after the failed write |
| SingletonManager.Init | serial/serial_dev.js:27-36 | the object is marked open before any open event, keeps its port name and baud rate, and creates a transport for them |
| SingletonManager.Construct | serial/serial_dev.js:10-25 | with the slot set, the existing instance comes back with nothing changed, port name and baud rate included. Otherwise a new open object with the given port and baud rate (default 115200) is appended and stored in the slot. No existing object changes |
| SingletonManager.GetInstance | serial/serial_dev.js:120-125 | the result is always the object in the slot. An existing instance is returned unchanged whatever the arguments. An empty slot gets a new open object built from them, and its transport is created |
| SingletonManager.GetInstanceIdempotent | serial/serial_dev.js:120-125 | a second getInstance, with any arguments, returns the same object and changes nothing |
| SingletonManager.OpenPort | serial/serial_dev.js:61-75 | when open, it resolves without calling the transport. Otherwise it calls open once and resolves iff the transport's open succeeded |
| SingletonManager.OpenPortFollowsEvents | serial/serial_dev.js:22-75 | right after construction, and after an open event, openPort resolves without calling the transport. After an error or close event it issues exactly one transport open |
| SingletonManager.Handle | serial/serial_dev.js:40-58 | an open event sets isOpen. Error and close events clear it and call nothing. A parsed line is emitted once, unchanged. No event touches the slot or any other object |
| SingletonManager.Deliver | serial/serial_dev.js:40-58 | no sequence of transport events touches the slot, the number of objects, or any object's port name and baud rate |
| SingletonManager.DeliverForwardsLines | serial/serial_dev.js:40-43 | the effects of any sequence of transport events are exactly one data emission per parsed line, in order and unchanged, and nothing else |
| SingletonManager.ClosePort | serial/serial_dev.js:77-92 | an open object issues a transport close and changes nothing yet. A closed one clears the slot without calling the transport |
| SingletonManager.CloseFinished | serial/serial_dev.js:79-87 | a successful close marks the object closed and clears the slot. An error leaves everything unchanged. Other objects never change |
| SingletonManager.ClosedSlotGivesFreshObject | serial/serial_dev.js:77-125 | after closePort on a closed object, getInstance builds a new, distinct, open object |
| SingletonManager.SendData | serial/serial_dev.js:94-118 | a closed object writes nothing. An open one writes a prefix of the message's bytes, each only after every earlier write succeeded. It completes iff every write succeeds, and then all of the message's bytes were written, one write each. A pending last write leaves exactly one more write than callbacks. An error ends the send right after the failed write |
| Routes.ImageRoute | routes/img.js:27-40 | 400 "Invalid image ID" iff the id is a number below 1 or above 16, whatever the environment. Otherwise 404 "Image not found" iff `IMAGE_ALARM_<id>` is unset or empty. Otherwise the file it names is served from public/images |
| Routes.DecimalValue | routes/img.js:33 | the decimal text of an id denotes that id |
| Routes.EnvKeyInjective | routes/img.js:33 | distinct parsed ids look up distinct `IMAGE_ALARM_*` variables |
| Routes.NaNIdReachesLookup | routes/img.js:28-36 | a NaN id is not refused: it is looked up as `IMAGE_ALARM_NaN` (404 when unset, served when set) |
| Routes.IndexRouteMatchesImageRoute | routes/index.js:8-21 | the copy in index.js replies exactly as img.js does for every id and environment |
| Routes.ImageRouteChecked | routes/img.js:28-31 | corrected decision: 400 iff the id is not an integer in 1..16; a file is served only for such an id with a non-empty entry |
| Routes.CheckedAgreesOnNumbers | routes/img.js:28-39 | the corrected decision differs from the original exactly on NaN ids |
| Routes.WriteRoute | routes/serdes.js:17-25 | 400 "Invalid input" iff any of the three fields is NaN, otherwise 200 "Data processed successfully" |
| Routes.ReadRoute | routes/serdes.js:27-34 | 400 "Invalid input" iff deviceType or deviceRegister is NaN, otherwise 200 "Hello, World!" |
| Routes.ReadIgnoresRegisterValue | routes/serdes.js:27-34 | the register value has no effect on a read |
| Routes.DecisionsDependOnlyOnNaN | routes/serdes.js:17-34 | both replies depend only on which fields are NaN, not on their values |
| Routes.WriteStricterThanRead | routes/serdes.js:17-34 | a body that /write accepts, /read accepts too; a body that /read refuses, /write refuses too |

## Left out

- Timing: the delay between bytes, the 5000 ms backoff and `setTimeout` itself. A pending
  timer is an event the environment delivers later. `ScheduleOpen(5000)` only records the
  requested delay.
- The serialport library and its line parser. Line framing is not modelled; parsed lines arrive
  as events. The auto-open implied by the library defaults in serial_dev.js is not modelled.
- Overlapping sends. The writer is modelled one message at a time, and the source does not
  serialise concurrent sends.
- `listPorts` in both files: an asynchronous pass-through to the library.
- Console logging, `path.join` normalisation, `sendFile`, `dotenv`, and the Express glue in
  server.js and routes/serialPorts.js.
- JavaScript coercions. `parseInt` and `Number` results are inputs (`ParsedId`, `JsNumber`).
  The constructor arguments are integers, so a NaN or fractional `maxTries` is not modelled.
- PacedWriter.AsciiBytes: characters outside the Basic Multilingual Plane are one character
  here but two UTF-16 code units (two bytes) in JavaScript.
- ReconnectingManager.SendBytes: states no pacing bound, because timing is not modelled.
- SingletonManager.SendData: states no pacing bound. `this.delay` is never assigned in
  serial_dev.js, so the source keeps none either.

## Findings

| source | as written | input that shows it | evidently intended | confidence | as-written member | corrected member |
|---|---|---|---|---|---|---|
| routes/img.js:28-31 | `id < 1 \|\| id > 16` is false for a NaN id, so a non-numeric id passes the range check and is looked up as `IMAGE_ALARM_NaN` | `GET /abc` with no `IMAGE_ALARM_NaN` variable replies 404 "Image not found" (and serves a file if that variable is set) | a non-numeric id is an invalid image id: 400 "Invalid image ID" | medium; not executed | Routes.NaNIdReachesLookup | Routes.ImageRouteChecked |
