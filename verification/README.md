# Heartbeat service of the spark messaging layer

This project models `HeartbeatService`, the liveness handler of Ember's
spark peer-link layer, and proves what it does with each event it receives:

- a link comes up: the link is put at the front of the peer list;
- a link goes down: every entry for that link is removed from the peer list;
- a message arrives: it is dispatched on its payload kind;
  - a Ping is answered with a Pong to the same link that echoes the Ping's timestamp;
  - a Pong with a non-zero timestamp raises a high-latency warning when the
    elapsed time is strictly above the latency threshold;
  - any other kind is logged as unhandled;
- the recurring timer fires:
  - without an error, every peer gets a Ping stamped with the one clock
    reading, in list order, and the timer is re-armed;
  - with an error (the wait was cancelled), nothing happens;
- shutdown cancels the timer.

Three modules:

- `Links` (links.dfy) holds the peer identity `Link(uuid, description)`.
  It also holds the removal function the peer list uses and its lemmas.
  Two links are the same peer when their uuids are equal (`SameLink`).
  `Link`'s `operator==` is not part of this model. Uuid equality is the
  reading under which the uuid is the identity the service logs.
- `Messaging` (messaging.dfy) holds the decoded envelope
  `Envelope(service, opcode, correlation, data)`. Its payload union `Data`
  is `Ping(timestamp)`, `Pong(timestamp)` or `Other(kind)`, where `kind` is
  a discriminant other than Ping's (1) or Pong's (2). It also holds
  the two envelopes the service builds (`PingMessage`, `PongMessage`).
- `Heartbeat` (heartbeat.dfy) holds the class `HeartbeatService`. Its
  fields are the peer list, a log of the envelopes handed to the transport
  (`sent`), a log of warnings, a timer-armed flag and a count of armings.
  Beside the class are the pure functions that specify its methods:
  `Respond` for one received message, `PingAll` for one timer round and
  `PongWarnings` for the latency rule.

Outside effects become data:

- The clock reading `now` is a method parameter.
- The timer's completion code is the parameter `ec`. Non-zero means error,
  as with `boost::system::error_code`.
- Transport sends and log lines are appended to the two logs.
- The latency threshold (`LATENCY_WARN_THRESHOLD`) is not defined in the
  modelled file. It is a constructor parameter, kept in a constant field.

## Model

| member | source | states |
|---|---|---|
| `Links.RemoveLink` | src/libs/spark/src/HeartbeatService.cpp:46-49 | the result is no longer than the list, and every survivor was in the list and is not the removed peer |
| `Links.RemoveLinkKeepsOthers` | src/libs/spark/src/HeartbeatService.cpp:46-49 | an entry that is not the removed peer survives the removal |
| `Links.RemoveLinkMembership` | src/libs/spark/src/HeartbeatService.cpp:46-49 | after removal, x is in the list iff it was before and is not the removed peer |
| `Links.RemoveLinkAppend` | src/libs/spark/src/HeartbeatService.cpp:46-49 | removal distributes over concatenation, so the survivors keep their relative order |
| `Links.RemoveLinkUnchangedIff` | src/libs/spark/src/HeartbeatService.cpp:46-49 | removal leaves the list unchanged iff no entry has the link's uuid |
| `Links.RemoveLinkIdempotent` | src/libs/spark/src/HeartbeatService.cpp:46-49 | after removal the link is absent, and removing it again changes nothing |
| `Links.LinkUpThenDown` | src/libs/spark/src/HeartbeatService.cpp:41-49 | a link-up followed by a link-down of a new uuid restores the peer list |
| `Messaging.Kind` | src/libs/spark/src/HeartbeatService.cpp:27-34 | the discriminant `data_type()` returns, which `OnMessage` and `Respond` switch on: the Ping code exactly for Ping payloads, the Pong code exactly for Pong payloads, and any other kind's own code |
| `Heartbeat.MachineLatency` | src/libs/spark/src/HeartbeatService.cpp:61 | the source's wrapped latency is a signed 64-bit count congruent to now − t modulo 2^64 |
| `Heartbeat.MachineLatencyAgrees` | src/libs/spark/src/HeartbeatService.cpp:61 | when now − t fits a signed 64-bit count, the wrapped latency equals the exact one |
| `Heartbeat.MachineLatencyDiverges` | src/libs/spark/src/HeartbeatService.cpp:61 | for now = 0 and t = 2^64 − 1 the wrapped latency is 1 while the exact one is negative |
| `Heartbeat.PongWarnings` | src/libs/spark/src/HeartbeatService.cpp:56-69 | timestamp 0 never warns; otherwise there is exactly one warning, naming the link's description and uuid, iff now − t is strictly above the threshold |
| `Heartbeat.Respond` | src/libs/spark/src/HeartbeatService.cpp:26-69 | Ping: one send, to the sender, of a Core/0/0 Pong carrying the same timestamp, and no warning; Pong: no send, warning iff latency rule; other kind: one unhandled warning naming the uuid, and no send |
| `Heartbeat.PingAll` | src/libs/spark/src/HeartbeatService.cpp:71-101 | one send per peer, in list order, each a Core/0/0 Ping carrying the same timestamp |
| `Heartbeat.PingAllAppend` | src/libs/spark/src/HeartbeatService.cpp:99-101 | the round over a concatenation is the round over each part, in order |
| `Heartbeat.RoundTrip` | src/libs/spark/src/HeartbeatService.cpp:51-101 | the i-th peer receives `PingMessage(t1)` and answers, with no warning, exactly one `PongMessage(t1)` back to us; handling it at t2 sends nothing and logs exactly one warning, naming that peer, iff t1 ≠ 0 and t2 − t1 is above the threshold, and no warning otherwise |
| `Heartbeat.HeartbeatService.constructor` | src/libs/spark/src/HeartbeatService.cpp:20-24 | empty peer list and logs, and the timer armed once |
| `Heartbeat.HeartbeatService.OnMessage` | src/libs/spark/src/HeartbeatService.cpp:26-39 | the logs grow by exactly `Respond`'s sends and warnings; peers and timer untouched |
| `Heartbeat.HeartbeatService.OnLinkUp` | src/libs/spark/src/HeartbeatService.cpp:41-44 | the new peer list is the link followed by the old list |
| `Heartbeat.HeartbeatService.OnLinkDown` | src/libs/spark/src/HeartbeatService.cpp:46-49 | the new peer list is the old one with every entry of that uuid removed |
| `Heartbeat.HeartbeatService.HandlePing` | src/libs/spark/src/HeartbeatService.cpp:51-54 | exactly one Pong, echoing the timestamp, sent to the same link; peers untouched |
| `Heartbeat.HeartbeatService.HandlePong` | src/libs/spark/src/HeartbeatService.cpp:56-69 | the warnings grow by `PongWarnings`; nothing is sent |
| `Heartbeat.HeartbeatService.SendPing` | src/libs/spark/src/HeartbeatService.cpp:71-77 | one Core/0/0 Ping envelope for the link is handed to the transport |
| `Heartbeat.HeartbeatService.SendPong` | src/libs/spark/src/HeartbeatService.cpp:79-85 | one Core/0/0 Pong envelope for the link is handed to the transport |
| `Heartbeat.HeartbeatService.TriggerPings` | src/libs/spark/src/HeartbeatService.cpp:87-104 | with an error: no send and timer state unchanged; otherwise the sends are `PingAll(peers, now)` and the timer is armed exactly once more; peers untouched |
| `Heartbeat.HeartbeatService.SetTimer` | src/libs/spark/src/HeartbeatService.cpp:106-109 | the timer is armed and the arming count goes up by one |
| `Heartbeat.HeartbeatService.Shutdown` | src/libs/spark/src/HeartbeatService.cpp:111-113 | the timer is no longer armed |

`Heartbeat.ShutdownScenario` is a client of the class. It runs two
link-ups, a firing, a shutdown and the cancelled firing, and asserts that
only the first firing sends or re-arms.

## Left out

- The FlatBuffers encoding of envelopes is not modelled. `Envelope` is the decoded value.
- The transport's `send` is recorded in the `sent` log. Delivery is not modelled.
- The logger is recorded as `Warning` values. Message text and log filters are not modelled.
- The `std::mutex` around the peer list is left out. The model is sequential.
- The asio deadline timer is the flag `timerArmed` plus the count `timerArmings`.
  The firing itself is the call `TriggerPings(ec, now)`. The period `PING_FREQUENCY`
  is not defined in the modelled file, so it is not modelled.
- `steady_clock` readings are the parameter `now`. The source holds them in a signed
  64-bit count, so a real reading lies in 0 ≤ now < 2^63. The model types `now` as
  `uint64`; readings of 2^63 or more are accepted but cannot occur in the source.
  The signed-to-unsigned conversion of a negative reading is not modelled.
- `Heartbeat.PongWarnings`: the latency is exact integer subtraction `now − t` (`Latency`).
  The source wraps the difference modulo 2^64 and reads it back as a signed millisecond
  count (`MachineLatency`). The two agree whenever |now − t| < 2^63 (`MachineLatencyAgrees`),
  so a Pong stamped later than `now` gives a negative latency, and no warning, in both.
  Over the source's range of readings (now < 2^63), they differ only for peer-supplied
  timestamps more than 2^63 above `now`, where the source may warn and the model does not
  (`MachineLatencyDiverges`). On readings of 2^63 or more, which the source cannot produce,
  they differ too (for example now = 2^63 and t = 0).
- A link's transport handle is not part of `Link`. Sends are logged by `Link` value
  and links are compared by uuid, so no modelled behaviour depends on it.
- The `ResponseToken` argument of `on_message` is not used by the service and is dropped.
- The other files of the repository are not part of this model:
  - the login opcode table, a static enumeration;
  - the TCP listener and the service pool, I/O and thread plumbing with no bodies;
  - the `Service` router and the session manager.
