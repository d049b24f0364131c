/** The message envelope exchanged between nodes, as far as the heartbeat
    protocol sees it. The binary encoding is not modelled: an Envelope is
    the decoded value with its fields and its payload union.
 */
module Messaging {

  newtype uint8 = x: int | 0 <= x < 0x100
  newtype uint16 = x: int | 0 <= x < 0x1_0000
  newtype uint64 = x: int | 0 <= x < 0x1_0000_0000_0000_0000

  /** The sending service. Only `Core`, the service heartbeats belong to,
      is told apart; the heartbeat service never looks at any other. */
  datatype ServiceId = Core | OtherService

  /** The wire discriminants of the two heartbeat payloads. */
  const PingKind: uint8 := 1
  const PongKind: uint8 := 2

  /** A payload discriminant that is neither Ping nor Pong. */
  type OtherKind = k: uint8 | k != PingKind && k != PongKind

  /** The payload union: its variant is the payload's kind, so a kind and
      a payload that disagree cannot be expressed. `Other` stands for any
      payload kind that is neither Ping nor Pong. */
  datatype Data =
    | Ping(timestamp: uint64)
    | Pong(timestamp: uint64)
    | Other(kind: OtherKind)

  /** The discriminant `data_type()` reads off a payload: each wire kind
      belongs to exactly one variant. */
  function Kind(d: Data): (k: uint8)
    ensures k == PingKind <==> d.Ping?
    ensures k == PongKind <==> d.Pong?
    ensures d.Other? ==> k == d.kind
  {
    match d
    case Ping(_) => PingKind
    case Pong(_) => PongKind
    case Other(kind) => kind
  }

  datatype Envelope = Envelope(service: ServiceId, opcode: uint16, correlation: uint16, data: Data)

  /** A heartbeat envelope: sent by `Core`, opcode and correlation 0. */
  predicate IsHeartbeat(e: Envelope) {
    e.service == Core && e.opcode == 0 && e.correlation == 0
  }

  /** The envelope `send_ping` builds for the clock reading `time`. */
  function PingMessage(time: uint64): Envelope {
    Envelope(Core, 0, 0, Ping(time))
  }

  /** The envelope `send_pong` builds to echo `time`. */
  function PongMessage(time: uint64): Envelope {
    Envelope(Core, 0, 0, Pong(time))
  }
}
