/** The heartbeat service: it keeps the list of peers it has been told are
    up, pings all of them whenever its recurring timer fires, answers every
    Ping with a Pong echoing the Ping's timestamp, and warns when a Pong
    comes back later than the latency threshold allows.

    What the service hands to the transport and to the logger is recorded
    in two logs, `sent` and `warnings`; the clock reading is a parameter.
 */
module Heartbeat {
  import opened Links
  import opened Messaging

  /** One call of the transport's `send`: an envelope for one link. */
  datatype Send = Send(to: Link, envelope: Envelope)

  /** The two warnings the service logs. */
  datatype Warning =
    | UnhandledMessage(from: Uuid)
    | HighLatency(description: string, uuid: Uuid)

  /** What handling one message hands to the transport and to the logger. */
  datatype Effect = Effect(sends: seq<Send>, warnings: seq<Warning>)

  /** Milliseconds between the timestamp `t` a Pong echoes and the clock
      reading `now` (exact subtraction; see README for the machine types). */
  function Latency(now: uint64, t: uint64): int {
    now as int - t as int
  }

  /** The latency as the source's machine arithmetic computes it: the
      difference wraps modulo 2^64 and is read back as a signed count of
      milliseconds. */
  function MachineLatency(now: uint64, t: uint64): (r: int)
    ensures -0x8000_0000_0000_0000 <= r < 0x8000_0000_0000_0000
    ensures (r - Latency(now, t)) % 0x1_0000_0000_0000_0000 == 0
  {
    var d := (now as int - t as int) % 0x1_0000_0000_0000_0000;
    if d < 0x8000_0000_0000_0000 then d else d - 0x1_0000_0000_0000_0000
  }

  /** Whenever the exact difference fits a signed 64-bit count, the machine
      latency and the exact latency agree. */
  lemma MachineLatencyAgrees(now: uint64, t: uint64)
    requires -0x8000_0000_0000_0000 <= Latency(now, t) < 0x8000_0000_0000_0000
    ensures MachineLatency(now, t) == Latency(now, t)
  {
    var e := Latency(now, t);
    var d := e % 0x1_0000_0000_0000_0000;
    if e >= 0 {
      assert d == e;
    } else {
      assert d == e + 0x1_0000_0000_0000_0000;
    }
  }

  /** They differ only for timestamps more than 2^63 above `now`: here the
      machine latency is 1 ms while the exact latency is negative. */
  lemma MachineLatencyDiverges()
    ensures MachineLatency(0, 0xFFFF_FFFF_FFFF_FFFF) == 1
    ensures Latency(0, 0xFFFF_FFFF_FFFF_FFFF) < 0
  {
  }

  /** The warnings `handle_pong` logs for a Pong echoing `t` at time `now`:
      a timestamp of 0 means "no timestamp" and is skipped; otherwise one
      high-latency warning when the latency is strictly above the threshold. */
  function PongWarnings(link: Link, t: uint64, now: uint64, threshold: nat): (w: seq<Warning>)
    ensures t == 0 ==> w == []
    ensures |w| == 1 <==> t != 0 && Latency(now, t) > threshold
    ensures |w| <= 1 && forall x :: x in w ==> x == HighLatency(link.description, link.uuid)
  {
    if t != 0 then
      var latency := Latency(now, t);
      if latency > threshold then [HighLatency(link.description, link.uuid)] else []
    else
      []
  }

  /** What `on_message` does with a message from `link`, by payload kind:
      a Ping is echoed to its sender, a Pong is checked for latency, and any
      other kind is reported as unhandled. */
  function Respond(link: Link, data: Data, now: uint64, threshold: nat): (r: Effect)
    ensures data.Ping? ==>
      r.warnings == [] && |r.sends| == 1 &&
      r.sends[0].to == link && IsHeartbeat(r.sends[0].envelope) &&
      r.sends[0].envelope.data == Pong(data.timestamp)
    ensures data.Pong? ==>
      r.sends == [] &&
      (data.timestamp == 0 ==> r.warnings == []) &&
      (r.warnings == [HighLatency(link.description, link.uuid)] <==>
         data.timestamp != 0 && Latency(now, data.timestamp) > threshold) &&
      (r.warnings == [] <==> !(data.timestamp != 0 && Latency(now, data.timestamp) > threshold))
    ensures data.Other? ==> r.sends == [] && r.warnings == [UnhandledMessage(link.uuid)]
  {
    var kind := Kind(data);
    if kind == PingKind then Effect([Send(link, PongMessage(data.timestamp))], [])
    else if kind == PongKind then Effect([], PongWarnings(link, data.timestamp, now, threshold))
    else Effect([], [UnhandledMessage(link.uuid)])
  }

  /** The sends of one timer round: one Ping per peer, in list order, all
      carrying the single clock reading `time`. */
  function PingAll(peers: seq<Link>, time: uint64): (r: seq<Send>)
    ensures |r| == |peers|
    ensures forall i :: 0 <= i < |r| ==>
      r[i].to == peers[i] && IsHeartbeat(r[i].envelope) && r[i].envelope.data == Ping(time)
  {
    if peers == [] then [] else [Send(peers[0], PingMessage(time))] + PingAll(peers[1..], time)
  }

  /** A round over a concatenated list is the round over the front followed
      by the round over the back. */
  lemma PingAllAppend(a: seq<Link>, b: seq<Link>, time: uint64)
    ensures PingAll(a + b, time) == PingAll(a, time) + PingAll(b, time)
  {
  }

  /** The whole heartbeat exchange with the `i`-th peer: the Ping sent to
      it at time `t1` is answered by that peer with exactly one Pong back to
      us (`self` is how the peer names us) carrying `t1`; handling that Pong
      at time `t2` sends nothing and warns, naming the peer, exactly when
      `t1` is a real timestamp and `t2 - t1` exceeds the threshold. */
  lemma RoundTrip(self: Link, peers: seq<Link>, i: nat, t1: uint64, peerNow: uint64, t2: uint64, threshold: nat)
    requires i < |peers|
    ensures
      var ping := PingAll(peers, t1)[i];
      var answer := Respond(self, ping.envelope.data, peerNow, threshold);
      var reply := answer.sends;
      ping.to == peers[i] && ping.envelope == PingMessage(t1) &&
      answer.warnings == [] && |reply| == 1 &&
      reply[0].to == self && reply[0].envelope == PongMessage(t1) &&
      var back := Respond(peers[i], reply[0].envelope.data, t2, threshold);
      back.sends == [] &&
      (back.warnings == [HighLatency(peers[i].description, peers[i].uuid)] <==>
         t1 != 0 && t2 as int - t1 as int > threshold) &&
      (back.warnings == [] <==> !(t1 != 0 && t2 as int - t1 as int > threshold))
  {
  }

  /** The heartbeat service object. */
  class HeartbeatService {
    /** LATENCY_WARN_THRESHOLD, in milliseconds. */
    const latencyWarnThreshold: nat
    /** The peers in the order the list holds them (newest first). */
    var peers: seq<Link>
    /** Every envelope handed to the transport, oldest first. */
    var sent: seq<Send>
    /** Every warning logged, oldest first. */
    var warnings: seq<Warning>
    /** A timer wait is pending (armed and not cancelled). */
    var timerArmed: bool
    /** How many times the timer has been armed. */
    var timerArmings: nat

    /** A new service knows no peers and arms its timer once. */
    constructor (threshold: nat)
      ensures latencyWarnThreshold == threshold
      ensures peers == [] && sent == [] && warnings == []
      ensures timerArmed && timerArmings == 1
    {
      latencyWarnThreshold := threshold;
      peers, sent, warnings := [], [], [];
      timerArmed, timerArmings := false, 0;
      new;
      SetTimer();
    }

    /** Switches on the payload's discriminant: Ping to HandlePing, Pong
        to HandlePong, anything else is logged as unhandled. */
    method OnMessage(link: Link, message: Envelope, now: uint64)
      modifies this`sent, this`warnings
      ensures sent == old(sent) + Respond(link, message.data, now, latencyWarnThreshold).sends
      ensures warnings == old(warnings) + Respond(link, message.data, now, latencyWarnThreshold).warnings
    {
      var kind := Kind(message.data);
      if kind == PingKind {
        HandlePing(link, message);
      } else if kind == PongKind {
        HandlePong(link, message, now);
      } else {
        warnings := warnings + [UnhandledMessage(link.uuid)];
      }
    }

    /** A link came up: it becomes the first peer, the others keep their order. */
    method OnLinkUp(link: Link)
      modifies this`peers
      ensures peers == [link] + old(peers)
    {
      peers := [link] + peers;
    }

    /** A link went down: every peer with its uuid is dropped. */
    method OnLinkDown(link: Link)
      modifies this`peers
      ensures peers == RemoveLink(old(peers), link)
    {
      peers := RemoveLink(peers, link);
    }

    /** Answers a Ping with a Pong to the same link echoing its timestamp. */
    method HandlePing(link: Link, message: Envelope)
      requires message.data.Ping?
      modifies this`sent
      ensures sent == old(sent) + [Send(link, PongMessage(message.data.timestamp))]
    {
      SendPong(link, message.data.timestamp);
    }

    /** Checks a Pong's round-trip latency against the threshold. */
    method HandlePong(link: Link, message: Envelope, now: uint64)
      requires message.data.Pong?
      modifies this`warnings
      ensures warnings == old(warnings) + PongWarnings(link, message.data.timestamp, now, latencyWarnThreshold)
    {
      var t := message.data.timestamp;
      if t != 0 {
        var latency := Latency(now, t);
        if latency > latencyWarnThreshold {
          warnings := warnings + [HighLatency(link.description, link.uuid)];
        }
      }
    }

    method SendPing(link: Link, time: uint64)
      modifies this`sent
      ensures sent == old(sent) + [Send(link, PingMessage(time))]
    {
      sent := sent + [Send(link, PingMessage(time))];
    }

    method SendPong(link: Link, time: uint64)
      modifies this`sent
      ensures sent == old(sent) + [Send(link, PongMessage(time))]
    {
      sent := sent + [Send(link, PongMessage(time))];
    }

    /** The timer fired. With an error code set (the wait was cancelled)
        nothing happens; otherwise every peer is pinged with the one clock
        reading `now`, in list order, and the timer is armed again. */
    method TriggerPings(ec: int, now: uint64)
      modifies this`sent, this`timerArmed, this`timerArmings
      ensures ec != 0 ==>
        sent == old(sent) && timerArmed == old(timerArmed) && timerArmings == old(timerArmings)
      ensures ec == 0 ==>
        sent == old(sent) + PingAll(peers, now) && timerArmed && timerArmings == old(timerArmings) + 1
    {
      if ec != 0 {
        return;
      }
      for i := 0 to |peers|
        invariant sent == old(sent) + PingAll(peers[..i], now)
        invariant timerArmed == old(timerArmed) && timerArmings == old(timerArmings)
      {
        PingAllAppend(peers[..i], [peers[i]], now);
        assert peers[..i + 1] == peers[..i] + [peers[i]];
        SendPing(peers[i], now);
      }
      assert peers[..|peers|] == peers;
      SetTimer();
    }

    /** Arms the timer for the next period. */
    method SetTimer()
      modifies this`timerArmed, this`timerArmings
      ensures timerArmed && timerArmings == old(timerArmings) + 1
    {
      timerArmed := true;
      timerArmings := timerArmings + 1;
    }

    /** Cancels the pending timer wait; its callback then runs with an
        error code set and does nothing. */
    method Shutdown()
      modifies this`timerArmed
      ensures !timerArmed
    {
      timerArmed := false;
    }
  }

  /** Two links come up, the timer fires, the service shuts down and the
      cancelled wait completes: only the first firing sends anything. */
  method ShutdownScenario(a: Link, b: Link, t1: uint64, t2: uint64) {
    var hb := new HeartbeatService(100);
    hb.OnLinkUp(a);
    hb.OnLinkUp(b);
    hb.TriggerPings(0, t1);
    assert hb.sent == [Send(b, PingMessage(t1)), Send(a, PingMessage(t1))];
    assert hb.timerArmings == 2;
    hb.Shutdown();
    hb.TriggerPings(1, t2);
    assert |hb.sent| == 2 && !hb.timerArmed && hb.timerArmings == 2;
  }
}
