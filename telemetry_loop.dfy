/** One iteration of the receive loop, in its three copies: send a heartbeat, receive
    one datagram, decode it when it has the frame size, then hand the packet to the
    broker handler, broadcast it (telemetry server only), run the periodic detail log,
    and compute the diagnostic list of reasons the packet would not pass the strict
    gate. The gt7 copy has no periodic log and sends an extra heartbeat every 100
    packet ids.

    Socket calls become inputs (`heartbeatSent`, the `Receive` outcome), the clock a
    reading `now`, and the log lines the returned `Event`. */
module TelemetryLoop {
  import opened Outcomes
  import Bytes
  import Flags
  import Cipher
  import Packet
  import Dispatch
  import Heartbeat

  /** The three copies of the loop. */
  datatype LoopVariant =
    | TelemetryServer   // gt7/telemetry-server/src/telemetry_loop.rs
    | PulsarBridge      // gt7/pulsar-bridge/src/main.rs
    | Gt7               // gt7/src/main.rs

  /** Milliseconds slept after a failed heartbeat send before the next iteration. */
  function SleepAfterHeartbeatFailure(v: LoopVariant): nat {
    if v == Gt7 then 0 else 100
  }

  /** Where the heartbeat sent once before the loop leads. */
  datatype StartUp = Exit(status: int) | EnterLoop

  /** The initial heartbeat: when the send fails, gt7 ends the process with status 1,
      while the server and the bridge log that they will retry and enter the loop. */
  function InitialHeartbeat(v: LoopVariant, sent: bool): StartUp {
    if !sent && v == Gt7 then Exit(1) else EnterLoop
  }

  /** Only gt7 stops at start-up, only on a failed send, and with status 1; a sent
      heartbeat always enters the loop. */
  lemma OnlyGt7StopsAtStartUp(v: LoopVariant, sent: bool)
    ensures InitialHeartbeat(v, sent).Exit? <==> v == Gt7 && !sent
    ensures InitialHeartbeat(v, sent).Exit? ==> InitialHeartbeat(v, sent).status == 1
    ensures v != Gt7 ==> InitialHeartbeat(v, sent) == EnterLoop
  {
  }

  /** Every `HEARTBEAT_INTERVAL_PACKETS`-th packet id triggers an extra heartbeat (gt7). */
  const HEARTBEAT_INTERVAL_PACKETS: nat := 100

  datatype IoErrorKind = WouldBlock | TimedOut | OtherIoError

  /** What `recv_from` into the 296-byte buffer gave. */
  datatype Receive =
    | Received(count: nat, buf: seq<Bytes.byte>)
    | ReceiveFailed(kind: IoErrorKind)

  /** How far an iteration got. */
  datatype Stage =
    | HeartbeatSendFailed(sleepMs: nat)
    | UnexpectedSize(count: nat)
    | ReceiveTimeout
    | ReceiveError
    | ParseFailed(error: Packet.ParsePacketError)
    | Decoded(packet: Packet.Packet)

  /** The stage an iteration reaches: the heartbeat first; only datagrams of exactly
      `PACKET_SIZE` bytes are decoded; timeouts are told apart from other receive
      errors except in the gt7 copy. */
  function Classify(v: LoopVariant, heartbeatSent: bool, recv: Receive,
                    ks: Cipher.Keystream, key: seq<Bytes.byte>): Stage
  {
    if !heartbeatSent then HeartbeatSendFailed(SleepAfterHeartbeatFailure(v))
    else match recv
      case ReceiveFailed(kind) =>
        if v != Gt7 && (kind == WouldBlock || kind == TimedOut) then ReceiveTimeout else ReceiveError
      case Received(count, buf) =>
        if count != Packet.PACKET_SIZE then UnexpectedSize(count)
        else match Packet.DecodeFrame(ks, key, buf)
          case Err(e) => ParseFailed(e)
          case Ok(p) => Decoded(p)
  }

  // ------------------------------------------------------------ reasons

  /** A diagnostic reason, in the order the loop pushes them. */
  datatype Reason = PausedReason | LoadingReason | NotOnTrackReason | RaceNotStartedReason

  /** The text the log line joins. */
  function Name(r: Reason): string {
    match r
    case PausedReason => "Paused"
    case LoadingReason => "LoadingOrProcessing"
    case NotOnTrackReason => "NotOnTrack"
    case RaceNotStartedReason => "RaceNotStarted"
  }

  /** The text in parentheses of the conditions-not-met log line: the names joined
      with `, `. It is empty exactly when there is no reason, and then no line is
      logged. */
  function JoinNames(rs: seq<Reason>): (line: string)
    ensures line == "" <==> rs == []
  {
    if rs == [] then ""
    else if |rs| == 1 then Name(rs[0])
    else Name(rs[0]) + ", " + JoinNames(rs[1..])
  }

  /** A paused car that is off the track logs `Paused, NotOnTrack`. */
  lemma JoinNamesExample()
    ensures JoinNames([PausedReason, NotOnTrackReason]) == "Paused, NotOnTrack"
  {
  }

  /** Position in the push order. */
  function Rank(r: Reason): nat {
    match r
    case PausedReason => 0
    case LoadingReason => 1
    case NotOnTrackReason => 2
    case RaceNotStartedReason => 3
  }

  const REASON_ORDER: seq<Reason> := [PausedReason, LoadingReason, NotOnTrackReason, RaceNotStartedReason]

  /** The condition each reason reports. */
  predicate Holds(r: Reason, flags: Flags.PacketFlags, lapsInRace: int) {
    match r
    case PausedReason => Flags.Contains(flags, Flags.Paused)
    case LoadingReason => Flags.Contains(flags, Flags.LoadingOrProcessing)
    case NotOnTrackReason => !Flags.Contains(flags, Flags.CarOnTrack)
    case RaceNotStartedReason => lapsInRace <= 0
  }

  /** The reasons of `rs` that hold, in the order of `rs`. */
  function Applicable(rs: seq<Reason>, flags: Flags.PacketFlags, lapsInRace: int): seq<Reason> {
    if rs == [] then []
    else (if Holds(rs[0], flags, lapsInRace) then [rs[0]] else []) + Applicable(rs[1..], flags, lapsInRace)
  }

  /** The guard under which the reasons are computed. */
  predicate ConditionsNotMet(flags: Flags.PacketFlags, lapsInRace: int) {
    Flags.Intersects(flags, Flags.Union(Flags.Paused, Flags.LoadingOrProcessing))
    || !Flags.Contains(flags, Flags.CarOnTrack) || lapsInRace <= 0
  }

  /** `check_packet_conditions`: the reasons pushed one by one under the guard. */
  method CheckPacketConditions(flags: Flags.PacketFlags, lapsInRace: int) returns (reasons: seq<Reason>)
    ensures reasons == Applicable(REASON_ORDER, flags, lapsInRace)
  {
    reasons := [];
    var isPausedOrLoading := Flags.Intersects(flags, Flags.Union(Flags.Paused, Flags.LoadingOrProcessing));
    var notOnTrackOrNotStarted := !Flags.Contains(flags, Flags.CarOnTrack) || lapsInRace <= 0;
    if isPausedOrLoading || notOnTrackOrNotStarted {
      if Flags.Contains(flags, Flags.Paused) {
        reasons := reasons + [PausedReason];
      }
      if Flags.Contains(flags, Flags.LoadingOrProcessing) {
        reasons := reasons + [LoadingReason];
      }
      if !Flags.Contains(flags, Flags.CarOnTrack) {
        reasons := reasons + [NotOnTrackReason];
      }
      if lapsInRace <= 0 {
        reasons := reasons + [RaceNotStartedReason];
      }
    } else {
      Flags.PausedOrLoading(flags);
    }
    UnfoldReasons(flags, lapsInRace);
  }

  lemma UnfoldReasons(flags: Flags.PacketFlags, lapsInRace: int)
    ensures Applicable(REASON_ORDER, flags, lapsInRace)
         == (if Holds(PausedReason, flags, lapsInRace) then [PausedReason] else [])
          + (if Holds(LoadingReason, flags, lapsInRace) then [LoadingReason] else [])
          + (if Holds(NotOnTrackReason, flags, lapsInRace) then [NotOnTrackReason] else [])
          + (if Holds(RaceNotStartedReason, flags, lapsInRace) then [RaceNotStartedReason] else [])
  {
    var f, l := flags, lapsInRace;
    var a4 := if Holds(RaceNotStartedReason, f, l) then [RaceNotStartedReason] else [];
    var a3 := if Holds(NotOnTrackReason, f, l) then [NotOnTrackReason] else [];
    var a2 := if Holds(LoadingReason, f, l) then [LoadingReason] else [];
    var a1 := if Holds(PausedReason, f, l) then [PausedReason] else [];
    assert Applicable([RaceNotStartedReason], f, l) == a4 by {
      assert [RaceNotStartedReason][1..] == [];
    }
    assert Applicable([NotOnTrackReason, RaceNotStartedReason], f, l) == a3 + a4 by {
      assert [NotOnTrackReason, RaceNotStartedReason][1..] == [RaceNotStartedReason];
    }
    assert Applicable([LoadingReason, NotOnTrackReason, RaceNotStartedReason], f, l) == a2 + (a3 + a4) by {
      assert [LoadingReason, NotOnTrackReason, RaceNotStartedReason][1..] == [NotOnTrackReason, RaceNotStartedReason];
    }
    assert REASON_ORDER[1..] == [LoadingReason, NotOnTrackReason, RaceNotStartedReason];
    assert a1 + (a2 + (a3 + a4)) == a1 + a2 + a3 + a4;
  }

  /** A reason is listed exactly when its condition holds. */
  lemma {:induction false} ApplicableMembership(rs: seq<Reason>, flags: Flags.PacketFlags, lapsInRace: int, r: Reason)
    ensures r in Applicable(rs, flags, lapsInRace) <==> r in rs && Holds(r, flags, lapsInRace)
  {
    if rs != [] {
      ApplicableMembership(rs[1..], flags, lapsInRace, r);
      assert rs == [rs[0]] + rs[1..];
    }
  }

  predicate StrictlyRanked(rs: seq<Reason>) {
    forall i, j | 0 <= i < j < |rs| :: Rank(rs[i]) < Rank(rs[j])
  }

  /** Filtering keeps the order of the list it filters. */
  lemma {:induction false} ApplicableKeepsOrder(rs: seq<Reason>, flags: Flags.PacketFlags, lapsInRace: int)
    requires StrictlyRanked(rs)
    ensures StrictlyRanked(Applicable(rs, flags, lapsInRace))
    ensures forall x | x in Applicable(rs, flags, lapsInRace) :: x in rs
  {
    if rs != [] {
      ApplicableKeepsOrder(rs[1..], flags, lapsInRace);
      var rest := Applicable(rs[1..], flags, lapsInRace);
      forall x | x in rest
        ensures Rank(rs[0]) < Rank(x)
      {
        var k :| 1 <= k < |rs| && rs[k] == x;
      }
    }
  }

  /** The reasons list: each reason present exactly when its condition holds, in the
      order Paused, LoadingOrProcessing, NotOnTrack, RaceNotStarted, and non-empty
      exactly when the guard holds. */
  lemma ReasonsList(flags: Flags.PacketFlags, lapsInRace: int)
    ensures forall r :: r in Applicable(REASON_ORDER, flags, lapsInRace) <==> Holds(r, flags, lapsInRace)
    ensures StrictlyRanked(Applicable(REASON_ORDER, flags, lapsInRace))
    ensures |Applicable(REASON_ORDER, flags, lapsInRace)| > 0 <==> ConditionsNotMet(flags, lapsInRace)
  {
    forall r
      ensures r in Applicable(REASON_ORDER, flags, lapsInRace) <==> Holds(r, flags, lapsInRace)
    {
      ApplicableMembership(REASON_ORDER, flags, lapsInRace, r);
    }
    ApplicableKeepsOrder(REASON_ORDER, flags, lapsInRace);
    Flags.PausedOrLoading(flags);
    UnfoldReasons(flags, lapsInRace);
  }

  /** The reasons of a packet: none when it carries no flags. */
  function ReasonsFor(p: Packet.Packet): seq<Reason> {
    if p.flags.Some? then Applicable(REASON_ORDER, p.flags.value, p.lapsInRace) else []
  }

  /** The diagnostic list is empty exactly when the strict (on-track) gate passes, so
      with the telemetry-server handler a packet can be queued and still be reported
      as not on track. */
  lemma ReasonsAgainstStrictGate(p: Packet.Packet)
    requires p.flags.Some?
    ensures ReasonsFor(p) == [] <==> Dispatch.Gate(p, true)
  {
    ReasonsList(p.flags.value, p.lapsInRace);
  }

  // ------------------------------------------------------------ timers

  /** Whether the periodic detail log fires: an interval is configured and has elapsed. */
  predicate PeriodicLogDue(interval: Option<nat>, last: nat, now: nat) {
    interval.Some? && Heartbeat.Elapsed(last, now) >= interval.value
  }

  /** The starting value of the timer: `now - interval` when logging is enabled and the
      subtraction does not underflow, `now` otherwise. */
  function InitialLogTime(interval: Option<nat>, now: nat): (t: nat)
    ensures interval.Some? && now >= interval.value ==> t + interval.value == now
    ensures interval.None? || now < interval.value ==> t == now
  {
    if interval.Some? && now >= interval.value then now - interval.value else now
  }

  /** With logging enabled and no underflow, the first packet is logged at once; with
      logging disabled no packet ever is; after an underflow the first log waits a full
      interval. */
  lemma FirstPeriodicLog(interval: Option<nat>, start: nat, now: nat)
    requires now >= start
    ensures interval.Some? && start >= interval.value ==> PeriodicLogDue(interval, InitialLogTime(interval, start), now)
    ensures interval.None? ==> !PeriodicLogDue(interval, InitialLogTime(interval, start), now)
    ensures interval.Some? && start < interval.value ==>
      (PeriodicLogDue(interval, InitialLogTime(interval, start), now) <==> now - start >= interval.value)
  {
  }

  /** Two packets of the gt7 copy that both trigger the extra heartbeat are at least
      100 ids apart. */
  function ExtraHeartbeat(packetId: int): bool {
    packetId > 0 && packetId % HEARTBEAT_INTERVAL_PACKETS as int == 0
  }

  lemma ExtraHeartbeatSpacing(a: int, b: int)
    requires ExtraHeartbeat(a) && ExtraHeartbeat(b) && a < b
    ensures b - a >= HEARTBEAT_INTERVAL_PACKETS as int
  {
    var qa, qb := a / 100, b / 100;
    assert a == 100 * qa && b == 100 * qb;
    assert qa < qb;
  }

  /** Ids 100, 200, ... trigger it; 0, negative ids and ids between do not. */
  lemma ExtraHeartbeatExamples()
    ensures ExtraHeartbeat(100) && ExtraHeartbeat(200)
    ensures !ExtraHeartbeat(0) && !ExtraHeartbeat(-100) && !ExtraHeartbeat(99) && !ExtraHeartbeat(150)
  {
  }

  // ------------------------------------------------------------ one iteration

  /** The JSON the telemetry server broadcasts when serialisation fails: `{}`. */
  const EMPTY_JSON: Dispatch.Payload := [0x7B, 0x7D]

  function BroadcastPayload(serialized: Option<Dispatch.Payload>): Dispatch.Payload {
    if serialized.Some? then serialized.value else EMPTY_JSON
  }

  datatype Event =
    | Skipped(stage: Stage)
    | Handled(packet: Packet.Packet, dispatched: Dispatch.Dispatched, periodicLog: bool,
              reasons: seq<Reason>, extraHeartbeat: bool)

  class IngestLoop {
    const variant: LoopVariant
    const logInterval: Option<nat>
    const handler: Dispatch.Handler
    var lastPeriodicLogTime: nat
    /** Payloads sent to live subscribers (telemetry server). */
    var broadcasts: seq<Dispatch.Payload>

    constructor(variant: LoopVariant, logInterval: Option<nat>, handler: Dispatch.Handler, now: nat)
      ensures this.variant == variant && this.logInterval == logInterval && this.handler == handler
      ensures lastPeriodicLogTime == InitialLogTime(logInterval, now) && broadcasts == []
    {
      this.variant := variant;
      this.logInterval := logInterval;
      this.handler := handler;
      lastPeriodicLogTime := InitialLogTime(logInterval, now);
      broadcasts := [];
    }

    /** `handle_packet` and its inline copies: the packet is always offered to the
        handler (and broadcast by the telemetry server) whatever the gate decides; the
        periodic log and the reasons follow. */
    method HandlePacket(p: Packet.Packet, now: nat, serialize: Dispatch.Serializer) returns (ev: Event)
      requires handler.channel.Valid()
      modifies this, handler.channel
      ensures handler.channel.Valid() && handler.channel.closed == old(handler.channel.closed)
      ensures Handles(p, now, serialize, ev, old(lastPeriodicLogTime), old(broadcasts), old(handler.channel.buffer), old(handler.channel.closed))
    {
      var dispatched := handler.TrySendPacket(p, serialize);
      if variant == TelemetryServer {
        broadcasts := broadcasts + [BroadcastPayload(serialize(p))];
      }
      var logged := false;
      if variant != Gt7 && logInterval.Some? {
        if Heartbeat.Elapsed(lastPeriodicLogTime, now) >= logInterval.value {
          lastPeriodicLogTime := now;
          logged := true;
        }
      }
      var reasons := [];
      if p.flags.Some? {
        reasons := CheckPacketConditions(p.flags.value, p.lapsInRace);
      }
      var extra := variant == Gt7 && ExtraHeartbeat(p.packetId);
      return Handled(p, dispatched, logged, reasons, extra);
    }

    /** The event and the new state after a decoded packet, against the state before. */
    ghost predicate Handles(p: Packet.Packet, now: nat, serialize: Dispatch.Serializer, ev: Event,
                            lastBefore: nat, broadcastsBefore: seq<Dispatch.Payload>,
                            bufferBefore: seq<Dispatch.Payload>, closedBefore: bool)
      reads this, handler, handler.channel
    {
      var logged := variant != Gt7 && PeriodicLogDue(logInterval, lastBefore, now);
      && ev == Handled(p,
                       Dispatch.Decide(p, Dispatch.RequiresCarOnTrack(handler.variant), serialize(p),
                         Dispatch.TrySendResult(|bufferBefore|, closedBefore, handler.channel.capacity)),
                       logged, ReasonsFor(p), variant == Gt7 && ExtraHeartbeat(p.packetId))
      && handler.channel.buffer == Dispatch.AfterTrySendPacket(bufferBefore, closedBefore,
                         handler.channel.capacity, Dispatch.RequiresCarOnTrack(handler.variant), serialize, p)
      && lastPeriodicLogTime == (if logged then now else lastBefore)
      && broadcasts == broadcastsBefore + (if variant == TelemetryServer then [BroadcastPayload(serialize(p))] else [])
    }

    /** One pass of the loop body. Any stage short of a decoded packet changes nothing
        and the loop goes on. */
    method Step(heartbeatSent: bool, recv: Receive, now: nat, ks: Cipher.Keystream, key: seq<Bytes.byte>,
                serialize: Dispatch.Serializer) returns (ev: Event)
      requires recv.Received? ==> |recv.buf| == Packet.PACKET_SIZE
      requires handler.channel.Valid()
      modifies this, handler.channel
      ensures handler.channel.Valid() && handler.channel.closed == old(handler.channel.closed)
      ensures !Classify(variant, heartbeatSent, recv, ks, key).Decoded? ==>
        && ev == Skipped(Classify(variant, heartbeatSent, recv, ks, key))
        && lastPeriodicLogTime == old(lastPeriodicLogTime) && broadcasts == old(broadcasts)
        && handler.channel.buffer == old(handler.channel.buffer)
      ensures Classify(variant, heartbeatSent, recv, ks, key).Decoded? ==>
        Handles(Classify(variant, heartbeatSent, recv, ks, key).packet, now, serialize, ev,
                old(lastPeriodicLogTime), old(broadcasts), old(handler.channel.buffer), old(handler.channel.closed))
    {
      if !heartbeatSent {
        return Skipped(HeartbeatSendFailed(SleepAfterHeartbeatFailure(variant)));
      }
      match recv {
        case ReceiveFailed(kind) =>
          if variant != Gt7 && (kind == WouldBlock || kind == TimedOut) {
            return Skipped(ReceiveTimeout);
          }
          return Skipped(ReceiveError);
        case Received(count, buf) =>
          if count != Packet.PACKET_SIZE {
            return Skipped(UnexpectedSize(count));
          }
          var decoded := Packet.TryFrom(ks, key, buf);
          match decoded {
            case Err(e) =>
              return Skipped(ParseFailed(e));
            case Ok(p) =>
              ev := HandlePacket(p, now, serialize);
          }
      }
    }
  }

  // ------------------------------------------------------------ properties

  /** Only a frame-sized datagram received after a successful heartbeat is decoded, and
      it is decoded exactly when the frame decoder accepts it. */
  lemma OnlyFrameSizedDecoded(v: LoopVariant, heartbeatSent: bool, recv: Receive, ks: Cipher.Keystream, key: seq<Bytes.byte>)
    ensures Classify(v, heartbeatSent, recv, ks, key).Decoded? <==>
      heartbeatSent && recv.Received? && recv.count == Packet.PACKET_SIZE && Packet.DecodeFrame(ks, key, recv.buf).Ok?
    ensures heartbeatSent && recv.Received? && recv.count != Packet.PACKET_SIZE ==>
      Classify(v, heartbeatSent, recv, ks, key) == UnexpectedSize(recv.count)
  {
  }

  /** A failed heartbeat skips the receive: 100 ms of sleep in the server and bridge,
      none in gt7. */
  lemma HeartbeatFailureSkipsReceive(v: LoopVariant, recv: Receive, ks: Cipher.Keystream, key: seq<Bytes.byte>)
    ensures Classify(v, false, recv, ks, key) == HeartbeatSendFailed(if v == Gt7 then 0 else 100)
  {
  }

  /** A timeout is an idle pass in the server and bridge and an ordinary receive error
      in gt7. */
  lemma TimeoutHandling(v: LoopVariant, kind: IoErrorKind, ks: Cipher.Keystream, key: seq<Bytes.byte>)
    ensures Classify(v, true, ReceiveFailed(kind), ks, key) ==
      (if v != Gt7 && kind != OtherIoError then ReceiveTimeout else ReceiveError)
  {
  }

  /** Every parse error of a frame-sized datagram is reported as such, never as
      another stage. */
  lemma ParseErrorsReported(v: LoopVariant, buf: seq<Bytes.byte>, ks: Cipher.Keystream, key: seq<Bytes.byte>)
    requires Packet.DecodeFrame(ks, key, buf).Err?
    ensures Classify(v, true, Received(Packet.PACKET_SIZE, buf), ks, key) == ParseFailed(Packet.DecodeFrame(ks, key, buf).error)
  {
  }
}
