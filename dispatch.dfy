/** The broker hand-off of the telemetry services: `try_send_packet` lets a decoded
    packet through a gate, serialises it and offers the payload to a bounded FIFO
    channel without blocking; the worker task at the other end of the channel forwards
    payloads to the broker. The three handler copies share everything except whether
    the gate insists on the car being on track.

    JSON serialisation is a parameter (`Serializer`); it may fail. */
module Dispatch {
  import opened Outcomes
  import Bytes
  import Flags
  import Packet

  /** Capacity of every handler's channel. */
  const CHANNEL_CAPACITY: nat := 100

  type Payload = seq<Bytes.byte>
  type Serializer = Packet.Packet -> Option<Payload>

  /** The three handler copies. */
  datatype HandlerVariant =
    | TelemetryServerPulsar   // gt7/telemetry-server/src/pulsar_handler.rs
    | TelemetryKafka          // gt7/telemetry/src/kafka_handler.rs
    | Gt7Pulsar               // gt7/src/pulsar_handler.rs

  /** Only the gt7 copy also requires `CarOnTrack`. */
  function RequiresCarOnTrack(v: HandlerVariant): bool {
    v == Gt7Pulsar
  }

  /** The gate: flags present, neither paused nor loading, on track when required, and
      the race under way. */
  predicate Gate(p: Packet.Packet, requireOnTrack: bool) {
    p.flags.Some?
    && !Flags.Intersects(p.flags.value, Flags.Union(Flags.Paused, Flags.LoadingOrProcessing))
    && (requireOnTrack ==> Flags.Contains(p.flags.value, Flags.CarOnTrack))
    && p.lapsInRace > 0
  }

  // ------------------------------------------------------------ the channel

  /** `TrySendError`: the payload comes back when the channel is full or closed. */
  datatype TrySendError = Full | Closed

  /** What `try_send` answers for a channel holding `len` of `capacity` payloads: a
      closed channel refuses first, then a full one. */
  function TrySendResult(len: nat, closed: bool, capacity: nat): (r: Result<(), TrySendError>)
    ensures r.Ok? <==> !closed && len < capacity
    ensures r == Err(Closed) <==> closed
    ensures r == Err(Full) <==> !closed && len >= capacity
  {
    if closed then Err(Closed) else if len >= capacity then Err(Full) else Ok(())
  }

  /** The buffer after offering `payload`: appended at the tail when admitted, untouched
      otherwise (nothing already queued is evicted). */
  function Offered(buffer: seq<Payload>, closed: bool, capacity: nat, payload: Payload): (r: seq<Payload>)
    ensures TrySendResult(|buffer|, closed, capacity).Ok? ==> r == buffer + [payload]
    ensures TrySendResult(|buffer|, closed, capacity).Err? ==> r == buffer
  {
    if TrySendResult(|buffer|, closed, capacity).Ok? then buffer + [payload] else buffer
  }

  /** `tokio::sync::mpsc::channel(capacity)`, sender and receiver side. */
  class BoundedChannel {
    const capacity: nat
    var buffer: seq<Payload>
    var closed: bool

    predicate Valid()
      reads this
    {
      |buffer| <= capacity
    }

    constructor(capacity: nat)
      ensures this.capacity == capacity && buffer == [] && !closed && Valid()
    {
      this.capacity := capacity;
      buffer := [];
      closed := false;
    }

    /** `Sender::try_send`. */
    method TrySend(payload: Payload) returns (r: Result<(), TrySendError>)
      requires Valid()
      modifies this
      ensures Valid() && closed == old(closed)
      ensures r == TrySendResult(|old(buffer)|, old(closed), capacity)
      ensures buffer == Offered(old(buffer), old(closed), capacity, payload)
    {
      if closed {
        r := Err(Closed);
      } else if |buffer| >= capacity {
        r := Err(Full);
      } else {
        buffer := buffer + [payload];
        r := Ok(());
      }
    }

    /** `Receiver::try_recv`: the oldest payload, if any. */
    method TryRecv() returns (r: Option<Payload>)
      requires Valid()
      modifies this
      ensures Valid() && closed == old(closed)
      ensures old(buffer) == [] ==> r == None && buffer == []
      ensures old(buffer) != [] ==> r == Some(old(buffer)[0]) && buffer == old(buffer)[1..]
    {
      if buffer == [] {
        r := None;
      } else {
        r := Some(buffer[0]);
        buffer := buffer[1..];
      }
    }

    /** `Receiver::close`: later sends are refused; what is queued stays receivable. */
    method Close()
      modifies this
      ensures closed && buffer == old(buffer)
    {
      closed := true;
    }
  }

  /** Offering `payloads` one after another to an open channel. */
  function OfferAll(buffer: seq<Payload>, capacity: nat, payloads: seq<Payload>): seq<Payload>
    decreases |payloads|
  {
    if payloads == [] then buffer
    else OfferAll(Offered(buffer, false, capacity, payloads[0]), capacity, payloads[1..])
  }

  function Min(a: nat, b: nat): nat {
    if a <= b then a else b
  }

  /** A burst into an open channel keeps everything already queued and the oldest new
      payloads that fit; the rest of the burst is dropped. */
  lemma {:induction false} BurstKeepsOldest(buffer: seq<Payload>, capacity: nat, payloads: seq<Payload>)
    requires |buffer| <= capacity
    ensures OfferAll(buffer, capacity, payloads) == buffer + payloads[..Min(|payloads|, capacity - |buffer|)]
    decreases |payloads|
  {
    if payloads != [] {
      var next := Offered(buffer, false, capacity, payloads[0]);
      BurstKeepsOldest(next, capacity, payloads[1..]);
      if |buffer| < capacity {
        assert next == buffer + [payloads[0]];
        assert payloads[..Min(|payloads|, capacity - |buffer|)]
            == [payloads[0]] + payloads[1..][..Min(|payloads| - 1, capacity - |next|)];
      } else {
        assert next == buffer;
        assert payloads[..Min(|payloads|, capacity - |buffer|)] == [];
        assert payloads[1..][..Min(|payloads| - 1, capacity - |next|)] == [];
      }
    }
  }

  // ------------------------------------------------------------ the handler

  /** Which log line `try_send_packet` ends with. */
  datatype Dispatched = Queued | DroppedFull | DroppedClosed | SerializeFailed | GateClosed | FlagsMissing

  /** The outcome of `try_send_packet` for a serialisation result and a `try_send` answer. */
  function Decide(p: Packet.Packet, requireOnTrack: bool, serialized: Option<Payload>, admit: Result<(), TrySendError>): Dispatched {
    if p.flags.None? then FlagsMissing
    else if !Gate(p, requireOnTrack) then GateClosed
    else if serialized.None? then SerializeFailed
    else if admit == Err(Full) then DroppedFull
    else if admit == Err(Closed) then DroppedClosed
    else Queued
  }

  /** The channel buffer after `try_send_packet`. */
  function AfterTrySendPacket(buffer: seq<Payload>, closed: bool, capacity: nat, requireOnTrack: bool,
                              serialize: Serializer, p: Packet.Packet): seq<Payload>
  {
    if Gate(p, requireOnTrack) && serialize(p).Some? then Offered(buffer, closed, capacity, serialize(p).value)
    else buffer
  }

  class Handler {
    const variant: HandlerVariant
    const channel: BoundedChannel

    /** `new`: the channel has room for 100 payloads; the worker holds the receiver. */
    constructor(variant: HandlerVariant)
      ensures this.variant == variant && fresh(channel)
      ensures channel.capacity == CHANNEL_CAPACITY && channel.buffer == [] && !channel.closed
    {
      this.variant := variant;
      channel := new BoundedChannel(CHANNEL_CAPACITY);
    }

    /** `try_send_packet`. */
    method TrySendPacket(p: Packet.Packet, serialize: Serializer) returns (outcome: Dispatched)
      requires channel.Valid()
      modifies channel
      ensures channel.Valid() && channel.closed == old(channel.closed)
      ensures channel.buffer == AfterTrySendPacket(old(channel.buffer), old(channel.closed), channel.capacity,
                                                   RequiresCarOnTrack(variant), serialize, p)
      ensures outcome == Decide(p, RequiresCarOnTrack(variant), serialize(p),
                                TrySendResult(|old(channel.buffer)|, old(channel.closed), channel.capacity))
    {
      match p.flags {
        case None =>
          return FlagsMissing;
        case Some(flags) =>
          if !Flags.Intersects(flags, Flags.Union(Flags.Paused, Flags.LoadingOrProcessing))
             && (RequiresCarOnTrack(variant) ==> Flags.Contains(flags, Flags.CarOnTrack))
             && p.lapsInRace > 0
          {
            match serialize(p) {
              case None =>
                return SerializeFailed;
              case Some(payload) =>
                var r := channel.TrySend(payload);
                match r {
                  case Ok(_) => return Queued;
                  case Err(Full) => return DroppedFull;
                  case Err(Closed) => return DroppedClosed;
                }
            }
          }
          return GateClosed;
      }
    }
  }

  // ------------------------------------------------------------ properties

  /** A payload is queued exactly when the gate passes, serialisation succeeds and the
      channel is open with room; the outcome reports exactly that. */
  lemma QueuedExactly(buffer: seq<Payload>, closed: bool, capacity: nat, requireOnTrack: bool, serialize: Serializer, p: Packet.Packet)
    ensures var admitted := Gate(p, requireOnTrack) && serialize(p).Some? && !closed && |buffer| < capacity;
      && (admitted ==> AfterTrySendPacket(buffer, closed, capacity, requireOnTrack, serialize, p) == buffer + [serialize(p).value])
      && (!admitted ==> AfterTrySendPacket(buffer, closed, capacity, requireOnTrack, serialize, p) == buffer)
      && (Decide(p, requireOnTrack, serialize(p), TrySendResult(|buffer|, closed, capacity)) == Queued <==> admitted)
  {
  }

  /** A packet without flags is never queued. */
  lemma NoFlagsNeverQueued(buffer: seq<Payload>, closed: bool, capacity: nat, requireOnTrack: bool, serialize: Serializer, p: Packet.Packet)
    requires p.flags.None?
    ensures AfterTrySendPacket(buffer, closed, capacity, requireOnTrack, serialize, p) == buffer
    ensures Decide(p, requireOnTrack, serialize(p), TrySendResult(|buffer|, closed, capacity)) == FlagsMissing
  {
  }

  /** A paused or loading packet is never queued, by any variant. */
  lemma PausedOrLoadingNeverQueued(buffer: seq<Payload>, closed: bool, capacity: nat, requireOnTrack: bool, serialize: Serializer, p: Packet.Packet)
    requires p.flags.Some?
    requires Flags.Contains(p.flags.value, Flags.Paused) || Flags.Contains(p.flags.value, Flags.LoadingOrProcessing)
    ensures AfterTrySendPacket(buffer, closed, capacity, requireOnTrack, serialize, p) == buffer
    ensures Decide(p, requireOnTrack, serialize(p), TrySendResult(|buffer|, closed, capacity)) == GateClosed
  {
    Flags.PausedOrLoading(p.flags.value);
  }

  /** A packet before the race has started is never queued. */
  lemma RaceNotStartedNeverQueued(buffer: seq<Payload>, closed: bool, capacity: nat, requireOnTrack: bool, serialize: Serializer, p: Packet.Packet)
    requires p.lapsInRace <= 0
    ensures AfterTrySendPacket(buffer, closed, capacity, requireOnTrack, serialize, p) == buffer
  {
  }

  /** Empty flags and one lap: queued by the two copies without the on-track
      requirement, refused by the gt7 copy. */
  lemma OnTrackRequirement(buffer: seq<Payload>, v: HandlerVariant, serialize: Serializer, p: Packet.Packet)
    requires p.flags == Some(Flags.Empty()) && p.lapsInRace == 1
    requires serialize(p).Some? && |buffer| < CHANNEL_CAPACITY
    ensures AfterTrySendPacket(buffer, false, CHANNEL_CAPACITY, RequiresCarOnTrack(v), serialize, p)
         == (if v == Gt7Pulsar then buffer else buffer + [serialize(p).value])
  {
    Flags.EmptyFacts(Flags.CarOnTrack);
    Flags.EmptyFacts(Flags.Union(Flags.Paused, Flags.LoadingOrProcessing));
  }

  /** A full channel drops the new payload and keeps every queued one; a closed channel
      drops it too. */
  lemma FullOrClosedDrops(buffer: seq<Payload>, closed: bool, capacity: nat, requireOnTrack: bool, serialize: Serializer, p: Packet.Packet)
    requires closed || |buffer| >= capacity
    ensures AfterTrySendPacket(buffer, closed, capacity, requireOnTrack, serialize, p) == buffer
  {
  }

  /** The channel never holds more than its capacity, and what it held stays at the front. */
  lemma CapacityKept(buffer: seq<Payload>, closed: bool, capacity: nat, requireOnTrack: bool, serialize: Serializer, p: Packet.Packet)
    requires |buffer| <= capacity
    ensures |AfterTrySendPacket(buffer, closed, capacity, requireOnTrack, serialize, p)| <= capacity
    ensures AfterTrySendPacket(buffer, closed, capacity, requireOnTrack, serialize, p)[..|buffer|] == buffer
  {
  }

  /** The tests' scenario: a fresh handler, one packet, one receive; the payload that
      comes out is the serialisation of the packet exactly when the gate passes. */
  method SendThenReceive(v: HandlerVariant, serialize: Serializer, p: Packet.Packet) returns (received: Option<Payload>)
    ensures Gate(p, RequiresCarOnTrack(v)) && serialize(p).Some? ==> received == serialize(p)
    ensures !(Gate(p, RequiresCarOnTrack(v)) && serialize(p).Some?) ==> received == None
  {
    var h := new Handler(v);
    var _ := h.TrySendPacket(p, serialize);
    received := h.channel.TryRecv();
  }
}
