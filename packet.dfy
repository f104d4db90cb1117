/** The telemetry frame decoder: a 296-byte ciphertext is decrypted, then read front to
    back through a cursor as a fixed little-endian layout guarded by a magic value.

    `Layout` and `ParsePlaintext` say which bytes every field comes from; `ReadPacket`
    is the step-by-step cursor decoder, proved to compute `ParsePlaintext`. */
module Packet {
  import opened Bytes
  import opened Outcomes
  import Flags
  import Cipher

  /** Size of an inbound frame. */
  const PACKET_SIZE: nat := 296
  /** The marker at the start of every plaintext ("G7S0" read little-endian). */
  const PACKET_MAGIC_VALUE: bv32 := 0x47375330

  /** An `f32` kept as its 32-bit IEEE-754 word. */
  type F32 = bv32

  datatype ParsePacketError =
    | InvalidMagicValue(value: bv32)
    | ReadError
    | DecryptionError(cause: Cipher.CypherError)

  /** One decoded frame; arrays of the record are sequences. */
  datatype Packet = Packet(
    position: seq<F32>,
    velocity: seq<F32>,
    rotation: seq<F32>,
    relativeOrientationToNorth: F32,
    angularVelocity: seq<F32>,
    bodyHeight: F32,
    engineRpm: F32,
    gasLevel: F32,
    gasCapacity: F32,
    metersPerSecond: F32,
    turboBoost: F32,
    oilPressure: F32,
    waterTemperature: F32,
    oilTemperature: F32,
    tireFlSurfaceTemperature: F32,
    tireFrSurfaceTemperature: F32,
    tireRlSurfaceTemperature: F32,
    tireRrSurfaceTemperature: F32,
    packetId: i32,
    lapCount: i16,
    lapsInRace: i16,
    bestLapTime: i32,
    lastLapTime: i32,
    timeOfDayProgression: i32,
    qualifyingPosition: i16,
    numCarsPreRace: i16,
    alertRpmMin: i16,
    alertRpmMax: i16,
    calculatedMaxSpeed: i16,
    flags: Option<Flags.PacketFlags>,
    currentGear: byte,
    suggestedGear: byte,
    throttle: byte,
    brake: byte,
    roadPlane: seq<F32>,
    roadPlaneDistance: F32,
    wheelFlRps: F32,
    wheelFrRps: F32,
    wheelRlRps: F32,
    wheelRrRps: F32,
    tireFlRadius: F32,
    tireFrRadius: F32,
    tireRlRadius: F32,
    tireRrRadius: F32,
    tireFlSuspensionHeight: F32,
    tireFrSuspensionHeight: F32,
    tireRlSuspensionHeight: F32,
    tireRrSuspensionHeight: F32,
    clutchPedal: F32,
    clutchEngagement: F32,
    rpmFromClutchToGearbox: F32,
    transmissionTopSpeed: F32,
    gearRatios: seq<F32>,
    carCode: i32
  )

  // ------------------------------------------------------------ the layout

  function F32At(s: seq<byte>, o: nat): F32
    requires o + 4 <= |s|
  {
    U32At(s, o)
  }

  /** `n` consecutive floats from offset `o`. */
  function F32sAt(s: seq<byte>, o: nat, n: nat): (r: seq<F32>)
    requires o + 4 * n <= |s|
    ensures |r| == n && forall i | 0 <= i < n :: r[i] == F32At(s, o + 4 * i)
  {
    seq(n, i requires 0 <= i < n => F32At(s, o + 4 * i))
  }

  /** The low nibble of the gear byte. */
  function LowNibble(b: byte): byte {
    b & 0x0F
  }

  /** The high nibble of the gear byte. */
  function HighNibble(b: byte): byte {
    b >> 4
  }

  /** The fields each reader of the cursor decoder returns, in field order. */
  type Motion = (seq<F32>, seq<F32>, seq<F32>, F32, seq<F32>, F32, F32)
  type Engine = (F32, F32, F32, F32, F32, F32, F32, F32, F32, F32, F32)
  type Race = (i32, i16, i16, i32, i32, i32, i16, i16, i16, i16, i16)
  type Controls = (Option<Flags.PacketFlags>, byte, byte, byte, byte)
  type Chassis = (seq<F32>, F32, F32, F32, F32, F32, F32, F32, F32, F32, F32, F32, F32, F32)
  type Drivetrain = (F32, F32, F32, F32, seq<F32>, i32)

  /** Bytes 4-63. */
  function MotionAt(p: seq<byte>): Motion
    requires 64 <= |p|
  {
    (F32sAt(p, 4, 3), F32sAt(p, 16, 3), F32sAt(p, 28, 3), F32At(p, 40), F32sAt(p, 44, 3), F32At(p, 56), F32At(p, 60))
  }

  /** Bytes 68-111. */
  function EngineAt(p: seq<byte>): Engine
    requires 112 <= |p|
  {
    (F32At(p, 68), F32At(p, 72), F32At(p, 76), F32At(p, 80), F32At(p, 84), F32At(p, 88), F32At(p, 92),
     F32At(p, 96), F32At(p, 100), F32At(p, 104), F32At(p, 108))
  }

  /** Bytes 112-141. */
  function RaceAt(p: seq<byte>): Race
    requires 142 <= |p|
  {
    (I32At(p, 112), I16At(p, 116), I16At(p, 118), I32At(p, 120), I32At(p, 124), I32At(p, 128),
     I16At(p, 132), I16At(p, 134), I16At(p, 136), I16At(p, 138), I16At(p, 140))
  }

  /** Bytes 142-146. */
  function ControlsAt(p: seq<byte>): Controls
    requires 148 <= |p|
  {
    (Flags.FromBits(U16At(p, 142)), LowNibble(p[144]), HighNibble(p[144]), p[145], p[146])
  }

  /** Bytes 148-211. */
  function ChassisAt(p: seq<byte>): Chassis
    requires 212 <= |p|
  {
    (F32sAt(p, 148, 3), F32At(p, 160), F32At(p, 164), F32At(p, 168), F32At(p, 172), F32At(p, 176),
     F32At(p, 180), F32At(p, 184), F32At(p, 188), F32At(p, 192),
     F32At(p, 196), F32At(p, 200), F32At(p, 204), F32At(p, 208))
  }

  /** Bytes 244-287 and 292-295. */
  function DrivetrainAt(p: seq<byte>): Drivetrain
    requires PACKET_SIZE <= |p|
  {
    (F32At(p, 244), F32At(p, 248), F32At(p, 252), F32At(p, 256), F32sAt(p, 260, 7), I32At(p, 292))
  }

  /** The record with its fields taken from the six sections in order. */
  function FromSections(m: Motion, e: Engine, a: Race, k: Controls, h: Chassis, d: Drivetrain): Packet {
    Packet(
      m.0, m.1, m.2, m.3, m.4, m.5, m.6,
      e.0, e.1, e.2, e.3, e.4, e.5, e.6, e.7, e.8, e.9, e.10,
      a.0, a.1, a.2, a.3, a.4, a.5, a.6, a.7, a.8, a.9, a.10,
      k.0, k.1, k.2, k.3, k.4,
      h.0, h.1, h.2, h.3, h.4, h.5, h.6, h.7, h.8, h.9, h.10, h.11, h.12, h.13,
      d.0, d.1, d.2, d.3, d.4, d.5)
  }

  /** Every field at its fixed offset. Bytes 64-67, 147, 212-243 and 288-291 are skipped. */
  function Layout(p: seq<byte>): Packet
    requires |p| >= PACKET_SIZE
  {
    FromSections(MotionAt(p), EngineAt(p), RaceAt(p), ControlsAt(p), ChassisAt(p), DrivetrainAt(p))
  }

  /** `verify_magic_value`. */
  function VerifyMagicValue(magic: bv32): (r: Result<(), ParsePacketError>)
    ensures r.Ok? <==> magic == PACKET_MAGIC_VALUE
    ensures r.Err? ==> r.error == InvalidMagicValue(magic)
  {
    if magic != PACKET_MAGIC_VALUE then Err(InvalidMagicValue(magic)) else Ok(())
  }

  /** What reading the layout from a plaintext gives: a read error when the magic value
      itself cannot be read, the magic value when it is wrong, a read error when the
      plaintext ends before byte 296, and the record otherwise. */
  function ParsePlaintext(p: seq<byte>): Result<Packet, ParsePacketError> {
    if |p| < 4 then Err(ReadError)
    else if VerifyMagicValue(U32At(p, 0)).Err? then Err(VerifyMagicValue(U32At(p, 0)).error)
    else if |p| < PACKET_SIZE then Err(ReadError)
    else Ok(Layout(p))
  }

  /** `Packet::try_from`: decrypt, then parse; a decryption failure is wrapped. */
  function DecodeFrame(ks: Cipher.Keystream, key: seq<byte>, frame: seq<byte>): Result<Packet, ParsePacketError> {
    match Cipher.Decrypt(ks, key, frame)
    case Err(e) => Err(DecryptionError(e))
    case Ok(plain) => ParsePlaintext(plain)
  }

  // ------------------------------------------------------------ the cursor

  /** `std::io::Cursor` over the plaintext, read with `byteorder`'s little-endian reads. */
  class Cursor {
    const data: seq<byte>
    var pos: nat

    constructor(data: seq<byte>)
      ensures this.data == data && pos == 0
    {
      this.data := data;
      pos := 0;
    }

    /** `read_exact` of `n` bytes: on success the bytes at the position, which advances by
        `n`; when fewer than `n` bytes remain, an error, and the position moves to the end. */
    method ReadExact(n: nat) returns (r: Result<seq<byte>, ParsePacketError>)
      modifies this
      ensures old(pos) + n <= |data| ==> r == Ok(data[old(pos)..old(pos) + n]) && pos == old(pos) + n
      ensures old(pos) + n > |data| ==> r == Err(ReadError) && pos == |data|
    {
      if pos + n <= |data| {
        r := Ok(data[pos..pos + n]);
        pos := pos + n;
      } else {
        r := Err(ReadError);
        pos := |data|;
      }
    }

    method ReadU8() returns (r: Result<byte, ParsePacketError>)
      modifies this
      ensures old(pos) + 1 <= |data| ==> r == Ok(data[old(pos)]) && pos == old(pos) + 1
      ensures old(pos) + 1 > |data| ==> r == Err(ReadError)
    {
      var b :- ReadExact(1);
      return Ok(b[0]);
    }

    method ReadU16() returns (r: Result<bv16, ParsePacketError>)
      modifies this
      ensures old(pos) + 2 <= |data| ==> r == Ok(U16At(data, old(pos))) && pos == old(pos) + 2
      ensures old(pos) + 2 > |data| ==> r == Err(ReadError)
    {
      var b :- ReadExact(2);
      return Ok((b[0] as bv16) | ((b[1] as bv16) << 8));
    }

    method ReadI16() returns (r: Result<i16, ParsePacketError>)
      modifies this
      ensures old(pos) + 2 <= |data| ==> r == Ok(I16At(data, old(pos))) && pos == old(pos) + 2
      ensures old(pos) + 2 > |data| ==> r == Err(ReadError)
    {
      var w :- ReadU16();
      return Ok(SignedOf16(w));
    }

    method ReadU32() returns (r: Result<bv32, ParsePacketError>)
      modifies this
      ensures old(pos) + 4 <= |data| ==> r == Ok(U32At(data, old(pos))) && pos == old(pos) + 4
      ensures old(pos) + 4 > |data| ==> r == Err(ReadError)
    {
      var b :- ReadExact(4);
      return Ok(U32Of(b[0], b[1], b[2], b[3]));
    }

    method ReadI32() returns (r: Result<i32, ParsePacketError>)
      modifies this
      ensures old(pos) + 4 <= |data| ==> r == Ok(I32At(data, old(pos))) && pos == old(pos) + 4
      ensures old(pos) + 4 > |data| ==> r == Err(ReadError)
    {
      var w :- ReadU32();
      return Ok(SignedOf32(w));
    }

    /** `read_f32`: the word is kept as it is. */
    method ReadF32() returns (r: Result<F32, ParsePacketError>)
      modifies this
      ensures old(pos) + 4 <= |data| ==> r == Ok(F32At(data, old(pos))) && pos == old(pos) + 4
      ensures old(pos) + 4 > |data| ==> r == Err(ReadError)
    {
      r := ReadU32();
    }

    /** Three floats in a row, as the `[f32; 3]` fields are read. */
    method ReadVec3() returns (r: Result<seq<F32>, ParsePacketError>)
      modifies this
      ensures old(pos) + 12 <= |data| ==> r == Ok(F32sAt(data, old(pos), 3)) && pos == old(pos) + 12
      ensures old(pos) + 12 > |data| ==> r == Err(ReadError)
    {
      ghost var start := pos;
      var x :- ReadF32();
      var y :- ReadF32();
      var z :- ReadF32();
      assert [x, y, z] == F32sAt(data, start, 3);
      return Ok([x, y, z]);
    }

    /** `seek(SeekFrom::Current(n))` for `n >= 0`: the position may pass the end. */
    method SeekForward(n: nat)
      modifies this
      ensures pos == old(pos) + n
    {
      pos := pos + n;
    }
  }

  // ------------------------------------------------------------ the decoder

  /** Bytes 4-67: position, velocity, rotation, heading, angular velocity, body height and
      engine rpm, then the four skipped bytes 64-67. */
  method ReadMotion(c: Cursor) returns (r: Result<Motion, ParsePacketError>)
    requires c.pos == 4
    modifies c
    ensures 64 <= |c.data| ==> c.pos == 68 && r == Ok(MotionAt(c.data))
    ensures 64 > |c.data| ==> r == Err(ReadError)
  {
    var position :- c.ReadVec3();
    var velocity :- c.ReadVec3();
    var rotation :- c.ReadVec3();
    var relativeOrientationToNorth :- c.ReadF32();
    var angularVelocity :- c.ReadVec3();
    var bodyHeight :- c.ReadF32();
    var engineRpm :- c.ReadF32();
    c.SeekForward(4);
    return Ok((position, velocity, rotation, relativeOrientationToNorth, angularVelocity, bodyHeight, engineRpm));
  }

  /** Bytes 68-111: fuel, speed, boost, oil and water readings and the four tyre
      surface temperatures. */
  method ReadEngine(c: Cursor) returns (r: Result<Engine, ParsePacketError>)
    requires c.pos == 68
    modifies c
    ensures 112 <= |c.data| ==> c.pos == 112 && r == Ok((F32At(c.data, 68), F32At(c.data, 72), F32At(c.data, 76),
      F32At(c.data, 80), F32At(c.data, 84), F32At(c.data, 88), F32At(c.data, 92),
      F32At(c.data, 96), F32At(c.data, 100), F32At(c.data, 104), F32At(c.data, 108)))
    ensures 112 > |c.data| ==> r == Err(ReadError)
  {
    var gasLevel :- c.ReadF32();
    var gasCapacity :- c.ReadF32();
    var metersPerSecond :- c.ReadF32();
    var turboBoost :- c.ReadF32();
    var oilPressure :- c.ReadF32();
    var waterTemperature :- c.ReadF32();
    var oilTemperature :- c.ReadF32();
    var tireFlSurfaceTemperature :- c.ReadF32();
    var tireFrSurfaceTemperature :- c.ReadF32();
    var tireRlSurfaceTemperature :- c.ReadF32();
    var tireRrSurfaceTemperature :- c.ReadF32();
    return Ok((gasLevel, gasCapacity, metersPerSecond, turboBoost, oilPressure, waterTemperature, oilTemperature,
      tireFlSurfaceTemperature, tireFrSurfaceTemperature, tireRlSurfaceTemperature, tireRrSurfaceTemperature));
  }

  /** Bytes 112-141: packet id, laps, lap times, time of day, grid and rpm alert values. */
  method ReadRace(c: Cursor) returns (r: Result<Race, ParsePacketError>)
    requires c.pos == 112
    modifies c
    ensures 142 <= |c.data| ==> c.pos == 142 && r == Ok((I32At(c.data, 112), I16At(c.data, 116), I16At(c.data, 118),
      I32At(c.data, 120), I32At(c.data, 124), I32At(c.data, 128),
      I16At(c.data, 132), I16At(c.data, 134), I16At(c.data, 136), I16At(c.data, 138), I16At(c.data, 140)))
    ensures 142 > |c.data| ==> r == Err(ReadError)
  {
    var packetId :- c.ReadI32();
    var lapCount :- c.ReadI16();
    var lapsInRace :- c.ReadI16();
    var bestLapTime :- c.ReadI32();
    var lastLapTime :- c.ReadI32();
    var timeOfDayProgression :- c.ReadI32();
    var qualifyingPosition :- c.ReadI16();
    var numCarsPreRace :- c.ReadI16();
    var alertRpmMin :- c.ReadI16();
    var alertRpmMax :- c.ReadI16();
    var calculatedMaxSpeed :- c.ReadI16();
    return Ok((packetId, lapCount, lapsInRace, bestLapTime, lastLapTime, timeOfDayProgression,
      qualifyingPosition, numCarsPreRace, alertRpmMin, alertRpmMax, calculatedMaxSpeed));
  }

  /** Bytes 142-147: the flag word (an undefined bit gives no flag set, not an error), the
      gear byte split into nibbles, throttle, brake and one skipped byte. */
  method ReadControls(c: Cursor) returns (r: Result<Controls, ParsePacketError>)
    requires c.pos == 142
    modifies c
    ensures 148 <= |c.data| ==> c.pos == 148 && r == Ok(ControlsAt(c.data))
    ensures 148 > |c.data| ==> r == Err(ReadError)
  {
    var flagBits :- c.ReadU16();
    var flags := Flags.FromBits(flagBits);
    var gearBits :- c.ReadU8();
    var currentGear := LowNibble(gearBits);
    var suggestedGear := HighNibble(gearBits);
    var throttle :- c.ReadU8();
    var brake :- c.ReadU8();
    var _ :- c.ReadU8();
    return Ok((flags, currentGear, suggestedGear, throttle, brake));
  }

  /** Bytes 148-243: road plane, wheel speeds, tyre radii and suspension heights, then the
      32 skipped bytes 212-243. */
  method ReadChassis(c: Cursor) returns (r: Result<Chassis, ParsePacketError>)
    requires c.pos == 148
    modifies c
    ensures 212 <= |c.data| ==> c.pos == 244 && r == Ok(ChassisAt(c.data))
    ensures 212 > |c.data| ==> r == Err(ReadError)
  {
    var wheels :- ReadWheels(c);
    var tyres :- ReadTyres(c);
    c.SeekForward(32);
    return Ok((wheels.0, wheels.1, wheels.2, wheels.3, wheels.4, wheels.5,
      tyres.0, tyres.1, tyres.2, tyres.3, tyres.4, tyres.5, tyres.6, tyres.7));
  }

  /** Bytes 148-179: the road plane, its distance and the four wheel speeds. */
  method ReadWheels(c: Cursor) returns (r: Result<(seq<F32>, F32, F32, F32, F32, F32), ParsePacketError>)
    requires c.pos == 148
    modifies c
    ensures 180 <= |c.data| ==> c.pos == 180 && r == Ok((F32sAt(c.data, 148, 3), F32At(c.data, 160),
      F32At(c.data, 164), F32At(c.data, 168), F32At(c.data, 172), F32At(c.data, 176)))
    ensures 180 > |c.data| ==> r == Err(ReadError)
  {
    var roadPlane :- c.ReadVec3();
    var roadPlaneDistance :- c.ReadF32();
    var wheelFlRps :- c.ReadF32();
    var wheelFrRps :- c.ReadF32();
    var wheelRlRps :- c.ReadF32();
    var wheelRrRps :- c.ReadF32();
    return Ok((roadPlane, roadPlaneDistance, wheelFlRps, wheelFrRps, wheelRlRps, wheelRrRps));
  }

  /** Bytes 180-211: tyre radii and suspension heights, front left to rear right. */
  method ReadTyres(c: Cursor) returns (r: Result<(F32, F32, F32, F32, F32, F32, F32, F32), ParsePacketError>)
    requires c.pos == 180
    modifies c
    ensures 212 <= |c.data| ==> c.pos == 212 && r == Ok((F32At(c.data, 180), F32At(c.data, 184),
      F32At(c.data, 188), F32At(c.data, 192), F32At(c.data, 196), F32At(c.data, 200),
      F32At(c.data, 204), F32At(c.data, 208)))
    ensures 212 > |c.data| ==> r == Err(ReadError)
  {
    var tireFlRadius :- c.ReadF32();
    var tireFrRadius :- c.ReadF32();
    var tireRlRadius :- c.ReadF32();
    var tireRrRadius :- c.ReadF32();
    var tireFlSuspensionHeight :- c.ReadF32();
    var tireFrSuspensionHeight :- c.ReadF32();
    var tireRlSuspensionHeight :- c.ReadF32();
    var tireRrSuspensionHeight :- c.ReadF32();
    return Ok((tireFlRadius, tireFrRadius, tireRlRadius, tireRrRadius,
      tireFlSuspensionHeight, tireFrSuspensionHeight, tireRlSuspensionHeight, tireRrSuspensionHeight));
  }

  /** Bytes 244-295: clutch and gearbox values, seven gear ratios filled in place, the
      skipped eighth ratio and the car code. */
  method ReadDrivetrain(c: Cursor) returns (r: Result<Drivetrain, ParsePacketError>)
    requires c.pos == 244
    modifies c
    ensures PACKET_SIZE <= |c.data| ==> c.pos == PACKET_SIZE && r == Ok(DrivetrainAt(c.data))
    ensures PACKET_SIZE > |c.data| ==> r == Err(ReadError)
  {
    var clutchPedal :- c.ReadF32();
    var clutchEngagement :- c.ReadF32();
    var rpmFromClutchToGearbox :- c.ReadF32();
    var transmissionTopSpeed :- c.ReadF32();

    var gearRatios := new F32[7](_ => 0);
    for i := 0 to 7
      invariant c.pos == 260 + 4 * i && 260 + 4 * i <= |c.data|
      invariant forall j | 0 <= j < i :: gearRatios[j] == F32At(c.data, 260 + 4 * j)
    {
      var ratio :- c.ReadF32();
      gearRatios[i] := ratio;
    }

    var _ :- c.ReadF32();
    var carCode :- c.ReadI32();
    assert gearRatios[..] == F32sAt(c.data, 260, 7);
    return Ok((clutchPedal, clutchEngagement, rpmFromClutchToGearbox, transmissionTopSpeed, gearRatios[..], carCode));
  }

  /** The body of `try_from` after decryption: reads the layout front to back from the
      cursor's start. It computes `ParsePlaintext`, and a successful decode ends exactly at
      byte 296. */
  method ReadPacket(c: Cursor) returns (r: Result<Packet, ParsePacketError>)
    requires c.pos == 0
    modifies c
    ensures r == ParsePlaintext(c.data)
    ensures r.Ok? ==> c.pos == PACKET_SIZE
  {
    var magic :- c.ReadU32();
    var checked := VerifyMagicValue(magic);
    if checked.Err? {
      return Err(checked.error);
    }
    var m :- ReadMotion(c);
    var e :- ReadEngine(c);
    var a :- ReadRace(c);
    var k :- ReadControls(c);
    var h :- ReadChassis(c);
    var d :- ReadDrivetrain(c);
    return Ok(FromSections(m, e, a, k, h, d));
  }

  /** `Packet::try_from(&[u8; 296])`. */
  method TryFrom(ks: Cipher.Keystream, key: seq<byte>, frame: seq<byte>) returns (r: Result<Packet, ParsePacketError>)
    requires |frame| == PACKET_SIZE
    ensures r == DecodeFrame(ks, key, frame)
  {
    var decrypted := Cipher.Decrypt(ks, key, frame);
    if decrypted.Err? {
      return Err(DecryptionError(decrypted.error));
    }
    var c := new Cursor(decrypted.value);
    r := ReadPacket(c);
  }

  // ------------------------------------------------------------ properties

  /** A wrong magic value is reported as the value that was read, not the expected one. */
  lemma MagicValueReported(p: seq<byte>)
    requires |p| >= 4 && U32At(p, 0) != PACKET_MAGIC_VALUE
    ensures ParsePlaintext(p) == Err(InvalidMagicValue(U32At(p, 0)))
  {
  }

  /** The three outcomes of parsing a plaintext: a record exactly when the magic value
      matches and 296 bytes are there; a read error exactly when the plaintext ends early. */
  lemma ParseOutcomes(p: seq<byte>)
    ensures ParsePlaintext(p).Ok? <==> |p| >= PACKET_SIZE && U32At(p, 0) == PACKET_MAGIC_VALUE
    ensures ParsePlaintext(p) == Err(ReadError) <==> |p| < 4 || (U32At(p, 0) == PACKET_MAGIC_VALUE && |p| < PACKET_SIZE)
  {
  }

  /** A decryption failure is reported as such, before any field is read. With a
      296-byte frame the only possible one is a key of the wrong length. */
  lemma DecryptionFailureFirst(ks: Cipher.Keystream, key: seq<byte>, frame: seq<byte>)
    ensures Cipher.Decrypt(ks, key, frame).Err? ==>
      DecodeFrame(ks, key, frame) == Err(DecryptionError(Cipher.Decrypt(ks, key, frame).error))
    ensures |frame| == PACKET_SIZE ==>
      (DecodeFrame(ks, key, frame).Err? && DecodeFrame(ks, key, frame).error.DecryptionError?
       <==> |key| != Cipher.EXPECTED_KEY_LEN)
  {
  }

  /** A whole frame decrypts to 296 bytes, so it never gives a read error. */
  lemma FullFrameNeverReadError(ks: Cipher.Keystream, key: seq<byte>, frame: seq<byte>)
    requires |frame| == PACKET_SIZE
    ensures DecodeFrame(ks, key, frame) != Err(ReadError)
  {
  }

  /** The gear byte is split into two nibbles that give the byte back. */
  lemma GearNibbles(p: seq<byte>)
    requires ParsePlaintext(p).Ok?
    ensures ParsePlaintext(p).value.currentGear as int <= 15
    ensures ParsePlaintext(p).value.suggestedGear as int <= 15
    ensures ParsePlaintext(p).value.currentGear as int + 16 * ParsePlaintext(p).value.suggestedGear as int == p[144] as int
  {
    NibbleSplit(p[144]);
  }

  lemma NibbleSplit(b: byte)
    ensures LowNibble(b) as int <= 15 && HighNibble(b) as int <= 15
    ensures LowNibble(b) as int + 16 * HighNibble(b) as int == b as int
  {
  }

  /** The flag field is absent exactly when the word at 142-143 has an undefined bit, and
      it is the word itself otherwise; either way the frame still decodes. */
  lemma FlagsField(p: seq<byte>)
    requires |p| >= PACKET_SIZE && U32At(p, 0) == PACKET_MAGIC_VALUE
    ensures ParsePlaintext(p).Ok?
    ensures ParsePlaintext(p).value.flags.None? <==> U16At(p, 142) & Flags.UNDEFINED_BITS != 0
    ensures ParsePlaintext(p).value.flags.Some? ==> Flags.Bits(ParsePlaintext(p).value.flags.value) == U16At(p, 142)
  {
  }

  /** A few fields and their bytes: the packet id at 112, laps in race at 118, the seven
      gear ratios from 260 on, and the car code at 292. */
  lemma FieldOffsets(p: seq<byte>)
    requires ParsePlaintext(p).Ok?
    ensures ParsePlaintext(p).value.packetId == I32At(p, 112)
    ensures ParsePlaintext(p).value.lapsInRace == I16At(p, 118)
    ensures |ParsePlaintext(p).value.gearRatios| == 7
    ensures forall i | 0 <= i < 7 :: ParsePlaintext(p).value.gearRatios[i] == F32At(p, 260 + 4 * i)
    ensures ParsePlaintext(p).value.carCode == I32At(p, 292)
  {
  }

  /** Bytes no field is read from. */
  predicate Reserved(i: nat) {
    (64 <= i < 68) || i == 147 || (212 <= i < 244) || (288 <= i < 292) || i >= PACKET_SIZE
  }

  /** Two plaintexts that differ only in skipped bytes, or after byte 296, decode alike. */
  lemma ReservedBytesIgnored(p: seq<byte>, q: seq<byte>)
    requires |p| >= PACKET_SIZE && |q| >= PACKET_SIZE
    requires forall i: nat | i < PACKET_SIZE && !Reserved(i) :: p[i] == q[i]
    ensures ParsePlaintext(p) == ParsePlaintext(q)
  {
    WordsAgree(p, q, 0, 64);
    SameLayout(p, q);
  }

  /** The record read from two such plaintexts is the same. */
  lemma SameLayout(p: seq<byte>, q: seq<byte>)
    requires |p| >= PACKET_SIZE && |q| >= PACKET_SIZE
    requires forall i: nat | i < PACKET_SIZE && !Reserved(i) :: p[i] == q[i]
    ensures Layout(p) == Layout(q)
  {
    SameMotion(p, q);
    SameCounters(p, q);
    SameChassis(p, q);
  }

  /** Bytes 4-111: position, velocity, rotation, the engine and tyre temperatures. */
  lemma SameMotion(p: seq<byte>, q: seq<byte>)
    requires |p| >= PACKET_SIZE && |q| >= PACKET_SIZE
    requires forall i: nat | i < PACKET_SIZE && !Reserved(i) :: p[i] == q[i]
    ensures F32sAt(p, 4, 3) == F32sAt(q, 4, 3) && F32sAt(p, 16, 3) == F32sAt(q, 16, 3)
    ensures F32sAt(p, 28, 3) == F32sAt(q, 28, 3) && F32sAt(p, 44, 3) == F32sAt(q, 44, 3)
    ensures forall o: nat | 40 <= o <= 60 || 68 <= o <= 108 :: F32At(p, o) == F32At(q, o)
  {
    WordsAgree(p, q, 0, 64);
    WordsAgree(p, q, 68, 147);
  }

  /** Bytes 112-146: the lap and race counters, the flags, gears and pedals. */
  lemma SameCounters(p: seq<byte>, q: seq<byte>)
    requires |p| >= PACKET_SIZE && |q| >= PACKET_SIZE
    requires forall i: nat | i < PACKET_SIZE && !Reserved(i) :: p[i] == q[i]
    ensures forall o: nat | 112 <= o <= 128 :: I32At(p, o) == I32At(q, o)
    ensures forall o: nat | 116 <= o <= 140 :: I16At(p, o) == I16At(q, o)
    ensures U16At(p, 142) == U16At(q, 142)
    ensures p[144] == q[144] && p[145] == q[145] && p[146] == q[146]
  {
    WordsAgree(p, q, 68, 147);
  }

  /** Bytes 148-211 and 244-295: road plane, wheels, tyres, clutch, gearbox, car code. */
  lemma SameChassis(p: seq<byte>, q: seq<byte>)
    requires |p| >= PACKET_SIZE && |q| >= PACKET_SIZE
    requires forall i: nat | i < PACKET_SIZE && !Reserved(i) :: p[i] == q[i]
    ensures F32sAt(p, 148, 3) == F32sAt(q, 148, 3) && F32sAt(p, 260, 7) == F32sAt(q, 260, 7)
    ensures forall o: nat | 160 <= o <= 208 || 244 <= o <= 256 :: F32At(p, o) == F32At(q, o)
    ensures I32At(p, 292) == I32At(q, 292)
  {
    WordsAgree(p, q, 148, 212);
    WordsAgree(p, q, 244, 288);
    WordsAgree(p, q, 292, 296);
  }

  /** Equal bytes in `[lo, hi)` give equal 16- and 32-bit reads inside that range. */
  lemma WordsAgree(p: seq<byte>, q: seq<byte>, lo: nat, hi: nat)
    requires lo <= hi <= |p| && hi <= |q|
    requires forall i | lo <= i < hi :: p[i] == q[i]
    ensures forall o: nat | lo <= o && o + 4 <= hi :: U32At(p, o) == U32At(q, o)
    ensures forall o: nat | lo <= o && o + 2 <= hi :: U16At(p, o) == U16At(q, o)
  {
  }

  /** The corruption procedure: decrypt a frame, overwrite plaintext bytes 0-3 with
      `bad`, re-encrypt with the nonce of the original frame, then copy the original
      seed bytes 64-67 back in. */
  function CorruptMagic(ks: Cipher.Keystream, key: seq<byte>, frame: seq<byte>, bad: bv32): (corrupted: seq<byte>)
    requires |frame| == PACKET_SIZE && |key| == Cipher.EXPECTED_KEY_LEN
    ensures |corrupted| == PACKET_SIZE
  {
    var plain := Cipher.Decrypt(ks, key, frame).value;
    var edited := LeBytes32(bad) + plain[4..];
    var encrypted := Cipher.ReEncrypt(ks, key, frame, edited);
    encrypted[..Cipher.IV_OFFSET] + frame[Cipher.IV_OFFSET..Cipher.IV_OFFSET + Cipher.IV_SIZE]
      + encrypted[Cipher.IV_OFFSET + Cipher.IV_SIZE..]
  }

  /** Decoding the corrupted frame reports exactly the injected value: restoring the seed
      bytes changes nothing, the nonce is the original one, and the edited plaintext comes
      back whole. */
  lemma {:induction false} CorruptedMagicReported(ks: Cipher.Keystream, key: seq<byte>, frame: seq<byte>, bad: bv32)
    requires |frame| == PACKET_SIZE && |key| == Cipher.EXPECTED_KEY_LEN
    requires bad != PACKET_MAGIC_VALUE
    ensures DecodeFrame(ks, key, CorruptMagic(ks, key, frame, bad)) == Err(InvalidMagicValue(bad))
  {
    var plain := Cipher.Decrypt(ks, key, frame).value;
    var edited := LeBytes32(bad) + plain[4..];
    var encrypted := Cipher.ReEncrypt(ks, key, frame, edited);
    assert edited[64..68] == plain[64..68];
    Cipher.DecryptReEncrypted(ks, key, frame, edited);
    assert CorruptMagic(ks, key, frame, bad) == encrypted;
    assert edited[0..4] == LeBytes32(bad);
    ReadWritten32(edited, 0, bad);
  }

  /** The value the source's corruption test injects. */
  lemma DeadBeefReported(ks: Cipher.Keystream, key: seq<byte>, frame: seq<byte>)
    requires |frame| == PACKET_SIZE && |key| == Cipher.EXPECTED_KEY_LEN
    ensures DecodeFrame(ks, key, CorruptMagic(ks, key, frame, 0xDEADBEEF)) == Err(InvalidMagicValue(0xDEADBEEF))
  {
    CorruptedMagicReported(ks, key, frame, 0xDEADBEEF);
  }
}
