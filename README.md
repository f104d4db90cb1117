# Telemetry ingest, cronprint and tldr backend in Dafny

This project models the cores of three services in one repository and proves
properties of those models.

- **GT7 telemetry ingest** (`gt7/`). The game console streams 296-byte encrypted UDP
  frames. Each frame is decrypted with a Salsa20 keystream. The nonce is derived from
  bytes 64-67 of the ciphertext. The plaintext is decoded at fixed little-endian
  offsets into a `Packet`. The packet's 12-bit `PacketFlags` set is validated.
  A gate decides whether the packet goes to a bounded broker queue of capacity 100.
  Around this sits a session loop:
  - a keep-alive heartbeat tracker;
  - classification of each receive outcome;
  - a periodic-log timer;
  - a diagnostic "reasons" list.

  There are three copies of the loop: the telemetry server, the Pulsar bridge and the
  older gt7 binary. There are three copies of the handler: the telemetry server's
  Pulsar handler, the Kafka handler of the `telemetry` crate and the gt7 binary's
  Pulsar handler. Each copy is a parameter of one model, not a separate model. The two `config.rs` loaders map environment variables
  to configurations.
- **cronprint** (`cronprint/`):
  - the IPP URI scheme rewrite and the MIME choice;
  - the minimal test-page PDF, whose cross-reference table must point at its own
    objects;
  - the Go and Python environment-to-job parsers;
  - the Python scheduler's admission rules and running flag.
- **tldr backend** (`tldr/backend/internal/`):
  - the object key of a news day;
  - the status codes of `GetNews`;
  - the last-segment extraction of the news listing;
  - the file-name-to-date mapping;
  - the configuration loader with its CORS list.

Modules:
- `Outcomes`: Option and Result.
- `Bytes`: little-endian reads and writes.
- `Text`: Go/Rust string helpers.
- `Flags`, `Cipher`, `Packet`, `Heartbeat`, `Dispatch`, `TelemetryLoop`, `Gt7Config`.
- `CronPrinter`, `CronMain`, `CronConfig`, `CronScheduler`.
- `NewsBackend`, `TldrConfig`.

Where the source mutates state, the model keeps that form:
- The heartbeat manager, the bounded channel, the handler, the loop state, the flag
  cell, the byte cursor and the scheduler are classes.
- The PDF writer, the job loops and the listing loop are methods with loops. Each is
  proved against a specification function.

## Model

| member | source | states |
|---|---|---|
| Bytes.SignedOf16 | gt7/pulsar-bridge/src/packet.rs:182-191 | an `i16` field is the two's-complement reading of its 16-bit word |
| Bytes.SignedOf32 | gt7/pulsar-bridge/src/packet.rs:181-186 | an `i32` field is the two's-complement reading of its 32-bit word |
| Bytes.LeBytes32 | gt7/pulsar-bridge/src/packet.rs:376-377 | `to_le_bytes` of a `u32` is four bytes |
| Bytes.ReadWritten32 | gt7/pulsar-bridge/src/packet.rs:360 | reading back four bytes written by `to_le_bytes` gives the written word at any offset |
| Bytes.WriteRead32 | gt7/pulsar-bridge/src/packet.rs:373 | writing the word read from four bytes reproduces those bytes |
| Bytes.U32AtSameBytes | gt7/pulsar-bridge/src/packet.rs:141 | a 32-bit read depends only on the four bytes it reads |
| Bytes.LeBytes32RoundTrip | gt7/pulsar-bridge/src/packet.rs:373-377 | `from_le_bytes(to_le_bytes(x)) == x` |
| Cipher.NonceOf | gt7/pulsar-bridge/src/packet.rs:373-377 | the nonce is 8 bytes: the first word reads as `seed ^ 0xDEADBEAF`, the second as `seed` |
| Cipher.NonceOnlyReadsSeed | gt7/pulsar-bridge/src/packet.rs:363-366 | two frames with equal bytes 64-67 get the same nonce |
| Cipher.ApplyKeystream | gt7/pulsar-bridge/src/packet.rs:380-381 | applying the keystream keeps the length |
| Cipher.ApplyKeystreamInPlace | gt7/pulsar-bridge/src/packet.rs:381 | the in-place XOR over a buffer leaves it equal to the keystream applied to its old contents |
| Cipher.KeystreamSelfInverse | gt7/pulsar-bridge/src/packet.rs:380-381 | applying the same keystream twice gives the input back |
| Cipher.KeystreamPointwise | gt7/pulsar-bridge/src/packet.rs:383-388 | output bytes in a range depend only on the input bytes in that range |
| Cipher.Decrypt | gt7/src/errors.rs:14-23 | too short for the nonce seed is `InputTooShortForIv`, otherwise a key not 32 bytes long is `InvalidKeyLength`, otherwise the result has the frame's length and re-encrypts to the frame |
| Cipher.DecryptReEncrypted | gt7/pulsar-bridge/src/packet.rs:368-388 | a plaintext edited away from bytes 64-67, re-encrypted with the frame's nonce, keeps ciphertext bytes 64-67 and decrypts to the edited plaintext |
| Cipher.ReEncrypt | gt7/pulsar-bridge/src/packet.rs:380-381 | re-encryption keeps the plaintext's length |
| Packet.F32sAt | gt7/pulsar-bridge/src/packet.rs:144-148 | `n` consecutive floats from an offset are the words at offset + 4i |
| Packet.VerifyMagicValue | gt7/pulsar-bridge/src/packet.rs:298-303 | success exactly for the magic value, and otherwise `InvalidMagicValue` of the value read |
| Packet.Cursor.constructor | gt7/pulsar-bridge/src/packet.rs:139 | a cursor starts at position 0 over the plaintext |
| Packet.Cursor.ReadExact | gt7/pulsar-bridge/src/packet.rs:196-203 | `n` bytes at the position and the position advances by `n`, or a read error when fewer remain |
| Packet.Cursor.ReadU8 | gt7/pulsar-bridge/src/packet.rs:196-203 | the byte at the position and the position advances by 1, or a read error at the end |
| Packet.Cursor.ReadU16 | gt7/pulsar-bridge/src/packet.rs:193 | the little-endian `u16` at the position, advancing by 2, or a read error |
| Packet.Cursor.ReadI16 | gt7/pulsar-bridge/src/packet.rs:182-183 | the little-endian `i16` at the position, advancing by 2, or a read error |
| Packet.Cursor.ReadU32 | gt7/pulsar-bridge/src/packet.rs:141 | the little-endian `u32` at the position, advancing by 4, or a read error |
| Packet.Cursor.ReadI32 | gt7/pulsar-bridge/src/packet.rs:181 | the little-endian `i32` at the position, advancing by 4, or a read error |
| Packet.Cursor.ReadF32 | gt7/pulsar-bridge/src/packet.rs:159 | the float word at the position, advancing by 4, or a read error |
| Packet.Cursor.ReadVec3 | gt7/pulsar-bridge/src/packet.rs:144-148 | three consecutive float words, advancing by 12, or a read error |
| Packet.Cursor.SeekForward | gt7/pulsar-bridge/src/packet.rs:168 | a forward seek moves the position by `n`, even past the end |
| Packet.ReadMotion | gt7/pulsar-bridge/src/packet.rs:144-168 | bytes 4-63 give the motion fields at their offsets and the cursor ends at 68, or a read error when the plaintext is shorter |
| Packet.ReadEngine | gt7/pulsar-bridge/src/packet.rs:170-180 | bytes 68-111 give the engine and tyre readings at their offsets, or a read error |
| Packet.ReadRace | gt7/pulsar-bridge/src/packet.rs:181-191 | bytes 112-141 give the race counters as signed words at their offsets, or a read error |
| Packet.ReadControls | gt7/pulsar-bridge/src/packet.rs:193-203 | bytes 142-147 give the validated flag word, the gear nibbles, throttle and brake, and the skipped byte, or a read error |
| Packet.ReadChassis | gt7/pulsar-bridge/src/packet.rs:205-224 | bytes 148-211 give the chassis fields, then 32 bytes are skipped to 244, or a read error |
| Packet.ReadWheels | gt7/pulsar-bridge/src/packet.rs:205-214 | bytes 148-179 give the road plane, its distance and the four wheel speeds, or a read error |
| Packet.ReadTyres | gt7/pulsar-bridge/src/packet.rs:215-222 | bytes 180-211 give the tyre radii and suspension heights, or a read error |
| Packet.ReadDrivetrain | gt7/pulsar-bridge/src/packet.rs:226-237 | bytes 244-295 give the clutch values, seven gear ratios filled in place, the discarded eighth and the car code, or a read error |
| Packet.ReadPacket | gt7/pulsar-bridge/src/packet.rs:139-237 | reading the layout front to back from the cursor gives exactly the fixed-offset decoding of the plaintext |
| Packet.TryFrom | gt7/pulsar-bridge/src/packet.rs:137-295 | `try_from` is decryption followed by the fixed-offset decoding |
| Packet.MagicValueReported | gt7/pulsar-bridge/src/packet.rs:141-142 | a wrong magic value is reported as the value read, not the expected one |
| Packet.ParseOutcomes | gt7/pulsar-bridge/src/packet.rs:141-237 | a record exactly when the plaintext holds 296 bytes and starts with the magic value; a read error exactly when it is too short |
| Packet.DecryptionFailureFirst | gt7/pulsar-bridge/src/packet.rs:138 | a decryption failure is returned as `DecryptionError` before any field is read |
| Packet.FullFrameNeverReadError | gt7/pulsar-bridge/src/packet.rs:312-333 | a 296-byte frame never gives a read error |
| Packet.GearNibbles | gt7/pulsar-bridge/src/packet.rs:196-198 | current and suggested gear are at most 15 and rebuild byte 144 as `current + 16 * suggested` |
| Packet.NibbleSplit | gt7/pulsar-bridge/src/packet.rs:197-198 | the low and high nibbles of a byte are at most 15 and rebuild the byte |
| Packet.FlagsField | gt7/pulsar-bridge/src/packet.rs:193-194 | an undefined bit in bytes 142-143 gives no flags and no error; otherwise the flags are that word |
| Packet.FieldOffsets | gt7/pulsar-bridge/src/packet.rs:181-237 | the packet id is bytes 112-115, laps in race 118-119, gear ratio `i` bytes 260+4i, the car code 292-295 |
| Packet.ReservedBytesIgnored | gt7/pulsar-bridge/src/packet.rs:168-237 | plaintexts that differ only in skipped bytes or after byte 296 decode alike |
| Packet.SameLayout | gt7/pulsar-bridge/src/packet.rs:144-237 | such plaintexts give the same record |
| Packet.WordsAgree | gt7/pulsar-bridge/src/packet.rs:141-237 | equal bytes in a range give equal 16- and 32-bit reads inside it |
| Packet.CorruptMagic | gt7/pulsar-bridge/src/packet.rs:358-388 | the corrupted frame is 296 bytes long |
| Packet.CorruptedMagicReported | gt7/pulsar-bridge/src/packet.rs:358-395 | decoding the corrupted frame reports exactly the injected magic value |
| Packet.DeadBeefReported | gt7/pulsar-bridge/src/packet.rs:359-395 | injecting 0xDEADBEEF is reported as `InvalidMagicValue(0xDEADBEEF)` |
| Flags.FromBitsTruncate | gt7/telemetry-server/src/flags.rs:101-102 | the undefined bits are masked off and the defined ones kept |
| Flags.FromBits | gt7/telemetry-server/src/flags.rs:104-111 | present exactly when no bit outside 0-11 is set, and then its word is the input |
| Flags.Insert | gt7/telemetry-server/src/flags.rs:57-58 | after `insert(x)`, `contains(x)` holds |
| Flags.Remove | gt7/telemetry-server/src/flags.rs:67-68 | after `remove(x)`, no bit of `x` is left |
| Flags.Toggle | gt7/telemetry-server/src/flags.rs:71-74 | after `toggle(x)`, a bit of `x` is set exactly when it was clear |
| Flags.AllBits | gt7/telemetry-server/src/flags.rs:87-99 | `all().bits()` is the union of the twelve flags, 0x0FFF |
| Flags.FromBitsExamples | gt7/telemetry-server/src/flags.rs:78-111 | 0xF000 is refused; `from_bits(CarOnTrack.bits())` is `CarOnTrack`; truncating 0xFFFF is `all()`; CarOnTrack and InGear are kept |
| Flags.FromBitsOfBits | gt7/telemetry-server/src/flags.rs:110-111 | `from_bits(f.bits()) == Some(f)` for every set |
| Flags.EmptyFacts | gt7/telemetry-server/src/flags.rs:53-55 | `empty()` is the word 0; it contains only `None` and intersects nothing |
| Flags.UnionBounds | gt7/telemetry-server/src/flags.rs:63 | `a | b` contains both operands and no other bit |
| Flags.ContainsUnion | gt7/telemetry-server/src/flags.rs:63 | `contains(A|B)` holds exactly when both `contains(A)` and `contains(B)` hold |
| Flags.ContainsBothContainsUnion | gt7/telemetry-server/src/flags.rs:63-65 | containing A and B means containing `A|B` |
| Flags.ContainsUnionContainsBoth | gt7/telemetry-server/src/flags.rs:63-65 | containing `A|B` means containing A and B |
| Flags.IntersectsUnion | gt7/telemetry-server/src/flags.rs:59 | `intersects(A|B)` holds exactly when `intersects(A)` or `intersects(B)` holds |
| Flags.IntersectsLeftIntersectsUnion | gt7/telemetry-server/src/flags.rs:59 | meeting A means meeting `A|B` |
| Flags.IntersectsRightIntersectsUnion | gt7/telemetry-server/src/flags.rs:59 | meeting B means meeting `A|B` |
| Flags.IntersectsUnionIntersectsEither | gt7/telemetry-server/src/flags.rs:59 | meeting `A|B` means meeting A or B |
| Flags.PausedOrLoading | gt7/telemetry-server/src/pulsar_handler.rs:87 | meeting `Paused | LoadingOrProcessing` is containing one of the two |
| Flags.SingleBitMembership | gt7/telemetry-server/src/telemetry_loop.rs:177-190 | for a one-bit flag, intersecting and containing agree |
| Flags.InsertKeepsOthers | gt7/telemetry-server/src/flags.rs:62-65 | inserting `x` leaves the membership of flags disjoint from `x` unchanged |
| Flags.RemoveKeepsOthers | gt7/telemetry-server/src/flags.rs:67-69 | removing `x` leaves the membership of flags disjoint from `x` unchanged |
| Flags.ToggleKeepsOthers | gt7/telemetry-server/src/flags.rs:71-74 | toggling `x` leaves the membership of flags disjoint from `x` unchanged |
| Flags.ToggleTwice | gt7/telemetry-server/src/flags.rs:71-74 | toggling twice gives back the original set |
| Flags.RemoveUndoesInsert | gt7/telemetry-server/src/flags.rs:57-68 | inserting an absent flag and removing it again gives back the original set |
| Flags.Serialize | gt7/telemetry-server/src/flags.rs:23-30 | the serialised `u16` has no undefined bit |
| Flags.Deserialize | gt7/telemetry-server/src/flags.rs:32-45 | a word is accepted exactly when it has no undefined bit, and it serialises back to itself; a refused word is reported |
| Flags.SerdeRoundTrip | gt7/telemetry-server/src/flags.rs:114-129 | every flag set, the empty set included, survives serialise then deserialise |
| Flags.SerializeExamples | gt7/telemetry-server/src/flags.rs:116-129 | CarOnTrack and LightsActive are written as 129; the empty set is written as 0 and 0 reads back as empty |
| Flags.FlagCell.constructor | gt7/telemetry-server/src/flags.rs:53 | a mutable flag set holds its initial value |
| Flags.FlagCell.InsertFlags | gt7/telemetry-server/src/flags.rs:57 | in-place `insert` leaves the set equal to `Insert` of its old value, which contains the inserted flags |
| Flags.FlagCell.RemoveFlags | gt7/telemetry-server/src/flags.rs:67 | in-place `remove` leaves the set equal to `Remove` of its old value, which meets none of the removed flags |
| Flags.FlagCell.ToggleFlags | gt7/telemetry-server/src/flags.rs:71 | in-place `toggle` leaves the set equal to `Toggle` of its old value, which flips exactly the toggled bits |
| Flags.FlagWalkThrough | gt7/telemetry-server/src/flags.rs:52-74 | all twelve checks of the insert, remove and toggle walk-through hold, and the set ends as `Paused` |
| Heartbeat.Elapsed | gt7/telemetry/src/heartbeat.rs:28-30 | the time since a past instant, and zero when that instant is later |
| Heartbeat.HeartbeatManager.constructor | gt7/telemetry/src/heartbeat.rs:10-15 | a new manager counts its last heartbeat at the creation time and holds the interval |
| Heartbeat.HeartbeatManager.RecordHeartbeatSent | gt7/telemetry/src/heartbeat.rs:23-25 | only the last-heartbeat time moves, to now; right after, no heartbeat is needed when the interval is positive |
| Heartbeat.HeartbeatManager.UpdateInterval | gt7/telemetry/src/heartbeat.rs:38-40 | only the interval changes |
| Heartbeat.HeartbeatManager.TimeUntilNextHeartbeat | gt7/telemetry/src/heartbeat.rs:43-50 | never more than the interval; zero exactly when a heartbeat is needed; otherwise it plus the elapsed time is the interval |
| Heartbeat.FreshManager | gt7/telemetry/src/heartbeat.rs:59-66 | at creation with a positive interval no heartbeat is needed and the whole interval remains; with a zero interval one is always needed |
| Heartbeat.NeededOnceIntervalPassed | gt7/telemetry/src/heartbeat.rs:18-20 | needed exactly when `now >= last + interval`; once needed it stays needed; the time left never grows |
| Heartbeat.RecordThenWait | gt7/telemetry/src/heartbeat.rs:84-98 | right after recording, a heartbeat is needed only for a zero interval; later it is needed once the interval has passed since the recording |
| Dispatch.TrySendResult | gt7/telemetry-server/src/pulsar_handler.rs:93-106 | `try_send` succeeds exactly on an open channel with room; `Closed` exactly when closed; `Full` exactly when open and full |
| Dispatch.Offered | gt7/telemetry-server/src/pulsar_handler.rs:93-106 | an admitted payload is appended at the tail; a refused one leaves the buffer as it was |
| Dispatch.BoundedChannel.constructor | gt7/telemetry-server/src/pulsar_handler.rs:77 | a new channel is open and empty with the given capacity |
| Dispatch.BoundedChannel.TrySend | gt7/telemetry-server/src/pulsar_handler.rs:93 | the answer and the new buffer are those of the `try_send` rule |
| Dispatch.BoundedChannel.TryRecv | gt7/telemetry-server/src/pulsar_handler.rs:148-166 | the oldest payload is taken from the front, or nothing from an empty channel |
| Dispatch.BoundedChannel.Close | gt7/telemetry-server/src/pulsar_handler.rs:101-106 | the channel is closed and what is queued stays |
| Dispatch.BurstKeepsOldest | gt7/telemetry-server/src/pulsar_handler.rs:95-99 | a burst into an open channel keeps everything queued and the oldest new payloads that fit; later ones are dropped |
| Dispatch.Handler.constructor | gt7/telemetry-server/src/pulsar_handler.rs:77 | a new handler owns a fresh channel that is open, empty and of capacity 100 |
| Dispatch.Handler.TrySendPacket | gt7/telemetry-server/src/pulsar_handler.rs:84-123 | the channel and the logged outcome are those of the gate, serialisation and `try_send`, for the handler's variant |
| Dispatch.QueuedExactly | gt7/telemetry-server/src/pulsar_handler.rs:85-94 | a payload is queued exactly when the gate passes, serialisation succeeds and the channel is open with room; it is then the serialised packet at the tail |
| Dispatch.NoFlagsNeverQueued | gt7/telemetry-server/src/pulsar_handler.rs:117-122 | a packet without flags is never queued and is logged as such |
| Dispatch.PausedOrLoadingNeverQueued | gt7/telemetry-server/src/pulsar_handler.rs:87 | a paused or loading packet is never queued, by any variant |
| Dispatch.RaceNotStartedNeverQueued | gt7/telemetry-server/src/pulsar_handler.rs:88 | a packet with `laps_in_race <= 0` is never queued |
| Dispatch.OnTrackRequirement | gt7/src/pulsar_handler.rs:87-89 | empty flags with one lap are queued by the server and Kafka copies and not by the gt7 copy |
| Dispatch.FullOrClosedDrops | gt7/telemetry-server/src/pulsar_handler.rs:95-106 | a full or closed channel drops the new payload and keeps every queued one |
| Dispatch.CapacityKept | gt7/telemetry-server/src/pulsar_handler.rs:77 | the channel never exceeds its capacity, and what it held stays at the front |
| Dispatch.SendThenReceive | gt7/telemetry/src/kafka_handler.rs:119-137 | a fresh handler given one packet yields the serialised packet on receive exactly when the gate passes |
| TelemetryLoop.JoinNames | gt7/telemetry-server/src/telemetry_loop.rs:198-204 | the joined reason names are empty exactly when there is no reason, so a line is logged exactly when a reason holds |
| TelemetryLoop.JoinNamesExample | gt7/telemetry-server/src/telemetry_loop.rs:186-202 | paused and off the track logs `Paused, NotOnTrack` |
| TelemetryLoop.OnlyGt7StopsAtStartUp | gt7/src/main.rs:129-133 | a failed initial heartbeat ends gt7 with status 1; the server and the bridge go on into the loop, and a sent heartbeat always does |
| TelemetryLoop.CheckPacketConditions | gt7/telemetry-server/src/telemetry_loop.rs:176-208 | the pushed reasons are the applicable ones in push order |
| TelemetryLoop.UnfoldReasons | gt7/telemetry-server/src/telemetry_loop.rs:185-197 | the reasons list written out condition by condition |
| TelemetryLoop.ApplicableMembership | gt7/telemetry-server/src/telemetry_loop.rs:185-197 | a reason is listed exactly when it is a candidate and its condition holds |
| TelemetryLoop.ApplicableKeepsOrder | gt7/telemetry-server/src/telemetry_loop.rs:185-197 | filtering keeps the candidates' order and adds nothing |
| TelemetryLoop.ReasonsList | gt7/telemetry-server/src/telemetry_loop.rs:176-208 | each of Paused, LoadingOrProcessing, NotOnTrack and RaceNotStarted is present exactly when its condition holds, in that order; the list is non-empty exactly under the guard |
| TelemetryLoop.ReasonsAgainstStrictGate | gt7/src/main.rs:174-189 | the reasons list is empty exactly when the on-track gate passes |
| TelemetryLoop.InitialLogTime | gt7/telemetry-server/src/telemetry_loop.rs:21-27 | the timer starts at `now - interval`, or at `now` when logging is off or the subtraction would underflow |
| TelemetryLoop.FirstPeriodicLog | gt7/pulsar-bridge/src/main.rs:119-125 | with logging on and no underflow the first packet is logged at once; after an underflow the first log comes once the interval has passed since start; with logging off never |
| TelemetryLoop.ExtraHeartbeatSpacing | gt7/src/main.rs:194-205 | two packets that both trigger the extra heartbeat are at least 100 ids apart |
| TelemetryLoop.ExtraHeartbeatExamples | gt7/src/main.rs:21 | ids 100 and 200 trigger it; 0, -100, 99 and 150 do not |
| TelemetryLoop.IngestLoop.constructor | gt7/telemetry-server/src/telemetry_loop.rs:21-27 | the loop starts with the initial log time and no broadcasts |
| TelemetryLoop.IngestLoop.HandlePacket | gt7/telemetry-server/src/telemetry_loop.rs:133-174 | the packet is offered to the handler and broadcast, `{}` when serialisation fails; the timer resets to now exactly when the log is due |
| TelemetryLoop.IngestLoop.Step | gt7/telemetry-server/src/telemetry_loop.rs:34-74 | anything short of a decoded packet changes nothing; a decoded packet is handled as above |
| TelemetryLoop.OnlyFrameSizedDecoded | gt7/telemetry-server/src/telemetry_loop.rs:44-61 | only a 296-byte datagram after a successful heartbeat is decoded; other sizes are discarded |
| TelemetryLoop.HeartbeatFailureSkipsReceive | gt7/telemetry-server/src/telemetry_loop.rs:35-39 | a failed heartbeat skips the receive, sleeping 100 ms in the server and bridge and not at all in gt7 |
| TelemetryLoop.TimeoutHandling | gt7/telemetry-server/src/telemetry_loop.rs:64-72 | a timeout or would-block is idle in the server and bridge, and an ordinary receive error in gt7 |
| TelemetryLoop.ParseErrorsReported | gt7/telemetry-server/src/telemetry_loop.rs:210-230 | every parse error of a frame-sized datagram is reported as that error and the loop goes on |
| Gt7Config.Var | gt7/telemetry-server/src/config.rs:25 | `env::var` is present exactly when the variable is set, with its value |
| Gt7Config.ParseU64 | gt7/telemetry-server/src/config.rs:42 | `parse::<u64>` accepts an optional `+` and decimal digits below 2^64, with their value |
| Gt7Config.LogInterval | gt7/telemetry-server/src/config.rs:41-57 | both copies agree; "0" disables, a positive value is kept, unset or unparsable gives 5, and the result is never `Some(0)` |
| Gt7Config.LogIntervalExamples | gt7/pulsar-bridge/src/main.rs:88-115 | "0" disables, "+7" is 7, and "-1", "abc", "" and unset give 5 |
| Gt7Config.RequiredVars | gt7/telemetry-server/src/config.rs:25-32 | succeeds exactly when all three required variables are set, with their values |
| Gt7Config.FirstMissingReported | gt7/pulsar-bridge/src/config.rs:15-22 | the first missing variable in the order PS5, Pulsar URL, topic is the one reported |
| Gt7Config.Load | gt7/telemetry-server/src/config.rs:24-72 | fails exactly when a required variable is missing, with that error |
| Gt7Config.LoadedValues | gt7/telemetry-server/src/config.rs:34-68 | the required values as given, HTTP port defaulting to 8080, UDP bind 0.0.0.0:33740, console port 33739, and the log-interval mapping |
| Gt7Config.TargetAddress | gt7/telemetry-server/src/config.rs:92-94 | the target address starts with the console's address and a colon |
| Gt7Config.HttpBindAddress | gt7/telemetry-server/src/config.rs:96-98 | the HTTP bind address starts with `0.0.0.0:` |
| Gt7Config.AddressesReadBack | gt7/telemetry-server/src/config.rs:92-98 | after the prefix, each address reads back the configured port |
| Gt7Config.AddressExamples | gt7/telemetry-server/src/config.rs:105-122 | 192.168.1.1 gives `192.168.1.1:33739`, and port 8080 gives `0.0.0.0:8080` |
| Gt7Config.FromEnv | gt7/pulsar-bridge/src/config.rs:14-39 | a missing required variable is reported first |
| Gt7Config.BridgeAgainstServer | gt7/pulsar-bridge/src/config.rs:27-30 | the bridge fails exactly when a required variable is missing or the heartbeat interval does not parse, where the server falls back to 1.6; otherwise both read the same values |
| CronPrinter.NewIppPrinter | cronprint/printer.go:19-27 | `ipp://` becomes `http://` and `ipps://` becomes `https://` with the rest unchanged; other URIs stay; the original URI is kept |
| CronPrinter.IppsIsNotIpp | cronprint/printer.go:21-24 | an `ipps://` URI never takes the `ipp://` branch |
| CronPrinter.RewriteKeepsRest | cronprint/printer.go:21-24 | the rewrite only swaps the scheme, and rewriting again changes nothing |
| CronPrinter.RewriteExamples | cronprint/printer.go:19-27 | `ipp://h/p` posts to `http://h/p`, `ipps://h/p` to `https://h/p`, and an HTTP URI stays |
| CronPrinter.MimeType | cronprint/printer.go:110-115 | PDF exactly for `.pdf`, PostScript exactly for `.ps`, octet-stream otherwise |
| CronPrinter.SuffixesExclusive | cronprint/printer.go:111-114 | no name ends with both `.pdf` and `.ps` |
| CronPrinter.ObjHeader | cronprint/printer.go:154 | an object header ends in ` 0 obj` after the object number |
| CronPrinter.Obj | cronprint/printer.go:154-167 | every object starts with its header |
| CronPrinter.Offsets | cronprint/printer.go:153-167 | one offset is recorded per object |
| CronPrinter.ConcatSplit | cronprint/printer.go:151-167 | each object sits between the objects before it and those after it |
| CronPrinter.WriteObjects | cronprint/printer.go:148-167 | the buffer is the header and the five objects, and each recorded offset is where its object begins |
| CronPrinter.WriteXrefEntries | cronprint/printer.go:173-175 | one entry per offset is appended, in order |
| CronPrinter.WritePdf | cronprint/printer.go:147-184 | the generated bytes are the laid-out file |
| CronPrinter.GenerateMinimalPdf | cronprint/printer.go:147-184 | `generateMinimalPDF` produces the test page |
| CronPrinter.NatToStringFits | cronprint/printer.go:174 | a number below 10^k has at most k digits |
| CronPrinter.ConcatLength | cronprint/printer.go:151-167 | the body is no longer than the sum of its part bounds |
| CronPrinter.PdfFraming | cronprint/printer.go:151-181 | the file starts with `%PDF-1.4\n` and ends with `%%EOF\n` |
| CronPrinter.PdfStartsWithHeader | cronprint/printer.go:151 | the file starts with the `%PDF-1.4` header line |
| CronPrinter.PdfEndsWithMarker | cronprint/printer.go:181 | the file ends with the `%%EOF` line |
| CronPrinter.OffsetsPointAtObjects | cronprint/printer.go:153-167 | the offset recorded for object `i + 1` is where its text begins in the file |
| CronPrinter.XrefEntriesLayout | cronprint/printer.go:173-175 | with every offset below 10^10 the entries take 20 bytes each, and entry `i` is found at byte `20 * i` of them |
| CronPrinter.EntryWidth | cronprint/printer.go:174 | an offset below 10^10 is padded to exactly ten digits, so its entry is 20 bytes |
| CronPrinter.XrefLines | cronprint/printer.go:173-175 | one entry per offset |
| CronPrinter.ConcatOfEntriesLength | cronprint/printer.go:173-175 | entries of 20 bytes each, written one after the other, take 20 bytes per entry |
| CronPrinter.ConcatOfEntries | cronprint/printer.go:173-175 | in entries of 20 bytes each, written one after the other, entry `i` is at byte `20 * i` |
| CronPrinter.OffsetsFit | cronprint/printer.go:153-174 | every recorded offset is below 10^10 while the body is |
| CronPrinter.EntryInFile | cronprint/printer.go:169-175 | entry `i` lies in the file after the body, the section head and `i` entries of 20 bytes |
| CronPrinter.XrefReadsBackOffsets | cronprint/printer.go:153-175 | entry `i` of the table is ten decimal digits that read back the byte position of object `i + 1`, followed by ` 00000 n \n` |
| CronPrinter.EntryReadsBack | cronprint/printer.go:174 | wherever an entry for an offset below 10^10 lies, its first ten characters are digits reading that offset, and the in-use marker follows |
| CronPrinter.StartxrefFindsXref | cronprint/printer.go:169-180 | `xref\n` stands at the byte the body ends at, the file ends with `startxref`, that number and the end marker, and the number reads back as that byte |
| CronPrinter.Numbered | cronprint/printer.go:153-167 | one object per content, object `i + 1` opening with the header `i + 1 0 obj`, in the order given |
| CronPrinter.TestPageFits | cronprint/printer.go:148-167 | the test page's body is below the ten-digit offset limit |
| CronPrinter.XrefFindsObject | cronprint/printer.go:153-175 | in a file over numbered objects, entry `i` reads back as a position where `i + 1 0 obj` begins |
| CronPrinter.TestPageXref | cronprint/printer.go:153-178 | in the test page, entry `i` reads back as a position where `i + 1 0 obj` begins, and the section count and `/Size` are 6 |
| CronPrinter.StreamLengthMatches | cronprint/printer.go:162-164 | the stream's `/Length` is the length of its data |
| CronMain.FirstIndex | cronprint/main.go:45 | the position of the first `=`, or the length when there is none |
| CronMain.KeyOf | cronprint/main.go:45-46 | the key has no `=` |
| CronMain.ValueOf | cronprint/main.go:45-53 | an entry with `=` is its key, `=`, and its value |
| CronMain.LookupFirst | cronprint/main.go:37 | a variable is unset exactly when no entry has its key; otherwise the first such entry gives its value |
| CronMain.EnvOr | cronprint/main.go:63-68 | the value when non-empty, the fallback otherwise |
| CronMain.JobOf | cronprint/main.go:45-56 | the job's name and schedule from the entry, its file from `<prefix>_FILE`, and its test-page flag as `<prefix>_TESTPAGE == "true"` |
| CronMain.JobEntries | cronprint/main.go:41-44 | the selected entries are no more than the entries |
| CronMain.JobEntriesAppend | cronprint/main.go:41-57 | selecting from two runs of entries is selecting from each in turn, so the selection keeps environment order |
| CronMain.JobEntriesSingle | cronprint/main.go:42-44 | one entry is selected once exactly when it passes the test, and otherwise not at all |
| CronMain.JobEntriesMembership | cronprint/main.go:42 | an entry is selected exactly when it starts with `CRONPRINT_JOB_` and contains `_SCHEDULE=` |
| CronMain.JobsFollowEntries | cronprint/main.go:41-57 | one job per selected entry, in environment order |
| CronMain.LoadConfig | cronprint/main.go:33-61 | host, port and timezone default to 0.0.0.0, 8080 and UTC; the printer URI is as set; the jobs are those of the selected entries in order |
| CronMain.JobEntrySchedule | cronprint/main.go:45-53 | a job entry always has an `=`, and its schedule is what follows the first one |
| CronMain.JobNameOfKey | cronprint/main.go:47-48 | for a key `CRONPRINT_JOB_<m>_SCHEDULE` the job name is `m` lower-cased |
| CronMain.ContainsWitness | cronprint/main.go:42 | a contained substring occurs at some position |
| CronMain.SplitAt | cronprint/main.go:45 | splitting at the first `=` gives the text before and after it |
| CronMain.MarkInValue | cronprint/main.go:42-53 | a `CRONPRINT_JOB_` key whose value holds `_SCHEDULE=` makes a job entry, with that value as the schedule and the name taken from the key |
| CronMain.ValueCanSelectEntry | cronprint/main.go:42 | `CRONPRINT_JOB_A_FILE=/x_SCHEDULE=1` is selected as job `a_file` with schedule `/x_SCHEDULE=1`, because the `_SCHEDULE=` test reads the whole entry |
| CronMain.PrefixOfKey | cronprint/main.go:42 | the start of `key=value` is the start of the key |
| CronMain.SplitRoundTrip | cronprint/main.go:45-46 | splitting `key=value` gives back the key and the value when the key has no `=` |
| CronMain.FirstIndexAt | cronprint/main.go:45 | the first `=` is found at its position |
| CronConfig.JobNameOf | cronprint/config.py:34 | the key without prefix and suffix, lower-cased; empty when they overlap |
| CronConfig.CollectJobNames | cronprint/config.py:28-35 | the collected names are the lower-cased names of every schedule key |
| CronConfig.JobFor | cronprint/config.py:38-52 | a job exactly when its schedule and file are set and non-empty, named by its name |
| CronConfig.ParseJobSchedules | cronprint/config.py:23-54 | the jobs are exactly the emitted ones, each name once |
| CronConfig.EmittedJobFields | cronprint/config.py:41-51 | an emitted job has a non-empty schedule and file from its own variables, its printer, and is enabled exactly when `_ENABLED` lower-cased is "true" (default "true") |
| CronConfig.UpperLower | cronprint/config.py:39 | upper-casing undoes lower-casing on a name without lower-case letters |
| CronConfig.CapitalKeyEmitted | cronprint/config.py:31-53 | a capital-letter schedule key with its file set yields a job with that schedule |
| CronConfig.LowerCaseKeyNotLookedUp | cronprint/config.py:39-41 | a schedule key whose name has a lower-case letter is never the key looked up |
| CronConfig.PrinterConfigOf | cronprint/config.py:57-74 | a printer exactly when name and URI are non-empty, with those values; the driver as set or absent; description and location as set, defaulting to "" |
| CronConfig.LoadConfig | cronprint/config.py:5-20 | fails exactly when the port does not parse; otherwise host, port, default printer, printer, jobs and timezone with their defaults |
| CronScheduler.DropSpaces | cronprint/scheduler.py:51 | dropping leading whitespace leaves a string that starts with a non-space |
| CronScheduler.TakeWord | cronprint/scheduler.py:51 | a string starting with a non-space yields a non-empty first word |
| CronScheduler.WordsJoinWords | cronprint/scheduler.py:51 | `split()` of words joined by single spaces gives the words back |
| CronScheduler.WordsThenSpace | cronprint/scheduler.py:51 | a word and a space in front of a text add that word in front of its words |
| CronScheduler.WordsOfWordThen | cronprint/scheduler.py:51 | a word followed by nothing or whitespace is the first word |
| CronScheduler.WordsAfterSpace | cronprint/scheduler.py:51 | leading whitespace does not change the words |
| CronScheduler.TakeWordOf | cronprint/scheduler.py:51 | a word followed by nothing or whitespace is taken whole |
| CronScheduler.Admit | cronprint/scheduler.py:36-79 | scheduled exactly when schedule and file are present and non-empty, the schedule has 5 fields and the trigger accepts them; id is the name (or `unnamed_job`), args are name, file and printer, and the trigger holds the five fields in the given timezone |
| CronScheduler.ScheduledFrom | cronprint/scheduler.py:23-34 | no more jobs are scheduled than configured |
| CronScheduler.ScheduledFromStep | cronprint/scheduler.py:27-34 | one more configured job adds at most its own admission at the end, and nothing when disabled |
| CronScheduler.ScheduledJobsOrigin | cronprint/scheduler.py:27-34 | every scheduled job comes from a configured job that is not disabled |
| CronScheduler.FiveFieldSchedule | cronprint/scheduler.py:51-56 | a five-field schedule splits into minute, hour, day, month and day_of_week in order |
| CronScheduler.ConfiguredJobAdmission | cronprint/scheduler.py:36-54 | a job from the configuration module is admitted exactly when its schedule has 5 fields and the trigger accepts them |
| CronScheduler.PrintScheduler.constructor | cronprint/scheduler.py:14-21 | a new scheduler is stopped and holds the admitted configured jobs |
| CronScheduler.PrintScheduler.SetupJobs | cronprint/scheduler.py:23-34 | the admitted non-disabled jobs are appended in order; the running flag is unchanged |
| CronScheduler.PrintScheduler.AddPrintJob | cronprint/scheduler.py:36-79 | the job is appended exactly when admitted |
| CronScheduler.PrintScheduler.Start | cronprint/scheduler.py:98-102 | the scheduler runs afterwards; it acted exactly when it was stopped |
| CronScheduler.PrintScheduler.Shutdown | cronprint/scheduler.py:104-108 | the scheduler is stopped afterwards; it acted exactly when it was running |
| CronScheduler.Lifecycle | cronprint/scheduler.py:98-128 | unhealthy when created, healthy once started, a second start does nothing, unhealthy after shutdown |
| CronScheduler.ExecutePrintJob | cronprint/scheduler.py:81-96 | info only on success; an exception is logged with its message and not propagated |
| Text.TrimPrefix | cronprint/main.go:47 | the prefix is removed when present; the text is unchanged otherwise |
| Text.TrimSuffix | tldr/backend/internal/handler/news.go:72 | one trailing suffix is removed when present; the text is unchanged otherwise |
| Text.Split | tldr/backend/internal/storage/minio.go:50 | splitting yields at least one piece |
| Text.SplitTwo | tldr/backend/internal/config/config.go:50 | two separator-free parts around one separator split back into those two parts |
| Text.SplitCount | tldr/backend/internal/config/config.go:50 | `k` separators give `k + 1` pieces |
| Text.SplitPiecesFree | tldr/backend/internal/config/config.go:50 | no piece contains the separator |
| Text.JoinSplit | tldr/backend/internal/config/config.go:50 | joining the pieces with the separator restores the input |
| Text.Lower | cronprint/main.go:48 | lower-casing maps every character and keeps the length |
| Text.Upper | cronprint/main.go:49 | upper-casing maps every character and keeps the length |
| Text.NatToString | cronprint/printer.go:180 | the decimal rendering of a number is non-empty and all digits |
| Text.NatToStringValue | cronprint/printer.go:180 | the decimal rendering of `n` reads back as `n` |
| Text.ZeroPadValue | cronprint/printer.go:174 | `%010d` of a number of at most ten digits is exactly ten digits that read back as the number |
| NewsBackend.NewsKey | tldr/backend/internal/handler/news.go:29 | the key starts with `news/`, ends with `.md` and is 8 longer than the id |
| NewsBackend.IdOfNewsKey | tldr/backend/internal/handler/news.go:28-29 | the day is read back from its key |
| NewsBackend.NewsKeyInjective | tldr/backend/internal/handler/news.go:29 | distinct days have distinct keys |
| NewsBackend.GetNews | tldr/backend/internal/handler/news.go:25-55 | 404 exactly on a failed lookup, 500 exactly on a failed read, otherwise date is the id and content the object's bytes |
| NewsBackend.LastSegment | tldr/backend/internal/storage/minio.go:50-53 | a segment exactly when the key has a `/` |
| NewsBackend.FileNames | tldr/backend/internal/storage/minio.go:44-56 | a listing yields no more names than objects |
| NewsBackend.ListNewsSummaries | tldr/backend/internal/storage/minio.go:36-57 | the names are the last segments of the listed keys under `news/` in order, or the first listing error with no names |
| NewsBackend.FileNamesAtError | tldr/backend/internal/storage/minio.go:45-47 | the first error in a listing is the error of the whole |
| NewsBackend.LastSegmentOfKey | tldr/backend/internal/storage/minio.go:50-53 | a listed name has no `/`, and the key ends with `/` and that name |
| NewsBackend.LastSegmentOfPath | tldr/backend/internal/storage/minio.go:50-53 | `dir/name` gives `name` |
| NewsBackend.FileNamesCons | tldr/backend/internal/storage/minio.go:44-54 | the first object adds its name, if any, in front of the rest's names |
| NewsBackend.KeyWithoutDirectory | tldr/backend/internal/storage/minio.go:51 | a key without `/` gives no name |
| NewsBackend.NamesInListingOrder | tldr/backend/internal/storage/minio.go:44-54 | two keys `news/<a>` and `news/<b>` give `a` and `b` in listing order |
| NewsBackend.NewsPath | tldr/backend/internal/storage/minio.go:39-42 | a key under the news prefix with a plain name gives that name |
| NewsBackend.ErrorDiscardsNames | tldr/backend/internal/storage/minio.go:45-47 | an error later in the listing discards the names found before it |
| NewsBackend.Dates | tldr/backend/internal/handler/news.go:69-74 | one date per file name, in order: the name without one trailing `.md`, or the name itself when it has none |
| NewsBackend.ListNews | tldr/backend/internal/handler/news.go:57-82 | 500 exactly when the listing fails; otherwise the dates of the file names in listing order |
| NewsBackend.ListedDayFetchesItsKey | tldr/backend/internal/handler/news.go:29-72 | a day listed from `news/<day>.md` maps back to that same key |
| TldrConfig.GetEnv | tldr/backend/internal/config/config.go:38-44 | the default exactly when the value is empty or unset, the value otherwise |
| TldrConfig.ParseCORS | tldr/backend/internal/config/config.go:46-51 | no origins exactly for the empty setting, otherwise the comma-separated parts |
| TldrConfig.CORSRoundTrip | tldr/backend/internal/config/config.go:46-51 | `k` commas give `k + 1` comma-free parts, and joining them restores the setting |
| TldrConfig.Load | tldr/backend/internal/config/config.go:23-36 | the four MinIO strings as set; SSL exactly when `MINIO_USE_SSL` is "true"; host and port as set, defaulting to 0.0.0.0 and 8080; the CORS list is `parseCORS` of its variable, empty exactly when the variable is, and joins back to it |
| TldrConfig.LoadEmpty | tldr/backend/internal/config/config.go:23-36 | with nothing set: no SSL, 0.0.0.0:8080 and no CORS origins |
| TldrConfig.UseSSLExamples | tldr/backend/internal/config/config.go:30 | only the exact text `true` turns SSL on |
| TldrConfig.CORSExamples | tldr/backend/internal/config/config.go:50 | "a,b" gives two parts, "a, b" keeps the space, and "," gives two empty parts |

## Left out
- CronMain.LoadConfig: the environment is taken as having no repeated keys. Go's runtime keeps only the first entry of a repeated key in `os.Environ()`. Given two `CRONPRINT_JOB_A_SCHEDULE=` entries, the model builds two jobs where the program builds one.

- The Salsa20/20 keystream is a function parameter `(key, nonce, index) -> byte`. The cipher module (`cypher.rs`) and the key constants (`constants.rs`) are not part of this model. Only the XOR structure and the nonce derivation are modelled.
- Cipher.Decrypt: the order of its steps is an assumption of the model: a length check, then a key-length check, then XOR of the whole buffer. cypher.rs is not part of this model. The real error messages and the real key are not modelled.
- Floating-point values (`f32` fields, the `f64` heartbeat interval) are kept as opaque IEEE-754 words. Parsing an `f64` is a function parameter. `Duration::from_secs_f64` is not modelled.
- `serde_json` serialisation of a packet is a function parameter that may fail. The JSON text itself is not modelled.
- Sockets, `send_to`/`recv_from`, `process::exit`, `thread::sleep`, tokio runtimes and the broker worker tasks are replaced by events. A receive outcome is an input to `TelemetryLoop.IngestLoop.Step`, the sleep is a number of milliseconds, and the worker is the channel's receiving side. Datagram truncation by the OS is taken as given in the reported byte count.
- The wall clock is an explicit `now: nat` argument. `Instant::elapsed` saturates at zero.
- Dispatch.Handler.constructor: the Pulsar/Kafka producer set-up and its failures are not modelled.
- The broadcast channel to live subscribers is a sequence of sent payloads. Lagging subscribers are not modelled.
- Log lines are reduced to which outcome was logged. Formatting is left out.
- Gt7Config.ParseU64 models `parse::<u64>` on ASCII input. Non-ASCII digits are not considered.
- The gt7 binary reads its three required variables in `main` (gt7/src/main.rs:55-77). These share the ordering of `Gt7Config.RequiredVars`. The model does not distinguish the message text of the process exit from the `Err` strings of the two `config.rs` loaders.
- Packet.CorruptMagic: the corruption test at gt7/pulsar-bridge/src/packet.rs:373 names `original_iv_seed_from_`. That is not the identifier declared at line 363, so the test does not compile as written. The model uses the seed from line 363, which is what the test evidently means.
- The sample frame's bytes and its decrypted content are not modelled, because the key is not part of this model. Only the frame's length is used.
- cronprint's IPP/HTTP exchange (`sendRequest`, `GetPrinterAttributes`, `PrintFile`'s request) is network I/O and is left out. So are the HTTP server and signal handling in `main.go`, and `main.py`, `health.py` and `printer.py`.
- CronMain.LookupFirst: `os.Getenv` takes the first `key=value` entry for a key. This is how the Go runtime builds its environment map; a process environment normally has no duplicates.
- CronConfig.CollectJobNames, CronConfig.ParseJobSchedules: Python's iteration order over `os.environ` and over a `set` is not specified by the language. The model iterates a `set` in an arbitrary order, so the job list is stated as a set plus "each name once", not as a sequence.
- CronConfig.LoadConfig: Python's `int()` is a function parameter that may refuse its input. The exception it raises is modelled as an `Err`.
- Text.Lower, Text.Upper: ASCII-only case mapping. Python's and Go's Unicode case folding are not modelled.
- CronScheduler.Words: whitespace is ASCII whitespace (tab, newline, vertical tab, form feed, carriage return, the four separators 0x1C-0x1F, and space). Python's `str.split()` also splits on Unicode whitespace.
- CronScheduler.Admit: APScheduler's `CronTrigger` field validation is a predicate parameter. Its acceptance of a field set stands in for the constructor not raising. `misfire_grace_time` and the `Print job:` display name are not modelled.
- CronScheduler.ScheduledFrom: this contract only bounds the count; the order and origin of the jobs are stated in `CronScheduler.ScheduledFromStep` and `CronScheduler.ScheduledJobsOrigin`.
- `get_jobs` (cronprint/scheduler.py:110-124) reads APScheduler's next-run times and trigger strings. These come from the library and are left out.
- The MinIO client calls (`GetObject`, `ListObjects`) are function parameters. The object store is a map from key to fetch outcome, and the listing is a function from listing options to listed objects.
- The HTTP layer of the tldr handlers is not modelled: the JSON encoding, `Content-Type`, the `chi` URL parameter, and a nil `summaries` slice encoding as `null`. `GetNews`'s reply is the status and body, or the date and content. `ListNews`'s reply is the status, or the dates.
- NewsBackend.FileNames: this contract only bounds the count; the names and their order are stated by `NewsBackend.FileNamesCons`, `NewsBackend.FileNamesAtError` and `NewsBackend.LastSegmentOfKey`.
- Text.Split: this contract only says there is at least one piece. The count, the pieces and the round trip are in `Text.SplitCount`, `Text.SplitPiecesFree` and `Text.JoinSplit`.
