# Verified model of the motor and peripheral node

The node drives CANopen motors from a 1 kHz RT thread, takes commands from clients through shared memory,
reads a foot-pressure sensor from a serial line and an IMU, and serves a WebSocket. This project models the
self-contained algorithms of that program and proves what they guarantee over every input, every run and
every interleaving. `dafny verify dfyconfig.toml` checks all of it.

| File | Contents |
|---|---|
| `Bytes.dfy` | machine integers, byte order, the CAN FD frame |
| `SdoQueue.dfy`, `SdoRuns.dfy` | the SDO response ring refined to a sequence, and whole runs of receiver and waiters over it |
| `FootPressure.dfy`, `FootErrors.dfy`, `FootResync.dfy` | the resynchronising stream parser and its reader loop, its error counter, and what noise does to a frame |
| `Sha1.dfy`, `WebSocket.dfy`, `KnownAnswers.dfy` | streaming SHA-1 against RFC 3174, base64, the handshake key, the text framer and deframer, and the handshake example of RFC 6455 worked out round by round |
| `Mailbox.dfy`, `MgmtChannel.dfy`, `FeedbackBuffer.dfy` | the three shared-memory protocols, one access at a time |
| `ModeSwitch.dfy` | the double send on a mode switch |
| `Byte0.dfy`, `PdoByte0.dfy`, `PdoInFlight.dfy` | the PDO control byte, the single-axis calls over whole histories, and their interleaving by several threads |
| `CanopenFrames.dfy`, `WirePath.dfy` | the packed control frames, and the single-axis calls from setpoint to what a drive reads |
| `SensorDispatch.dfy` | dispatch of received sensor frames to the per-node caches |
| `Units.dfy`, `MitQuantization.dfy`, `AxisRemap.dfy` | unit conversions, the MIT encoder and the IMU axis remap, over the reals |
| `MotorCalib.dfy`, `NodeMachine.dfy`, `NodeRuns.dfy` | the calibration sub-machine, the node state machine of the main loop, and what its runs mean for the motors |

Code that updates state in place is modelled by methods over classes, fields and arrays, each proved against a
specification function; the properties are lemmas about those functions. The shared-memory protocols are state
machines whose steps are single memory accesses, because their point is the interleaving. Values the program
obtains from the world (clock readings, results of SDO exchanges, what is online, fault requests, the button)
are inputs that the proofs quantify over.

## Where the code is not what its comments say

The model follows the code. These differences are proved.

- A clear-error request never reaches the bus. `src/motor_hal/inc/motor_hal_types.h:167-176` and
  `src/motor_hal/motor_hal.c:835` promise a pulse in the next frame, but the byte is cleared before it is
  returned (`src/motor_hal/motor_hal.c:221-230`). `PdoByte0.ClearFaultIsNotSent` and `TheClearFaultCommand` prove
  it; `ClearBitNeedsTheRawByte` says exactly when a frame does carry the bit.
- `src/motor_hal/motor_hal.c:822-823` says that the PDO calls leave `enabled` alone; `pdo_enable`, `pdo_disable`,
  `pdo_estop` and `pdo_recover` all write it (`PdoByte0.Hal.PdoEnable`, `PdoDisable`, `Estop`, `Recover`).
- The shutdown at `src/motor/motor_init.cpp:141-144` expects a zero-torque frame after each emergency stop; the stop
  switches sending off, so that call is refused and no frame goes out (`PdoByte0.EstopThenZeroTorque`).
- An emergency stop is the last word on the bus exactly when no other thread has built a frame and not yet sent it,
  because frames leave after the lock is released (`PdoInFlight.EstopIsFinalExactlyWhen`).
- `src/motor_hal/inc/motor_hal.h:1030` says that angles beyond 180 degrees are clamped; nothing clamps them, and 180
  degrees itself has no count (`Units.AngleFitsExactlyWhen`).
- With a negative scale, which a drive may report, the MIT encoder knows two values only, and the round trip fails
  (`MitQuantization.RoundTripExactlyWhen`).
- `src/motor/motor_rt_worker.cpp:68` expects the first frame after start to be sent twice so that it is not lost.
  What is doubled is the second command of each run of equal modes; the first one goes out once
  (`ModeSwitch.EachLongRunIsDoubledOnce`).
- The comment at `src/main_loop/main_loop.cpp:375-380` lets a CANCEL with nothing running fall through to RUNNING;
  the code stays in READY (`NodeMachine.CancelInReady`).
- `stark_ready()` can be true while the RT thread is inactive: `MisleadingExactlyWhen` and `MisleadingUntil` say exactly
  which pass brings this about and which ends it; two quick presses are an instance (`TwoQuickPresses`).
- `src/motor/motor_context.h:26` says that a toggle of false means CALIBRATE. The first press sets it to true
  (`PressesAlternate`), and true is what calibrates (`NothingToCalibrate`).
- The branch of `poll_ready` for a finished calibration (`src/main_loop/main_loop.cpp:325-337`) is never taken
  (`DoneBranchIsDead`).
- When the calibrator cannot be allocated, the trigger flag stays set and the node never runs again
  (`StuckExactlyWhen`, `StuckForever`).
- The error counter of the foot-pressure reader depends on how read() cuts the stream exactly when the parse stops
  where 40 bytes are left whose first 21 hold no head byte (`FootErrors.ErrorsIndependentIff`).
- Noise that contains head bytes can cost the frame behind it: exactly when the parse stops, in the last 19 bytes of
  noise, at a head byte with a tail byte 19 bytes on and either another source or a matching checksum
  (`FootResync.FrameIsReadIff`). For a single stray head byte that is when the frame's checksum equals the tail byte
  (`FootPressure.StrayHead`), and such frames exist (`AFrameLostToAStrayHead`).
- Sensor frames of most nodes from 16 up are taken for another kind of frame of another node, and a cut-off aggregate
  frame for a hall frame (`SensorDispatch.ReachesItsNodeExactlyWhen`, `Misdirected`).
- A WebSocket frame ends in an exception nobody catches exactly when its header is complete and its 64-bit length is
  within the header's size of 2^64: within 14 if it is masked, within 10 if not (`WebSocket.ThrowsExactlyWhen`;
  `AThrowingFrame` is an instance on both sides of the limit).
- A management command of 0 is acknowledged but not executed, and any positive multiple of 256 issues between two
  passes looks acknowledged (`MgmtChannel.A256thIssueCanBeLost`).

One result is about a fault request, which the main loop is written to take (`src/main_loop/main_loop.cpp:475-483`) but
which no code stores: `m_pending_state` is only read and reset (`src/motor/motor_rt_worker.cpp:1064-1068`). As the code
stands a node past BOOTING always has its RT thread (`NodeMachine.RunningHasItsThread`). If a request came before the
first motor is online, the node could reach RUNNING without one (`RunningWithoutTheThread`).

## Model

| member | source | states |
|---|---|---|
| SdoQueue.FirstMatch | src/motor_hal/sdo_client.c:122-138 | the search result is the oldest entry with the wanted response id and object index, and no result means that there is none; the subindex plays no part |
| SdoQueue.FirstMatchUnique | src/motor_hal/sdo_client.c:122-138 | only one answer satisfies that description |
| SdoQueue.WindowUpdate | src/motor_hal/sdo_client.c:147-151 | writing one slot of the ring changes that entry of the sequence and no other, across the wrap-around |
| SdoQueue.Queue.constructor | src/motor_hal/sdo_client.c:56-61 | the queue starts empty, with head, tail and count consistent |
| SdoQueue.Queue.Push | src/motor_hal/sdo_client.c:79-97 | on the sequence: drop the oldest entry if there are 32, then append; head stays (tail + count) mod 32 |
| SdoQueue.Queue.TakeFirst | src/motor_hal/sdo_client.c:120-156 | removes and returns the oldest response of the wanted node for the wanted object, recognised by its identifier and its bytes 1 and 2, and keeps the order of all others; nothing changes if there is none |
| SdoQueue.MatchesItsResponses | src/motor_hal/sdo_client.c:122-138 | a waiter matches a frame if and only if its identifier is 0x580 + node and bytes 1 and 2 are the index, low byte first, whatever the other bytes |
| SdoQueue.FoundIsResponse | src/motor_hal/sdo_client.c:122-138 | the frame found is the oldest such response, and there is none only if none is queued |
| SdoQueue.OldestResponseIsFound | src/motor_hal/sdo_client.c:122-138 | a queued response with none for the same request before it is the one found |
| SdoQueue.Queue.Search | src/motor_hal/sdo_client.c:122-138 | the scan loop finds the first match of the sequence, wherever the ring wraps |
| SdoQueue.Queue.Compact | src/motor_hal/sdo_client.c:146-153 | the compaction loop removes entry `found` of the sequence, wherever the ring wraps |
| SdoRuns.Run | src/motor_hal/sdo_client.c:79-180 | after every interleaving of receives, waits, wake-ups and timeouts: conservation, arrival order, at most 32 queued, equal keys answered in arrival order, and nobody asleep on a queued match |
| SdoRuns.EachResponseHasOneFate | src/motor_hal/sdo_client.c:79-180 | every received response is exactly one of queued, dropped as oldest, delivered once |
| SdoRuns.DropsOnlyTheOldestOfAFullQueue | src/motor_hal/sdo_client.c:85-89 | a response is lost only as the oldest of 32, with 31 younger ones still queued behind it |
| SdoRuns.ReceiveMatchesRing | src/motor_hal/sdo_client.c:79-97 | a receive of the run model is the push of the verified ring |
| SdoRuns.ScanMatchesRing | src/motor_hal/sdo_client.c:120-156 | a scan of the run model is the take of the verified ring, and the frame taken is the one recorded |
| SdoRuns.NoSleepOnAResponse | src/motor_hal/sdo_client.c:120-180 | while a request sleeps no response to it is queued, after every run |
| SdoRuns.DeliveriesAreResponses | src/motor_hal/sdo_client.c:120-180 | whatever a request was given is a response to it, after every run |
| SdoRuns.ScanServesOrSleeps | src/motor_hal/sdo_client.c:120-180 | a scan serves the waiter if a response to it is queued and otherwise puts it to sleep, changing nothing else |
| SdoRuns.ReceiveWakesAll | src/motor_hal/sdo_client.c:79-97 | nobody is asleep after a receive |
| SdoRuns.WaitsAreIndependent | src/motor_hal/sdo_client.c:120-180 | waits do not touch each other, and only a scan takes a frame |
| SdoRuns.AWaitScansFirst | src/motor_hal/sdo_client.c:120-180 | a wait scans before it can time out, and a spurious wake-up does not end it |
| FootPressure.ParseFrame | src/foot_pressure/FootPressureSensor.cpp:188-280 | the decision on a buffer: wait, skip so many bytes, or emit a reading and use 20 bytes |
| FootPressure.InspectIsStable | src/foot_pressure/FootPressureSensor.cpp:188-280 | a decision, once taken, is right whatever bytes arrive later |
| FootPressure.ReaderInvariant | src/foot_pressure/FootPressureSensor.cpp:314-390 | parse(everything fed, then x) = emitted, then parse(what is buffered, then x), for all x |
| FootPressure.EmittedIsOneShotParse | src/foot_pressure/FootPressureSensor.cpp:294-391 | the readings emitted over any sequence of reads are those of a byte-by-byte parse of the whole stream |
| FootPressure.ChunkIndependence | src/foot_pressure/FootPressureSensor.cpp:294-391 | the readings do not depend on how read() cut the stream |
| FootErrors.ErrorsIndependentIff | src/foot_pressure/FootPressureSensor.cpp:324-390 | the error count is the same for every cut of a stream if and only if the parse never stops where at least 40 bytes are left and the first 21 hold no head byte; the same with only the cuts that read() can make |
| FootErrors.SafeStreamsHaveOneCount | src/foot_pressure/FootPressureSensor.cpp:324-390 | for such a stream the count, however cut, is a function of the stream |
| FootErrors.UnsafeStreamsHaveTwoCounts | src/foot_pressure/FootPressureSensor.cpp:343-346 | any other stream has two cuts, both possible for read(), that count differently |
| FootErrors.ErrorsDependOnChunking | src/foot_pressure/FootPressureSensor.cpp:343-346 | an instance: 40 zero bytes are not safe, and count one error or two |
| FootPressure.BytesPayForFramesAndErrors | src/foot_pressure/FootPressureSensor.cpp:325-390 | 20 bytes for each reading and one for each error never exceed the bytes fed, which bounds the loop |
| FootPressure.ParserUndoesEncoder | src/foot_pressure/FootPressureProtocol.h:5-14 | any readings over all 16-bit values, framed and with head-free noise between them, are recovered exactly |
| FootPressure.ExampleFrame | src/foot_pressure/FootPressureProtocol.h:5-14 | one frame of 20 literal bytes, and the reading it is |
| FootPressure.StrayHead | src/foot_pressure/FootPressureSensor.cpp:227-253 | a stray head byte before a frame is harmless if and only if the checksum differs from the tail byte |
| FootPressure.AFrameLostToAStrayHead | src/foot_pressure/FootPressureSensor.cpp:227-253 | a reading whose frame is lost to one stray head byte, whatever follows |
| FootResync.FrameIsReadIff | src/foot_pressure/FootPressureSensor.cpp:188-280 | after any bytes u, a frame is read if and only if the parse does not stop, in the last 19 bytes of u, at a head byte with a tail byte 19 bytes on and either another source or a matching checksum; what follows the frame plays no part |
| FootResync.PassedOverExactlyWhen | src/foot_pressure/FootPressureSensor.cpp:227-270 | the same for any stream and any position with 20 bytes left |
| FootResync.UnswallowedReading | src/foot_pressure/FootPressureSensor.cpp:188-280 | a frame that is read comes out as the reading that was sent |
| FootResync.OnlyASwallowedFrameIsLost | src/foot_pressure/FootPressureSensor.cpp:227-270 | it is enough that no position in the last 19 bytes, visited or not, could be taken that way |
| FootResync.ReadingsAreTakenFrom | src/foot_pressure/FootPressureSensor.cpp:188-280 | reading i of the parse is what stands at position i of the list of positions used |
| FootPressure.Sensor.OnRead | src/foot_pressure/FootPressureSensor.cpp:294-391 | after each read the buffer holds under 20 bytes and is the rest of that parse; both counters (modulo 2^32) and the cached reading match it, so the 4096-byte wrap never happens |
| FootPressure.Sensor.ParseAvailable | src/foot_pressure/FootPressureSensor.cpp:324-390 | the inner loop takes every complete frame and leaves the rest at the start of the buffer |
| Sha1.ProcessConcat | src/web/WebServer.cpp:95-106 | folding blocks over a concatenation is folding over its parts in turn |
| Sha1.Schedule | src/web/WebServer.cpp:60-65 | the loop fills in the message schedule of section 6.1 |
| Sha1.Turn | src/web/WebServer.cpp:68-76 | one pass of the round loop is one round of section 6.1 |
| Sha1.Transform | src/web/WebServer.cpp:59-78 | the 80 in-place rounds compute the block function of section 6.1 of RFC 3174 |
| Sha1.Sha1Ctx.Update | src/web/WebServer.cpp:95-106 | the context keeps tracking the message fed so far, block by block, with the rest buffered |
| Sha1.Sha1Ctx.Final | src/web/WebServer.cpp:108-127 | the digest is the fold over the message padded as in section 4 of RFC 3174, in both padding cases |
| Sha1.Hash | src/web/WebServer.cpp:48-127 | any number of updates of any size give the digest of the concatenation alone; the bit count is taken modulo 2^64, so it is the standard's below 2^61 bytes |
| WebSocket.Base64RoundTrip | src/web/WebServer.cpp:136-149 | an independent decoder recovers every byte string, padding included |
| WebSocket.Base64Encode | src/web/WebServer.cpp:136-149 | the loop computes the encoding of section 4 of RFC 4648 |
| WebSocket.AcceptKey | src/web/WebServer.cpp:233-240 | the handshake answer is base64(SHA-1(key and GUID)), as section 4.2.2 of RFC 6455 asks |
| WebSocket.Alphabet | src/web/WebServer.cpp:136-149 | the 64 symbols, spelled out |
| KnownAnswers.HandshakeExample | src/web/WebServer.cpp:48-240 | the key of section 1.3 of RFC 6455 is accepted with the text given there, through both SHA-1 blocks and the base64 encoding |
| WebSocket.FrameText | src/web/WebServer.cpp:155-173 | the frame is one FIN text header with the shortest of the three length forms, then the payload |
| WebSocket.HeaderExamples | src/web/WebServer.cpp:155-173 | the unmasked message of section 5.7 of RFC 6455, and the headers for 256 and 65536 bytes, literally |
| WebSocket.ShortestForm | src/web/WebServer.cpp:155-173 | two, four or ten header bytes, with the limits 126 and 65536 |
| WebSocket.ReadLength | src/web/WebServer.cpp:183-186 | the payload length from 7 bits, 2 bytes or 8 bytes, or nothing if the bytes are missing |
| WebSocket.Unmask | src/web/WebServer.cpp:194-196 | byte i is combined with key byte i mod 4 |
| WebSocket.XorBits | src/web/WebServer.cpp:194-196 | each bit of the combination is the sum of the two bits modulo 2 |
| WebSocket.MaskedHello | src/web/WebServer.cpp:180-198 | the masked message of section 5.7 of RFC 6455 decodes to "Hello" |
| WebSocket.FrameDecode | src/web/WebServer.cpp:180-198 | the deframer computes the decoding function, including the wrap of the size_t sum |
| WebSocket.ThrowsExactlyWhen | src/web/WebServer.cpp:180-198 | the exception is thrown if and only if the header is complete and the 64-bit length is within the header's size (14 masked, 10 unmasked) of 2^64 |
| WebSocket.AThrowingFrame | src/web/WebServer.cpp:180-198 | the ten-byte unmasked header with length 2^64 - 256 + b throws if b is at least 0xF6 and decodes to nothing below |
| WebSocket.FrameRoundTrip | src/web/WebServer.cpp:155-198 | deframing a framed payload gives the payload, in all three length forms and whatever bytes follow |
| WebSocket.ClientFrameRoundTrip | src/web/WebServer.cpp:180-198 | the same for a frame masked with any key, as in section 5.3 of RFC 6455 |
| WebSocket.ProperPrefixesAreEmpty | src/web/WebServer.cpp:181-193 | every proper prefix of a frame decodes to the empty string |
| WebSocket.ClientPrefixesAreEmpty | src/web/WebServer.cpp:181-193 | the same for masked frames |
| Mailbox.AlwaysSafe | src/stark_client.h:214-230 | for every interleaving: at most 8 unread frames, all intact, the count clamp never fires, and what the RT thread consumed is a prefix of what was committed |
| Mailbox.ProducerOwnsItsSlot | src/stark_client.h:219-224 | the slot being filled is never one of the unread ones |
| Mailbox.CopyFollowsCommitted | src/motor/motor_rt_worker.cpp:380-384 | each word the RT thread copies is the committed word |
| Mailbox.PassTakesEverything | src/motor/motor_rt_worker.cpp:367-616 | one undisturbed pass consumes everything committed before it |
| Mailbox.SendCommits | src/stark_client.h:214-230 | an undisturbed send commits exactly its ten words if fewer than eight frames are unread, and otherwise changes nothing |
| MgmtChannel.LastCommandIsNotLost | src/motor/motor_rt_worker.cpp:229-290 | when the client is idle, seq equals ack and fewer than 256 issues are outstanding, the last command taken is the last one issued, and it is the last one executed exactly when it is not zero, for every interleaving |
| MgmtChannel.OnePassCatchesUp | src/motor/motor_rt_worker.cpp:234-289 | one pass with the client idle takes the last command (and executes it unless it is zero), except exactly when a positive multiple of 256 issues is outstanding |
| MgmtChannel.IssueThenPass | src/motor/motor_rt_worker.cpp:229-290 | one command and one pass: it is taken once, and executed unless it is zero |
| MgmtChannel.A256thIssueCanBeLost | src/stark_client.h:561-570 | the bound is sharp: any positive multiple of 256 issues without a pass looks acknowledged and none was executed |
| FeedbackBuffer.ReadIsASnapshot | src/stark_client.h:160-169 | a read that loaded active_idx after k publications and has not seen publication k + 2 begin holds words of frame k only |
| FeedbackBuffer.WriterSparesTheActiveBuffer | src/motor/motor_rt_worker.cpp:845-849 | the writer never touches the buffer a new reader would be sent to |
| FeedbackBuffer.EveryReadCanTear | src/motor/motor_rt_worker.cpp:938-939 | from every reachable state, and whatever has been read, a read in progress can be made to mix two frames within two more publications |
| FeedbackBuffer.SnapshotBoundIsExact | src/stark_client.h:160-169 | for every k: a bound n on the publications begun keeps a read of frame k whole if and only if n < k + 2 |
| FeedbackBuffer.PublishedIsRead | src/stark_client.h:160-169 | an undisturbed publication is the newest frame, and a read that begins then returns its words |
| ModeSwitch.Worker.SendWithSwitch | src/motor/motor_rt_worker.cpp:302-315 | the frames sent so far are those the history prescribes: each command once, the second of each same-mode run twice |
| ModeSwitch.MotorsAreIndependent | src/motor/motor_rt_worker.cpp:302-315 | what a motor is sent in any interleaving is what it would be sent alone |
| ModeSwitch.EachLongRunIsDoubledOnce | src/motor/motor_rt_worker.cpp:302-315 | split into maximal same-mode runs, each run of two or more has its second command doubled and nothing else is repeated; the frames number the commands plus those runs |
| ModeSwitch.FramesPerMotor | src/motor/motor_rt_worker.cpp:302-315 | both at once, per motor, for any interleaving |
| Byte0.BuildRoundTrip | src/motor_hal/inc/motor_hal_types.h:187-203 | the getters recover what was built, of the mode its low four bits |
| Byte0.FieldsDetermine | src/motor_hal/inc/motor_hal_types.h:187-203 | the five fields determine the byte |
| Byte0.Layout | src/motor_hal/inc/motor_hal_types.h:187-203 | the byte as a number: 128, 64 and 32 for the three flags, and twice the mode |
| CanopenFrames.MultiCtrlBuild | src/motor_hal/canopen_frames.c:300-334 | the in-place build of the 0x200 broadcast: slots from byte 0, ids from byte 56, zeros elsewhere, at most 8 commands |
| CanopenFrames.MitMultiBuild | src/motor_hal/canopen_frames.c:259-294 | the same for the 0x210 broadcast, at most 6 commands |
| CanopenFrames.AxisBroadcastRoundTrip | src/motor_hal/canopen_frames.c:300-334 | reading slot i and byte 56 + i gives command i back, its mode modulo 16 |
| CanopenFrames.MitBroadcastRoundTrip | src/motor_hal/canopen_frames.c:259-294 | the same for MIT; the 12-bit fields come back modulo 4096, so exactly if and only if they are in range |
| CanopenFrames.MitSlotsAreInMitMode | src/motor_hal/canopen_frames.c:259-294 | every slot of the MIT broadcast carries mode 6 |
| CanopenFrames.UnusedBytesAreZero | src/motor_hal/canopen_frames.c:259-334 | slots and ids do not overlap and every byte outside them is zero |
| CanopenFrames.AxisBroadcastIsInjective | src/motor_hal/canopen_frames.c:300-334 | two different command lists of one length never share a payload |
| CanopenFrames.CustomPdoBuild | src/motor_hal/canopen_frames.c:145-163 | the single-axis payload is byte for byte one slot of the broadcast |
| CanopenFrames.MitPdoBuild | src/motor_hal/canopen_frames.c:165-185 | the same for MIT |
| CanopenFrames.SignedTorque | src/motor_hal/canopen_frames.c:183-184 | a sign-extending drive recovers the torque if and only if it fits in 12 signed bits |
| WirePath.Build | src/motor_hal/pdo_handler.c:73-104 | the frame of a single-axis call goes out as its slot followed by zeros, with the length of the slot |
| WirePath.MitSetpointArrives | src/motor_hal/motor_hal.c:550-622 | after any history, what a drive reads of a MIT setpoint that is not refused is an enabled command with exactly the encoded fields, which decode to the clamped setpoint within half a step of each |
| WirePath.ControlArrives | src/motor_hal/motor_hal.c:492-810 | what a drive reads of any other control call that is sent: the targets of that call, and every field of the byte by last writers |
| WirePath.AngleArrives | src/motor_hal/motor_hal.c:492-511 | a position call arrives in mode 3, with the angle less than one count nearer to zero |
| WirePath.VelocityArrives | src/motor_hal/motor_hal.c:513-530 | a velocity call arrives in mode 4, with the RPM less its fraction and the profile acceleration |
| WirePath.TorqueArrives | src/motor_hal/motor_hal.c:532-548 | a torque call arrives in mode 5 with its current and no acceleration |
| WirePath.RawArrives | src/motor_hal/motor_hal.c:752-771 | a raw call arrives as it was made, its mode modulo 16 |
| WirePath.StopArrives | src/motor_hal/motor_hal.c:773-810 | stop and brake calls arrive with zero targets in the mode set before |
| SensorDispatch.Hal.DispatchFrame | src/motor_hal/motor_hal.c:1333-1631 | the mask tests in the code's order route every frame by identifier range, and only the addressed cache changes |
| SensorDispatch.Hal.Aggregate | src/motor_hal/motor_hal.c:1391-1434 | the aggregate frame replaces the whole cache by its four segments |
| SensorDispatch.ParseSensorFrame | src/motor_hal/motor_hal.c:1313-1331 | the byte loop builds the little-endian number whose fields are taken, after clearing the whole structure |
| SensorDispatch.ParseSpiForce | src/motor_hal/canopen_frames.c:388-403 | sign extension by bit 23 is two's complement on 24 bits; a short frame gives zeros |
| SensorDispatch.HallFieldsSurvive | src/motor_hal/motor_hal.c:1318-1330 | parsing packed fields gives them back |
| SensorDispatch.HallBitsSurvive | src/motor_hal/motor_hal.c:1318-1330 | packing parsed fields gives back any 64-bit number: no bit is lost or read twice |
| SensorDispatch.FieldsArrive | src/motor_hal/motor_hal.c:1313-1476 | against the payloads as a node lays them out (packed hall fields, S32 motion, S16 and U16 run values, S24 force): each of the five frames of a node below 16 leaves exactly its fields in the cache, for all values in range |
| SensorDispatch.AggregateEqualsParts | src/motor_hal/motor_hal.c:1391-1457 | the four quarters of an aggregate frame, in any order and with any repetition, from any cache, leave what the aggregate leaves; no other node changes |
| SensorDispatch.ReachesItsNodeExactlyWhen | src/motor_hal/motor_hal.c:1333-1631 | for every kind of frame, exactly which node ids and lengths are delivered to the node that sent them, as what they are |
| SensorDispatch.Misdirected | src/motor_hal/motor_hal.c:1363-1392 | where the frames of nodes 16 to 31 and the cut-off aggregate frames go instead |
| SensorDispatch.ShortFrames | src/motor_hal/motor_hal.c:1359-1631 | a frame that is too short leaves the cache alone or zeroes the fields of its kind only, whatever its bytes; the length has no other effect |
| PdoByte0.Hal.Consume | src/motor_hal/motor_hal.c:221-230 | the pending clear bit is gone from the byte that is returned |
| PdoByte0.Hal.AddMotor | src/motor_hal/motor_hal.c:333-372 | at most four nodes and no duplicates; a new node starts with every field of the byte and every flag off |
| PdoByte0.StaysExplained | src/motor_hal/motor_hal.c:221-968 | every call leaves every node in the state that its own recorded history of calls leads to, so the history results below hold of the objects |
| PdoByte0.SwitchingCalls | src/motor_hal/motor_hal.c:838-861 | pdo_enable and pdo_disable: exactly which fields change, and how |
| PdoByte0.SdoCalls | src/motor_hal/motor_hal.c:438-470 | the SDO path moves the flag and nothing else |
| PdoByte0.FailedSdoCalls | src/motor_hal/motor_hal.c:438-470 | a failed exchange changes nothing |
| PdoByte0.BusCalls | src/motor_hal/motor_hal.c:863-883 | only the bus bit changes |
| PdoByte0.ModeCall | src/motor_hal/motor_hal.c:897-907 | only the mode changes, and not for a mode above 6 |
| PdoByte0.FaultCalls | src/motor_hal/motor_hal.c:885-934 | clear_fault, estop and recover: what is left of the old state |
| PdoByte0.RawByteCall | src/motor_hal/motor_hal.c:936-946 | the byte is the one given, the flag stays |
| PdoByte0.TargetCalls | src/motor_hal/motor_hal.c:492-771 | a call with a target drops a pending clear and sets mode 3, 4, 5 or its own |
| PdoByte0.OtherReadingCalls | src/motor_hal/motor_hal.c:550-968 | the other calls that read the byte |
| PdoByte0.Hal.ReadMitScales | src/motor_hal/motor_hal.c:624-649 | each answer replaces its scale or leaves the default; no byte, flag or frame changes |
| PdoByte0.Hal.SetPosition | src/motor_hal/motor_hal.c:492-511 | status, new byte and flags, and the frame sent, field by field, with the angle in counts; mode 3, the profile acceleration as second target |
| PdoByte0.Hal.SetVelocity | src/motor_hal/motor_hal.c:513-530 | the same with mode 4 and the truncated RPM |
| PdoByte0.Hal.SetTorque | src/motor_hal/motor_hal.c:532-548 | the same with mode 5 and no acceleration |
| PdoByte0.Hal.CtrlRaw | src/motor_hal/motor_hal.c:752-771 | the same with the caller's mode modulo 16; no other node changes |
| PdoByte0.Hal.MitControl | src/motor_hal/motor_hal.c:550-622 | the same from degrees, RPM and the node's scales; it enables the axis and refuses the all-zero encoding only after doing so |
| PdoByte0.HalfATurn | src/motor_hal/motor_hal.c:567-570 | 180 degrees and 60 RPM reach the encoder as pi and 2 pi |
| PdoByte0.Hal.Stop | src/motor_hal/motor_hal.c:773-787 | the same; it reports success for an unknown or disabled node |
| PdoByte0.Hal.SetBrake | src/motor_hal/motor_hal.c:789-810 | the same |
| PdoByte0.Hal.PdoEnable | src/motor_hal/motor_hal.c:838-849 | ENABLE and BUS_ON are set and the flag with them |
| PdoByte0.Hal.PdoDisable | src/motor_hal/motor_hal.c:851-861 | ENABLE and the flag are cleared; the bus bit stays |
| PdoByte0.Hal.BusOn | src/motor_hal/motor_hal.c:863-872 | only the bus bit changes |
| PdoByte0.Hal.BusOff | src/motor_hal/motor_hal.c:874-883 | only the bus bit changes |
| PdoByte0.Hal.ClearFault | src/motor_hal/motor_hal.c:885-895 | the clear bit and its pending flag are set, nothing is sent |
| PdoByte0.Hal.Estop | src/motor_hal/motor_hal.c:909-920 | only the mode survives |
| PdoByte0.Hal.Recover | src/motor_hal/motor_hal.c:922-934 | the mode survives, ENABLE and BUS_ON are set |
| PdoByte0.Hal.SetMode | src/motor_hal/motor_hal.c:897-907 | a mode above 6 is refused before the node is looked up |
| PdoByte0.Hal.SetByte0 | src/motor_hal/motor_hal.c:936-946 | the byte is taken as it is; a pending clear is forgotten |
| PdoByte0.Hal.GetByte0 | src/motor_hal/motor_hal.c:948-957 | reads the byte without consuming a pending clear |
| PdoByte0.Hal.ConsumeByte0 | src/motor_hal/motor_hal.c:959-968 | returns the byte after the pending clear has been taken out |
| PdoByte0.Hal.SdoEnable | src/motor_hal/motor_hal.c:438-453 | a successful exchange sets the flag and leaves the byte alone |
| PdoByte0.Hal.SdoDisable | src/motor_hal/motor_hal.c:455-470 | a successful exchange clears the flag and leaves the byte alone |
| PdoByte0.LastWriterWins | src/motor_hal/motor_hal.c:492-946 | over every history each field of the byte, and the enable flag, is what its last writing call wrote |
| PdoByte0.WhatIsSent | src/motor_hal/motor_hal.c:492-810 | a control call sends if and only if the last switching call switched on, and each field of the byte it sends is given by its last writer |
| PdoByte0.WhatMitSends | src/motor_hal/motor_hal.c:550-622 | mit_control sends every setpoint but the refused ones, which are given by thresholds, with ENABLE, BUS_ON and mode 6 and every raw field in range |
| PdoByte0.ByteAgreesWithFlags | src/motor_hal/motor_hal.c:221-934 | under the PDO calls alone bit 7 equals enabled, bit 5 equals clr_err_pending and bit 0 is zero in every reachable state |
| PdoByte0.ControlFrames | src/motor_hal/motor_hal.c:492-810 | under the PDO calls alone every control frame carries ENABLE and the called mode, and none carries the clear bit |
| PdoByte0.EstopHolds | src/motor_hal/motor_hal.c:909-920 | after estop no call but mit_control builds a frame until the axis is enabled again |
| PdoByte0.EstopThenZeroTorque | src/motor/motor_init.cpp:141-144 | the zero torque that follows the stop at shutdown is refused and sends nothing |
| PdoInFlight.AxisFollowsTheLocks | src/motor_hal/motor_hal.c:532-548 | in every interleaving of threads the axis is in the state of the calls in the order of their locks |
| PdoInFlight.OnlyWhatWasInFlight | src/motor_hal/motor_hal.c:532-548 | from an axis that is off, in every interleaving without a re-enabling call, what is sent are the frames in flight at the start, each at most once |
| PdoInFlight.EstopIsFinalExactlyWhen | src/motor_hal/motor_hal.c:909-920 | nothing is sent after an estop in any such interleaving if and only if no other thread was between its lock and its send |
| PdoInFlight.CallThenSend | src/motor_hal/motor_hal.c:532-548 | a call whose send follows at once is the call of the sequential model |
| PdoInFlight.ALateFrame | src/motor_hal/motor_hal.c:532-548 | an instance: a torque frame that goes out after the stop |
| PdoByte0.ClearBitNeedsTheRawByte | src/motor_hal/motor_hal.c:221-230 | a frame carries the clear bit if and only if a raw byte set it and no estop, recover or clear_fault came after |
| PdoByte0.ClearFaultIsNotSent | src/motor_hal/motor_hal.c:885-895 | after clear_fault no frame carries the clear bit, however many calls follow without a raw byte |
| PdoByte0.TheClearFaultCommand | src/motor/motor_rt_worker.cpp:279-283 | the CLEAR_FAULT command sends an enabled current-mode frame without the clear bit |
| Units.AngleFitsExactlyWhen | src/motor_hal/inc/motor_hal.h:1030-1033 | exactly which angles have a count; the others are not clamped |
| Units.CountsUndoDegrees | src/motor_hal/inc/motor_hal.h:1025-1033 | the angle of a count converts back to that count |
| Units.WithinOneCount | src/motor_hal/inc/motor_hal.h:1026-1033 | converting an angle to counts and back moves it toward zero by less than one count |
| Units.Turns | src/motor_hal/motor_hal.c:567-570 | half a turn is pi, a turn a second 2 pi, and a quarter turn 16384 counts |
| Units.DropsTheFraction | src/motor_hal/motor_hal.c:528 | a value that fits an int16_t loses its fraction, toward zero |
| MitQuantization.EncodeRaw | src/motor_hal/motor_hal.c:666-693 | for scales of either sign the clamping code computes the field-wise encoding, in range |
| MitQuantization.EncodeMonotone | src/motor_hal/motor_hal.c:666-693 | every raw value is in range and encoding is monotone in each field, whatever the signs of the scales |
| MitQuantization.DecodedIsNear | src/motor_hal/motor_hal.c:666-693 | decoding lands within half a step of the clamped setpoint (pmax/65535 for the position) |
| MitQuantization.RoundTripExactlyWhen | src/motor_hal/motor_hal.c:666-693 | every raw value is the encoding of what it decodes to if and only if all five scales are positive |
| MitQuantization.Reversed | src/motor_hal/motor_hal.c:675-676 | with a negative scale a field is 0 below its lower limit and its maximum from there on |
| MitQuantization.RefusedSetpoints | src/motor_hal/motor_hal.c:580-582 | exactly which setpoints become the all-zero value that is refused, for scales of either sign |
| MitQuantization.FullScale | src/motor_hal/motor_hal.c:666-693 | the ends of positive scales, and everything beyond them, are the ends of the raw ranges, 65535 and 4095 |
| MitQuantization.ReadScalesAreNonZero | src/motor_hal/motor_hal.c:624-649 | whatever a drive answers no scale becomes zero, and all are positive if and only if no answer has bit 31 set |
| MitQuantization.ScalesByHand | src/motor_hal/motor_hal.c:624-649 | which answer is which scale, in hundredths or units, and the defaults |
| AxisRemap.RemapVec2 | src/imu_hal/emd_gaf.c:297-303 | the in-place update is the axis map |
| AxisRemap.RemapQuat2 | src/imu_hal/emd_gaf.c:311-319 | the in-place update is the quaternion map |
| AxisRemap.RemapIsMount | src/imu_hal/emd_gaf.c:305-310 | the vector map is the mounting rotation and the quaternion map composes with its inverse |
| AxisRemap.Axes | src/imu_hal/emd_gaf.c:297-303 | where each chip axis goes |
| AxisRemap.RotateIsConjugation | src/imu_hal/emd_gaf.c:305-310 | the rotation matrix form equals q v q* |
| AxisRemap.RemapPreservesMeaning | src/imu_hal/emd_gaf.c:297-319 | for every quaternion and vector, rotating the remapped vector by the remapped quaternion gives the same world vector |
| AxisRemap.RemapPreservesNorm | src/imu_hal/emd_gaf.c:297-319 | both maps keep the norm |
| MotorCalib.Calibrator.Start | src/motor_hal/motor_calib.c:62-107 | starts exactly from IDLE or TIMEOUT when the shutdown and zeroing of every used side succeed; a refusal leaves the phase alone |
| MotorCalib.Calibrator.Poll | src/motor_hal/motor_calib.c:111-246 | timeout first, then feedback and position of the used sides, then mode, then enabling |
| MotorCalib.Calibrator.Exit | src/motor_hal/motor_calib.c:250-274 | back to IDLE from any phase |
| MotorCalib.OneDegree | src/motor_hal/motor_calib.c:138-153 | the default threshold of one degree is 182 counts, exactly |
| MotorCalib.PollsEndExactlyWhen | src/motor_hal/motor_calib.c:111-246 | from the clock and the motors' answers alone: polling goes on exactly while every poll is in time with a used side missing or out of place, and the first other poll decides between DONE, FAILED and TIMEOUT by what it read |
| MotorCalib.RefusedStart | src/motor_hal/motor_calib.c:62-107 | a calibration under way, done or failed is not started again before an exit |
| NodeMachine.Node.PollBooting | src/main_loop/main_loop.cpp:212-313 | threads and mailbox start with the first motor; READY with all motors or after five seconds |
| NodeMachine.Node.StartThreads | src/main_loop/main_loop.cpp:221-291 | RT thread, SYNC thread and mailbox are switched on, each once |
| NodeMachine.Node.Transition | src/motor/motor_state.cpp:71-114 | a transition happens exactly when it is allowed |
| NodeMachine.Node.BeginCalibration | src/main_loop/main_loop.cpp:375-416 | what a request with nothing running does, in each of its four outcomes |
| NodeMachine.Node.AdvanceCalibration | src/main_loop/main_loop.cpp:418-468 | what each result of the poll does |
| NodeMachine.Node.PollRtPending | src/main_loop/main_loop.cpp:475-483 | a fault request is taken from every state |
| NodeMachine.Node.PollReady | src/main_loop/main_loop.cpp:322-469 | the branches in their order: done, first boot, request while running, request, poll |
| NodeMachine.Node.Service | src/main_loop/main_loop.cpp:618-671 | the RUNNING and FAULT branch of the loop |
| NodeMachine.Node.Iterate | src/main_loop/main_loop.cpp:602-701 | one pass of the loop is the pass function of the model |
| NodeMachine.AlwaysInv | src/main_loop/main_loop.cpp:602-701 | after every run: calibrating if and only if the calibrator exists and checks, if and only if calib_state is 1; calibrating implies RT inactive; RUNNING implies RT active and not calibrating; done implies RUNNING or FAULT; no transition is ever denied |
| NodeMachine.DoneBranchIsDead | src/main_loop/main_loop.cpp:325-337 | READY is never dispatched with calib_done set |
| NodeMachine.BootingIsNotReentered | src/motor/motor_state.cpp:71-114 | once left, BOOTING is never entered again |
| NodeMachine.CalibrationOutcome | src/main_loop/main_loop.cpp:418-468 | over any number of undisturbed passes the node ends where the polls of its calibrator do: DONE and TIMEOUT lead to RUNNING with calib_state 2 and 3, FAILED stays in READY with RT active and retry possible |
| NodeMachine.NothingToCalibrate | src/main_loop/main_loop.cpp:393-439 | with no motor online a requested calibration succeeds in the pass that starts it |
| NodeMachine.StuckExactlyWhen | src/main_loop/main_loop.cpp:382-393 | the one event that sets the trigger without a calibration |
| NodeMachine.StuckForever | src/main_loop/main_loop.cpp:376-416 | from then on never RUNNING, never calibrating, RT inactive, whatever happens |
| NodeMachine.ThreadStartedIffMotorSeen | src/main_loop/main_loop.cpp:215-234 | the RT thread is started if and only if some pass in BOOTING saw a motor |
| NodeMachine.RunningHasItsThread | src/main_loop/main_loop.cpp:212-313 | without a fault in BOOTING, a node past BOOTING has its RT thread |
| NodeMachine.RunningWithoutTheThread | src/main_loop/main_loop.cpp:475-497 | if a fault request came before a motor is online: a family of inputs that reaches RUNNING without it |
| NodeMachine.CancelInReady | src/main_loop/main_loop.cpp:375-380 | a CANCEL with nothing running only consumes the request |
| NodeMachine.MisleadingExactlyWhen | src/main_loop/main_loop.cpp:375-416 | exactly which pass makes calib_state 2 with RT inactive |
| NodeMachine.MisleadingUntil | src/main_loop/main_loop.cpp:375-416 | exactly which pass ends it |
| NodeMachine.TwoQuickPresses | src/main_loop/main_loop.cpp:621-631 | an instance: two presses in successive passes of RUNNING leave READY, RT inactive, calib_state 2, nothing requested |
| NodeMachine.PressesAlternate | src/motor/motor_context.h:26 | over every run the toggle is true exactly after an odd number of presses |
| NodeRuns.CalibratedExactlyWhen | src/main_loop/main_loop.cpp:375-468 | from the inputs alone: a request leads to RUNNING with calib_state 2 if and only if every motor online at the request answers shutdown and zeroing, and the first poll that does not find a motor out of place in time finds all of them within 182 counts of zero, in time, accepting mode and enabling |
| NodeRuns.BootingEndsExactlyWhen | src/main_loop/main_loop.cpp:212-313 | without fault requests BOOTING ends, in READY, in the first pass that finds every configured motor online, or some motor online for more than five seconds |
| NodeRuns.ActiveInBootingExactlyWhen | src/main_loop/main_loop.cpp:236-291 | in BOOTING the mailbox is served if and only if a pass with a motor online has started the SYNC thread |
| NodeRuns.PhasesInOrder | src/motor/motor_state.cpp:71-114 | RUNNING is entered only from READY, FAULT only on request and left only for READY, BOOTING is left for READY or FAULT |
| NodeRuns.TransitionTable | src/motor/motor_state.cpp:71-114 | the allowed transitions, one by one |
| NodeRuns.FirstReadyPass | src/main_loop/main_loop.cpp:339-349 | the first pass in READY goes to RUNNING with calib_state 2 and no calibration |
| NodeRuns.NothingRequested | src/main_loop/main_loop.cpp:618-671 | without a request a node that runs or has a fault stays as it is |
| NodeRuns.RequestReachesReady | src/main_loop/main_loop.cpp:618-645 | a CALIBRATE in RUNNING or FAULT reaches READY still pending |
| NodeRuns.CancelInService | src/main_loop/main_loop.cpp:645-671 | what a CANCEL in RUNNING or FAULT leaves |
| NodeRuns.RequestWhileCalibrating | src/main_loop/main_loop.cpp:351-373 | during a calibration a CANCEL ends it without a result and a CALIBRATE is ignored |

## Left out

- Weak memory: every shared-memory access is one sequentially consistent step; fills and copies stay several steps.
- The protocol modules are transition systems over values, not code over shared arrays; each event is one access of the cited code.
- The web server as a second writer of mailbox and management channel: the protocol properties assume one producer.
- The mailbox cursors are unbounded; their wrap after 2^64 frames is not modelled.
- Management commands are one channel of one motor; the motors' channels share nothing.
- SdoRuns.Run: waiters are named by number and a wait that has ended may start again; nothing says that a response belongs to the request its waiter sent, because the code does not ensure it.
- The parsing of an SDO response and the building of SDO, NMT and SYNC frames: one table look-up each.
- The layout of feedback frame 0x300, TPDO, EMCY and heartbeat dispatch: they do not touch the sensor caches.
- SensorDispatch.AggregateEqualsParts: receive timestamps and callbacks are not modelled.
- `multi_ctrl` and `mit_multi_ctrl` bypass the control byte, so the claims of `PdoByte0` cover single-axis calls only; the SDO startup path is not modelled.
- PdoByte0.Hal.SetPosition: reals instead of floats, here and in SetVelocity and MitControl; a value that does not fit an int16_t, whose cast C leaves undefined, converts to an arbitrary count.
- PdoByte0.EstopHolds: in this module a call is atomic; `PdoInFlight` separates the lock from the send.
- MitQuantization.EncodeRaw: reals instead of floats, and no zero scale, which no answer of a drive can produce.
- AxisRemap.RemapPreservesMeaning: reals instead of floats.
- Sha1.Sha1Ctx.Update: `sha1_update`, which nothing calls, is not modelled.
- WebSocket.FrameDecode: control frames, fragmentation and opcodes are ignored as the code ignores them; a length no string can hold is an explicit error value standing for the exception of std::string.
- Fault requests: nothing in the repository makes one; `NodeMachine` takes them as inputs, because the main loop handles them.
- NodeMachine.Node.Iterate: periodic reports, sensor configuration, LED and SDO command polling, logging and sleeping do not influence the flags; motor_count is 1 or 2.
- MotorCalib.Calibrator.Poll: torque zeroing and the sensor configuration after enabling, whose results are ignored, and the delays.
- The exit sequence of a cancelled calibration: SDO writes whose results are ignored.
- `trace_stat_update` and the latency statistics: a running minimum, maximum and sum.
- The queue of the RT log, JSON, HTTP, ROS, GPIO, SocketCAN and configuration loading: input and output.
