# Fleet: a verified model of the CAN-over-UDP motor-control stack

The library sends motor commands as CAN frames packed into UDP datagrams, decodes the answers into sampled
motor state, and limits its own bandwidth. This project models its deterministic core and proves what it
promises:

- **Checksum and packets** (`Checksum`, `ErrorDetection`, `CodecMotor`, `PacketIntegrity`, `ToolFrames`). The
  checksum is the polynomial x^16 + x^12 + x^5 + 1 of ITU-T Recommendation V.41 with a zero start value. Words
  are sequences of bits and the specification is the division one bit at a time; slicing by eight, the packet
  bijection and the error-detection theorems are proved from its linearity. The packet format is stated byte for
  byte, and the Python tool's own implementation of it is proved against the same layout.
- **Bit fields, quantisers and command frames** (`CodecBit`, `Quantise`, `CommandFrames`, `Feedback`,
  `FeedbackBytes`). A buffer is the sequence of its bits; a write replaces a window. A command is a list of
  fields whose bits, end to end, are the frame; what a motor reads from a frame, and what a response says, are
  stated apart from that, at the bit and byte offsets of the protocol.
- **Send pipeline** (`RingQueue`, `SendQueue`, `Channel`, `TokenBucket`, `SendPipeline`, `SendOrder`,
  `WireBandwidth`, `WireBoundTight`, `WakeUp`). The rings, the slot pool, the move-only packet buffers and the
  limiter are classes proved against values. The concurrent system is a set of atomic steps over the same
  values: each ring operation is one step, and recording a size and storing a byte are steps of their own, as
  they happen outside the lock. A run is any sequence of steps, so its theorems hold for every interleaving of
  any number of producers, discarders and the transmit thread. `WakeUp` adds how that thread waits.
- **Devices, routing, batching** (`DeviceMotor`, `RouteTable`, `DriverMotor`, `Runtime`). Sampled fields carry
  tickets that are taken before the lock is; a history is any list of writes with distinct tickets.
- **Control loop** (`PvtLoop`) and **results across the layers** (`Producers`, `CommandsOnWire`, `EndToEnd`), from
  orders to the frames that the wire carries, and from received datagrams to the state of every motor.

The clock, the socket, the stop flag, the answers of the channel to a batch, the table of motor models and the
feedback that a control phase meets are parameters, and the results hold for all of them.

## Findings

- The checksum travels low byte first while the division is most significant bit first, so a burst across the
  end of the payload is not one burst to the checksum. Bursts of up to 16 bits inside the covered bytes are
  always caught, and of up to 12 bits anywhere; from 13 bits on every packet with a frame has an undetected
  one. A packet without frames withstands every burst of up to 39 bits, but not every one of 40.
- Positions and velocities are encoded on a scale of 2 * center steps and decoded on one of 2 * center + 1, so
  a reported position in the upper half of the range, commanded back, comes out one code lower.
- An acceleration is set in hundredths and read back unscaled.
- A motor may be configured at id 0x7FF, but frames with that id are taken for broadcasts and never reach it.
- The control loop rejects feedback older than 2 ms at a period of 2.5 ms. If the motor speaks only when
  commanded, takes the same time d for every answer, and all cycles wake on time, a phase of three or more
  cycles succeeds if and only if d lies between 0.5 and 2.5 ms, between 3 and 5 ms or between 5.5 and 7.5 ms,
  ends included; in the second and third case only every second or third cycle commands. With any other delay,
  such as 0.2 ms or 2.7 ms, no answer is fresh at any of the first three looks, and the phase ends there. With
  late wake-ups, and answers that come before the next look, it is the gap between wake-ups, less d, that must
  not exceed 2 ms.
- Enqueueing notifies without the mutex that the transmit thread holds from its last look at the pending ring
  until it is parked. A packet that is queued and notified in between is left behind until another one is
  queued or the thread wakes for some other reason. Nothing else leaves a packet behind, and notifying under
  the mutex would exclude it.
- An energy brake is sent with the state of a regenerative brake, 4, where the protocol has a state of its own,
  3, so that a motor cannot tell them apart.
- Library and Python tool build the same packet from the same frames exactly when the data bytes past each
  frame's length are zero: the library sends them as they are.
- A limiter sleep truncated to whole ticks can fall short, which is why a second sleep may be needed.

## Model

| member | source | states |
|---|---|---|
| `Checksum.Crc16Ccitt` | src/checksum.cc:56-77 | For every byte string, eight-byte slicing plus tail gives the same 16 bits as feeding the message to the polynomial division one bit at a time. |
| `Checksum.Crc16Bitwise` | tests/udp2can_tool.py:39-49 | The bit-at-a-time version gives the same checksum, so the two implementations in the repository agree on every input. |
| `Checksum.TableEntry` | src/checksum.cc:10-20 | A table entry is the register after a byte and eight division steps. |
| `Checksum.MakeTables` | src/checksum.cc:22-52 | Table k, built from table k-1, holds for every byte its contribution at distance k from the end of the data. |
| `Checksum.TableDrivenUpdate` | src/checksum.cc:32-35 | One table step equals eight bit steps from any register. |
| `PacketIntegrity.OneStep` | src/checksum.cc:10-20 | One step of the division, bit by bit: shift, and flip bits 12, 5 and 0 if bit 15 was set. |
| `Checksum.NextSlice` | src/checksum.cc:37-44 | Feeding a zero byte to an entry of table k gives the entry of table k+1. |
| `Checksum.SliceIsCrc` | src/checksum.cc:46-52 | Table k at b is the checksum of b followed by k zero bytes. |
| `Checksum.CrcStateAsData` | src/checksum.cc:62-67 | A checksum continued from any register is the checksum from zero with that register added to the first two bytes. |
| `Checksum.CrcContributions` | src/checksum.cc:62-71 | A checksum is linear: the shifted register plus one independent contribution per byte. |
| `Checksum.Block` | src/checksum.cc:62-72 | The eight table look-ups of one block advance the register over exactly its eight bytes. |
| `Checksum.CrcConcat` | src/checksum.cc:61-76 | The checksum of a concatenation continues from the checksum of its first part. |
| `ErrorDetection.BurstDetected` | src/checksum.cc:56-77 | Two messages of the same length that differ only inside 16 consecutive bits have different checksums. |
| `ErrorDetection.CrcParity` | src/checksum.cc:8-20 | The checksum has odd weight exactly when the message has. |
| `ErrorDetection.FlipsParity` | src/checksum.cc:56-77 | The number of differing bits has the parity of the two weights added. |
| `CodecMotor.WriteCanEntry` | src/codec_motor.cc:116-121 | Writes the port, the big-endian wire id, the length and the data of a frame to bytes 0, 1 to 4, 5 and 6 to 13 of one entry, and nothing around it. |
| `CodecMotor.WriteCovered` | src/codec_motor.cc:148-158 | Header, count and all entries are laid out in order; the rest of the buffer is unchanged. |
| `CodecMotor.EncodeInto` | src/codec_motor.cc:127-165 | It succeeds exactly for at most 32 frames with legal ids and lengths and room for 8 + 14 n bytes, and says which of the three failures came first; a failure leaves the buffer untouched. A success writes, byte for byte, 0xAA, the type, the length 1 + 14 n, the count, every entry, the checksum low byte first and 0xBB, and nothing past it. |
| `CodecMotor.DecodeEach` | src/codec_motor.cc:167-192 | Total on all byte strings, read off the bytes: an unknown type is unsupported; a packet whose start, length, count, checksum and end are right delivers its entries up to the first illegal one, and is Ok exactly when that is all of them; anything else is a protocol error that delivers nothing. |
| `CodecMotor.DeliveredIs` | src/codec_motor.cc:184-190 | What is delivered is a function of the bytes: the entries up to the first invalid one, of an accepted packet. |
| `CodecMotor.DecodesToOne` | src/codec_motor.cc:167-192 | That description fixes both the result and what is delivered. |
| `CodecMotor.EncodingAccepted` | src/codec_motor.cc:75-101 | Every encoding passes the header, checksum and count checks with its own frame count. |
| `CodecMotor.RoundTrip` | src/codec_motor.cc:103-192 | Decoding an encoding gives the same frames: port, id, extended flag, length and all eight data bytes. |
| `CodecMotor.Converse` | src/codec_motor.cc:75-192 | Anything that decodes without error is, byte for byte, the encoding of its type byte and the frames delivered. |
| `CodecMotor.EncodingInjective` | src/codec_motor.cc:127-165 | Different types or different frame lists never share an encoding. |
| `CodecMotor.LayoutDetermined` | src/codec_motor.cc:147-163 | Two packets of the same type are equal exactly when their frames are: the layout leaves no byte open. |
| `ToolFrames.BuildFrame` | tests/udp2can_tool.py:52-86 | The Python tool builds, from messages with legal ids, the packet of the same layout. |
| `ToolFrames.ToolAgrees` | tests/udp2can_tool.py:52-86 | Given the same frames, library and tool build the same packet if and only if all data bytes past the length are zero. |
| `ToolFrames.ParseFrame` | tests/udp2can_tool.py:87-141 | From every packet of the library the tool reads its type and the same frames, each with the data bytes in use; what it reads with at most 32 entries has the right envelope. |
| `PacketIntegrity.SealedBits` | src/codec_motor.cc:148-163 | The bit layout of a packet: message most significant bit first, checksum low byte first. |
| `PacketIntegrity.OddFlipsRejected` | src/codec_motor.cc:93-101 | An odd number of flipped bits anywhere in a packet, length unchanged, is rejected and nothing is delivered. |
| `PacketIntegrity.BurstRejected` | src/codec_motor.cc:93-101 | A burst of at most 16 bits within the covered bytes (or within the trailer) is rejected and nothing is delivered. |
| `PacketIntegrity.ShortBurstRejected` | src/codec_motor.cc:93-101 | A burst of at most 12 bits is rejected wherever it lies, across the end of the payload too. |
| `PacketIntegrity.ThirteenBitsUnnoticed` | src/codec_motor.cc:160-163 | Every packet with a frame has a 13-bit burst across the payload end that decodes without error to an altered frame. |
| `PacketIntegrity.BurstLimit` | src/codec_motor.cc:75-101 | The exact limits: of an encoded packet every burst of a given width, anywhere, is rejected if and only if the width is at most 12, or at most 39 when the packet carries no frame. |
| `PacketIntegrity.FramelessRest` | src/codec_motor.cc:75-101 | A packet of the same length as a frameless one that is not rejected is that packet or the one of the other type. |
| `CodecBit.ReadU32Be` | src/codec_bit.cc:7-30 | Both loops read the number whose binary digits are the window; it fails exactly for a null buffer or a window out of range. |
| `CodecBit.WriteU32Be` | src/codec_bit.cc:32-61 | Both loops replace exactly the window by the digits of the value; it fails, changing nothing, exactly when buffer, window or value do not fit. |
| `CodecBit.ReadAligned` | src/codec_bit.h:42-63 | The straight-line 8, 16 and 32 bit paths read the same number as the bit path. |
| `CodecBit.WriteAligned` | src/codec_bit.h:65-87 | The straight-line paths replace exactly the window by the low bits of the value, as the bit path does for a value that fits; of a larger one the high bits are dropped. |
| `CodecBit.Read` | src/codec_bit.h:89-95 | Whichever path is taken, the same number is read. |
| `CodecBit.Write` | src/codec_bit.h:97-107 | Whichever path is taken, the same bits change; the mask check rejects exactly the values that do not fit. |
| `CodecBit.WriteDetermined` | src/codec_bit.cc:32-61 | The description of a write leaves one possible buffer. |
| `CodecBit.ReadAfterWrite` | src/codec_bit.cc:7-61 | A field reads back as written, at every offset and length. |
| `CodecBit.WriteOfRead` | src/codec_bit.cc:7-61 | Writing back what was read changes nothing. |
| `CodecBit.ReadElsewhere` | src/codec_bit.cc:7-61 | Windows that do not overlap the written one read as before. |
| `CodecBit.WritesCommute` | src/codec_bit.cc:32-61 | Writes to disjoint windows commute. |
| `CodecBit.LastWriteWins` | src/codec_bit.cc:32-61 | Writing a window twice is writing it once with the second value. |
| `CodecBit.FieldIsSlice` | src/codec_bit.cc:7-30 | A buffer is one big-endian number, and a field of it is that number divided by 2 to the bits below it, modulo 2 to its length. |
| `CodecBit.WriteIsAddition` | src/codec_bit.cc:32-61 | Writing a field adds to that number the change of the field times 2 to the bits below it. |
| `Quantise.SymmetricAccepts` | src/codec_can.cc:311-327 | Accepted are exactly the values from half a code below zero to half a code above the largest, open at both ends. |
| `Quantise.SymmetricTotal` | src/codec_can.cc:311-327 | Every value of the nominal range is accepted. |
| `Quantise.SymmetricMonotone` | src/codec_can.cc:311-327 | A larger value never gets a smaller code. |
| `Quantise.SymmetricError` | src/codec_can.cc:311-327 | Decoding the code of any accepted value returns within 1.5 * range / center of it. |
| `Quantise.CodeRoundTrip` | src/codec_can.cc:34-36 | Re-encoding a decoded code gives the code itself in the lower half of the scale and the code below it in the upper half. |
| `Quantise.GainError` | src/codec_can.cc:329-344 | A gain is represented to within half a quantum. |
| `Quantise.U16Accepts` | src/codec_can.cc:80-93 | Exactly which scaled values fit an unsigned field. |
| `Quantise.I16Accepts` | src/codec_can.cc:95-108 | Exactly which scaled values fit a signed field. |
| `Quantise.ScaledError` | src/codec_can.cc:80-108 | A scaled code stands for the value to within half a quantum. |
| `CommandFrames.MakePvt` | src/codec_can.cc:527-550 | Accepts exactly the commands in range; the bits of the frame are the fields end to end, with kp, kd, position, velocity and torque, each nearest on its scale, at bits 3, 15, 24, 40 and 52. |
| `CommandFrames.MakePosition` | src/codec_can.cc:558-573 | Likewise: the float at bit 3, ten times the velocity limit at bit 35, ten times the current limit at bit 50, the reply mode at bit 62. |
| `CommandFrames.MakeVelocity` | src/codec_can.cc:581-594 | Likewise: reply mode at bit 6, the float at bit 8, ten times the current limit at bit 40. |
| `CommandFrames.EncodeTorqueControl` | src/codec_can.cc:602-615 | Likewise: state at bit 3, reply mode at bit 6, signed hundredths at bit 8. |
| `CommandFrames.MakeBrake` | src/codec_can.cc:637-666 | Likewise, for the four kinds of brake command. |
| `CommandFrames.MakeConfigValue` | src/codec_can.cc:287-297 | A value frame carries code and value, for every 16-bit value. |
| `CommandFrames.MakeConfigRange` | src/codec_can.cc:299-309 | A range frame carries code and both ends. |
| `CommandFrames.EncodeConfigPayload` | src/codec_can.cc:674-786 | Every payload type is accepted for exactly its own codes and range; the frame names the code and carries each value on the scale of its code. |
| `CommandFrames.MakeConfigQuery` | src/codec_can.cc:806-814 | A query frame carries its key at bit 8. |
| `CommandFrames.Encode` | src/codec_can.h:294-314 | Any command is encoded exactly if it is in range, to a frame that goes to the address, means the command argument by argument, and is zero after that. |
| `CommandFrames.PlansTile` | src/codec_can.h:82-112 | The fields of every encodable command fill its frame to the last active bit, without gap or overlap, with values that fit. |
| `CommandFrames.FieldReadBack` | src/codec_can.h:72-78 | Reading any field of a command frame gives the quantised value that went in. |
| `CommandFrames.FrameDeterminesFields` | src/codec_can.cc:527-615 | Two field lists of the same shape with the same frame are equal: nothing is lost. |
| `CommandFrames.PlanDeterminesFrame` | src/codec_can.cc:17-22 | Address and fields determine the frame, inactive bytes included. |
| `CommandFrames.PlanMeaning` | src/codec_can.h:82-145 | For every command: it can be encoded exactly if its numbers are finite and less than half a step outside their code range; and a frame that carries its fields has, at the literal bit offsets, its mode, reply and raw values, and for every number the nearest code on its own scale. |
| `CommandFrames.FrameTellsKind` | src/codec_can.h:187-206 | The frame tells the kind of command, and the code of a configuration, but not an energy brake from a regenerative one. |
| `CommandFrames.EnergyBrakeIsRegen` | src/codec_can.cc:648-655 | Those two, with the same threshold, are the same frame, with state 4. |
| `FeedbackBytes.ParsedExactly` | src/codec_can.cc:817-857 | For every frame parsing gives what its bytes say: type and error from the first byte; position, velocity, current and temperatures of a status; float, current and temperature of a position or velocity response; key and status of an acknowledgement; the answer to each query on its scale; the brake state; the two broadcast answers; or the failure. |
| `FeedbackBytes.SaysOne` | src/codec_can.cc:817-857 | What the bytes say is one result. |
| `Feedback.RangeSetThenQuery` | src/codec_can.cc:720-749 | A limit range that is set and queried comes back to within half a quantum at both ends, negative limits included. |
| `Feedback.WholeRangeSetThenQuery` | src/codec_can.cc:709-718 | A gain range given in whole numbers comes back exactly. |
| `Feedback.GainsSetThenQuery` | src/codec_can.cc:762-786 | Loop gains come back to within half a quantum of each gain that is sent. |
| `Feedback.ScalarsSetThenQuery` | src/codec_can.cc:689-718 | Torque ratio and timeout come back, the ratio to within half a quantum and the timeout exactly. |
| `Feedback.AccelerationSetThenQuery` | src/codec_can.cc:150-156 | An acceleration does not: it comes back a hundred times too large, within half a quantum only below 0.005. |
| `Feedback.EchoedPvt` | src/codec_can.cc:399-423 | A motor that reports the codes it was commanded is read within 1.5 steps of the commanded position and velocity. |
| `Feedback.ReportedPositionAsCommand` | src/codec_can.cc:416-417 | Commanding a reported position reproduces its code in the lower half of the range and the next lower code in the upper half. |
| `RingQueue.FixedRingQueue.TryPush` | src/channel.cc:76-84 | On the queue as a sequence: appends, or refuses exactly when full. |
| `RingQueue.FixedRingQueue.TryPop` | src/channel.cc:86-94 | Takes the oldest value, or reports exactly when empty. |
| `RingQueue.FixedRingQueue.Size` | src/channel.cc:96-99 | The number of queued values. |
| `SendQueue.SlotsDisjoint` | src/channel.cc:60-65 | For every accepted slot count the 32-bit products are exact, all slots lie inside the arena and no two overlap. |
| `SendQueue.CarvedUpdate` | src/channel.cc:221-226 | A byte stored through the buffer of a slot changes that byte of that slot and no other slot. |
| `SendQueue.PacketPool.constructor` | src/channel.cc:200-209 | All slots start free, once each, in order. |
| `SendQueue.PacketPool.StoreByte` | src/channel.cc:221-226 | The same, for the arena in place. |
| `SendQueue.PacketPool.AcquireSlot` | src/channel.cc:214-219 | Takes the first free slot; busy exactly when there is none. |
| `SendQueue.PacketPool.ReleaseSlot` | src/channel.cc:228-231 | Erases the size and appends the slot to the free ring. |
| `SendQueue.PacketPool.Enqueue` | src/channel.cc:233-240 | Records the size and appends to the pending ring; when that is full the slot goes back to the free ring. |
| `SendQueue.PacketPool.TryPopPending` | src/channel.cc:242-247 | Hands out the oldest pending slot with its recorded size. |
| `SendQueue.PacketPool.DiscardPending` | src/channel.cc:251-257 | Empties the pending ring, releasing slot after slot. |
| `SendQueue.DiscardedAll` | src/channel.cc:251-257 | With no slot lost or doubled, discarding moves every pending slot, in order, to the free ring and forgets only their sizes. |
| `Channel.PacketBuffer.Move` | src/channel.cc:690-693 | Move construction leaves exactly one owner. |
| `Channel.PacketBuffer.Assign` | src/channel.cc:695-703 | Move assignment releases the slot held before once, and nothing when a buffer is assigned to itself. |
| `Channel.PacketBuffer.Release` | src/channel.cc:705-715 | Releasing gives the slot back once; an empty buffer gives back nothing. |
| `Channel.RealtimeChannel.PrepareSend` | src/channel.cc:668-676 | Cancelled, busy or a buffer owning the first free slot; a failure takes no slot. |
| `Channel.RealtimeChannel.CommitSend` | src/channel.cc:678-688 | A refused packet keeps its slot and its owner; an accepted one is queued and its buffer is left empty. |
| `Channel.RealtimeChannel.Send` | src/channel.cc:657-666 | The slot ends up pending with the bytes in it, or back in the free ring, even when the channel is stopped in between. |
| `TokenBucket.Limiter.constructor` | src/channel.cc:123-127 | The bucket starts full. |
| `TokenBucket.Limiter.Refill` | src/channel.cc:165-176 | Adds the elapsed nanoseconds times the rate, capped at the burst; a clock that stands still or goes back changes nothing. |
| `TokenBucket.Limiter.Wait` | src/channel.cc:132-153 | Does what the waiting loop as a function of its clock readings says, and keeps the content between zero and the burst; an unusable limiter is an invalid argument, and more than a burst is never granted. |
| `TokenBucket.RefillKeepsValid` | src/channel.cc:165-176 | Refilling never loses content and never exceeds the burst. |
| `TokenBucket.WaitKeepsValid` | src/channel.cc:132-153 | However a wait ends, the content is between zero and the burst. |
| `TokenBucket.WaitTicks` | src/channel.cc:178-185 | A requested sleep is the longest whole number of ticks within the exact time, but at least one. |
| `TokenBucket.GrantedAfterTwoWaits` | src/channel.cc:132-185 | With a positive rate and at most a burst requested, two sleeps of at least the requested length are enough, in spite of truncation to whole ticks. |
| `TokenBucket.OneWaitSuffices` | src/channel.cc:178-185 | One sleep of exactly the requested length is enough if and only if the exact time is a whole number of ticks or under one. |
| `TokenBucket.BeyondBurstNeverGranted` | src/channel.cc:132-153 | More than a burst is never granted. |
| `SendPipeline.StepConserves` | src/channel.cc:198-265 | Every step of every thread keeps each slot in exactly one place. |
| `SendPipeline.HandleApart` | src/channel.cc:668-716 | The slot of a live packet buffer is in no ring and not with the transmit thread, and both rings have room for it. |
| `SendPipeline.TurnsAreWait` | src/channel.cc:138-152 | The poll steps of a run and the limiter's waiting loop agree on the same clock readings. |
| `SendOrder.StepKeeps` | src/channel.cc:198-265 | Every step keeps the slots apart and the bytes of every committed packet intact until it is erased. |
| `SendOrder.SlotsNeverLost` | src/channel.cc:228-240 | In every interleaving: no slot is lost, doubled or held twice, freeing never finds the free ring full, and queueing never takes its busy branch. |
| `SendOrder.QuietMeansAllFree` | src/channel.cc:525-587 | In every interleaving: when nothing is held, pending or in flight, every slot is in the free ring once. |
| `SendOrder.WireFollowsCommits` | src/channel.cc:525-587 | In every interleaving: the packets the socket accepts are committed packets in commit order, each with exactly the bytes and size it had at its commit. |
| `SendOrder.TwoStepsAreEnqueue` | src/channel.cc:233-240 | The two steps of queueing, uninterrupted, are the pool's own operation. |
| `SendOrder.TwoStepsAreRelease` | src/channel.cc:228-231 | Likewise for releasing. |
| `SendOrder.SocketDecides` | src/channel.cc:550-577 | An offered packet is on the wire if and only if the socket accepted it; a full socket is tried again, twice at most, and any other answer drops the packet. |
| `SendOrder.OnlySendsReachWire` | src/channel.cc:525-587 | No other step touches the wire. |
| `SendOrder.ThreeStepsAreDiscard` | src/channel.cc:251-257 | Discarding the oldest packet in three steps is one turn of the pool's discarding loop. |
| `WakeUp.WaitingIsRun` | src/channel.cc:299-308 | The waiting loop, notifications included, only restricts when packets are fetched: whatever it does is a run of the pipeline. |
| `WakeUp.StrandedExactly` | src/channel.cc:284-308 | In every run: the transmit thread is parked over a pending packet with no notification on its way if and only if it is parked with none on its way and a packet that was both queued and notified between its last check and its parking is still pending; then all pending packets are such. |
| `WakeUp.StrandingHappens` | src/channel.cc:284-308 | That can happen to the first packet of any size, from every initial state. |
| `WakeUp.NeverStranded` | src/channel.cc:284-308 | In no run where no notification comes between check and parking, as when notifying takes the mutex, is a packet left behind. |
| `WakeUp.StrandedStays` | src/channel.cc:299-308 | A packet left behind stays, and nothing reaches the wire, until another is queued, the thread wakes spuriously or it is stopped. |
| `WakeUp.NotificationServes` | src/channel.cc:299-308 | A notification that finds the thread parked makes it fetch the oldest pending packet. |
| `WireBandwidth.GrantsLimited` | src/channel.cc:132-176 | In every run: between any two grants no more than a burst plus rate times the time between them is granted. |
| `WireBandwidth.WireLimited` | src/channel.cc:525-587 | In every run: in any window of time at most 1024 + 512 bytes plus rate times the window reach the wire. |
| `WireBoundTight.BoundIsTight` | src/channel.cc:484-489 | The wire bound is exact: whenever the limiter has had time to earn a packet there is a run that puts 1024 + 512 bytes on the wire at one instant. |
| `WireBoundTight.EveryWindowIsTight` | src/channel.cc:132-176 | For every window length there is a run that puts a burst, one packet and all whole bytes earned in that time on the wire within such a window, at any rate at which a tick earns at most a packet; no window of that length in any run carries more. |
| `WireBandwidth.WindowBound` | src/channel.cc:535-577 | The wire bound follows from the grant bound because grants and sends alternate. |
| `DeviceMotor.MotorDevice.TakeTicket` | src/device_motor.cc:187-194 | Tickets are positive and never repeat. |
| `DeviceMotor.MotorDevice.Store` | src/device_motor.cc:196-317 | Field by field: each takes what the message carries for it, converted to degrees or revolutions per minute, with the message's time and ticket, and keeps its sample if that is nothing. |
| `DeviceMotor.MotorDevice.Apply` | src/device_motor.cc:187-194 | Takes the next ticket and stores with it; reports false only for acknowledgements. |
| `DeviceMotor.SchedulesAreHistories` | src/device_motor.cc:187-194 | Whatever the interleaving of tickets and writes, the writes carry distinct positive tickets. |
| `DeviceMotor.CoherentExactly` | include/fleet/device_motor.h:212-227 | After any history of writes in any order, the snapshot is coherent if and only if the last write that was not an acknowledgement was a status message, and then all four fields are that message's. |
| `DeviceMotor.FreshExactly` | include/fleet/device_motor.h:229-231 | Fresh means exactly that, with that message's age within the limit. |
| `DeviceMotor.UuidExactly` | src/device_motor.cc:45-57 | After any history each part of the unique id is marked exactly if a fragment with its index arrived, and holds the last one. |
| `DeviceMotor.UuidCompleteExactly` | include/fleet/device_motor.h:201-206 | The id is complete if and only if all three fragments arrived, and is then their concatenation. |
| `DeviceMotor.AnswersExactly` | src/device_motor.cc:236-313 | Each of the eighteen separately assigned fields holds the last answer to the query of its own code, and is received exactly if there was one. |
| `DeviceMotor.FieldsExactly` | src/device_motor.cc:196-317 | After any history error, position, velocity, current, both temperatures and brake state are the last values that messages carried for them, with their times and tickets. |
| `DeviceMotor.ParsedIsShaped` | src/codec_can.cc:492-505 | A parsed query answer has the type its code calls for. |
| `RouteTable.BoundLookup` | src/driver_motor.cc:233-240 | Binding, growing rows as needed, changes one address only. |
| `RouteTable.TableIsMap` | src/driver_motor.cc:227-242 | After any sequence of binds the growing table answers like a map from addresses to devices. |
| `DriverMotor.SendPacket` | src/driver_motor.cc:248-262 | Up to 32 valid frames always fit a slot, so only the channel can refuse; every failure returns the slot once, and on success the slot is queued with the packet of these frames, from UDP to CAN, in it. |
| `DriverMotor.MotorDriver.BindMotor` | src/driver_motor.cc:227-242 | Appends to the forward index and sets the reverse index; every route leads to a bound motor from its own address. |
| `DriverMotor.MotorDriver.HandleFrame` | src/driver_motor.cc:287-310 | Updates the motor at the frame's address, if any, field by field with what the bytes of the frame say, and no other; the broadcast id updates none. |
| `DriverMotor.MotorDriver.HandlePacket` | src/driver_motor.cc:272-285 | Every motor ends in the state that its own frames, among those delivered, lead to. |
| `DriverMotor.BroadcastIdNeverUpdated` | src/driver_motor.cc:292-295 | A motor bound at id 0x7FF is never updated, whatever arrives. |
| `Runtime.BroadcastConfigIsValid` | src/runtime.cc:95-97 | Yet a configuration with a motor at id 0x7FF passes every check. |
| `DriverMotor.EncodedIsValid` | src/codec_can.h:58-61 | A command to an id of at most 0x7FF encodes to a frame that the packet codec accepts. |
| `DriverMotor.Batch.Push` | src/driver_motor.h:59-71 | Collects one encoded frame, or changes nothing on an unknown device or a rejected command; the thirty-second frame sends the packet. |
| `DriverMotor.Batch.Flush` | src/driver_motor.h:73-80 | Hands over exactly what was collected; nothing when nothing was. |
| `Runtime.ValidateConfig` | src/runtime.cc:79-107 | Accepts exactly the configurations without a fault: an empty or repeated name, an unknown channel, an id above 0x7FF, a repeated address, a used channel without bandwidth or slots. |
| `Runtime.ValidExactly` | src/runtime.cc:79-107 | Any single one of these faults makes a configuration invalid, and nothing else does. |
| `Runtime.Runtime.InitDrivers` | src/runtime.cc:109-117 | The drivers are those of the used channels, in the order of the channels; fails exactly when a used channel's slots overflow 32 bits or its socket does not open. |
| `Runtime.Runtime.BindMotors` | src/runtime.cc:119-138 | Fails exactly on a motor without driver or with an unknown model; on success all motors are wired up. |
| `Runtime.Runtime.Init` | src/runtime.cc:63-77 | Succeeds exactly when the configuration is valid, the channels open and the models are known, and says which failed first. |
| `Runtime.Runtime.Receive` | src/driver_motor.cc:272-310 | After any datagrams on any channels at any times, every motor is in the state that the frames delivered on its own channel lead to. |
| `Runtime.OneMoreWired` | src/runtime.cc:119-138 | Binding the next motor keeps both indices right for all motors bound before. |
| `Runtime.RoutedExactly` | src/driver_motor.cc:298-309 | After initialisation a frame received on channel k is routed to motor i if and only if motor i belongs to that channel, the port and id are its own and the id is not 0x7FF. |
| `Runtime.BindingsApart` | src/runtime.cc:182-184 | No two devices share a binding. |
| `Runtime.Runtime.SendMotorCommands` | src/runtime.cc:204-233 | Per driver, the packets handed over are, end to end and in order, the encodings of exactly its bound and encodable commands; all but the last hold 32 frames, none is empty. The result is the last error among those of the commands, in order, and of the flushes: an invalid argument for a bad command, or the verdict on the packet that a command completes or a flush sends. |
| `Runtime.OnlyChannelRefuses` | src/runtime.cc:91-97 | With a valid configuration every packet encodes, so only the channel can refuse one. |
| `PvtLoop.RunStablePvtLoop` | pvt/motor_pvt_control.cc:366-457 | The exact statistics, counted off the cycles, commands and outcome of every run, for any clock, feedback and command results; it terminates. After the seed there is one command for every cycle with a fresh snapshot without error, in order, for the point that the trajectory has reached at its wake-up, with the fixed gains. |
| `PvtLoop.RanToOne` | pvt/motor_pvt_control.cc:366-457 | The surroundings determine how far a phase runs and how it ends. |
| `PvtLoop.Accounting` | pvt/motor_pvt_control.cc:77-96 | cycles + 1 = stale + rejected + sent + errors, and missed deadlines never exceed cycles. |
| `PvtLoop.StaleBounded` | pvt/motor_pvt_control.cc:402-423 | A successful phase has at most twice as many stale cycles as usable snapshots, the seed included; a failed one at most one more. |
| `PvtLoop.CommandsFollowStatus` | pvt/motor_pvt_control.cc:402-440 | Every command after the seed follows a last reply that is a status message without error, at most 2 ms old. |
| `PvtLoop.AnsweredPhase` | pvt/motor_pvt_control.cc:381-423 | Late wake-ups: if every look finds the answer to the newest command, a delay d after it and so before that look, a phase succeeds if and only if no gap between wake-ups, the last two cycles aside, exceeds d by more than 2 ms; otherwise it ends three cycles after the first gap that does. |
| `PvtLoop.AnsweredOnSchedule` | pvt/motor_pvt_control.cc:26-31 | When, with answers before the next look, all cycles wake equally late and three or more are planned, that is the case if and only if d is at least half a millisecond plus the lateness; a quicker motor gets the seed as its only command. |
| `PvtLoop.AnsweredOnTime` | pvt/motor_pvt_control.cc:381-423 | The exact condition for every delay d of an answer, longer than a cycle included, when cycles wake on time and three or more are planned: success if and only if for m = 1, 2 or 3 the answer comes at most 2 ms before the m-th look after its command, and then every m-th cycle commands; otherwise three stale cycles and the seed alone. |
| `PvtLoop.AnsweringPhaseRuns` | pvt/motor_pvt_control.cc:366-457 | For every delay and every number of cycles there is such a motor, and its phase succeeds or fails as stated. |
| `PvtLoop.PromptAnswerAborts` | pvt/motor_pvt_control.cc:402-423 | Whatever the snapshots are otherwise, if the first three carry only times earlier than half a millisecond after the start, the phase fails after three cycles with the seed as its only command. |
| `Producers.WorkIsRun` | src/driver_motor.cc:248-262 | Producers that take a slot, store the bytes of an encoded batch, record its size and queue it, or give up on the way, interleaved in any way with each other and all other threads, are a run of the pipeline. |
| `Producers.CommitsAreEncodings` | src/driver_motor.cc:248-262 | In every such interleaving each commit is, byte for byte, the encoding of the batch its producer was sending. |
| `Producers.LastAdvanceCommits` | src/driver_motor.cc:261-261 | A producer that has stored its packet and recorded the size commits exactly that packet next. |
| `CommandsOnWire.QueuedAreBegun` | src/driver_motor.cc:248-262 | In every interleaving, what is queued through a handle of its own is, in order, what its sender set out to send, less what was refused or given up. |
| `CommandsOnWire.HeardWasBegun` | src/channel.cc:525-587 | The frames decoded from those of its packets that reach the wire are, in order, frames it set out to send. |
| `CommandsOnWire.CommandsReachTheWire` | src/runtime.cc:204-233 | From orders to frames: for any number of calls for motor commands, whatever else uses driver k's channel, the frames decoded from the packets of these calls on its wire are encodings of good orders bound to driver k, each at most once and in the order given. |
| `CommandsOnWire.OnlySenderIsHeard` | src/channel.cc:525-587 | If nobody else sends on that channel, those are all the frames decoded from its wire. |
| `EndToEnd.OrderAndHear` | src/runtime.cc:204-233 | One call, for every driver at once: the frames handed over are, one for one and in order, the orders for its channel, each argument in its place and at the configured address, 32 to a packet. Whatever its channel does afterwards, those of them heard on the wire are some of these orders, in order and each at most once. |
| `EndToEnd.WireDecodes` | src/channel.cc:525-587 | In every interleaving whose commits are encodings, each packet on the wire decodes to its whole batch, in commit order. |
| `EndToEnd.BatchesReachTheWire` | src/driver_motor.cc:248-262 | In every interleaving of such producers with all other threads, with nothing assumed about the commits, each packet on the wire is laid out as the whole batch of a producer, with type 1, and decodes to it without error, in commit order. |
| `EndToEnd.ServedPacket` | src/channel.cc:525-587 | A packet that is granted and accepted is on the wire next, and its slot is free again. |
| `EndToEnd.ThreeAttempts` | src/channel.cc:550-577 | Two refusals by a full socket are survived; a third drops the packet. |
| `EndToEnd.FedIsHistory` | src/driver_motor.cc:272-310 | A motor that frames reach in any packets at any times is in the state of the history of its routed, parsed frames. |
| `EndToEnd.CoherentFromFrames` | src/driver_motor.cc:272-310 | Its snapshot is coherent exactly when the last of them that was not an acknowledgement was a status message, and is then that message with its time. |
| `EndToEnd.StateFromFrames` | src/driver_motor.cc:272-310 | Likewise everything sampled is what the motor's frames last said of it. |
| `EndToEnd.StartAndReceive` | src/runtime.cc:63-77 | After a start, which succeeds exactly for a valid configuration with open channels and known models, and any datagrams on any channels at any times, every sampled field of every configured motor is what the bytes of its own frames last said of it, those being the ones delivered on its channel with its port and id, if the id is not 0x7FF; and its snapshot is coherent exactly when the last of them but acknowledgements was a status message. |

## Left out

- Sockets, asio, threads and their joining, sleeps, logging, the Qt tool and the other Python code: plumbing. `send_to` is a choice of accepted, would-block, aborted or failed.
- `udp_channel` and `rx_loop`: the first reuses the same pool, the second only receives and forwards.
- `token_bucket::reset`: not called in the code modelled, and it would break the window bound.
- IEEE 754 rounding: quantisers, limiter amounts and targets are exact reals (or not finite); 32-bit float fields are bit patterns and are not interpreted.
- Lengths and offsets are unbounded numbers, so `bit_offset + bit_len` does not wrap; 32-bit products and shifts where they matter are reduced explicitly.
- `sample_seq_` is unbounded: 64-bit wrap-around of the tickets is not modelled.
- Writing through a buffer after its commit: the model's producers store bytes only while they hold the slot, as the interface asks.
- The stop flag and a closed socket are a step that can drop the packet in service at any time, which allows more runs than the code has; a stopped transmit thread is a run without its steps.
- Eventual delivery of every committed packet: the code promises none, since a stop may come at any time and, as WakeUp.StrandingHappens shows, a packet may wait for the next one. What keeps a thread that is not parked from running on is scheduling, which is not modelled.
- `pending_mutex_` keeps nobody out, as only the transmit thread takes it, and is not part of the state.
- DriverMotor.SendPacket: encodes into a buffer of its own and copies into the slot, where the source encodes in place, with the same bytes and sizes as result; it assumes that free and pending slots do not outnumber the slots, which SendOrder.SlotsNeverLost shows of every run.
- DriverMotor.MotorDriver.Send: the channel's answers are arbitrary, since other threads share it; what a channel does with one packet is stated by SendPacket.
- The getters of a motor's samples, and the values they take from the motor table when nothing was received.
- The contents of the motor table: a map from model names to current ranges.
- Routing ignores the extended flag, as the source does.
- `net_control_command`, `discard_pending_command` dispatch, `init` and `shutdown` of the global runtime: no state worth a theorem.
- The Python tool apart from its checksum, `build_frame` and `parse_frame`; messages whose id already has bit 31 set are not given to `build_frame`.
- Packets are handled one after the other; the receive threads of different channels touch different motors.
- The trajectory functions and log timing of the control program.
