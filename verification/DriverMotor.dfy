/** One driver: the motors on one channel, in both directions, and the packets sent for them. */
module DriverMotor {
  import opened Bits
  import opened Fleet
  import opened Checksum
  import opened CodecMotor
  import opened CommandFrames
  import opened Feedback
  import FeedbackBytes
  import opened DeviceMotor
  import opened RouteTable
  import opened SendQueue
  import opened Channel

  const BROADCAST_CAN_ID: nat := 0x7FF

  // ---------------------------------------------------------------------------------------------
  // Sending one packet
  // ---------------------------------------------------------------------------------------------

  /** What the channel does with a packet; other threads and the stop flag decide. */
  datatype Answer = NoSlot | StoppedBefore | StoppedAfter | Accepting

  predicate Encodable(frames: seq<CanFrame>) {
    |frames| <= MAX_FRAMES_PER_PACKET && AllValid(frames)
  }

  function Verdict(a: Answer, frames: seq<CanFrame>): Err {
    match a
    case NoSlot => Busy
    case StoppedBefore => Cancelled
    case StoppedAfter => if Encodable(frames) then Cancelled else ProtocolError
    case Accepting => if Encodable(frames) then Ok else ProtocolError
  }

  function AnswerOf(stopped: bool, p: Pool, stopMeanwhile: bool): Answer {
    if stopped then StoppedBefore
    else if p.free == [] then NoSlot
    else if stopMeanwhile then StoppedAfter
    else Accepting
  }

  /** What sending leaves in the pool. */
  function Sent(a: Answer, p: Pool, frames: seq<CanFrame>): Pool
    requires FreeFits(p) && (a == StoppedAfter || a == Accepting ==> p.free != [])
  {
    if a == NoSlot || a == StoppedBefore then p
    else if !Encodable(frames) then Released(PopFree(p), p.free[0])
    else
      var packet := Encoding(TYPE_UDP2CAN, frames);
      var filled := Filled(PopFree(p), p.free[0], packet);
      if a == StoppedAfter then Released(filled, p.free[0]) else Enqueued(filled, p.free[0], |packet|)
  }

  /** Free slots exist and have room for a packet. */
  predicate FreeFits(p: Pool) {
    && |p.regions| == p.Slots()
    && (forall i :: 0 <= i < |p.free| ==> p.free[i] < p.Slots())
    && (forall i :: 0 <= i < |p.regions| ==> |p.regions[i]| == MOTOR_UDP_PACKET_CAP)
  }

  /** The slot queued last holds the packet of these frames, from UDP to CAN, and its size. */
  ghost predicate LastQueued(p: Pool, frames: seq<CanFrame>) {
    && p.pending != []
    && var slot := p.pending[|p.pending| - 1];
       && slot < p.Slots() && slot < |p.regions| && p.sizes[slot] <= |p.regions[slot]|
       && Layout(p.regions[slot][..p.sizes[slot]], 1, frames)
  }

  lemma SentIsQueued(p: Pool, frames: seq<CanFrame>)
    requires FreeFits(p) && p.free != [] && Encodable(frames) && |p.pending| < p.Slots()
    ensures LastQueued(Sent(Accepting, p, frames), frames)
  {
    hide Layout, Encoding;
    EncodingLayout(TYPE_UDP2CAN, frames);
    var packet, slot := Encoding(TYPE_UDP2CAN, frames), p.free[0];
    var q := Sent(Accepting, p, frames);
    assert q.pending == p.pending + [slot];
    assert q.regions[slot][..|packet|] == packet;
  }

  /**
   Encodes frames into a slot and queues it. Up to 32 valid frames always fit, so only the channel can
   refuse them; every refusal gives the slot back.
   */
  method SendPacket(channel: RealtimeChannel, tables: seq<seq<Word>>, frames: seq<CanFrame>, stopMeanwhile: bool)
    returns (e: Err)
    requires channel.Valid() && AreSlices(tables)
    requires |channel.pool.View().free| + |channel.pool.View().pending| <= channel.pool.View().Slots()
    modifies channel.Footprint()
    ensures channel.Valid() && FreeFits(old(channel.pool.View()))
    ensures frames == [] ==> e == Ok && channel.pool.View() == old(channel.pool.View())
    ensures frames != [] ==>
              var a := AnswerOf(old(channel.stopped), old(channel.pool.View()), stopMeanwhile);
              e == Verdict(a, frames) && channel.pool.View() == Sent(a, old(channel.pool.View()), frames)
    ensures frames != [] && e == Ok ==> LastQueued(channel.pool.View(), frames)
  {
    hide PacketPool.WellFormed, PacketPool.View, AreSlices, Encoding, Filled, Released, Enqueued, AllValid;
    if frames == [] {
      return Ok;
    }
    ghost var before := channel.pool.View();
    var prepared := channel.PrepareSend();
    if prepared.Failure? {
      return prepared.error;
    }
    channel.stopped := stopMeanwhile;
    e := EncodeAndCommit(channel, tables, prepared.value, frames);
    if e == Ok {
      SentIsQueued(before, frames);
    }
  }

  method EncodeAndCommit(channel: RealtimeChannel, tables: seq<seq<Word>>, packet: PacketBuffer, frames: seq<CanFrame>)
    returns (e: Err)
    requires channel.Valid() && AreSlices(tables)
    requires packet.owner == channel && packet.slot < channel.pool.View().Slots()
    requires |channel.pool.View().pending| < channel.pool.View().Slots()
    modifies packet, channel.pool.Repr()
    ensures channel.Valid() && FreeFits(old(channel.pool.View())) && old(packet.slot) < old(channel.pool.View()).Slots()
    ensures !Encodable(frames) ==>
              && e == ProtocolError
              && channel.pool.View() == Released(old(channel.pool.View()), old(packet.slot))
    ensures Encodable(frames) ==>
              && e == (if channel.stopped then Cancelled else Ok)
              && var bytes := Encoding(TYPE_UDP2CAN, frames);
                 var filled := Filled(old(channel.pool.View()), old(packet.slot), bytes);
                 channel.pool.View() ==
                 if channel.stopped then Released(filled, old(packet.slot))
                 else Enqueued(filled, old(packet.slot), |bytes|)
  {
    hide PacketPool.WellFormed, PacketPool.View, AreSlices, Encoding, Filled, Released, Enqueued, AllValid;
    var buffer := new Byte[MOTOR_UDP_PACKET_CAP](_ => 0);
    var size := EncodeInto(tables, buffer, TYPE_UDP2CAN, frames);
    if size.Failure? {
      packet.Release();
      return size.error;
    }
    e := channel.CopyAndCommit(packet, buffer[..size.value]);
  }

  // ---------------------------------------------------------------------------------------------
  // Receiving
  // ---------------------------------------------------------------------------------------------

  /** A motor as a value: its readings and how many tickets it has issued. */
  datatype Motor = Motor(readings: Readings, tickets: nat)

  /** What one routed frame does to the motor it is routed to. */
  function FedFrame(m: Motor, currentRange: Option<(real, real)>, frame: CanFrame, at: int): Motor
  {
    var response := ParseFeedback(frame, currentRange);
    if response.Failure? then m
    else
      ParsedIsShaped(frame, currentRange);
      Motor(Written(m.readings, Write(response.value, at, m.tickets + 1)), m.tickets + 1)
  }

  /** What a motor makes of a response: a ticket, and each field takes what the message carries for it. */
  ghost predicate Heeds(m: Motor, n: Motor, response: Result<Feedback>, at: int) {
    if response.Failure? then n == m
    else
      && n.tickets == m.tickets + 1
      && Takes(m.readings, n.readings, Write(response.value, at, n.tickets))
  }

  /** A routed frame has the effect of what its bytes say. */
  lemma FedIsHeeded(m: Motor, currentRange: Option<(real, real)>, frame: CanFrame, at: int)
    ensures Heeds(m, FedFrame(m, currentRange, frame, at), FeedbackBytes.Said(frame, currentRange), at)
  {
    hide ParseFeedback, Written, Shaped, Takes, FeedbackBytes.Said;
    FeedbackBytes.SaidIsParsed(frame, currentRange);
    var response := ParseFeedback(frame, currentRange);
    if response.Success? {
      ParsedIsShaped(frame, currentRange);
      WrittenTakes(m.readings, Write(response.value, at, m.tickets + 1));
    }
  }

  /** Is this frame routed to this motor? */
  predicate Routed<T(==)>(routes: seq<seq<Option<T>>>, d: T, frame: CanFrame) {
    frame.id != BROADCAST_CAN_ID && Lookup(routes, frame.port, frame.id) == Some(d)
  }

  /** A frame and when the packet that brought it was received. */
  datatype Arrival = Arrival(frame: CanFrame, at: int)

  /** The frames of one packet all carry its time. */
  function Stamped(frames: seq<CanFrame>, at: int): (a: seq<Arrival>)
    ensures |a| == |frames|
  {
    seq(|frames|, i requires 0 <= i < |frames| => Arrival(frames[i], at))
  }

  /** Motor `d` after a list of arrivals: those routed to it count, the others do not. */
  function Fed<T(==)>(
    m: Motor, currentRange: Option<(real, real)>, arrivals: seq<Arrival>,
    routes: seq<seq<Option<T>>>, d: T): Motor
    decreases |arrivals|
  {
    if arrivals == [] then m
    else
      var before := Fed(m, currentRange, arrivals[..|arrivals| - 1], routes, d);
      var a := arrivals[|arrivals| - 1];
      if Routed(routes, d, a.frame) then FedFrame(before, currentRange, a.frame, a.at) else before
  }

  lemma {:induction false} FedConcat<T>(
    m: Motor, currentRange: Option<(real, real)>, a: seq<Arrival>, b: seq<Arrival>,
    routes: seq<seq<Option<T>>>, d: T)
    ensures Fed(m, currentRange, a + b, routes, d) ==
            Fed(Fed(m, currentRange, a, routes, d), currentRange, b, routes, d)
    decreases |b|
  {
    hide Routed, FedFrame;
    if b == [] {
      assert a + b == a;
    } else {
      assert (a + b)[..|a + b| - 1] == a + b[..|b| - 1];
      FedConcat(m, currentRange, a, b[..|b| - 1], routes, d);
    }
  }

  /** A motor to which no frame is routed stays as it is. */
  lemma {:induction false} FedNothing<T>(
    m: Motor, currentRange: Option<(real, real)>, arrivals: seq<Arrival>, routes: seq<seq<Option<T>>>, d: T)
    requires forall frame :: !Routed(routes, d, frame)
    ensures Fed(m, currentRange, arrivals, routes, d) == m
    decreases |arrivals|
  {
    hide Routed;
    if arrivals != [] {
      FedNothing(m, currentRange, arrivals[..|arrivals| - 1], routes, d);
    }
  }

  ghost function StateOf(d: MotorDevice): Motor
    reads d
  {
    Motor(d.View(), d.sampleSeq)
  }

  class MotorDriver {
    const name: string
    const answers: nat -> Answer // how the channel will answer each packet in turn
    var devices: seq<MotorDevice>
    var routes: seq<seq<Option<MotorDevice>>>
    var handed: seq<seq<CanFrame>> // the packets handed to the channel so far

    /** Routes lead to bound motors, each from its own address. */
    ghost predicate Valid()
      reads `devices, `routes
    {
      forall p, i :: Lookup(routes, p, i).Some? ==>
        var d := Lookup(routes, p, i).value; d in devices && d.address.port == p && d.address.id == i
    }

    constructor (name: string, answers: nat -> Answer)
      ensures Valid() && this.name == name && this.answers == answers
      ensures devices == [] && routes == [] && handed == []
    {
      this.name := name;
      this.answers := answers;
      devices, routes, handed := [], [], [];
    }

    /** Binds a motor; the result is its forward index, and its address is the reverse one. */
    method BindMotor(device: MotorDevice) returns (slot: nat)
      requires Valid()
      modifies this`devices, this`routes
      ensures Valid() && slot == |old(devices)| && devices == old(devices) + [device]
      ensures routes == Bound(old(routes), device.address.port, device.address.id, device)
    {
      slot := |devices|;
      devices := devices + [device];
      var port: nat, id: nat := device.address.port, device.address.id;
      if |routes| <= port {
        routes := Grown(routes, port + 1, []);
      }
      var row := routes[port];
      if |row| <= id {
        row := Grown(row, id + 1, None);
      }
      routes := routes[port := row[id := Some(device)]];
      assert routes == Bound(old(routes), port, id, device);
      forall p, i
        ensures Lookup(routes, p, i) == if p == port && i == id then Some(device) else Lookup(old(routes), p, i)
      {
        BoundLookup(old(routes), port, id, device, p, i);
      }
    }

    /** Hands a packet to the channel, which answers as it will; `SendPacket` says what it then does. */
    method Send(frames: seq<CanFrame>) returns (e: Err)
      modifies this`handed
      ensures frames == [] ==> e == Ok && handed == old(handed)
      ensures frames != [] ==>
                && handed == old(handed) + [frames]
                && e == Verdict(answers(|old(handed)|), frames)
    {
      if frames == [] {
        return Ok;
      }
      e := Verdict(answers(|handed|), frames);
      handed := handed + [frames];
    }

    /** A frame updates the motor at its address, if one is bound there, and no other. */
    method HandleFrame(frame: CanFrame, at: int)
      requires Valid()
      modifies set d | d in devices
      ensures forall d :: d in devices ==>
                StateOf(d) == if Routed(routes, d, frame) then FedFrame(old(StateOf(d)), d.currentRange, frame, at)
                              else old(StateOf(d))
      ensures forall d :: d in devices ==>
                if frame.id != 0x7FF && Lookup(routes, frame.port, frame.id) == Some(d)
                then Heeds(old(StateOf(d)), StateOf(d), FeedbackBytes.Said(frame, d.currentRange), at)
                else StateOf(d) == old(StateOf(d))
    {
      hide ParseFeedback, Written, Shaped, Heeds, FeedbackBytes.Said, Takes;
      forall d | d in devices
        ensures Heeds(StateOf(d), FedFrame(StateOf(d), d.currentRange, frame, at),
                      FeedbackBytes.Said(frame, d.currentRange), at)
      {
        FedIsHeeded(StateOf(d), d.currentRange, frame, at);
      }
      if frame.id == BROADCAST_CAN_ID {
        return;
      }
      if frame.port >= |routes| || frame.id >= |routes[frame.port]| || routes[frame.port][frame.id].None? {
        return;
      }
      var device := routes[frame.port][frame.id].value;
      assert Lookup(routes, frame.port, frame.id) == Some(device);
      var response := ParseFeedback(frame, device.currentRange);
      if response.Failure? {
        return;
      }
      ParsedIsShaped(frame, device.currentRange);
      var _ := device.Apply(response.value, at);
    }

    /** Every frame of a packet that decodes, up to the first bad one, is handled in order. */
    method HandlePacket(tables: seq<seq<Word>>, bytes: seq<Byte>, at: int) returns (decoded: Decoded)
      requires AreSlices(tables)
      requires Valid()
      modifies set d | d in devices
      ensures DecodesTo(bytes, decoded)
      ensures forall d :: d in devices ==>
                StateOf(d) == Fed(old(StateOf(d)), d.currentRange, Stamped(decoded.delivered, at), routes, d)
    {
      hide AreSlices, DecodesTo, FedFrame;
      decoded := DecodeEach(tables, bytes, true);
      var frames := decoded.delivered;
      ghost var all := Stamped(frames, at);
      assert all[..0] == [];
      for k := 0 to |frames|
        invariant forall d :: d in devices ==>
                    StateOf(d) == Fed(old(StateOf(d)), d.currentRange, all[..k], routes, d)
      {
        HandleFrame(frames[k], at);
        assert all[..k + 1][..k] == all[..k];
      }
      assert all[..|frames|] == all;
    }
  }

  // ---------------------------------------------------------------------------------------------
  // Batches of commands
  // ---------------------------------------------------------------------------------------------

  ghost predicate EncodedAs(frame: CanFrame, address: Address, command: Command) {
    PlanOf(command).Success? && Carries(frame, address, PlanOf(command).value)
  }

  /** Commands to motors at legal addresses encode to valid frames. */
  lemma EncodedIsValid(frame: CanFrame, address: Address, command: Command)
    requires EncodedAs(frame, address, command) && address.id <= 0x7FF
    ensures frame.Valid()
  {
    hide PlanOf;
  }

  class Batch {
    const driver: MotorDriver
    const frames: array<CanFrame>
    var count: nat

    ghost predicate Valid()
      reads this
    {
      frames.Length == MAX_FRAMES_PER_PACKET && count < MAX_FRAMES_PER_PACKET
    }

    /** The frames collected and not yet sent. */
    ghost function Pending(): (q: seq<CanFrame>)
      reads this, frames
      requires Valid()
      ensures |q| == count
    {
      frames[..count]
    }

    constructor (driver: MotorDriver)
      ensures Valid() && fresh(frames) && this.driver == driver && Pending() == []
    {
      this.driver := driver;
      frames := new CanFrame[MAX_FRAMES_PER_PACKET](_ => CanFrame(0, 0, false, EMPTY_DATA, 0));
      count := 0;
    }

    /** Encodes a command for one of the driver's motors; the thirty-second frame sends the packet. */
    method Push(slot: nat, command: Command) returns (e: Err, ghost added: seq<CanFrame>)
      requires Valid()
      modifies this`count, frames, driver`handed
      ensures Valid()
      ensures slot >= |driver.devices| || PlanOf(command).Failure? ==>
                && e == InvalidArgument && added == []
                && Pending() == old(Pending()) && driver.handed == old(driver.handed)
      ensures slot < |driver.devices| && PlanOf(command).Success? ==>
                && |added| == 1 && EncodedAs(added[0], driver.devices[slot].address, command)
                && var q := old(Pending()) + added;
                   if |q| < MAX_FRAMES_PER_PACKET then
                     e == Ok && Pending() == q && driver.handed == old(driver.handed)
                   else
                     && e == Verdict(driver.answers(|old(driver.handed)|), q)
                     && Pending() == [] && driver.handed == old(driver.handed) + [q]
    {
      hide PlanOf, Carries, Verdict, Acceptable, Means;
      added := [];
      if slot >= |driver.devices| {
        return InvalidArgument, [];
      }
      var frame := Encode(driver.devices[slot].address, command);
      if frame.Failure? {
        return frame.error, [];
      }
      frames[count] := frame.value;
      count := count + 1;
      added := [frame.value];
      assert frames[..count] == old(Pending()) + added;
      if count == MAX_FRAMES_PER_PACKET {
        e := FlushAll();
      } else {
        e := Ok;
      }
    }

    /** Sends what is collected, if anything. Frames the channel refuses are dropped. */
    method Flush() returns (e: Err)
      requires Valid()
      modifies this`count, driver`handed
      ensures Valid() && Pending() == []
      ensures old(Pending()) == [] ==> e == Ok && driver.handed == old(driver.handed)
      ensures old(Pending()) != [] ==>
                && driver.handed == old(driver.handed) + [old(Pending())]
                && e == Verdict(driver.answers(|old(driver.handed)|), old(Pending()))
    {
      if count == 0 {
        return Ok;
      }
      e := FlushAll();
    }

    method FlushAll() returns (e: Err)
      requires frames.Length == MAX_FRAMES_PER_PACKET && 0 < count <= MAX_FRAMES_PER_PACKET
      modifies this`count, driver`handed
      ensures count == 0
      ensures driver.handed == old(driver.handed) + [old(frames[..count])]
      ensures e == Verdict(driver.answers(|old(driver.handed)|), old(frames[..count]))
    {
      e := driver.Send(frames[..count]);
      count := 0;
    }
  }

  /** Whatever arrives, a motor bound at the broadcast id is never updated, though it can be bound. */
  lemma BroadcastIdNeverUpdated(driver: MotorDriver, d: MotorDevice, m: Motor, arrivals: seq<Arrival>)
    requires driver.Valid() && d.address.id == 0x7FF
    ensures Fed(m, d.currentRange, arrivals, driver.routes, d) == m
  {
    hide Fed;
    FedNothing(m, d.currentRange, arrivals, driver.routes, d);
  }
}
