/** The runtime: a configuration checked, drivers and motors wired up, commands spread over drivers. */
module Runtime {
  import opened Bits
  import opened Fleet
  import opened Checksum
  import opened CodecMotor
  import opened CommandFrames
  import opened DeviceMotor
  import opened RouteTable
  import opened DriverMotor
  import SendQueue
  import Channel

  datatype ChannelConfig = ChannelConfig(name: string, maxBandwidthBps: nat, sendQueueSlots: nat)

  datatype MotorConfig = MotorConfig(name: string, channel: string, model: string, canPort: Byte, canId: U32)

  datatype Config = Config(channels: seq<ChannelConfig>, motors: seq<MotorConfig>)

  // ---------------------------------------------------------------------------------------------
  // Checking a configuration
  // ---------------------------------------------------------------------------------------------

  ghost predicate ChannelsNamed(c: Config) {
    && (forall i :: 0 <= i < |c.channels| ==> c.channels[i].name != "")
    && forall i, j :: 0 <= i < j < |c.channels| ==> c.channels[i].name != c.channels[j].name
  }

  predicate SameAddress(a: MotorConfig, b: MotorConfig) {
    a.channel == b.channel && a.canPort == b.canPort && a.canId == b.canId
  }

  ghost predicate MotorSound(c: Config, m: MotorConfig) {
    && m.name != "" && m.canId <= 0x7FF
    && exists k :: 0 <= k < |c.channels| && c.channels[k].name == m.channel
  }

  ghost predicate MotorsSound(c: Config) {
    && (forall i :: 0 <= i < |c.motors| ==> MotorSound(c, c.motors[i]))
    && forall i, j :: 0 <= i < j < |c.motors| ==>
         c.motors[i].name != c.motors[j].name && !SameAddress(c.motors[i], c.motors[j])
  }

  ghost predicate Used(c: Config, channel: ChannelConfig) {
    exists i :: 0 <= i < |c.motors| && c.motors[i].channel == channel.name
  }

  ghost predicate ChannelsFunded(c: Config) {
    forall k :: 0 <= k < |c.channels| && Used(c, c.channels[k]) ==>
      c.channels[k].maxBandwidthBps != 0 && c.channels[k].sendQueueSlots != 0
  }

  ghost predicate ValidConfig(c: Config) {
    ChannelsNamed(c) && MotorsSound(c) && ChannelsFunded(c)
  }

  /** What can be wrong with a configuration, at channel or motor i, or between i and j. */
  predicate Faulty(c: Config, i: nat, j: nat) {
    || (i < |c.channels| && c.channels[i].name == "")
    || (i < j < |c.channels| && c.channels[i].name == c.channels[j].name)
    || (i < |c.motors| && (c.motors[i].name == "" || c.motors[i].canId > 0x7FF))
    || (i < |c.motors| && forall k :: 0 <= k < |c.channels| ==> c.channels[k].name != c.motors[i].channel)
    || (i < j < |c.motors| && c.motors[i].name == c.motors[j].name)
    || (i < j < |c.motors| && c.motors[i].channel == c.motors[j].channel
        && c.motors[i].canPort == c.motors[j].canPort && c.motors[i].canId == c.motors[j].canId)
    || (i < |c.channels| && j < |c.motors| && c.motors[j].channel == c.channels[i].name
        && (c.channels[i].maxBandwidthBps == 0 || c.channels[i].sendQueueSlots == 0))
  }

  /** A single fault anywhere makes a configuration invalid, and nothing else does. */
  lemma ValidExactly(c: Config)
    ensures ValidConfig(c) <==> forall i: nat, j: nat :: !Faulty(c, i, j)
  {
    if ValidConfig(c) {
      forall i: nat, j: nat
        ensures !Faulty(c, i, j)
      {
        FaultRefused(c, i, j);
      }
    }
    if forall i: nat, j: nat :: !Faulty(c, i, j) {
      FaultlessMotors(c);
      forall i | 0 <= i < |c.channels|
        ensures c.channels[i].name != ""
      {
        assert !Faulty(c, i, 0);
      }
      forall k | 0 <= k < |c.channels| && Used(c, c.channels[k])
        ensures c.channels[k].maxBandwidthBps != 0 && c.channels[k].sendQueueSlots != 0
      {
        var j :| 0 <= j < |c.motors| && c.motors[j].channel == c.channels[k].name;
        assert !Faulty(c, k, j);
      }
      forall i, j | 0 <= i < j < |c.channels|
        ensures c.channels[i].name != c.channels[j].name
      {
        assert !Faulty(c, i, j);
      }
    }
  }

  lemma FaultRefused(c: Config, i: nat, j: nat)
    ensures Faulty(c, i, j) ==> !ValidConfig(c)
  {
    if MotorsSound(c) && i < |c.motors| {
      assert MotorSound(c, c.motors[i]);
    }
    if i < |c.channels| && j < |c.motors| && c.motors[j].channel == c.channels[i].name {
      assert Used(c, c.channels[i]);
    }
  }

  lemma FaultlessMotors(c: Config)
    requires forall i: nat, j: nat :: !Faulty(c, i, j)
    ensures MotorsSound(c)
  {
    forall i | 0 <= i < |c.motors|
      ensures MotorSound(c, c.motors[i])
    {
      assert !Faulty(c, i, 0);
    }
    forall i, j | 0 <= i < j < |c.motors|
      ensures c.motors[i].name != c.motors[j].name && !SameAddress(c.motors[i], c.motors[j])
    {
      assert !Faulty(c, i, j);
    }
  }

  /** The names of the used ones among the first n channels, in order. */
  ghost function UsedNames(c: Config, n: nat): seq<string>
    requires n <= |c.channels|
  {
    if n == 0 then []
    else UsedNames(c, n - 1) + (if Used(c, c.channels[n - 1]) then [c.channels[n - 1].name] else [])
  }

  lemma OneMoreName(c: Config, n: nat)
    requires n < |c.channels|
    ensures UsedNames(c, 0) == []
    ensures UsedNames(c, n + 1) ==
            if Used(c, c.channels[n]) then UsedNames(c, n) + [c.channels[n].name] else UsedNames(c, n)
  {
  }

  /** A configuration with a motor at the broadcast id. */
  const BROADCAST_CONFIG: Config :=
    Config([ChannelConfig("left", 1000000, 1024)], [MotorConfig("hip", "left", "EC-A5013-H17-100", 0, 0x7FF)])

  /** It passes every check, although no frame will ever reach its motor. */
  lemma BroadcastConfigIsValid()
    ensures ValidConfig(BROADCAST_CONFIG) && BROADCAST_CONFIG.motors[0].canId == 0x7FF
  {
    var c := BROADCAST_CONFIG;
    assert c.channels[0].name == c.motors[0].channel;
    assert MotorSound(c, c.motors[0]);
  }

  /** How many elements of `q` satisfy `p`. */
  function CountIf<T>(q: seq<T>, p: T -> bool): nat {
    if q == [] then 0 else CountIf(q[..|q| - 1], p) + (if p(q[|q| - 1]) then 1 else 0)
  }

  lemma {:induction false} CountNone<T>(q: seq<T>, p: T -> bool)
    ensures CountIf(q, p) == 0 <==> forall j :: 0 <= j < |q| ==> !p(q[j])
  {
    if q != [] {
      CountNone(q[..|q| - 1], p);
    }
  }

  /** The element at i is the only one that satisfies p exactly when one is counted. */
  lemma {:induction false} CountOnlyOne<T>(q: seq<T>, p: T -> bool, i: nat)
    requires i < |q| && p(q[i])
    ensures CountIf(q, p) == 1 <==> forall j :: 0 <= j < |q| && j != i ==> !p(q[j])
  {
    var last := |q| - 1;
    if i == last {
      CountNone(q[..last], p);
    } else {
      CountOnlyOne(q[..last], p, i);
      CountNone(q[..last], p);
    }
  }

  method ValidateChannels(c: Config) returns (e: Err)
    ensures e == if ChannelsNamed(c) then Ok else InvalidArgument
  {
    for k := 0 to |c.channels|
      invariant forall i :: 0 <= i < k ==>
                  && c.channels[i].name != ""
                  && forall j :: 0 <= j < |c.channels| && j != i ==> c.channels[j].name != c.channels[i].name
    {
      var name := c.channels[k].name;
      var same := (x: ChannelConfig) => x.name == name;
      CountOnlyOne(c.channels, same, k);
      if name == "" || CountIf(c.channels, same) != 1 {
        return InvalidArgument;
      }
    }
    e := Ok;
  }

  method ValidateMotors(c: Config) returns (e: Err)
    ensures e == if MotorsSound(c) then Ok else InvalidArgument
  {
    for k := 0 to |c.motors|
      invariant forall i :: 0 <= i < k ==> MotorSound(c, c.motors[i])
      invariant forall i, j :: 0 <= i < k && 0 <= j < |c.motors| && j != i ==>
                  c.motors[j].name != c.motors[i].name && !SameAddress(c.motors[j], c.motors[i])
    {
      var m := c.motors[k];
      var named := (x: MotorConfig) => x.name == m.name;
      var addressed := (x: MotorConfig) => SameAddress(x, m);
      var onChannel := (x: ChannelConfig) => x.name == m.channel;
      CountOnlyOne(c.motors, named, k);
      CountOnlyOne(c.motors, addressed, k);
      CountNone(c.channels, onChannel);
      if m.name == "" || CountIf(c.motors, named) != 1 {
        return InvalidArgument;
      }
      if CountIf(c.channels, onChannel) == 0 {
        return InvalidArgument;
      }
      if m.canId > 0x7FF || CountIf(c.motors, addressed) != 1 {
        return InvalidArgument;
      }
    }
    e := Ok;
  }

  method IsUsed(c: Config, channel: ChannelConfig) returns (used: bool)
    ensures used == Used(c, channel)
  {
    var on := (x: MotorConfig) => x.channel == channel.name;
    CountNone(c.motors, on);
    used := CountIf(c.motors, on) != 0;
  }

  /** Accepts exactly the valid configurations. */
  method ValidateConfig(c: Config) returns (e: Err)
    ensures e == if ValidConfig(c) then Ok else InvalidArgument
    ensures e == Ok <==> forall i: nat, j: nat :: !Faulty(c, i, j)
  {
    hide MotorsSound, ChannelsNamed, Used, Faulty;
    ValidExactly(c);
    e := ValidateChannels(c);
    if e != Ok {
      return;
    }
    e := ValidateMotors(c);
    if e != Ok {
      return;
    }
    for k := 0 to |c.channels|
      invariant forall i :: 0 <= i < k && Used(c, c.channels[i]) ==>
                  c.channels[i].maxBandwidthBps != 0 && c.channels[i].sendQueueSlots != 0
    {
      var used := IsUsed(c, c.channels[k]);
      if used && (c.channels[k].maxBandwidthBps == 0 || c.channels[k].sendQueueSlots == 0) {
        return InvalidArgument;
      }
    }
  }

  // ---------------------------------------------------------------------------------------------
  // Wiring
  // ---------------------------------------------------------------------------------------------

  /** Which driver a device belongs to, and its place there. */
  datatype Binding = Binding(driverSlot: nat, deviceSlot: nat)

  /** Everything outside: which sockets open, the known models, how channels answer. */
  datatype World = World(
    openable: set<string>, models: map<string, (real, real)>, answers: string -> nat -> Answer)

  /** The driver of this channel can be built: the slots fit 32-bit arithmetic and the socket opens. */
  predicate Buildable(w: World, channel: ChannelConfig) {
    SendQueue.StorageSize(channel.sendQueueSlots, Channel.MOTOR_UDP_PACKET_CAP).Some? && channel.name in w.openable
  }

  ghost predicate AllBuildable(w: World, c: Config) {
    forall k :: 0 <= k < |c.channels| && Used(c, c.channels[k]) ==> Buildable(w, c.channels[k])
  }

  ghost predicate ModelsKnown(w: World, c: Config) {
    forall i :: 0 <= i < |c.motors| ==> c.motors[i].model in w.models
  }

  function AddressOf(m: MotorConfig): Address { Address(m.canPort, m.canId) }

  /** A driver's tables as a value. */
  datatype DriverView = DriverView(name: string, devices: seq<MotorDevice>, routes: seq<seq<Option<MotorDevice>>>)

  /** All that binding builds up. */
  datatype Net = Net(drivers: seq<DriverView>, motors: seq<MotorDevice>, bindings: seq<Binding>)

  /** Binding i leads to motor i on the driver of its channel; motor i sits at its configured address. */
  ghost predicate ForwardIndex(c: Config, n: Net) {
    && |n.motors| == |n.bindings| <= |c.motors|
    && forall i :: 0 <= i < |n.motors| ==> Placed(n, i, c.motors[i])
  }

  ghost predicate Placed(n: Net, i: nat, m: MotorConfig)
    requires i < |n.motors| == |n.bindings|
  {
    && n.bindings[i].driverSlot < |n.drivers|
    && var driver := n.drivers[n.bindings[i].driverSlot];
       && driver.name == m.channel
       && n.bindings[i].deviceSlot < |driver.devices|
       && driver.devices[n.bindings[i].deviceSlot] == n.motors[i]
       && n.motors[i].address == AddressOf(m)
       && Lookup(driver.routes, m.canPort, m.canId) == Some(n.motors[i])
  }

  /** Every route of every driver comes from one of the bindings. */
  ghost predicate ReverseIndex(n: Net) {
    && |n.motors| == |n.bindings|
    && forall k: nat, p: nat, id: nat :: k < |n.drivers| && Lookup(n.drivers[k].routes, p, id).Some? ==>
         exists i :: ComesFrom(n, i, k, p, id)
  }

  ghost predicate ComesFrom(n: Net, i: int, k: nat, p: nat, id: nat)
    requires |n.motors| == |n.bindings| && k < |n.drivers| && Lookup(n.drivers[k].routes, p, id).Some?
  {
    && 0 <= i < |n.motors| && n.bindings[i].driverSlot == k
    && Lookup(n.drivers[k].routes, p, id).value == n.motors[i]
    && n.motors[i].address.port == p && n.motors[i].address.id == id
  }

  ghost predicate MotorsApart(n: Net) {
    forall i, j :: 0 <= i < j < |n.motors| ==> n.motors[i] != n.motors[j]
  }

  ghost predicate WiredNet(c: Config, n: Net) {
    ForwardIndex(c, n) && ReverseIndex(n) && MotorsApart(n)
  }

  function OneMore(n: Net, slot: nat, device: MotorDevice): Net
    requires slot < |n.drivers|
  {
    var d := n.drivers[slot];
    var routes := Bound(d.routes, device.address.port, device.address.id, device);
    Net(n.drivers[slot := DriverView(d.name, d.devices + [device], routes)],
        n.motors + [device], n.bindings + [Binding(slot, |d.devices|)])
  }

  /** Binding the next motor at its configured address keeps both indices. */
  lemma OneMoreWired(c: Config, n: Net, slot: nat, device: MotorDevice)
    requires WiredNet(c, n) && MotorsSound(c) && slot < |n.drivers| && |n.motors| < |c.motors|
    requires n.drivers[slot].name == c.motors[|n.motors|].channel
    requires device.address == AddressOf(c.motors[|n.motors|]) && device !in n.motors
    ensures WiredNet(c, OneMore(n, slot, device))
  {
    hide MotorsSound, WiredNet, ForwardIndex, ReverseIndex;
    Parts(c, n);
    OneMoreForward(c, n, slot, device);
    OneMoreReverse(n, slot, device);
    Parts(c, OneMore(n, slot, device));
  }

  lemma Parts(c: Config, n: Net)
    ensures WiredNet(c, n) <==> ForwardIndex(c, n) && ReverseIndex(n) && MotorsApart(n)
  {
    hide ForwardIndex, ReverseIndex, MotorsApart;
  }

  lemma OneMoreForward(c: Config, n: Net, slot: nat, device: MotorDevice)
    requires WiredNet(c, n) && MotorsSound(c) && slot < |n.drivers| && |n.motors| < |c.motors|
    requires n.drivers[slot].name == c.motors[|n.motors|].channel
    requires device.address == AddressOf(c.motors[|n.motors|])
    ensures ForwardIndex(c, OneMore(n, slot, device))
  {
    hide Bound, Lookup, ReverseIndex, MotorsApart;
    var m := OneMore(n, slot, device);
    var routes := n.drivers[slot].routes;
    var address := device.address;
    forall i | 0 <= i < |m.motors|
      ensures Placed(m, i, c.motors[i])
    {
      BoundLookup(routes, address.port, address.id, device, c.motors[i].canPort, c.motors[i].canId);
      if i < |n.motors| {
        assert Placed(n, i, c.motors[i]);
        assert !SameAddress(c.motors[i], c.motors[|n.motors|]);
      }
    }
  }

  lemma OneMoreReverse(n: Net, slot: nat, device: MotorDevice)
    requires ReverseIndex(n) && slot < |n.drivers|
    ensures ReverseIndex(OneMore(n, slot, device))
  {
    hide Bound, Lookup;
    var m := OneMore(n, slot, device);
    forall k: nat, p: nat, id: nat | k < |m.drivers| && Lookup(m.drivers[k].routes, p, id).Some?
      ensures exists i :: ComesFrom(m, i, k, p, id)
    {
      BoundLookup(n.drivers[slot].routes, device.address.port, device.address.id, device, p, id);
      if k == slot && p == device.address.port && id == device.address.id {
        assert ComesFrom(m, |n.motors|, k, p, id);
      } else {
        var i :| ComesFrom(n, i, k, p, id);
        assert ComesFrom(m, i, k, p, id);
      }
    }
  }

  /** A frame that reaches a channel is routed to motor i exactly when it carries motor i's address. */
  lemma RoutedExactly(c: Config, n: Net, k: nat, i: nat, frame: CanFrame)
    requires WiredNet(c, n) && k < |n.drivers| && i < |n.motors|
    ensures Routed(n.drivers[k].routes, n.motors[i], frame) <==>
            && n.bindings[i].driverSlot == k
            && frame.port == c.motors[i].canPort && frame.id == c.motors[i].canId
            && frame.id != 0x7FF
  {
    hide Lookup;
    assert Placed(n, i, c.motors[i]);
    if Routed(n.drivers[k].routes, n.motors[i], frame) {
      var j :| ComesFrom(n, j, k, frame.port, frame.id);
      assert j == i;
    }
  }

  lemma ForwardAt(c: Config, n: Net, i: nat)
    requires WiredNet(c, n) && (i < |n.bindings| || i < |n.motors|)
    ensures |n.motors| == |n.bindings| <= |c.motors| && Placed(n, i, c.motors[i])
  {
  }

  /** Two devices never share a binding. */
  lemma BindingsApart(c: Config, n: Net, i: nat, j: nat)
    requires WiredNet(c, n) && i < j < |n.motors|
    ensures n.bindings[i] != n.bindings[j]
  {
    assert Placed(n, i, c.motors[i]) && Placed(n, j, c.motors[j]);
  }

  /** A datagram on a channel. */
  datatype Reception = Reception(channel: string, bytes: seq<Byte>, at: int)

  /** The frames that the datagrams on one channel deliver, with their times. */
  function ArrivalsOn(receptions: seq<Reception>, channel: string): seq<Arrival> {
    if receptions == [] then []
    else
      var r := receptions[|receptions| - 1];
      ArrivalsOn(receptions[..|receptions| - 1], channel) +
      (if r.channel == channel then Stamped(Delivered(r.bytes), r.at) else [])
  }

  lemma OneReception(r: Reception, channel: string)
    ensures ArrivalsOn([r], channel) == if r.channel == channel then Stamped(Delivered(r.bytes), r.at) else []
  {
    assert [r][..0] == [];
  }

  lemma NoArrivals(m: Motor, currentRange: Option<(real, real)>, routes: seq<seq<Option<MotorDevice>>>, d: MotorDevice)
    ensures Fed(m, currentRange, [], routes, d) == m
  {
  }

  ghost function ViewOf(d: MotorDriver): DriverView
    reads d`devices, d`routes
  {
    DriverView(d.name, d.devices, d.routes)
  }

  // ---------------------------------------------------------------------------------------------
  // Spreading commands over packets
  // ---------------------------------------------------------------------------------------------

  datatype Order = Order(deviceId: nat, command: Command)

  /** The device exists and the command can be encoded. */
  predicate Good(o: Order, bindings: seq<Binding>) {
    o.deviceId < |bindings| && PlanOf(o.command).Success?
  }

  /** The orders that end up with driver k, in order. */
  function Mine(orders: seq<Order>, bindings: seq<Binding>, k: nat): seq<Order> {
    if orders == [] then []
    else
      var last := orders[|orders| - 1];
      Mine(orders[..|orders| - 1], bindings, k) +
      (if Good(last, bindings) && bindings[last.deviceId].driverSlot == k then [last] else [])
  }

  /** Frame by frame, the stream is the encoding of these orders, each for its motor's own address. */
  ghost predicate Encodings(stream: seq<CanFrame>, mine: seq<Order>, motors: seq<MotorDevice>) {
    && |stream| == |mine|
    && forall i :: 0 <= i < |mine| ==>
         mine[i].deviceId < |motors| && EncodedAs(stream[i], motors[mine[i].deviceId].address, mine[i].command)
  }

  function Flat(packets: seq<seq<CanFrame>>): seq<CanFrame> {
    if packets == [] then [] else Flat(packets[..|packets| - 1]) + packets[|packets| - 1]
  }

  /** No packet is empty or too long, and only the last may be short. */
  ghost predicate Packed(packets: seq<seq<CanFrame>>) {
    forall j :: 0 <= j < |packets| ==>
      1 <= |packets[j]| <= 32 && (j + 1 < |packets| ==> |packets[j]| == 32)
  }

  ghost predicate AllFull(packets: seq<seq<CanFrame>>) {
    forall j :: 0 <= j < |packets| ==> |packets[j]| == MAX_FRAMES_PER_PACKET
  }

  /** Every packet handed over since `before` was accepted. */
  ghost predicate AllAccepted(answers: nat -> Answer, before: seq<seq<CanFrame>>, handed: seq<seq<CanFrame>>) {
    forall j :: |before| <= j < |handed| ==> Verdict(answers(j), handed[j]) == Ok
  }

  /** Part of the way: full packets went out, the rest is pending, nothing is lost or reordered. */
  ghost predicate Keeping(
    before: seq<seq<CanFrame>>, handed: seq<seq<CanFrame>>, pending: seq<CanFrame>, mine: seq<Order>,
    motors: seq<MotorDevice>)
  {
    && before <= handed && AllFull(handed[|before|..]) && |pending| < MAX_FRAMES_PER_PACKET
    && Encodings(Flat(handed[|before|..]) + pending, mine, motors)
  }

  /** All sent: the packets since `before`, laid end to end, are the encodings of `mine`. */
  ghost predicate AllSent(
    before: seq<seq<CanFrame>>, handed: seq<seq<CanFrame>>, mine: seq<Order>, motors: seq<MotorDevice>)
  {
    && before <= handed && Packed(handed[|before|..])
    && Encodings(Flat(handed[|before|..]), mine, motors)
  }

  lemma FlatMore(packets: seq<seq<CanFrame>>, p: seq<CanFrame>)
    ensures Flat(packets + [p]) == Flat(packets) + p
  {
    assert (packets + [p])[..|packets|] == packets;
  }

  lemma HandedMore(before: seq<seq<CanFrame>>, handed: seq<seq<CanFrame>>, p: seq<CanFrame>)
    requires before <= handed
    ensures before <= handed + [p]
    ensures (handed + [p])[|before|..] == handed[|before|..] + [p]
    ensures Flat((handed + [p])[|before|..]) == Flat(handed[|before|..]) + p
  {
    FlatMore(handed[|before|..], p);
  }

  lemma KeepsOne(
    before: seq<seq<CanFrame>>, handed: seq<seq<CanFrame>>, pending: seq<CanFrame>, mine: seq<Order>,
    motors: seq<MotorDevice>, frame: CanFrame, o: Order)
    requires Keeping(before, handed, pending, mine, motors)
    requires o.deviceId < |motors| && EncodedAs(frame, motors[o.deviceId].address, o.command)
    ensures var q := pending + [frame];
      if |q| < MAX_FRAMES_PER_PACKET then Keeping(before, handed, q, mine + [o], motors)
      else Keeping(before, handed + [q], [], mine + [o], motors)
  {
    hide EncodedAs, Flat;
    var sent := Flat(handed[|before|..]);
    var q := pending + [frame];
    assert sent + q == (sent + pending) + [frame];
    if |q| == MAX_FRAMES_PER_PACKET {
      HandedMore(before, handed, q);
      assert sent + q + [] == sent + q;
    }
  }

  lemma FlushesRest(
    before: seq<seq<CanFrame>>, handed: seq<seq<CanFrame>>, pending: seq<CanFrame>, mine: seq<Order>,
    motors: seq<MotorDevice>)
    requires Keeping(before, handed, pending, mine, motors)
    ensures AllSent(before, if pending == [] then handed else handed + [pending], mine, motors)
  {
    hide Encodings, Flat;
    if pending == [] {
      assert Flat(handed[|before|..]) + pending == Flat(handed[|before|..]);
    } else {
      HandedMore(before, handed, pending);
    }
  }

  lemma MineMore(orders: seq<Order>, i: nat, bindings: seq<Binding>, k: nat)
    requires i < |orders|
    ensures Mine(orders[..i + 1], bindings, k) ==
            if Good(orders[i], bindings) && bindings[orders[i].deviceId].driverSlot == k
            then Mine(orders[..i], bindings, k) + [orders[i]] else Mine(orders[..i], bindings, k)
  {
    assert orders[..i + 1][..i] == orders[..i];
  }

  /** Packets handed over and frames pending, driver by driver. */
  datatype Traffic = Traffic(handed: seq<seq<seq<CanFrame>>>, pending: seq<seq<CanFrame>>)

  /** Every driver is part of the way through `orders`. */
  ghost predicate Underway(
      before: seq<seq<seq<CanFrame>>>, t: Traffic, orders: seq<Order>, bindings: seq<Binding>,
      motors: seq<MotorDevice>)
  {
    && |t.handed| == |t.pending| == |before|
    && forall k :: 0 <= k < |before| ==>
         Keeping(before[k], t.handed[k], t.pending[k], Mine(orders, bindings, k), motors)
  }

  ghost predicate NoneRefused(
      answers: seq<nat -> Answer>, before: seq<seq<seq<CanFrame>>>, handed: seq<seq<seq<CanFrame>>>)
  {
    && |answers| == |before| == |handed|
    && forall k :: 0 <= k < |before| ==> AllAccepted(answers[k], before[k], handed[k])
  }

  ghost predicate AllGood(orders: seq<Order>, bindings: seq<Binding>) {
    forall i :: 0 <= i < |orders| ==> Good(orders[i], bindings)
  }

  /** What one order changes: nothing if it is no good, else one frame more for one driver. */
  ghost predicate Dispatched(
    answers: seq<nat -> Answer>, t: Traffic, u: Traffic, o: Order, bindings: seq<Binding>,
    motors: seq<MotorDevice>, e: Err)
    requires |t.handed| == |t.pending| == |answers|
  {
    if !Good(o, bindings) then
      e == InvalidArgument && u == t
    else
      var k := bindings[o.deviceId].driverSlot;
      && k < |t.handed| && o.deviceId < |motors|
      && exists frame ::
           EncodedAs(frame, motors[o.deviceId].address, o.command) && FrameAdded(answers, t, u, k, frame, e)
  }

  /** A good order adds its frame to the batch of its motor's driver. */
  lemma DispatchedOne(
    answers: seq<nat -> Answer>, t: Traffic, u: Traffic, o: Order, c: Config, n: Net, e: Err, added: seq<CanFrame>)
    requires WiredNet(c, n) && |t.handed| == |t.pending| == |answers| == |n.drivers| && o.deviceId < |n.bindings|
    ensures Placed(n, o.deviceId, c.motors[o.deviceId])
    ensures var b := n.bindings[o.deviceId];
      var address := n.drivers[b.driverSlot].devices[b.deviceSlot].address;
      && (PlanOf(o.command).Failure? && e == InvalidArgument && u == t ==>
            Dispatched(answers, t, u, o, n.bindings, n.motors, e))
      && (PlanOf(o.command).Success? && |added| == 1 && EncodedAs(added[0], address, o.command)
          && FrameAdded(answers, t, u, b.driverSlot, added[0], e) ==>
            Dispatched(answers, t, u, o, n.bindings, n.motors, e))
  {
    hide PlanOf, EncodedAs, FrameAdded, WiredNet, Lookup;
    ForwardAt(c, n, o.deviceId);
  }

  ghost predicate FrameAdded(answers: seq<nat -> Answer>, t: Traffic, u: Traffic, k: nat, frame: CanFrame, e: Err)
    requires |t.handed| == |t.pending| == |answers| && k < |answers|
  {
    var q := t.pending[k] + [frame];
    if |q| < MAX_FRAMES_PER_PACKET then
      e == Ok && u == t.(pending := t.pending[k := q])
    else
      && e == Verdict(answers[k](|t.handed[k]|), q)
      && u == Traffic(t.handed[k := t.handed[k] + [q]], t.pending[k := []])
  }

  lemma AddsFrame(
    answers: seq<nat -> Answer>, t: Traffic, u: Traffic, k: nat, frame: CanFrame, e: Err,
    handed: seq<seq<CanFrame>>, pending: seq<CanFrame>)
    requires |t.handed| == |t.pending| == |answers| && k < |answers|
    requires u == Traffic(t.handed[k := handed], t.pending[k := pending])
    requires var q := t.pending[k] + [frame];
      if |q| < MAX_FRAMES_PER_PACKET then e == Ok && pending == q && handed == t.handed[k]
      else e == Verdict(answers[k](|t.handed[k]|), q) && pending == [] && handed == t.handed[k] + [q]
    ensures FrameAdded(answers, t, u, k, frame, e)
  {
    hide Verdict;
    assert t.handed[k := t.handed[k]] == t.handed;
  }

  /** The first n drivers have sent what was pending. */
  ghost predicate Flushed(t: Traffic, handed: seq<seq<seq<CanFrame>>>, n: nat)
    requires |t.handed| == |t.pending| && n <= |t.handed|
  {
    && |handed| == |t.handed|
    && forall k :: 0 <= k < n ==>
         handed[k] == if t.pending[k] == [] then t.handed[k] else t.handed[k] + [t.pending[k]]
  }

  /** The drivers from k on have not been touched. */
  ghost predicate Unflushed(t: Traffic, u: Traffic, k: nat)
    requires |t.handed| == |t.pending|
  {
    && |u.handed| == |u.pending| == |t.handed|
    && forall j :: k <= j < |t.handed| ==> u.pending[j] == t.pending[j] && u.handed[j] == t.handed[j]
  }

  /** What the first flushes report. */
  ghost predicate FlushErrors(answers: seq<nat -> Answer>, t: Traffic, reports: seq<Err>)
    requires |t.handed| == |t.pending| == |answers|
  {
    && |reports| <= |answers|
    && forall k :: 0 <= k < |reports| ==>
         reports[k] == if t.pending[k] == [] then Ok else Verdict(answers[k](|t.handed[k]|), t.pending[k])
  }

  lemma NoneFlushed(answers: seq<nat -> Answer>, t: Traffic)
    requires |t.handed| == |t.pending| == |answers|
    ensures Unflushed(t, t, 0) && Flushed(t, t.handed, 0) && FlushesAccepted(answers, t, 0)
    ensures FlushErrors(answers, t, [])
  {
  }

  lemma FlushedMore(answers: seq<nat -> Answer>, t: Traffic, u: Traffic, v: Traffic, k: nat, e: Err)
    requires |t.handed| == |t.pending| == |answers| && k < |answers|
    requires Unflushed(t, u, k) && Flushed(t, u.handed, k)
    requires v == Traffic(if u.pending[k] == [] then u.handed else u.handed[k := u.handed[k] + [u.pending[k]]],
                          u.pending[k := []])
    requires e == if u.pending[k] == [] then Ok else Verdict(answers[k](|u.handed[k]|), u.pending[k])
    ensures Unflushed(t, v, k + 1) && Flushed(t, v.handed, k + 1)
    ensures e == if t.pending[k] == [] then Ok else Verdict(answers[k](|t.handed[k]|), t.pending[k])
    ensures FlushesAccepted(answers, t, k + 1) <==> FlushesAccepted(answers, t, k) && e == Ok
  {
    hide Verdict;
  }

  ghost predicate FlushesAccepted(answers: seq<nat -> Answer>, t: Traffic, n: nat)
    requires |t.handed| == |t.pending| == |answers| && n <= |answers|
  {
    forall k :: 0 <= k < n ==> t.pending[k] == [] || Verdict(answers[k](|t.handed[k]|), t.pending[k]) == Ok
  }

  // ---------------------------------------------------------------------------------------------
  // Which error is reported
  // ---------------------------------------------------------------------------------------------

  /** The last error, Ok if there is none. */
  function LastError(errors: seq<Err>): Err {
    if errors == [] then Ok
    else if errors[|errors| - 1] != Ok then errors[|errors| - 1]
    else LastError(errors[..|errors| - 1])
  }

  lemma LastErrorMore(errors: seq<Err>, e: Err)
    ensures LastError(errors + [e]) == if e != Ok then e else LastError(errors)
  {
    assert (errors + [e])[..|errors|] == errors;
  }

  lemma {:induction false} LastErrorConcat(a: seq<Err>, b: seq<Err>)
    ensures LastError(a + b) == if LastError(b) != Ok then LastError(b) else LastError(a)
    decreases |b|
  {
    if b == [] {
      assert a + b == a;
    } else {
      LastErrorConcat(a, b[..|b| - 1]);
      assert (a + b)[..|a + b| - 1] == a + b[..|b| - 1];
    }
  }

  /**
   What order i reports: an invalid argument if it is no good; the channel's verdict on the packet it
   completes, if it is the thirty-second of its driver since the last one; otherwise nothing.
   */
  ghost predicate OrderReports(
    orders: seq<Order>, i: nat, bindings: seq<Binding>, answers: seq<nat -> Answer>,
    before: seq<seq<seq<CanFrame>>>, handed: seq<seq<seq<CanFrame>>>, e: Err)
    requires i < |orders| && |answers| == |before| == |handed|
  {
    if !Good(orders[i], bindings) then e == InvalidArgument
    else
      var k := bindings[orders[i].deviceId].driverSlot;
      && k < |handed|
      && var m := |Mine(orders[..i], bindings, k)|;
         var at := |before[k]| + m / 32;
         if m % 32 != 31 then e == Ok
         else at < |handed[k]| && e == Verdict(answers[k](at), handed[k][at])
  }

  /** What the final flush of driver k reports: the verdict on its last packet, if that was not full. */
  ghost predicate FlushReports(
    orders: seq<Order>, k: nat, bindings: seq<Binding>, answers: seq<nat -> Answer>,
    handed: seq<seq<seq<CanFrame>>>, e: Err)
    requires k < |answers| == |handed|
  {
    var last := |handed[k]| - 1;
    if |Mine(orders, bindings, k)| % 32 == 0 then e == Ok
    else last >= 0 && e == Verdict(answers[k](last), handed[k][last])
  }

  /** The result is the last error among what the orders and then the flushes report. */
  ghost predicate ReportsLast(
    orders: seq<Order>, bindings: seq<Binding>, answers: seq<nat -> Answer>,
    before: seq<seq<seq<CanFrame>>>, handed: seq<seq<seq<CanFrame>>>, error: Err)
    requires |answers| == |before| == |handed|
  {
    exists reports: seq<Err>, flushes: seq<Err> ::
      && |reports| == |orders| && |flushes| == |handed| && error == LastError(reports + flushes)
      && (forall i :: 0 <= i < |orders| ==> OrderReports(orders, i, bindings, answers, before, handed, reports[i]))
      && forall k :: 0 <= k < |handed| ==> FlushReports(orders, k, bindings, answers, handed, flushes[k])
  }

  ghost predicate Grown(a: seq<seq<seq<CanFrame>>>, b: seq<seq<seq<CanFrame>>>) {
    |a| == |b| && forall k :: 0 <= k < |a| ==> a[k] <= b[k]
  }

  /** Packets handed over later change nothing about an earlier report. */
  lemma ReportsStay(
    orders: seq<Order>, i: nat, bindings: seq<Binding>, answers: seq<nat -> Answer>,
    before: seq<seq<seq<CanFrame>>>, handed: seq<seq<seq<CanFrame>>>, later: seq<seq<seq<CanFrame>>>, e: Err)
    requires i < |orders| && |answers| == |before| == |handed| && Grown(handed, later)
    requires OrderReports(orders, i, bindings, answers, before, handed, e)
    ensures OrderReports(orders, i, bindings, answers, before, later, e)
  {
    hide Verdict, Mine, PlanOf;
  }

  /** Full packets and pending frames add up to the orders so far. */
  lemma FramesCount(
    before: seq<seq<CanFrame>>, handed: seq<seq<CanFrame>>, pending: seq<CanFrame>, mine: seq<Order>,
    motors: seq<MotorDevice>)
    requires Keeping(before, handed, pending, mine, motors)
    ensures before <= handed && |mine| == 32 * (|handed| - |before|) + |pending| && |pending| < 32
  {
    hide EncodedAs, Flat;
    FlatLength(handed[|before|..]);
  }

  lemma {:induction false} FlatLength(packets: seq<seq<CanFrame>>)
    requires AllFull(packets)
    ensures |Flat(packets)| == 32 * |packets|
  {
    if packets != [] {
      FlatLength(packets[..|packets| - 1]);
    }
  }

  /** What an order reports, off the traffic before and after it. */
  lemma ReportOf(
    answers: seq<nat -> Answer>, before: seq<seq<seq<CanFrame>>>, t: Traffic, u: Traffic, orders: seq<Order>, i: nat,
    bindings: seq<Binding>, motors: seq<MotorDevice>, e: Err)
    requires i < |orders| && |t.handed| == |t.pending| == |answers|
    requires Underway(before, t, orders[..i], bindings, motors)
    requires Dispatched(answers, t, u, orders[i], bindings, motors, e)
    ensures Grown(t.handed, u.handed) && OrderReports(orders, i, bindings, answers, before, u.handed, e)
  {
    hide Keeping, PlanOf, EncodedAs, Mine, Verdict;
    if Good(orders[i], bindings) {
      var k := bindings[orders[i].deviceId].driverSlot;
      FramesCount(before[k], t.handed[k], t.pending[k], Mine(orders[..i], bindings, k), motors);
    }
  }

  /** The first n orders report these errors. */
  ghost predicate AllReport(
    orders: seq<Order>, n: nat, bindings: seq<Binding>, answers: seq<nat -> Answer>,
    before: seq<seq<seq<CanFrame>>>, handed: seq<seq<seq<CanFrame>>>, reports: seq<Err>)
  {
    && n <= |orders| && |reports| == n && |answers| == |before| == |handed|
    && forall i :: 0 <= i < n ==> OrderReports(orders, i, bindings, answers, before, handed, reports[i])
  }

  lemma NoReports(
    orders: seq<Order>, bindings: seq<Binding>, answers: seq<nat -> Answer>, before: seq<seq<seq<CanFrame>>>)
    requires |answers| == |before|
    ensures AllReport(orders, 0, bindings, answers, before, before, [])
  {
  }

  lemma OneReportMore(
    answers: seq<nat -> Answer>, before: seq<seq<seq<CanFrame>>>, t: Traffic, u: Traffic, orders: seq<Order>, i: nat,
    bindings: seq<Binding>, motors: seq<MotorDevice>, reports: seq<Err>, e: Err)
    requires i < |orders| && |t.handed| == |t.pending| == |answers|
    requires Underway(before, t, orders[..i], bindings, motors)
    requires Dispatched(answers, t, u, orders[i], bindings, motors, e)
    requires AllReport(orders, i, bindings, answers, before, t.handed, reports)
    ensures AllReport(orders, i + 1, bindings, answers, before, u.handed, reports + [e])
  {
    hide Underway, Dispatched, OrderReports;
    ReportOf(answers, before, t, u, orders, i, bindings, motors, e);
    forall j | 0 <= j < i
      ensures OrderReports(orders, j, bindings, answers, before, u.handed, reports[j])
    {
      ReportsStay(orders, j, bindings, answers, before, t.handed, u.handed, reports[j]);
    }
  }

  lemma FlushReported(
    answers: seq<nat -> Answer>, before: seq<seq<seq<CanFrame>>>, t: Traffic, handed: seq<seq<seq<CanFrame>>>,
    orders: seq<Order>, bindings: seq<Binding>, motors: seq<MotorDevice>, flushes: seq<Err>, k: nat)
    requires |t.handed| == |t.pending| == |answers| && Underway(before, t, orders, bindings, motors)
    requires Flushed(t, handed, |answers|) && FlushErrors(answers, t, flushes) && k < |flushes| == |answers|
    ensures FlushReports(orders, k, bindings, answers, handed, flushes[k]) && t.handed[k] <= handed[k]
  {
    hide Keeping, Mine, Verdict;
    FramesCount(before[k], t.handed[k], t.pending[k], Mine(orders, bindings, k), motors);
  }

  /** Flushing adds its reports after those of the orders. */
  lemma LastReported(
    answers: seq<nat -> Answer>, before: seq<seq<seq<CanFrame>>>, t: Traffic, handed: seq<seq<seq<CanFrame>>>,
    orders: seq<Order>, bindings: seq<Binding>, motors: seq<MotorDevice>, reports: seq<Err>, flushes: seq<Err>)
    requires |t.handed| == |t.pending| == |answers| && Underway(before, t, orders, bindings, motors)
    requires Flushed(t, handed, |answers|) && FlushErrors(answers, t, flushes) && |flushes| == |answers|
    requires AllReport(orders, |orders|, bindings, answers, before, t.handed, reports)
    ensures ReportsLast(orders, bindings, answers, before, handed, LastError(reports + flushes))
  {
    hide Keeping, OrderReports, FlushReports, FlushErrors, LastError;
    forall k | 0 <= k < |handed|
      ensures FlushReports(orders, k, bindings, answers, handed, flushes[k]) && t.handed[k] <= handed[k]
    {
      FlushReported(answers, before, t, handed, orders, bindings, motors, flushes, k);
    }
    forall i | 0 <= i < |orders|
      ensures OrderReports(orders, i, bindings, answers, before, handed, reports[i])
    {
      ReportsStay(orders, i, bindings, answers, before, t.handed, handed, reports[i]);
    }
  }

  /** Every frame of a packet is somewhere in the stream. */
  lemma {:induction false} InFlat(packets: seq<seq<CanFrame>>, j: nat, i: nat)
    requires j < |packets| && i < |packets[j]|
    ensures packets[j][i] in Flat(packets)
    decreases |packets|
  {
    var last := |packets| - 1;
    if j < last {
      InFlat(packets[..last], j, i);
      assert packets[..last][j] == packets[j];
    } else {
      assert Flat(packets)[|Flat(packets[..last])| + i] == packets[j][i];
    }
  }

  /** With a valid configuration every packet encodes, so only the channel can refuse one. */
  lemma OnlyChannelRefuses(
    c: Config, n: Net, before: seq<seq<CanFrame>>, handed: seq<seq<CanFrame>>, mine: seq<Order>, j: nat, a: Answer)
    requires WiredNet(c, n) && MotorsSound(c) && AllSent(before, handed, mine, n.motors)
    requires |before| <= j < |handed|
    ensures Encodable(handed[j]) && (Verdict(a, handed[j]) == Ok <==> a == Accepting)
  {
    hide WiredNet, MotorsSound, Flat, EncodedAs;
    var packets := handed[|before|..];
    assert packets[j - |before|] == handed[j];
    forall i | 0 <= i < |handed[j]|
      ensures handed[j][i].Valid()
    {
      InFlat(packets, j - |before|, i);
      var x :| 0 <= x < |Flat(packets)| && Flat(packets)[x] == handed[j][i];
      LegalAddress(c, n, mine[x].deviceId);
      EncodedIsValid(handed[j][i], n.motors[mine[x].deviceId].address, mine[x].command);
    }
  }

  lemma LegalAddress(c: Config, n: Net, i: nat)
    requires WiredNet(c, n) && MotorsSound(c) && i < |n.motors|
    ensures n.motors[i].address.id <= 0x7FF
  {
    assert Placed(n, i, c.motors[i]) && MotorSound(c, c.motors[i]);
  }

  /** Flushing turns a collection that is under way into one that is all sent. */
  lemma Conclude(
    answers: seq<nat -> Answer>, before: seq<seq<seq<CanFrame>>>, t: Traffic, handed: seq<seq<seq<CanFrame>>>,
    orders: seq<Order>, bindings: seq<Binding>, motors: seq<MotorDevice>)
    requires |t.handed| == |t.pending| == |answers| && Underway(before, t, orders, bindings, motors)
    requires Flushed(t, handed, |answers|)
    ensures forall k :: 0 <= k < |before| ==> AllSent(before[k], handed[k], Mine(orders, bindings, k), motors)
    ensures NoneRefused(answers, before, handed) <==>
            NoneRefused(answers, before, t.handed) && FlushesAccepted(answers, t, |answers|)
  {
    hide Keeping, Mine, AllAccepted, AllSent, Verdict;
    forall k | 0 <= k < |before|
      ensures AllSent(before[k], handed[k], Mine(orders, bindings, k), motors)
      ensures AllAccepted(answers[k], before[k], handed[k]) <==>
              AllAccepted(answers[k], before[k], t.handed[k])
              && (t.pending[k] == [] || Verdict(answers[k](|t.handed[k]|), t.pending[k]) == Ok)
    {
      FlushesRest(before[k], t.handed[k], t.pending[k], Mine(orders, bindings, k), motors);
      Longer(before[k], t.handed[k], t.pending[k], Mine(orders, bindings, k), motors);
      AcceptedMore(answers[k], before[k], t.handed[k], t.pending[k]);
    }
  }

  lemma NothingYet(
      handed: seq<seq<seq<CanFrame>>>, pending: seq<seq<CanFrame>>,
      answers: seq<nat -> Answer>, bindings: seq<Binding>, motors: seq<MotorDevice>)
    requires |pending| == |handed| == |answers| && forall k :: 0 <= k < |pending| ==> pending[k] == []
    ensures Underway(handed, Traffic(handed, pending), [], bindings, motors) && NoneRefused(answers, handed, handed)
  {
  }

  lemma OneOrderMore(
    answers: seq<nat -> Answer>, before: seq<seq<seq<CanFrame>>>, t: Traffic, u: Traffic, orders: seq<Order>, i: nat,
    bindings: seq<Binding>, motors: seq<MotorDevice>, e: Err)
    requires i < |orders| && |t.handed| == |t.pending| == |answers|
    requires Underway(before, t, orders[..i], bindings, motors)
    requires Dispatched(answers, t, u, orders[i], bindings, motors, e)
    ensures Underway(before, u, orders[..i + 1], bindings, motors)
    ensures NoneRefused(answers, before, u.handed) && AllGood(orders[..i + 1], bindings) <==>
            e == Ok && NoneRefused(answers, before, t.handed) && AllGood(orders[..i], bindings)
  {
    hide Keeping, PlanOf, EncodedAs, Mine, AllAccepted, Verdict;
    var o := orders[i];
    assert orders[..i + 1] == orders[..i] + [o];
    forall k | 0 <= k < |before|
      ensures Keeping(before[k], u.handed[k], u.pending[k], Mine(orders[..i + 1], bindings, k), motors)
    {
      MineMore(orders, i, bindings, k);
      if Good(o, bindings) && bindings[o.deviceId].driverSlot == k {
        var frame :| EncodedAs(frame, motors[o.deviceId].address, o.command) && FrameAdded(answers, t, u, k, frame, e);
        KeepsOne(before[k], t.handed[k], t.pending[k], Mine(orders[..i], bindings, k), motors, frame, o);
      }
    }
    if Good(o, bindings) {
      var k := bindings[o.deviceId].driverSlot;
      var frame :| EncodedAs(frame, motors[o.deviceId].address, o.command) && FrameAdded(answers, t, u, k, frame, e);
      Longer(before[k], t.handed[k], t.pending[k], Mine(orders[..i], bindings, k), motors);
      AcceptedMore(answers[k], before[k], t.handed[k], t.pending[k] + [frame]);
    }
  }

  lemma Longer(
      before: seq<seq<CanFrame>>, handed: seq<seq<CanFrame>>, pending: seq<CanFrame>, mine: seq<Order>,
      motors: seq<MotorDevice>)
    requires Keeping(before, handed, pending, mine, motors)
    ensures before <= handed && |pending| < MAX_FRAMES_PER_PACKET
  {
  }

  lemma AcceptedMore(answers: nat -> Answer, before: seq<seq<CanFrame>>, handed: seq<seq<CanFrame>>, p: seq<CanFrame>)
    requires before <= handed
    ensures AllAccepted(answers, before, handed + [p]) <==>
            AllAccepted(answers, before, handed) && Verdict(answers(|handed|), p) == Ok
  {
    hide Verdict;
    var more := handed + [p];
    if AllAccepted(answers, before, more) {
      assert Verdict(answers(|handed|), more[|handed|]) == Ok;
      forall j | |before| <= j < |handed|
        ensures Verdict(answers(j), handed[j]) == Ok
      {
        assert Verdict(answers(j), more[j]) == Ok;
      }
    }
  }

  class Runtime {
    const options: Config
    var drivers: seq<MotorDriver>
    var motors: seq<MotorDevice>
    var bindings: seq<Binding>

    constructor (options: Config)
      ensures this.options == options && drivers == [] && motors == [] && bindings == []
    {
      this.options := options;
      drivers, motors, bindings := [], [], [];
    }

    ghost predicate Distinct()
      reads this`drivers
    {
      forall a, b :: 0 <= a < b < |drivers| ==> drivers[a] != drivers[b] && drivers[a].name != drivers[b].name
    }

    ghost function View(): (n: Net)
      reads this, drivers`devices, drivers`routes
      ensures |n.drivers| == |drivers| && n.motors == motors && n.bindings == bindings
      ensures forall k :: 0 <= k < |drivers| ==> n.drivers[k] == ViewOf(drivers[k])
    {
      Net(Views(drivers), motors, bindings)
    }

    static ghost function Views(ds: seq<MotorDriver>): (vs: seq<DriverView>)
      reads ds`devices, ds`routes
      ensures |vs| == |ds| && forall k :: 0 <= k < |ds| ==> vs[k] == ViewOf(ds[k])
    {
      if ds == [] then [] else Views(ds[..|ds| - 1]) + [ViewOf(ds[|ds| - 1])]
    }

    ghost predicate Wired()
      reads this, drivers`devices, drivers`routes
    {
      && Distinct() && WiredNet(options, View())
      && forall k :: 0 <= k < |drivers| ==> drivers[k].Valid()
    }

    /** One driver per used channel, in order; false where the source throws. */
    method InitDrivers(w: World) returns (ok: bool)
      requires drivers == [] && ChannelsNamed(options)
      modifies this`drivers
      ensures ok <==> AllBuildable(w, options)
      ensures ok ==> NamesOf(drivers) == UsedNames(options, |options.channels|)
      ensures ok ==> Distinct() && fresh(set d | d in drivers)
      ensures ok ==> forall k :: 0 <= k < |drivers| ==> Blank(drivers[k])
      ensures ok ==> forall k :: 0 <= k < |options.channels| && Used(options, options.channels[k]) ==>
                       DriverFor(options.channels[k].name)
    {
      hide Buildable, Used, UsedNames, NamesOf;
      NoNames();
      for k := 0 to |options.channels|
        invariant Distinct() && fresh(set d | d in drivers)
        invariant NamesOf(drivers) == UsedNames(options, k)
        invariant forall a :: 0 <= a < |drivers| ==> Blank(drivers[a]) && Named(drivers[a].name, k)
        invariant forall i :: 0 <= i < k && Used(options, options.channels[i]) ==>
                    Buildable(w, options.channels[i]) && DriverFor(options.channels[i].name)
      {
        OneMoreName(options, k);
        var channel := options.channels[k];
        var used := IsUsed(options, channel);
        if used {
          if !Buildable(w, channel) {
            return false;
          }
          AddDriver(channel.name, w.answers(channel.name), k);
        }
      }
      ok := true;
    }

    static function NamesOf(ds: seq<MotorDriver>): seq<string> {
      if ds == [] then [] else NamesOf(ds[..|ds| - 1]) + [ds[|ds| - 1].name]
    }

    lemma NoNames()
      ensures UsedNames(options, 0) == [] && NamesOf([]) == []
    {
    }

    /** The driver's name is that of one of the first k channels. */
    ghost predicate Named(name: string, k: nat)
      requires k <= |options.channels|
    {
      exists i :: 0 <= i < k && name == options.channels[i].name
    }

    ghost predicate Blank(d: MotorDriver)
      reads d
    {
      d.devices == [] && d.routes == [] && d.handed == [] && d.Valid()
    }

    method AddDriver(name: string, answers: nat -> Answer, ghost k: nat)
      requires ChannelsNamed(options) && k < |options.channels| && name == options.channels[k].name
      requires Distinct() && forall a :: 0 <= a < |drivers| ==> Named(drivers[a].name, k)
      modifies this`drivers
      ensures |drivers| == |old(drivers)| + 1 && drivers[..|old(drivers)|] == old(drivers)
      ensures fresh(drivers[|old(drivers)|]) && Blank(drivers[|old(drivers)|]) && drivers[|old(drivers)|].name == name
      ensures NamesOf(drivers) == NamesOf(old(drivers)) + [name]
      ensures Distinct() && DriverFor(name)
      ensures forall a :: 0 <= a < |drivers| ==> Named(drivers[a].name, k + 1)
      ensures forall other :: old(DriverFor(other)) ==> DriverFor(other)
    {
      ghost var before := drivers;
      var driver := new MotorDriver(name, answers);
      drivers := drivers + [driver];
      assert forall a :: 0 <= a < |before| ==> drivers[a] == before[a];
      assert drivers[|before|].name == name;
      forall other | old(DriverFor(other))
        ensures DriverFor(other)
      {
        var a :| 0 <= a < |before| && before[a].name == other;
        assert drivers[a].name == other;
      }
    }

    ghost predicate DriverFor(channel: string)
      reads this`drivers
    {
      exists a :: 0 <= a < |drivers| && drivers[a].name == channel
    }

    ghost predicate DriversFound()
      reads this`drivers
    {
      forall i :: 0 <= i < |options.motors| ==> DriverFor(options.motors[i].channel)
    }

    method FindDriverSlot(channel: string) returns (slot: Option<nat>)
      ensures slot.None? <==> !DriverFor(channel)
      ensures slot.Some? ==> slot.value < |drivers| && drivers[slot.value].name == channel
    {
      for k := 0 to |drivers|
        invariant forall a :: 0 <= a < k ==> drivers[a].name != channel
      {
        if drivers[k].name == channel {
          return Some(k);
        }
      }
      slot := None;
    }

    /** The devices that the drivers know. */
    ghost function Known(): set<MotorDevice>
      reads this`drivers, drivers`devices
    {
      set k, d | 0 <= k < |drivers| && d in drivers[k].devices :: d
    }

    /** The first n motors are as created, each with the current range of its model. */
    ghost predicate Untouched(w: World, n: nat)
      requires n <= |motors|
      reads this`motors, motors
    {
      forall i :: 0 <= i < n && i < |options.motors| ==>
        && StateOf(motors[i]) == Motor(DeviceMotor.Blank(), 0)
        && options.motors[i].model in w.models
        && motors[i].currentRange == Some(w.models[options.motors[i].model])
    }

    /** Creates the next motor and binds it to its driver. */
    method BindOne(slot: nat, currentRange: (real, real))
      requires Wired() && MotorsSound(options) && |motors| < |options.motors| && slot < |drivers|
      requires drivers[slot].name == options.motors[|motors|].channel
      modifies this`motors, this`bindings, drivers[slot]
      ensures Wired() && |motors| == |old(motors)| + 1 && motors[..|old(motors)|] == old(motors)
      ensures var device := motors[|old(motors)|];
        && fresh(device) && Known() <= old(Known()) + {device}
        && StateOf(device) == Motor(DeviceMotor.Blank(), 0) && device.currentRange == Some(currentRange)
    {
      hide Bound, Lookup, WiredNet, MotorsSound, MotorDriver.Valid, Views;
      var device := new MotorDevice(AddressOf(options.motors[|motors|]), Some(currentRange));
      OneMoreWired(options, View(), slot, device);
      var driver := drivers[slot];
      var deviceSlot := driver.BindMotor(device);
      motors := motors + [device];
      bindings := bindings + [Binding(slot, deviceSlot)];
      assert View().drivers == old(View().drivers)[slot := ViewOf(driver)];
      assert View() == OneMore(old(View()), slot, device);
      forall k, d | 0 <= k < |drivers| && d in drivers[k].devices
        ensures d == device || d in old(Known())
      {
        assert d == device || d in old(drivers[k].devices);
      }
    }

    /** Binds every configured motor, in order. */
    method BindMotors(w: World) returns (e: Err)
      requires Wired() && MotorsSound(options) && motors == []
      modifies this`motors, this`bindings, set d | d in drivers
      ensures e == Ok ==> Wired() && |motors| == |options.motors| && Untouched(w, |motors|)
      ensures fresh(Known() - old(Known()))
      ensures e == if ModelsKnown(w, options) && DriversFound() then Ok else InvalidArgument
    {
      hide MotorsSound, Wired, DriverFor;
      for i := 0 to |options.motors|
        invariant Wired() && |motors| == i && Untouched(w, i) && fresh(Known() - old(Known()))
        invariant forall j :: 0 <= j < i ==>
                    options.motors[j].model in w.models && DriverFor(options.motors[j].channel)
      {
        var slot := FindDriverSlot(options.motors[i].channel);
        if slot.None? {
          return InvalidArgument;
        }
        if options.motors[i].model !in w.models {
          return InvalidArgument;
        }
        ghost var before := motors;
        BindOne(slot.value, w.models[options.motors[i].model]);
        assert forall j :: 0 <= j < i ==> motors[j] == before[j];
      }
      e := Ok;
    }

    /** Every motor's channel exists and is used, so it has a driver. */
    lemma ChannelsServed()
      requires MotorsSound(options)
      requires forall k :: 0 <= k < |options.channels| && Used(options, options.channels[k]) ==>
                 DriverFor(options.channels[k].name)
      ensures DriversFound()
    {
      hide DriverFor;
      forall i | 0 <= i < |options.motors|
        ensures DriverFor(options.motors[i].channel)
      {
        assert MotorSound(options, options.motors[i]);
        var k :| 0 <= k < |options.channels| && options.channels[k].name == options.motors[i].channel;
        assert Used(options, options.channels[k]);
      }
    }

    lemma NothingBound()
      requires motors == [] && bindings == [] && forall k :: 0 <= k < |drivers| ==> Blank(drivers[k])
      ensures WiredNet(options, View())
    {
    }

    /**
     Initialisation succeeds exactly when the configuration is valid, every used channel can be opened
     and every model is known; the error says which of these failed first. On success all is wired up.
     */
    method Init(w: World) returns (e: Err)
      requires drivers == [] && motors == [] && bindings == []
      modifies this
      ensures e == if !ValidConfig(options) then InvalidArgument
                   else if !AllBuildable(w, options) then IoError
                   else if !ModelsKnown(w, options) then InvalidArgument
                   else Ok
      ensures e == Ok ==> Wired() && |motors| == |options.motors| && Untouched(w, |motors|)
      ensures e == Ok ==> NamesOf(drivers) == UsedNames(options, |options.channels|) && fresh(Known())
    {
      hide MotorsSound, ChannelsNamed, Used, WiredNet, DriverFor, Faulty;
      e := ValidateConfig(options);
      if e != Ok {
        return;
      }
      var ok := InitDrivers(w);
      if !ok {
        return IoError;
      }
      NothingBound();
      ChannelsServed();
      e := BindMotors(w);
    }

    // -------------------------------------------------------------------------------------------
    // Receiving
    // -------------------------------------------------------------------------------------------

    /** A motor that is not on driver k gets nothing from its packets. */
    lemma ElsewhereUnrouted(k: nat, i: nat, m: Motor, arrivals: seq<Arrival>)
      requires Wired() && k < |drivers| && i < |motors| && bindings[i].driverSlot != k
      ensures Fed(m, motors[i].currentRange, arrivals, drivers[k].routes, motors[i]) == m
    {
      hide WiredNet, MotorDriver.Valid, Fed, Routed;
      forall frame
        ensures !Routed(drivers[k].routes, motors[i], frame)
      {
        ForwardAt(options, View(), i);
        RoutedExactly(options, View(), k, i, frame);
      }
      FedNothing(m, motors[i].currentRange, arrivals, drivers[k].routes, motors[i]);
    }

    /** What the packets of some receptions make of motor i. */
    ghost function Reached(i: nat, m: Motor, receptions: seq<Reception>): Motor
      requires Wired() && i < |motors|
      reads this, drivers`devices, drivers`routes
    {
      ForwardAt(options, View(), i);
      Fed(m, motors[i].currentRange, ArrivalsOn(receptions, options.motors[i].channel),
          drivers[bindings[i].driverSlot].routes, motors[i])
    }

    /** One packet on the channel of driver k reaches the motors of that channel only. */
    method ReceiveOne(tables: seq<seq<Word>>, k: nat, r: Reception)
      requires Wired() && AreSlices(tables) && k < |drivers| && drivers[k].name == r.channel
      modifies Known()
      ensures Wired()
      ensures forall i :: 0 <= i < |motors| ==> StateOf(motors[i]) == Reached(i, old(StateOf(motors[i])), [r])
    {
      hide AreSlices, WiredNet, MotorDriver.Valid, Fed, Views, Delivered, DecodesTo, ArrivalsOn;
      assert forall d :: d in drivers[k].devices ==> d in Known();
      var decoded := drivers[k].HandlePacket(tables, r.bytes, r.at);
      DeliveredIs(r.bytes, decoded);
      ghost var arrivals := Stamped(decoded.delivered, r.at);
      forall i | 0 <= i < |motors|
        ensures StateOf(motors[i]) == Reached(i, old(StateOf(motors[i])), [r])
      {
        ForwardAt(options, View(), i);
        OneReception(r, options.motors[i].channel);
        var slot := bindings[i].driverSlot;
        if slot == k {
          assert motors[i] in drivers[k].devices;
        } else {
          assert drivers[slot].name != drivers[k].name;
          ElsewhereUnrouted(k, i, old(StateOf(motors[i])), arrivals);
          NoArrivals(old(StateOf(motors[i])), motors[i].currentRange, drivers[slot].routes, motors[i]);
        }
      }
    }

    lemma ReachedNothing(i: nat, m: Motor)
      requires Wired() && i < |motors|
      ensures Reached(i, m, []) == m
    {
    }

    lemma ReachedMore(i: nat, m: Motor, rs: seq<Reception>, n: nat)
      requires Wired() && i < |motors| && n < |rs|
      ensures Reached(i, m, rs[..n + 1]) ==
              if DriverFor(rs[n].channel) then Reached(i, Reached(i, m, rs[..n]), [rs[n]]) else Reached(i, m, rs[..n])
    {
      hide WiredNet, MotorDriver.Valid, Fed, Delivered, Views;
      ForwardAt(options, View(), i);
      var channel := options.motors[i].channel;
      var driver := drivers[bindings[i].driverSlot];
      assert rs[..n + 1][..n] == rs[..n];
      OneReception(rs[n], channel);
      var more := if rs[n].channel == channel then Stamped(Delivered(rs[n].bytes), rs[n].at) else [];
      assert ArrivalsOn(rs[..n + 1], channel) == ArrivalsOn(rs[..n], channel) + more;
      FedConcat(m, motors[i].currentRange, ArrivalsOn(rs[..n], channel), more, driver.routes, motors[i]);
      assert ArrivalsOn(rs[..n], channel) + [] == ArrivalsOn(rs[..n], channel);
    }

    /** Packets arrive on channels, in any order; those on channels without a driver go unseen. */
    method Receive(tables: seq<seq<Word>>, receptions: seq<Reception>)
      requires Wired() && AreSlices(tables)
      modifies Known()
      ensures Wired()
      ensures forall i :: 0 <= i < |motors| ==> StateOf(motors[i]) == Reached(i, old(StateOf(motors[i])), receptions)
    {
      hide AreSlices, Wired, Reached, Known, DriverFor;
      assert receptions[..0] == [];
      forall i | 0 <= i < |motors|
        ensures Reached(i, StateOf(motors[i]), []) == StateOf(motors[i])
      {
        ReachedNothing(i, StateOf(motors[i]));
      }
      for n := 0 to |receptions|
        invariant Wired()
        invariant forall i :: 0 <= i < |motors| ==>
                    StateOf(motors[i]) == Reached(i, old(StateOf(motors[i])), receptions[..n])
      {
        var r := receptions[n];
        var slot := FindDriverSlot(r.channel);
        forall i | 0 <= i < |motors|
          ensures Reached(i, old(StateOf(motors[i])), receptions[..n + 1]) ==
                  if slot.None? then StateOf(motors[i]) else Reached(i, StateOf(motors[i]), [r])
        {
          ReachedMore(i, old(StateOf(motors[i])), receptions, n);
        }
        if slot.Some? {
          ReceiveOne(tables, slot.value, r);
        }
      }
      assert receptions[..|receptions|] == receptions;
    }

    /** One batch per driver, in order, sharing nothing. */
    ghost predicate Ready(batches: seq<Batch>)
      reads this`drivers, set b | b in batches
    {
      && |batches| == |drivers|
      && (forall k :: 0 <= k < |batches| ==> batches[k].Valid() && batches[k].driver == drivers[k])
      && (forall j, k :: 0 <= j < k < |batches| ==> batches[j] != batches[k] && batches[j].frames != batches[k].frames)
    }

    method MakeBatches() returns (batches: seq<Batch>)
      ensures Ready(batches) && fresh(set b | b in batches) && fresh(set b | b in batches :: b.frames)
      ensures forall k :: 0 <= k < |batches| ==> batches[k].Pending() == []
    {
      batches := [];
      for k := 0 to |drivers|
        invariant |batches| == k && fresh(set b | b in batches) && fresh(set b | b in batches :: b.frames)
        invariant forall j :: 0 <= j < k ==>
                    batches[j].Valid() && batches[j].driver == drivers[j] && batches[j].Pending() == []
        invariant forall i, j :: 0 <= i < j < k ==> batches[i] != batches[j] && batches[i].frames != batches[j].frames
      {
        var batch := new Batch(drivers[k]);
        batches := batches + [batch];
      }
    }

    static ghost function HandedBy(ds: seq<MotorDriver>): (hs: seq<seq<seq<CanFrame>>>)
      reads ds`handed
      ensures |hs| == |ds| && forall k :: 0 <= k < |ds| ==> hs[k] == ds[k].handed
    {
      if ds == [] then [] else HandedBy(ds[..|ds| - 1]) + [ds[|ds| - 1].handed]
    }

    static ghost function AnswersOf(ds: seq<MotorDriver>): (a: seq<nat -> Answer>)
      ensures |a| == |ds| && forall k :: 0 <= k < |ds| ==> a[k] == ds[k].answers
    {
      if ds == [] then [] else AnswersOf(ds[..|ds| - 1]) + [ds[|ds| - 1].answers]
    }

    static ghost function PendingIn(bs: seq<Batch>): (p: seq<seq<CanFrame>>)
      requires forall k :: 0 <= k < |bs| ==> bs[k].Valid()
      reads bs, set b | b in bs :: b.frames
      ensures |p| == |bs| && forall k :: 0 <= k < |bs| ==> p[k] == bs[k].Pending()
    {
      if bs == [] then [] else PendingIn(bs[..|bs| - 1]) + [bs[|bs| - 1].Pending()]
    }

    ghost function Now(batches: seq<Batch>): (t: Traffic)
      requires Ready(batches)
      reads this`drivers, drivers`handed, batches, set b | b in batches :: b.frames
      ensures |t.handed| == |t.pending| == |batches| == |drivers| && t.handed == HandedBy(drivers)
    {
      Traffic(HandedBy(drivers), PendingIn(batches))
    }

    /** Pushes a command for one of driver k's devices. */
    method PushTo(batches: seq<Batch>, k: nat, slot: nat, command: Command) returns (e: Err, ghost added: seq<CanFrame>)
      requires Ready(batches) && Distinct() && k < |batches| && slot < |drivers[k].devices|
      modifies batches`count, set b | b in batches :: b.frames, drivers`handed
      ensures Ready(batches)
      ensures PlanOf(command).Failure? ==> e == InvalidArgument && Now(batches) == old(Now(batches))
      ensures PlanOf(command).Success? ==>
                && |added| == 1 && EncodedAs(added[0], drivers[k].devices[slot].address, command)
                && FrameAdded(AnswersOf(drivers), old(Now(batches)), Now(batches), k, added[0], e)
    {
      hide PlanOf, EncodedAs, Verdict, HandedBy, PendingIn, AnswersOf, FrameAdded;
      ghost var was := Now(batches);
      e, added := batches[k].Push(slot, command);
      ghost var handed, pending := drivers[k].handed, batches[k].Pending();
      assert Now(batches) == Traffic(was.handed[k := handed], was.pending[k := pending]);
      if PlanOf(command).Success? {
        assert old(batches[k].Pending()) + added == was.pending[k] + [added[0]];
        AddsFrame(AnswersOf(drivers), was, Now(batches), k, added[0], e, handed, pending);
      } else {
        assert was.handed[k := handed] == was.handed && was.pending[k := pending] == was.pending;
      }
    }

    /** Gives one order to the batch of its driver. */
    method Dispatch(batches: seq<Batch>, o: Order) returns (e: Err)
      requires Wired() && Ready(batches)
      modifies batches`count, set b | b in batches :: b.frames, drivers`handed
      ensures Ready(batches) && Wired()
      ensures Dispatched(AnswersOf(drivers), old(Now(batches)), Now(batches), o, bindings, motors, e)
    {
      hide PlanOf, EncodedAs, Verdict, WiredNet, MotorDriver.Valid, HandedBy, PendingIn, AnswersOf, Views, FrameAdded,
        Lookup;
      if o.deviceId >= |bindings| {
        return InvalidArgument;
      }
      var binding := bindings[o.deviceId];
      ForwardAt(options, View(), o.deviceId);
      ghost var added, was := [], Now(batches);
      e, added := PushTo(batches, binding.driverSlot, binding.deviceSlot, o.command);
      hide Dispatched;
      DispatchedOne(AnswersOf(drivers), was, Now(batches), o, options, View(), e, added);
    }

    method FlushOne(batches: seq<Batch>, k: nat) returns (e: Err)
      requires Ready(batches) && Distinct() && k < |batches|
      modifies batches`count, drivers`handed
      ensures Ready(batches)
      ensures var t := old(Now(batches));
        Now(batches) == Traffic(if t.pending[k] == [] then t.handed else t.handed[k := t.handed[k] + [t.pending[k]]],
                                t.pending[k := []])
      ensures var t := old(Now(batches));
        e == if t.pending[k] == [] then Ok else Verdict(AnswersOf(drivers)[k](|t.handed[k]|), t.pending[k])
    {
      hide Verdict, HandedBy, PendingIn, AnswersOf;
      ghost var was := Now(batches);
      e := batches[k].Flush();
      assert Now(batches) == Traffic(was.handed[k := drivers[k].handed], was.pending[k := []]);
      assert was.handed[k := was.handed[k]] == was.handed;
    }

    /** Sends what is left in every batch; `error` is the last error so far. */
    method FlushAll(batches: seq<Batch>, collected: Err) returns (error: Err, ghost reports: seq<Err>)
      requires Ready(batches) && Distinct()
      modifies batches`count, drivers`handed
      ensures Flushed(old(Now(batches)), HandedBy(drivers), |batches|)
      ensures FlushErrors(AnswersOf(drivers), old(Now(batches)), reports) && |reports| == |batches|
      ensures error == if LastError(reports) != Ok then LastError(reports) else collected
      ensures error == Ok <==>
              collected == Ok && FlushesAccepted(AnswersOf(drivers), old(Now(batches)), |batches|)
    {
      hide Verdict, HandedBy, PendingIn, AnswersOf, Flushed, FlushesAccepted, Unflushed, Ready, Distinct;
      error, reports := collected, [];
      ghost var was, answers := Now(batches), AnswersOf(drivers);
      NoneFlushed(answers, was);
      for k := 0 to |batches|
        invariant Ready(batches) && Distinct() && |batches| == |drivers|
        invariant Unflushed(was, Now(batches), k) && Flushed(was, Now(batches).handed, k)
        invariant error == Ok <==> collected == Ok && FlushesAccepted(answers, was, k)
        invariant FlushErrors(answers, was, reports) && |reports| == k
        invariant error == if LastError(reports) != Ok then LastError(reports) else collected
      {
        ghost var now := Now(batches);
        var e := FlushOne(batches, k);
        FlushedMore(answers, was, now, Now(batches), k, e);
        LastErrorMore(reports, e);
        reports := reports + [e];
        if e != Ok {
          error := e;
        }
      }
    }

    /** Feeds the batches with all orders; the result is the last error, if there was any. */
    method Collect(batches: seq<Batch>, orders: seq<Order>) returns (error: Err, ghost reports: seq<Err>)
      requires Wired() && Ready(batches) && forall k :: 0 <= k < |batches| ==> batches[k].Pending() == []
      modifies batches`count, set b | b in batches :: b.frames, drivers`handed
      ensures Ready(batches) && Wired()
      ensures Underway(old(HandedBy(drivers)), Now(batches), orders, bindings, motors)
      ensures error == Ok <==>
              NoneRefused(AnswersOf(drivers), old(HandedBy(drivers)), HandedBy(drivers)) && AllGood(orders, bindings)
      ensures |reports| == |orders| && error == LastError(reports)
      ensures AllReport(
                orders, |orders|, bindings, AnswersOf(drivers), old(HandedBy(drivers)), HandedBy(drivers), reports)
    {
      hide AllReport, Underway, Wired, NoneRefused, AllGood, Dispatched, HandedBy, PendingIn, AnswersOf;
      ghost var before := HandedBy(drivers);
      error, reports := Ok, [];
      NoReports(orders, bindings, AnswersOf(drivers), before);
      NothingYet(before, PendingIn(batches), AnswersOf(drivers), bindings, motors);
      NoOrders(bindings);
      for i := 0 to |orders|
        invariant Ready(batches) && Wired()
        invariant Underway(before, Now(batches), orders[..i], bindings, motors)
        invariant error == Ok <==>
                  NoneRefused(AnswersOf(drivers), before, HandedBy(drivers)) && AllGood(orders[..i], bindings)
        invariant |reports| == i && error == LastError(reports)
        invariant AllReport(orders, i, bindings, AnswersOf(drivers), before, HandedBy(drivers), reports)
      {
        ghost var was := Now(batches);
        var e := Dispatch(batches, orders[i]);
        OneOrderMore(AnswersOf(drivers), before, was, Now(batches), orders, i, bindings, motors, e);
        OneReportMore(AnswersOf(drivers), before, was, Now(batches), orders, i, bindings, motors, reports, e);
        LastErrorMore(reports, e);
        reports := reports + [e];
        if e != Ok {
          error := e;
        }
      }
      assert orders[..|orders|] == orders;
    }

    /**
     Sends orders to the motors they name. For every driver, the packets handed to its channel, laid end
     to end, are in order the encodings of exactly the good orders bound to it; all packets but the last
     are full and none is empty. The result is Ok exactly when every order was good and every packet was
     accepted; otherwise it is an error, and the other orders went out all the same.
     */
    method SendMotorCommands(orders: seq<Order>) returns (error: Err)
      requires Wired()
      modifies drivers`handed
      ensures Wired()
      ensures forall k :: 0 <= k < |drivers| ==>
                AllSent(old(HandedBy(drivers))[k], drivers[k].handed, Mine(orders, bindings, k), motors)
      ensures error == Ok <==>
              AllGood(orders, bindings) && NoneRefused(AnswersOf(drivers), old(HandedBy(drivers)), HandedBy(drivers))
      ensures ReportsLast(orders, bindings, AnswersOf(drivers), old(HandedBy(drivers)), HandedBy(drivers), error)
    {
      hide AllReport, ReportsLast, FlushErrors, Underway, AllGood, Mine, NoneRefused, AllSent, WiredNet,
        MotorDriver.Valid, Views, HandedBy, AnswersOf, PendingIn, Flushed, FlushesAccepted;
      var batches := MakeBatches();
      ghost var before := HandedBy(drivers);
      var collected, reports := Collect(batches, orders);
      ghost var middle := Now(batches);
      ghost var flushes;
      error, flushes := FlushAll(batches, collected);
      LastErrorConcat(reports, flushes);
      LastReported(AnswersOf(drivers), before, middle, HandedBy(drivers), orders, bindings, motors, reports, flushes);
      Conclude(AnswersOf(drivers), before, middle, HandedBy(drivers), orders, bindings, motors);
    }
  }

  lemma NoOrders(bindings: seq<Binding>)
    ensures AllGood([], bindings)
  {
  }
}
