/** Results that cross the layers: from orders to frames decoded from the wire, and from received bytes to state. */
module EndToEnd {
  import opened Bits
  import opened Fleet
  import opened Checksum
  import opened CodecMotor
  import opened CommandFrames
  import opened Feedback
  import FeedbackBytes
  import opened DeviceMotor
  import opened DriverMotor
  import opened Producers
  import opened CommandsOnWire
  import RouteTable
  import opened Runtime
  import opened SendPipeline
  import opened SendOrder

  // ---------------------------------------------------------------------------------------------
  // Sending: frames, packets, slots, wire, frames
  // ---------------------------------------------------------------------------------------------

  /**
   Over every run whose producers commit encoded batches, each packet that reaches the wire decodes
   without error to its whole batch, and the batches arrive in the order they were committed.
   */
  lemma WireDecodes(s: State, events: seq<Event>, batches: seq<seq<CanFrame>>, k: nat, d: Decoded)
    requires Initial(s) && CommitsEncode(Run(s, events).commits, batches)
    requires k < |Wire(Run(s, events).log)| && DecodesTo(Wire(Run(s, events).log)[k], d)
    ensures var at := WireIds(Run(s, events).log);
      && |at| == |Wire(Run(s, events).log)| && Increasing(at)
      && at[k] < |batches| && d == Decoded(Ok, batches[at[k]])
  {
    hide Run, Wire, WireIds, DecodesTo, Encoding, Initial;
    WireFollowsCommits(s, events);
    var at := WireIds(Run(s, events).log);
    RoundTrip(TYPE_UDP2CAN, batches[at[k]], d);
  }

  /** A committed packet goes from UDP to CAN and is laid out as its batch. */
  lemma PacketLaidOut(commits: seq<seq<Byte>>, batches: seq<seq<CanFrame>>, i: nat)
    requires CommitsEncode(commits, batches) && i < |batches|
    ensures Layout(commits[i], 1, batches[i])
  {
    hide Encoding, Layout;
    EncodingLayout(TYPE_UDP2CAN, batches[i]);
  }

  /**
   From batches to frames, over every interleaving of producers that send encoded batches with each other,
   with discarders and with the transmit thread: each packet on the wire decodes without error to its
   whole batch, and the batches arrive in the order in which their producers committed them. Its bytes
   are laid out as that batch, with type 1.
   */
  lemma BatchesReachTheWire(s: State, deeds: seq<Deed>, k: nat, d: Decoded)
    requires Initial(s) && k < |Wire(Worked(s, deeds).s.log)| && DecodesTo(Wire(Worked(s, deeds).s.log)[k], d)
    ensures var c := Worked(s, deeds);
      var at := WireIds(c.s.log);
      && |at| == |Wire(c.s.log)| && Increasing(at)
      && at[k] < |c.batches| && d == Decoded(Ok, c.batches[at[k]])
      && Layout(Wire(c.s.log)[k], 1, c.batches[at[k]])
  {
    hide Run, Wire, WireIds, DecodesTo, Initial, Worked, Trace, CommitsEncode;
    WorkIsRun(s, deeds);
    CommitsAreEncodings(s, deeds);
    WireDecodes(s, Trace(s, deeds), Worked(s, deeds).batches, k, d);
    WireFollowsCommits(s, Trace(s, deeds));
    var c := Worked(s, deeds);
    PacketLaidOut(c.s.commits, c.batches, WireIds(c.s.log)[k]);
  }

  /** The orders that go to one channel: to its motors, with commands that can be encoded. */
  function OrdersFor(orders: seq<Order>, c: Config, channel: string): seq<Order> {
    if orders == [] then []
    else
      var last := orders[|orders| - 1];
      OrdersFor(orders[..|orders| - 1], c, channel) +
      (if last.deviceId < |c.motors| && c.motors[last.deviceId].channel == channel && Acceptable(last.command)
       then [last] else [])
  }

  /** Frame by frame these are the orders, each at its motor's configured address. */
  ghost predicate Conveys(frames: seq<CanFrame>, orders: seq<Order>, c: Config) {
    && |frames| == |orders|
    && forall i :: 0 <= i < |frames| ==>
         var o := orders[i];
         o.deviceId < |c.motors|
         && Means(frames[i], Address(c.motors[o.deviceId].canPort, c.motors[o.deviceId].canId), o.command)
  }

  /** What is heard from handle `h` are in order some of these orders, each at most once. */
  ghost predicate Conveyed(s: State, deeds: seq<Deed>, h: nat, orders: seq<Order>, c: Config)
    requires Initial(s)
  {
    exists served :: Subsequence(served, orders) && Conveys(HeardFrom(s, deeds, h), served, c)
  }

  ghost predicate DriversApart(n: Net) {
    forall a, b :: 0 <= a < b < |n.drivers| ==> n.drivers[a].name != n.drivers[b].name
  }

  /** The orders bound to a driver are those for its channel. */
  lemma {:induction false} MineIsOrdersFor(orders: seq<Order>, c: Config, n: Net, k: nat)
    requires WiredNet(c, n) && |n.motors| == |c.motors| && k < |n.drivers| && DriversApart(n)
    ensures Mine(orders, n.bindings, k) == OrdersFor(orders, c, n.drivers[k].name)
    decreases |orders|
  {
    hide WiredNet, PlanOf, Acceptable, RouteTable.Lookup;
    if orders != [] {
      var last := orders[|orders| - 1];
      MineIsOrdersFor(orders[..|orders| - 1], c, n, k);
      WiredSizes(c, n);
      Accepts(last.command);
      if last.deviceId < |n.motors| {
        ForwardAt(c, n, last.deviceId);
      }
    }
  }

  lemma WiredSizes(c: Config, n: Net)
    requires WiredNet(c, n)
    ensures |n.motors| == |n.bindings|
  {
  }

  lemma EncodingsConvey(frames: seq<CanFrame>, orders: seq<Order>, c: Config, n: Net)
    requires WiredNet(c, n) && Encodings(frames, orders, n.motors)
    ensures Conveys(frames, orders, c)
  {
    hide WiredNet, PlanOf, Means, Carries, RouteTable.Lookup;
    forall i | 0 <= i < |frames|
      ensures var o := orders[i];
        o.deviceId < |c.motors|
        && Means(frames[i], Address(c.motors[o.deviceId].canPort, c.motors[o.deviceId].canId), o.command)
    {
      ForwardAt(c, n, orders[i].deviceId);
      PlanMeaning(frames[i], n.motors[orders[i].deviceId].address, orders[i].command);
    }
  }

  lemma ServedConveyed(s: State, deeds: seq<Deed>, h: nat, orders: seq<Order>, c: Config, n: Net)
    requires Initial(s) && WiredNet(c, n) && Served(s, deeds, h, orders, n.motors)
    ensures Conveyed(s, deeds, h, orders, c)
  {
    hide Initial, WiredNet, HeardFrom, Subsequence, Encodings, Conveys;
    var served :| Subsequence(served, orders) && Encodings(HeardFrom(s, deeds, h), served, n.motors);
    EncodingsConvey(HeardFrom(s, deeds, h), served, c, n);
  }

  lemma AllSentConveys(
    was: seq<seq<CanFrame>>, now: seq<seq<CanFrame>>, mine: seq<Order>, c: Config, n: Net)
    requires WiredNet(c, n) && AllSent(was, now, mine, n.motors)
    ensures was <= now && Conveys(Flat(now[|was|..]), mine, c)
    ensures forall j :: |was| <= j < |now| ==> 1 <= |now[j]| <= 32 && (j + 1 < |now| ==> |now[j]| == 32)
  {
    hide WiredNet, Encodings, Flat, Conveys;
    EncodingsConvey(Flat(now[|was|..]), mine, c, n);
    forall j | |was| <= j < |now|
      ensures 1 <= |now[j]| <= 32 && (j + 1 < |now| ==> |now[j]| == 32)
    {
      assert now[|was|..][j - |was|] == now[j];
    }
  }

  lemma WiredView(rt: Runtime)
    requires rt.Wired()
    ensures WiredNet(rt.options, rt.View()) && DriversApart(rt.View())
  {
    hide WiredNet, MotorDriver.Valid, Runtime.Views;
  }

  /** The packets handed to driver k since `was` convey the orders for its channel, 32 at a time. */
  ghost predicate HandedConvey(rt: Runtime, was: seq<seq<CanFrame>>, k: nat, orders: seq<Order>)
    requires k < |rt.drivers|
    reads rt, rt.drivers`handed
  {
    var now := rt.drivers[k].handed;
    && was <= now && Conveys(Flat(now[|was|..]), OrdersFor(orders, rt.options, rt.drivers[k].name), rt.options)
    && forall j :: |was| <= j < |now| ==> 1 <= |now[j]| <= 32 && (j + 1 < |now| ==> |now[j]| == 32)
  }

  lemma HandedConveys(rt: Runtime, was: seq<seq<CanFrame>>, k: nat, orders: seq<Order>)
    requires rt.Wired() && |rt.motors| == |rt.options.motors| && k < |rt.drivers|
    requires AllSent(was, rt.drivers[k].handed, Mine(orders, rt.bindings, k), rt.motors)
    ensures HandedConvey(rt, was, k, orders)
  {
    hide Runtime.Wired, AllSent, Mine, Conveys, OrdersFor, WiredNet;
    WiredView(rt);
    MineIsOrdersFor(orders, rt.options, rt.View(), k);
    AllSentConveys(was, rt.drivers[k].handed, Mine(orders, rt.bindings, k), rt.options, rt.View());
  }

  lemma HeardConveyed(
    rt: Runtime, was: seq<seq<CanFrame>>, k: nat, orders: seq<Order>, s: State, deeds: seq<Deed>, h: nat)
    requires rt.Wired() && |rt.motors| == |rt.options.motors| && k < |rt.drivers|
    requires AllSent(was, rt.drivers[k].handed, Mine(orders, rt.bindings, k), rt.motors)
    requires Initial(s) && OwnHandle(deeds, h) && rt.drivers[k].handed == was + BegunBy(deeds, h)
    ensures Conveyed(s, deeds, h, OrdersFor(orders, rt.options, rt.drivers[k].name), rt.options)
  {
    hide Runtime.Wired, Initial, OwnHandle, BegunBy, AllSent, Served, Mine, Conveyed, OrdersFor, WiredNet;
    WiredView(rt);
    MineIsOrdersFor(orders, rt.options, rt.View(), k);
    CommandsReachTheWire(s, deeds, h, [was, rt.drivers[k].handed], [orders], rt.bindings, k, rt.motors);
    MineOfOne(orders, rt.bindings, k);
    ServedConveyed(s, deeds, h, Mine(orders, rt.bindings, k), rt.options, rt.View());
  }

  /**
   From orders to frames. For every driver, the frames handed over are, one for one and in order, the orders
   for its channel, each argument in its place in a frame to the motor's configured address, in packets of
   32 but for the last. Whatever the channels do afterwards: if a thread sends these packets through a
   handle of its own, then under any interleaving with other producers, discarders and the transmit thread
   those that reach the wire decode to frames that are in order some of these orders, each at most once.
   */
  method OrderAndHear(rt: Runtime, orders: seq<Order>) returns (e: Err)
    requires rt.Wired() && |rt.motors| == |rt.options.motors|
    modifies rt.drivers`handed
    ensures forall k :: 0 <= k < |rt.drivers| ==> HandedConvey(rt, old(rt.drivers[k].handed), k, orders)
    ensures forall s, deeds, h, k ::
              (Initial(s) && OwnHandle(deeds, h) && 0 <= k < |rt.drivers|
               && rt.drivers[k].handed == old(rt.drivers[k].handed) + BegunBy(deeds, h)) ==>
                Conveyed(s, deeds, h, OrdersFor(orders, rt.options, rt.drivers[k].name), rt.options)
  {
    hide Runtime.Wired, Initial, OwnHandle, BegunBy, AllSent, Mine, Conveyed, HandedConvey, OrdersFor, ReportsLast,
      AllGood, NoneRefused;
    ghost var before := Runtime.HandedBy(rt.drivers);
    e := rt.SendMotorCommands(orders);
    forall k | 0 <= k < |rt.drivers|
      ensures HandedConvey(rt, before[k], k, orders)
    {
      HandedConveys(rt, before[k], k, orders);
    }
    forall s, deeds, h, k | Initial(s) && OwnHandle(deeds, h) && 0 <= k < |rt.drivers|
                            && rt.drivers[k].handed == before[k] + BegunBy(deeds, h)
      ensures Conveyed(s, deeds, h, OrdersFor(orders, rt.options, rt.drivers[k].name), rt.options)
    {
      HeardConveyed(rt, before[k], k, orders, s, deeds, h);
    }
  }

  /** A served packet: granted, accepted by the socket, and its slot back at the end of the free ring. */
  lemma ServedPacket(s: State, t0: int, t1: int)
    requires Conserved(s) && Content(s) && s.tx.Waiting? && s.now <= t0 <= t1
    requires s.tx.size == 0
             || (s.bucket.Usable() && TokenBucket.Refilled(s.bucket, t0).available >= s.tx.size as real)
    ensures s.tx.id < |s.commits| && s.tx.slot < s.pool.Slots()
    ensures var u := Run(s, [TxPoll(t0), TxSend(t1, SendPipeline.Accepted), TxErase, TxFree]);
      && Wire(u.log) == Wire(s.log) + [s.commits[s.tx.id]]
      && u.tx == Idle && u.pool == SendQueue.Released(s.pool, s.tx.slot)
  {
    hide Conserved, Content, Wire, Run, Step;
    var events := [TxPoll(t0), TxSend(t1, SendPipeline.Accepted), TxErase, TxFree];
    TxApart(s);
    TxHolds(s);
    RunFour(s, events);
    GrantedAt(s, t0);
    var a := Step(s, TxPoll(t0));
    assert a.log[..|a.log| - 1] == s.log;
    LastSent(a.log);
    LastTry(a, t1, SendPipeline.Accepted);
    var b := Step(a, TxSend(t1, SendPipeline.Accepted));
    Drops(b);
    Frees(Step(b, TxErase));
  }

  lemma GrantedAt(s: State, t: int)
    requires s.tx.Waiting? && s.now <= t
    requires s.tx.size == 0
             || (s.bucket.Usable() && TokenBucket.Refilled(s.bucket, t).available >= s.tx.size as real)
    ensures var u := Step(s, TxPoll(t));
      && u.tx == Ready(s.tx.slot, s.tx.id, s.tx.size, 0) && u.now == t && u.pool == s.pool
      && u.log == s.log + [Grant(s.tx.id, s.tx.size, t, None)]
  {
    hide TokenBucket.Refilled, TokenBucket.Spent;
  }

  lemma Frees(s: State)
    requires s.tx.Freeing?
    ensures Step(s, TxFree) == s.(pool := SendQueue.PushFree(s.pool, s.tx.slot), tx := Idle)
  {
  }

  lemma TxHolds(s: State)
    requires Content(s) && s.tx.Waiting?
    ensures SendOrder.Packed(s, s.tx.slot, s.tx.id) && s.tx.size == |s.commits[s.tx.id]|
  {
  }

  lemma RunFour(s: State, events: seq<Event>)
    requires |events| == 4
    ensures Run(s, events) == Step(Step(Step(Step(s, events[0]), events[1]), events[2]), events[3])
  {
    hide Step;
    assert events[..3][..2] == events[..2] && events[..2][..1] == events[..1] && events[..1][..0] == [];
    assert Run(s, events[..1]) == Step(s, events[0]);
    assert Run(s, events[..2]) == Step(Run(s, events[..1]), events[1]);
    assert Run(s, events[..3]) == Step(Run(s, events[..2]), events[2]);
  }

  lemma Blocked(s: State, t: int)
    requires s.tx.Ready? && t >= s.now && s.log != []
    requires InPool(s, s.tx.slot) && s.tx.size <= |s.pool.regions[s.tx.slot]|
    ensures Step(s, TxSend(t, WouldBlock)) ==
            s.(now := t, tx := if s.tx.attempt + 1 >= SEND_RETRY_COUNT then Dropping(s.tx.slot)
                               else s.tx.(attempt := s.tx.attempt + 1))
  {
  }

  /** An accepted packet puts its bytes on the wire; a refused third attempt puts nothing there. */
  lemma LastTry(s: State, t: int, result: SendResult)
    requires s.tx.Ready? && t >= s.now && InPool(s, s.tx.slot) && s.tx.size <= |s.pool.regions[s.tx.slot]|
    requires s.log != [] && s.log[|s.log| - 1].sent == None
    requires result == SendPipeline.Accepted || (result == WouldBlock && s.tx.attempt == 2)
    ensures var u := Step(s, TxSend(t, result));
      && u.tx == Dropping(s.tx.slot) && u.pool == s.pool
      && Wire(u.log) == Wire(s.log) + (if result == WouldBlock then [] else [s.pool.regions[s.tx.slot][..s.tx.size]])
  {
    hide HandleStep, Wire;
    var u := Step(s, TxSend(t, result));
    LastSent(s.log);
    if result == SendPipeline.Accepted {
      assert u.log[..|u.log| - 1] == s.log[..|s.log| - 1];
      LastSent(u.log);
    }
  }

  lemma Drops(s: State)
    requires s.tx.Dropping? && InPool(s, s.tx.slot)
    ensures Step(s, TxErase) == s.(pool := SendQueue.SetSize(s.pool, s.tx.slot, 0), tx := Freeing(s.tx.slot))
  {
  }

  /** A full socket is tried three times in all: two refusals are survived, a third drops the packet. */
  lemma ThreeAttempts(s: State, a: int, b: int, c: int, last: SendResult)
    requires Conserved(s) && Content(s) && s.tx.Ready? && s.tx.attempt == 0 && s.now <= a <= b <= c
    requires last == SendPipeline.Accepted || last == WouldBlock
    ensures s.tx.id < |s.commits|
    ensures var u := Run(s, [TxSend(a, WouldBlock), TxSend(b, WouldBlock), TxSend(c, last), TxErase]);
      && u.tx == Freeing(s.tx.slot)
      && Wire(u.log) == Wire(s.log) + (if last == WouldBlock then [] else [s.commits[s.tx.id]])
  {
    hide Conserved, Content, Wire, Run, Step;
    var events := [TxSend(a, WouldBlock), TxSend(b, WouldBlock), TxSend(c, last), TxErase];
    TxApart(s);
    ReadyHolds(s);
    RunFour(s, events);
    Blocked(s, a);
    var s1 := Step(s, events[0]);
    Blocked(s1, b);
    var s2 := Step(s1, events[1]);
    LastTry(s2, c, last);
    Drops(Step(s2, events[2]));
  }

  lemma ReadyHolds(s: State)
    requires Content(s) && s.tx.Ready?
    ensures SendOrder.Packed(s, s.tx.slot, s.tx.id) && s.tx.size == |s.commits[s.tx.id]|
    ensures s.log != [] && s.log[|s.log| - 1].sent == None
  {
  }

  // ---------------------------------------------------------------------------------------------
  // Receiving: bytes, frames, routed feedback, coherent state
  // ---------------------------------------------------------------------------------------------

  /** The writes that a list of arrivals makes to motor `d`, with the tickets they take. */
  function WritesOf<T(==)>(
    currentRange: Option<(real, real)>, arrivals: seq<Arrival>, routes: seq<seq<Option<T>>>, d: T): seq<Write>
    decreases |arrivals|
  {
    if arrivals == [] then []
    else
      var before := WritesOf(currentRange, arrivals[..|arrivals| - 1], routes, d);
      var a := arrivals[|arrivals| - 1];
      var response := ParseFeedback(a.frame, currentRange);
      if Routed(routes, d, a.frame) && response.Success?
      then before + [Write(response.value, a.at, |before| + 1)] else before
  }

  /** A motor fed from blank is in the state that the history of its parsed, routed arrivals describes. */
  lemma {:induction false} FedIsHistory<T>(
    currentRange: Option<(real, real)>, arrivals: seq<Arrival>, routes: seq<seq<Option<T>>>, d: T)
    ensures var ws := WritesOf(currentRange, arrivals, routes, d);
      && History(ws) && (forall i :: 0 <= i < |ws| ==> ws[i].seqNo == i + 1)
      && Fed(Motor(Blank(), 0), currentRange, arrivals, routes, d) == Motor(After(ws), |ws|)
    decreases |arrivals|
  {
    hide ParseFeedback, Shaped, Written, Routed;
    if arrivals != [] {
      var rest := arrivals[..|arrivals| - 1];
      FedIsHistory(currentRange, rest, routes, d);
      var frame := arrivals[|arrivals| - 1].frame;
      if ParseFeedback(frame, currentRange).Success? {
        ParsedIsShaped(frame, currentRange);
      }
      var ws := WritesOf(currentRange, rest, routes, d);
      var all := WritesOf(currentRange, arrivals, routes, d);
      if all != ws {
        assert all[..|ws|] == ws;
      }
    }
  }

  /** Coherent if and only if the last reply is a status message, and then that message. */
  predicate ReflectsLastStatus(s: Snapshot, ws: seq<Write>) {
    var last := LastReply(ws);
    && (s.Coherent() <==> last.Some? && last.value.message.Status?)
    && (s.Coherent() ==> s == StatusSnapshot(last.value))
  }

  /** All that is sampled is what the messages last said of it, and the snapshot reflects the last status. */
  ghost predicate Reflects(r: Readings, ws: seq<Write>) {
    && ReflectsLastStatus(SnapshotOf(r), ws) && HoldsLast(r, ws)
    && (forall code :: KeptApart(code) ==>
          r.config.Field(code) == if LastAnswer(ws, code).Some? then LastAnswer(ws, code).value else UNANSWERED)
    && (r.uuid.value.Complete() ==>
          && LastFragment(ws, 1).Some? && LastFragment(ws, 2).Some? && LastFragment(ws, 3).Some?
          && r.uuid.value.bytes == LastFragment(ws, 1).value + LastFragment(ws, 2).value + LastFragment(ws, 3).value)
  }

  lemma HistoryReflected(ws: seq<Write>)
    requires History(ws)
    ensures Reflects(After(ws), ws)
  {
    hide After, LastReply, LastAnswer, LastFragment, HoldsLast, KeptApart, ConfigState.Field, Shaped;
    CoherentExactly(ws);
    FieldsExactly(ws);
    UuidCompleteExactly(ws);
    forall code | KeptApart(code)
      ensures After(ws).config.Field(code) ==
              if LastAnswer(ws, code).Some? then LastAnswer(ws, code).value else UNANSWERED
    {
      AnswersExactly(ws, code);
    }
  }

  /**
   From frames to coherence: after any arrivals, at any times, a motor's snapshot is coherent exactly when
   the last of its own frames that parsed to anything but an acknowledgement was a status message, and
   then it is the content and time of that one message.
   */
  lemma CoherentFromFrames<T>(
    currentRange: Option<(real, real)>, arrivals: seq<Arrival>, routes: seq<seq<Option<T>>>, d: T)
    ensures var m := Fed(Motor(Blank(), 0), currentRange, arrivals, routes, d);
      ReflectsLastStatus(SnapshotOf(m.readings), WritesOf(currentRange, arrivals, routes, d))
  {
    hide Fed, WritesOf, After, LastReply;
    FedIsHistory(currentRange, arrivals, routes, d);
    CoherentExactly(WritesOf(currentRange, arrivals, routes, d));
  }

  /** The same for everything that is sampled. */
  lemma StateFromFrames<T>(
    currentRange: Option<(real, real)>, arrivals: seq<Arrival>, routes: seq<seq<Option<T>>>, d: T)
    ensures Reflects(Fed(Motor(Blank(), 0), currentRange, arrivals, routes, d).readings,
                     WritesOf(currentRange, arrivals, routes, d))
  {
    hide Fed, WritesOf, After, Reflects;
    FedIsHistory(currentRange, arrivals, routes, d);
    HistoryReflected(WritesOf(currentRange, arrivals, routes, d));
  }

  /** The writes that a list of arrivals makes to the motor at an address, read off the bytes of its frames. */
  ghost function OwnWrites(currentRange: Option<(real, real)>, arrivals: seq<Arrival>, address: Address): seq<Write>
    decreases |arrivals|
  {
    if arrivals == [] then []
    else
      var before := OwnWrites(currentRange, arrivals[..|arrivals| - 1], address);
      var a := arrivals[|arrivals| - 1];
      var response := FeedbackBytes.Said(a.frame, currentRange);
      if IsOwn(a.frame, address) && response.Success?
      then before + [Write(response.value, a.at, |before| + 1)] else before
  }

  predicate IsOwn(frame: CanFrame, address: Address) {
    frame.port == address.port && frame.id == address.id && frame.id != 0x7FF
  }

  lemma {:induction false} RoutedWritesAreOwn<T>(
    currentRange: Option<(real, real)>, arrivals: seq<Arrival>, routes: seq<seq<Option<T>>>, d: T, address: Address)
    requires forall frame :: Routed(routes, d, frame) <==> IsOwn(frame, address)
    ensures WritesOf(currentRange, arrivals, routes, d) == OwnWrites(currentRange, arrivals, address)
    decreases |arrivals|
  {
    hide ParseFeedback, FeedbackBytes.Said, Routed, IsOwn;
    if arrivals != [] {
      FeedbackBytes.SaidIsParsed(arrivals[|arrivals| - 1].frame, currentRange);
      RoutedWritesAreOwn(currentRange, arrivals[..|arrivals| - 1], routes, d, address);
    }
  }

  /** Motor i of a wired runtime is reached by its own frames on its own channel. */
  lemma ReachedIsOwn(rt: Runtime, i: nat, receptions: seq<Reception>)
    requires rt.Wired() && i < |rt.motors| && |rt.motors| == |rt.options.motors|
    ensures var config := rt.options.motors[i];
      var m := rt.Reached(i, Motor(Blank(), 0), receptions);
      Reflects(m.readings,
        OwnWrites(rt.motors[i].currentRange, ArrivalsOn(receptions, config.channel), AddressOf(config)))
  {
    hide WiredNet, MotorDriver.Valid, Routed, IsOwn, Reflects, Fed, Runtime.Views, ArrivalsOn;
    var config := rt.options.motors[i];
    ForwardAt(rt.options, rt.View(), i);
    var slot := rt.bindings[i].driverSlot;
    var driver := rt.drivers[slot];
    var arrivals := ArrivalsOn(receptions, config.channel);
    forall frame
      ensures Routed(driver.routes, rt.motors[i], frame) <==> IsOwn(frame, AddressOf(config))
    {
      RoutedToOwn(rt.options, rt.View(), slot, i, frame);
    }
    RoutedWritesAreOwn(rt.motors[i].currentRange, arrivals, driver.routes, rt.motors[i], AddressOf(config));
    StateFromFrames(rt.motors[i].currentRange, arrivals, driver.routes, rt.motors[i]);
  }

  lemma RoutedToOwn(c: Config, n: Net, slot: nat, i: nat, frame: CanFrame)
    requires WiredNet(c, n) && i < |n.motors| && i < |c.motors| && i < |n.bindings|
    requires slot == n.bindings[i].driverSlot < |n.drivers|
    ensures Routed(n.drivers[slot].routes, n.motors[i], frame) <==> IsOwn(frame, AddressOf(c.motors[i]))
  {
    hide WiredNet, Routed;
    RoutedExactly(c, n, slot, i, frame);
  }

  /**
   From bytes to state. After a successful start and any datagrams on any channels at any times, everything
   sampled of every configured motor is what the bytes of the frames delivered on its channel with its port
   and id (which must not be 0x7FF) last said of it. The snapshot is coherent exactly when the last of them
   that said anything but an acknowledgement was a status message, and is then that message, with its time.
   */
  method StartAndReceive(options: Config, w: World, tables: seq<seq<Word>>, receptions: seq<Reception>)
    returns (e: Err, rt: Runtime)
    requires AreSlices(tables)
    ensures e == Ok <==> ValidConfig(options) && AllBuildable(w, options) && ModelsKnown(w, options)
    ensures e == Ok ==> |rt.motors| == |options.motors|
    ensures e == Ok ==> forall i :: 0 <= i < |options.motors| && options.motors[i].model in w.models ==>
              var config := options.motors[i];
              Reflects(rt.motors[i].View(),
                OwnWrites(Some(w.models[config.model]), ArrivalsOn(receptions, config.channel), AddressOf(config)))
  {
    hide AreSlices, ValidConfig, AllBuildable, ModelsKnown, Runtime.Wired, Runtime.Reached, Reflects,
      ArrivalsOn, OwnWrites, Runtime.NamesOf, UsedNames;
    rt := new Runtime(options);
    e := rt.Init(w);
    if e != Ok {
      return;
    }
    rt.Receive(tables, receptions);
    forall i | 0 <= i < |options.motors| && options.motors[i].model in w.models
      ensures var config := options.motors[i];
        Reflects(rt.motors[i].View(),
          OwnWrites(Some(w.models[config.model]), ArrivalsOn(receptions, config.channel), AddressOf(config)))
    {
      ReachedIsOwn(rt, i, receptions);
    }
  }
}
