/**
 From commands to the wire: the frames decoded there are encodings of good orders, in the order they were
 given. Packets may be missing, as a channel may refuse, discard or drop them.
 */
module CommandsOnWire {
  import opened Bits
  import opened Fleet
  import opened CodecMotor
  import opened DeviceMotor
  import opened DriverMotor
  import opened Runtime
  import opened SendPipeline
  import opened SendOrder
  import opened Producers

  // ---------------------------------------------------------------------------------------------
  // What is left of a sequence
  // ---------------------------------------------------------------------------------------------

  /** `a` is what is left of `b` when some elements are left out. */
  ghost predicate Subsequence<T(!new)>(a: seq<T>, b: seq<T>) {
    exists at: seq<nat> :: Selected(a, b, at)
  }

  lemma Longer<T(!new)>(a: seq<T>, b: seq<T>, c: seq<T>)
    requires Subsequence(a, b)
    ensures Subsequence(a, b + c)
  {
    var at: seq<nat> :| Selected(a, b, at);
    assert Selected(a, b + c, at);
  }

  lemma BothLonger<T(!new)>(a: seq<T>, b: seq<T>, x: T)
    requires Subsequence(a, b)
    ensures Subsequence(a + [x], b + [x])
  {
    var at: seq<nat> :| Selected(a, b, at);
    assert Selected(a, b + [x], at);
    SelectedMore(a, b + [x], at, |b|);
    assert Selected(a + [x], b + [x], at + [|b|]);
  }

  lemma {:induction false} BothMuchLonger<T(!new)>(a: seq<T>, b: seq<T>, c: seq<T>)
    requires Subsequence(a, b)
    ensures Subsequence(a + c, b + c)
    decreases |c|
  {
    hide Subsequence;
    if c == [] {
      assert a + c == a && b + c == b;
    } else {
      var n := |c| - 1;
      BothMuchLonger(a, b, c[..n]);
      BothLonger(a + c[..n], b + c[..n], c[n]);
      assert a + c == a + c[..n] + [c[n]] && b + c == b + c[..n] + [c[n]];
    }
  }

  lemma Fewer<T(!new)>(a: seq<T>, x: T, b: seq<T>)
    requires Subsequence(a + [x], b)
    ensures Subsequence(a, b)
  {
    var at: seq<nat> :| Selected(a + [x], b, at);
    assert Selected(a, b, at[..|a|]) by {
      forall k | 0 <= k < |a|
        ensures a[k] == b[at[k]]
      {
        assert (a + [x])[k] == a[k];
      }
    }
  }

  lemma Through<T(!new)>(a: seq<T>, b: seq<T>, c: seq<T>)
    requires Subsequence(a, b) && Subsequence(b, c)
    ensures Subsequence(a, c)
  {
    var first: seq<nat> :| Selected(a, b, first);
    var second: seq<nat> :| Selected(b, c, second);
    var at: seq<nat> := seq(|first|, k requires 0 <= k < |first| => second[first[k]]);
    assert Selected(a, c, at);
  }

  /** Leaving out packets leaves out frames. */
  lemma {:induction false} FlatLeft(a: seq<seq<CanFrame>>, b: seq<seq<CanFrame>>, at: seq<nat>)
    requires Selected(a, b, at)
    ensures Subsequence(Flat(a), Flat(b))
    decreases |b|
  {
    hide Subsequence;
    if b == [] {
      NothingLeft<CanFrame>();
    } else {
      var n, last := |b| - 1, |at| - 1;
      if at != [] && at[last] == n {
        FlatLeft(a[..last], b[..n], at[..last]);
        BothMuchLonger(Flat(a[..last]), Flat(b[..n]), b[n]);
      } else {
        FlatLeft(a, b[..n], at);
        Longer(Flat(a), Flat(b[..n]), b[n]);
      }
    }
  }

  lemma NothingLeft<T(!new)>()
    ensures Subsequence<T>([], [])
  {
    assert Selected<T>([], [], []);
  }

  // ---------------------------------------------------------------------------------------------
  // Whose packets they are
  // ---------------------------------------------------------------------------------------------

  /** The batches that a sender sets out to send through handle `h`, whether or not it gets a slot. */
  function BegunBy(deeds: seq<Deed>, h: nat): seq<seq<CanFrame>>
    decreases |deeds|
  {
    if deeds == [] then []
    else
      var last := deeds[|deeds| - 1];
      BegunBy(deeds[..|deeds| - 1], h) + (if last.Begin? && last.h == h then [last.batch] else [])
  }

  /** No buffer is moved to or from this handle. */
  predicate OwnHandle(deeds: seq<Deed>, h: nat) {
    forall i :: 0 <= i < |deeds| && deeds[i].HandOver? ==> deeds[i].from != h && deeds[i].to != h
  }

  /** The handles through which the committed batches were queued. */
  function Owners(s: State, deeds: seq<Deed>): seq<nat>
    decreases |deeds|
  {
    if deeds == [] then []
    else
      var rest, last := deeds[..|deeds| - 1], deeds[|deeds| - 1];
      Owners(s, rest) +
      (if last.Advance? && EventOf(Worked(s, rest), last) == Some(Queue(last.h)) then [last.h] else [])
  }

  /** Those of the elements that belong to `h`, in order. */
  function OwnedBy<T>(xs: seq<T>, owners: seq<nat>, h: nat): seq<T>
    requires |xs| == |owners|
  {
    if xs == [] then []
    else
      var n := |xs| - 1;
      OwnedBy(xs[..n], owners[..n], h) + (if owners[n] == h then [xs[n]] else [])
  }

  lemma OwnedMore<T>(xs: seq<T>, owners: seq<nat>, h: nat, x: T, owner: nat)
    requires |xs| == |owners|
    ensures OwnedBy(xs + [x], owners + [owner], h) == OwnedBy(xs, owners, h) + (if owner == h then [x] else [])
  {
    assert (xs + [x])[..|xs|] == xs && (owners + [owner])[..|owners|] == owners;
  }

  /** The batch that handle `h` is busy with. */
  function Current(c: Crew, h: nat): seq<seq<CanFrame>> {
    if h in c.jobs then [c.jobs[h].batch] else []
  }

  /** Every deed adds at most one batch, and the owner says whose it is. */
  lemma DoneBatches(c: Crew, a: Deed, h: nat)
    requires a.HandOver? ==> a.from != h && a.to != h
    ensures var d := Done(c, a);
      var queued := a.Advance? && EventOf(c, a) == Some(Queue(a.h));
      && (queued ==> a.h in c.jobs && d.batches == c.batches + [c.jobs[a.h].batch])
      && (!queued ==> d.batches == c.batches)
      && Current(d, h) == (if queued && a.h == h then []
                           else if a == GiveUp(h) && EventOf(c, a).Some? then []
                           else if a.Begin? && a.h == h && EventOf(c, a).Some? then [a.batch]
                           else Current(c, h))
      && (a.Begin? && a.h == h && EventOf(c, a).Some? ==> Current(c, h) == [])
  {
    hide Step, Packet, Encodable;
  }

  /** What is queued through a handle is in order what was begun there, less what was refused or given up. */
  lemma {:induction false} QueuedAreBegun(s: State, deeds: seq<Deed>, h: nat)
    requires OwnHandle(deeds, h)
    ensures |Owners(s, deeds)| == |Worked(s, deeds).batches|
    ensures var c := Worked(s, deeds);
      Subsequence(OwnedBy(c.batches, Owners(s, deeds), h) + Current(c, h), BegunBy(deeds, h))
    decreases |deeds|
  {
    hide Subsequence, Done, EventOf, Current;
    if deeds == [] {
      NothingLeft<seq<CanFrame>>();
      assert OwnedBy<seq<CanFrame>>([], [], h) + Current(Crew(s, map[], []), h) == [] by {
        NoJobs(s, h);
      }
    } else {
      var rest, a := deeds[..|deeds| - 1], deeds[|deeds| - 1];
      QueuedAreBegun(s, rest, h);
      OneDeedMore(Worked(s, rest), Owners(s, rest), a, h, BegunBy(rest, h));
    }
  }

  lemma NoJobs(s: State, h: nat)
    ensures Current(Crew(s, map[], []), h) == []
  {
  }

  lemma OneDeedMore(c: Crew, owners: seq<nat>, a: Deed, h: nat, begun: seq<seq<CanFrame>>)
    requires |owners| == |c.batches| && (a.HandOver? ==> a.from != h && a.to != h)
    requires Subsequence(OwnedBy(c.batches, owners, h) + Current(c, h), begun)
    ensures var d := Done(c, a);
      var after := owners + (if a.Advance? && EventOf(c, a) == Some(Queue(a.h)) then [a.h] else []);
      && |after| == |d.batches|
      && Subsequence(OwnedBy(d.batches, after, h) + Current(d, h),
                     begun + (if a.Begin? && a.h == h then [a.batch] else []))
  {
    hide Subsequence, Done, EventOf;
    DoneBatches(c, a, h);
    var own := OwnedBy(c.batches, owners, h);
    assert own + [] == own && begun + [] == begun && owners + [] == owners;
    if a.Advance? && EventOf(c, a) == Some(Queue(a.h)) {
      var batch := c.jobs[a.h].batch;
      OwnedMore(c.batches, owners, h, batch, a.h);
      if a.h == h {
        assert Current(c, h) == [batch] && own + [batch] + [] == own + [batch];
      } else {
        assert own + [] + Current(c, h) == own + Current(c, h);
      }
    } else if a.Begin? && a.h == h {
      if EventOf(c, a).Some? {
        BothLonger(own, begun, a.batch);
      } else {
        Longer(own + Current(c, h), begun, [a.batch]);
      }
    } else if a == GiveUp(h) && EventOf(c, a).Some? && h in c.jobs {
      Fewer(own, c.jobs[h].batch, begun);
    }
  }

  // ---------------------------------------------------------------------------------------------
  // What is heard
  // ---------------------------------------------------------------------------------------------

  function Pick<T>(b: seq<T>, at: seq<nat>): (a: seq<T>)
    requires forall k :: 0 <= k < |at| ==> at[k] < |b|
    ensures |a| == |at|
  {
    seq(|at|, k requires 0 <= k < |at| => b[at[k]])
  }

  lemma PickLast<T>(b: seq<T>, at: seq<nat>)
    requires b != [] && Increasing(at) && forall k :: 0 <= k < |at| ==> at[k] < |b|
    ensures var n, last := |b| - 1, |at| - 1;
      if at != [] && at[last] == n then
        (forall k :: 0 <= k < last ==> at[..last][k] < n) && Pick(b, at) == Pick(b[..n], at[..last]) + [b[n]]
      else
        (forall k :: 0 <= k < |at| ==> at[k] < n) && Pick(b, at) == Pick(b[..n], at)
  {
  }

  /** Leaving out elements leaves out elements of each owner. */
  lemma {:induction false} OwnedLeft<T(!new)>(b: seq<T>, owners: seq<nat>, at: seq<nat>, h: nat)
    requires |b| == |owners| && Increasing(at) && forall k :: 0 <= k < |at| ==> at[k] < |b|
    ensures Subsequence(OwnedBy(Pick(b, at), Pick(owners, at), h), OwnedBy(b, owners, h))
    decreases |b|
  {
    hide Subsequence, Pick, Increasing;
    if b == [] {
      assert at == [];
      NothingLeft<T>();
    } else {
      var n, last := |b| - 1, |at| - 1;
      PickLast(b, at);
      PickLast(owners, at);
      var all := OwnedBy(b[..n], owners[..n], h);
      if at != [] && at[last] == n {
        IncreasingPrefix(at, last);
        OwnedLeft(b[..n], owners[..n], at[..last], h);
        var picked, theirs := Pick(b[..n], at[..last]), Pick(owners[..n], at[..last]);
        OwnedMore(picked, theirs, h, b[n], owners[n]);
        if owners[n] == h {
          BothLonger(OwnedBy(picked, theirs, h), all, b[n]);
        } else {
          assert OwnedBy(picked, theirs, h) + [] == OwnedBy(picked, theirs, h) && all + [] == all;
        }
      } else {
        OwnedLeft(b[..n], owners[..n], at, h);
        Longer(OwnedBy(Pick(b, at), Pick(owners, at), h), all, if owners[n] == h then [b[n]] else []);
      }
    }
  }

  /** The batches decoded from the packets on the wire. */
  function Heard(wire: seq<seq<Byte>>): seq<seq<CanFrame>> {
    seq(|wire|, k requires 0 <= k < |wire| => Delivered(wire[k]))
  }

  /** The batches heard are the committed ones that reached the wire. */
  lemma HeardAreBatches(s: State, deeds: seq<Deed>)
    requires Initial(s)
    ensures var c := Worked(s, deeds);
      var at := WireIds(c.s.log);
      && Selected(Heard(Wire(c.s.log)), c.batches, at)
      && Heard(Wire(c.s.log)) == Pick(c.batches, at)
  {
    hide Run, Wire, WireIds, Initial, Worked, Trace, Delivered;
    WorkIsRun(s, deeds);
    CommitsAreEncodings(s, deeds);
    WireFollowsCommits(s, Trace(s, deeds));
    var c := Worked(s, deeds);
    forall k | 0 <= k < |Wire(c.s.log)|
      ensures Delivered(Wire(c.s.log)[k]) == c.batches[WireIds(c.s.log)[k]]
    {
      HeardIsBatch(c.batches[WireIds(c.s.log)[k]]);
    }
  }

  lemma HeardIsBatch(batch: seq<CanFrame>)
    requires Encodable(batch)
    ensures Delivered(Packet(batch)) == batch
  {
    hide DecodesTo, Encoding, Delivered;
    EncodingDecodes(TYPE_UDP2CAN, batch);
    DeliveredIs(Encoding(TYPE_UDP2CAN, batch), Decoded(Ok, batch));
  }

  lemma {:induction false} OwnersMatch(s: State, deeds: seq<Deed>)
    ensures |Owners(s, deeds)| == |Worked(s, deeds).batches|
    decreases |deeds|
  {
    hide Done, EventOf;
    if deeds != [] {
      var rest, a := deeds[..|deeds| - 1], deeds[|deeds| - 1];
      OwnersMatch(s, rest);
      DoneBatches(Worked(s, rest), a, if a.HandOver? then a.from + a.to + 1 else 0);
    }
  }

  /** The frames decoded, in order, from those packets on the wire that were queued through handle `h`. */
  function HeardFrom(s: State, deeds: seq<Deed>, h: nat): seq<CanFrame>
    requires Initial(s)
  {
    HeardAreBatches(s, deeds);
    OwnersMatch(s, deeds);
    var log := Worked(s, deeds).s.log;
    Flat(OwnedBy(Heard(Wire(log)), Pick(Owners(s, deeds), WireIds(log)), h))
  }

  lemma HeardWasBegun(s: State, deeds: seq<Deed>, h: nat)
    requires Initial(s) && OwnHandle(deeds, h)
    ensures Subsequence(HeardFrom(s, deeds, h), Flat(BegunBy(deeds, h)))
  {
    hide Subsequence, Wire, WireIds, Worked, Initial, Owners, BegunBy, OwnedBy, Flat, Current;
    var c, owners := Worked(s, deeds), Owners(s, deeds);
    HeardAreBatches(s, deeds);
    QueuedAreBegun(s, deeds, h);
    OwnedLeft(c.batches, owners, WireIds(c.s.log), h);
    var own := OwnedBy(c.batches, owners, h);
    if h in c.jobs {
      CurrentIs(c, h);
      Fewer(own, c.jobs[h].batch, BegunBy(deeds, h));
    } else {
      CurrentIs(c, h);
      assert own + [] == own;
    }
    var heard := OwnedBy(Heard(Wire(c.s.log)), Pick(owners, WireIds(c.s.log)), h);
    Through(heard, own, BegunBy(deeds, h));
    FlatShorter(heard, BegunBy(deeds, h));
  }

  lemma CurrentIs(c: Crew, h: nat)
    ensures Current(c, h) == if h in c.jobs then [c.jobs[h].batch] else []
  {
  }

  lemma FlatShorter(a: seq<seq<CanFrame>>, b: seq<seq<CanFrame>>)
    requires Subsequence(a, b)
    ensures Subsequence(Flat(a), Flat(b))
  {
    var at: seq<nat> :| Selected(a, b, at);
    FlatLeft(a, b, at);
  }

  /** What is left of a stream of encodings encodes what is left of the orders. */
  lemma EncodingsLeft(frames: seq<CanFrame>, stream: seq<CanFrame>, mine: seq<Order>, motors: seq<MotorDevice>)
    requires Subsequence(frames, stream) && Encodings(stream, mine, motors)
    ensures exists served :: Subsequence(served, mine) && Encodings(frames, served, motors)
  {
    hide EncodedAs;
    var at: seq<nat> :| Selected(frames, stream, at);
    var served := Pick(mine, at);
    assert Selected(served, mine, at);
    assert Encodings(frames, served, motors);
  }

  function MineOfAll(calls: seq<seq<Order>>, bindings: seq<Binding>, k: nat): seq<Order> {
    if calls == [] then []
    else MineOfAll(calls[..|calls| - 1], bindings, k) + Mine(calls[|calls| - 1], bindings, k)
  }

  lemma MineOfOne(orders: seq<Order>, bindings: seq<Binding>, k: nat)
    ensures MineOfAll([orders], bindings, k) == Mine(orders, bindings, k)
  {
    hide Mine;
    assert [orders][..0] == [];
  }

  lemma FlatNothing()
    ensures Flat([]) == []
  {
  }

  lemma {:induction false} FlatConcat(a: seq<seq<CanFrame>>, b: seq<seq<CanFrame>>)
    ensures Flat(a + b) == Flat(a) + Flat(b)
    decreases |b|
  {
    hide Flat;
    if b == [] {
      FlatNothing();
      assert a + b == a;
    } else {
      var n := |b| - 1;
      FlatConcat(a, b[..n]);
      FlatMore(a + b[..n], b[n]);
      FlatMore(b[..n], b[n]);
      assert b == b[..n] + [b[n]];
      assert a + b == a + b[..n] + [b[n]];
    }
  }

  lemma EncodingsConcat(
    x: seq<CanFrame>, a: seq<Order>, y: seq<CanFrame>, b: seq<Order>, motors: seq<MotorDevice>)
    requires Encodings(x, a, motors) && Encodings(y, b, motors)
    ensures Encodings(x + y, a + b, motors)
  {
    hide EncodedAs;
  }

  lemma CallMore(
    before: seq<seq<CanFrame>>, sent: seq<seq<CanFrame>>, after: seq<seq<CanFrame>>, a: seq<Order>, b: seq<Order>,
    motors: seq<MotorDevice>)
    requires Encodings(Flat(sent), a, motors) && AllSent(before + sent, after, b, motors)
    ensures after == before + (sent + after[|before + sent|..])
    ensures Encodings(Flat(sent + after[|before + sent|..]), a + b, motors)
  {
    hide Encodings, Flat;
    FlatConcat(sent, after[|before + sent|..]);
    EncodingsConcat(Flat(sent), a, Flat(after[|before + sent|..]), b, motors);
  }

  /** The packets handed over by several calls, one after the other, encode the orders of all of them. */
  lemma {:induction false} CallsEncode(
    handed: seq<seq<seq<CanFrame>>>, calls: seq<seq<Order>>, sent: seq<seq<CanFrame>>,
    bindings: seq<Binding>, k: nat, motors: seq<MotorDevice>)
    requires |handed| == |calls| + 1 && handed[|calls|] == handed[0] + sent
    requires forall i :: 0 <= i < |calls| ==>
               AllSent(handed[i], handed[i + 1], Mine(calls[i], bindings, k), motors)
    ensures Encodings(Flat(sent), MineOfAll(calls, bindings, k), motors)
    decreases |calls|
  {
    hide AllSent, Mine, Encodings, Flat;
    if calls == [] {
      NothingEncoded(motors);
    } else {
      var n := |calls| - 1;
      HandedGrows(handed, calls, bindings, k, motors, n);
      var before := handed[n][|handed[0]|..];
      CallsEncode(handed[..n + 1], calls[..n], before, bindings, k, motors);
      assert AllSent(handed[n], handed[n + 1], Mine(calls[n], bindings, k), motors);
      assert handed[0] + before == handed[n];
      CallMore(handed[0], before, handed[n + 1],
               MineOfAll(calls[..n], bindings, k), Mine(calls[n], bindings, k), motors);
      assert sent == handed[n + 1][|handed[0]|..] == before + handed[n + 1][|handed[n]|..];
    }
  }

  lemma NothingEncoded(motors: seq<MotorDevice>)
    ensures Encodings(Flat([]), [], motors)
  {
  }

  lemma {:induction false} HandedGrows(
    handed: seq<seq<seq<CanFrame>>>, calls: seq<seq<Order>>, bindings: seq<Binding>, k: nat, motors: seq<MotorDevice>,
    n: nat)
    requires |handed| == |calls| + 1 && n <= |calls|
    requires forall i :: 0 <= i < |calls| ==>
               AllSent(handed[i], handed[i + 1], Mine(calls[i], bindings, k), motors)
    ensures handed[0] <= handed[n]
  {
    hide Mine, Encodings, Flat;
    if n > 0 {
      HandedGrows(handed, calls, bindings, k, motors, n - 1);
      assert AllSent(handed[n - 1], handed[n - 1 + 1], Mine(calls[n - 1], bindings, k), motors);
    }
  }

  /** In order, encodings of some of these orders are all that is heard from handle `h`. */
  ghost predicate Served(s: State, deeds: seq<Deed>, h: nat, mine: seq<Order>, motors: seq<MotorDevice>)
    requires Initial(s)
  {
    exists served :: Subsequence(served, mine) && Encodings(HeardFrom(s, deeds, h), served, motors)
  }

  /**
   From orders to the wire and back to frames. A thread calls for motor commands any number of times, and
   sends the packets that its calls hand to driver k's channel through a handle of its own; any other
   producers, discarders and the transmit thread run in between. Of the packets on the wire, those it
   queued decode to encodings of good orders bound to driver k, each order at most once and in the order
   in which they were given.
   */
  lemma CommandsReachTheWire(
    s: State, deeds: seq<Deed>, h: nat, handed: seq<seq<seq<CanFrame>>>, calls: seq<seq<Order>>,
    bindings: seq<Binding>, k: nat, motors: seq<MotorDevice>)
    requires |handed| == |calls| + 1 && handed[|calls|] == handed[0] + BegunBy(deeds, h)
    requires forall i :: 0 <= i < |calls| ==>
               AllSent(handed[i], handed[i + 1], Mine(calls[i], bindings, k), motors)
    requires Initial(s) && OwnHandle(deeds, h)
    ensures Served(s, deeds, h, MineOfAll(calls, bindings, k), motors)
  {
    hide Initial, OwnHandle, AllSent, Subsequence, Encodings, HeardFrom, BegunBy, Flat, Mine, MineOfAll;
    CallsEncode(handed, calls, BegunBy(deeds, h), bindings, k, motors);
    HeardWasBegun(s, deeds, h);
    EncodingsLeft(HeardFrom(s, deeds, h), Flat(BegunBy(deeds, h)), MineOfAll(calls, bindings, k), motors);
  }

  /** Nothing is sent but through this handle. */
  predicate OnlySender(deeds: seq<Deed>, h: nat) {
    OwnHandle(deeds, h) && forall i :: 0 <= i < |deeds| && deeds[i].Begin? ==> deeds[i].h == h
  }

  lemma {:induction false} OnlyOwner(s: State, deeds: seq<Deed>, h: nat)
    requires OnlySender(deeds, h)
    ensures forall g :: g in Worked(s, deeds).jobs ==> g == h
    ensures forall i :: 0 <= i < |Owners(s, deeds)| ==> Owners(s, deeds)[i] == h
    decreases |deeds|
  {
    hide Step, Packet, Encodable;
    if deeds != [] {
      OnlyOwner(s, deeds[..|deeds| - 1], h);
    }
  }

  lemma {:induction false} OwnedAll<T>(xs: seq<T>, owners: seq<nat>, h: nat)
    requires |xs| == |owners| && forall i :: 0 <= i < |owners| ==> owners[i] == h
    ensures OwnedBy(xs, owners, h) == xs
  {
    if xs != [] {
      OwnedAll(xs[..|xs| - 1], owners[..|xs| - 1], h);
    }
  }

  /** If nobody else sends, everything decoded from the wire is heard from that handle. */
  lemma OnlySenderIsHeard(s: State, deeds: seq<Deed>, h: nat)
    requires Initial(s) && OnlySender(deeds, h)
    ensures HeardFrom(s, deeds, h) == Flat(Heard(Wire(Worked(s, deeds).s.log)))
  {
    hide Wire, WireIds, Worked, Initial, Owners, OwnedBy, Flat, OnlySender;
    HeardAreBatches(s, deeds);
    OwnersMatch(s, deeds);
    OnlyOwner(s, deeds, h);
    var log := Worked(s, deeds).s.log;
    OwnedAll(Heard(Wire(log)), Pick(Owners(s, deeds), WireIds(log)), h);
  }
}
