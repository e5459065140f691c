/**
 The bandwidth bound cannot be improved: one run meets it at a single instant, and for every window length
 there is one whose window carries the bound to the whole byte. It empties the bucket first and then sends
 every whole byte as soon as it is earned.
 */
module WireBoundTight {
  import opened Fleet
  import opened SendQueue
  import opened TokenBucket
  import opened SendPipeline
  import opened SendOrder
  import opened WireBandwidth

  lemma {:induction false} RunConcat(s: State, a: seq<Event>, b: seq<Event>)
    ensures Run(s, a + b) == Run(Run(s, a), b)
    decreases |b|
  {
    hide Step;
    if b == [] {
      assert a + b == a;
    } else {
      assert (a + b)[..|a + b| - 1] == a + b[..|b| - 1];
      RunConcat(s, a, b[..|b| - 1]);
    }
  }

  // ---------------------------------------------------------------------------------------------
  // One producer commits packets
  // ---------------------------------------------------------------------------------------------

  function Commit(size: nat): seq<Event> { [Acquire(0), Record(0, size), Queue(0)] }

  /** Nothing is with the transmit thread, and the first handle is free. */
  predicate Unoccupied(s: State) {
    s.tx.Idle? && |s.handles| > 0 && s.handles[0].Empty?
  }

  /** The sizes of the pending packets. */
  function PendingSizes(s: State): seq<nat> {
    seq(|s.ids|, k requires 0 <= k < |s.ids| => if s.ids[k] < |s.commits| then |s.commits[s.ids[k]]| else 0)
  }

  lemma CommitOne(s: State, size: nat)
    requires Conserved(s) && Content(s) && Unoccupied(s) && s.pool.free != [] && size <= PACKET_CAP
    ensures var u := Run(s, Commit(size));
      && Conserved(u) && Content(u) && Unoccupied(u)
      && u.pool.free == s.pool.free[1..] && PendingSizes(u) == PendingSizes(s) + [size]
      && u.bucket == s.bucket && u.now == s.now && u.log == s.log
  {
    hide Conserved, Content, Step, Run;
    var a := Step(s, Acquire(0));
    var b := Step(a, Record(0, size));
    RunThree(s, Commit(size));
    StepKeeps(s, Acquire(0));
    StepKeeps(a, Record(0, size));
    StepKeeps(b, Queue(0));
    Acquired(s);
    HandleApart(a, 0);
    RegionSize(a, a.handles[0].slot);
    Recorded(a, size);
    HandleApart(b, 0);
    Pushed(b);
    IdsCommitted(s);
  }

  lemma IdsCommitted(s: State)
    requires Content(s)
    ensures forall k :: 0 <= k < |s.ids| ==> s.ids[k] < |s.commits|
  {
    forall k | 0 <= k < |s.ids|
      ensures s.ids[k] < |s.commits|
    {
      assert Packed(s, s.pool.pending[k], s.ids[k]);
    }
  }

  lemma RunThree(s: State, events: seq<Event>)
    requires |events| == 3
    ensures Run(s, events) == Step(Step(Step(s, events[0]), events[1]), events[2])
  {
    hide Step;
    assert events[..2][..1] == events[..1] && events[..1][..0] == [];
    assert Run(s, events[..1]) == Step(s, events[0]);
    assert Run(s, events[..2]) == Step(Run(s, events[..1]), events[1]);
  }

  lemma Acquired(s: State)
    requires Unoccupied(s) && s.pool.free != []
    ensures Step(s, Acquire(0)) == Put(s, PopFree(s.pool), 0, Held(s.pool.free[0]))
  {
  }

  lemma Recorded(a: State, size: nat)
    requires |a.handles| > 0 && a.handles[0].Held? && InPool(a, a.handles[0].slot) && size <= PACKET_CAP
    ensures Step(a, Record(0, size)) ==
            Put(a, SetSize(a.pool, a.handles[0].slot, size), 0, Handle.Recorded(a.handles[0].slot, size))
  {
  }

  lemma Pushed(b: State)
    requires |b.handles| > 0 && b.handles[0].Recorded?
    requires InPool(b, b.handles[0].slot) && b.handles[0].size <= |b.pool.regions[b.handles[0].slot]|
    requires |b.pool.pending| < b.pool.Slots()
    ensures var packet := b.pool.regions[b.handles[0].slot][..b.handles[0].size];
      Step(b, Queue(0)) ==
      Put(b, PushPending(b.pool, b.handles[0].slot), 0, Empty)
      .(commits := b.commits + [packet], ids := b.ids + [|b.commits|])
  {
  }

  // ---------------------------------------------------------------------------------------------
  // The transmit thread serves the oldest packet
  // ---------------------------------------------------------------------------------------------

  function Serve(t0: int, t1: int): seq<Event> {
    [TxFetch, TxRead, TxPoll(t0)] + [TxSend(t1, Accepted), TxErase, TxFree]
  }

  lemma ServeOne(s: State, t0: int, t1: int, size: nat)
    requires Conserved(s) && Content(s) && Unoccupied(s) && s.now <= t0 <= t1
    requires PendingSizes(s) != [] && PendingSizes(s)[0] == size > 0
    requires s.bucket.Usable() && Refilled(s.bucket, t0).available >= size as real
    ensures var u := Run(s, Serve(t0, t1));
      && Conserved(u) && Content(u) && Unoccupied(u)
      && PendingSizes(u) == PendingSizes(s)[1..] && |u.pool.free| == |s.pool.free| + 1 && u.now == t1
      && u.bucket == Spent(Refilled(s.bucket, t0), size)
      && |u.log| == |s.log| + 1 && u.log[..|s.log|] == s.log
      && u.log[|s.log|].sent.Some? && u.log[|s.log|].sent.value.at == t1
      && |u.log[|s.log|].sent.value.bytes| == size
  {
    hide Conserved, Content, Step, Run, Refilled, Spent;
    var first, second := [TxFetch, TxRead, TxPoll(t0)], [TxSend(t1, Accepted), TxErase, TxFree];
    RunConcat(s, first, second);
    RunThree(s, first);
    IdsCommitted(s);
    PendingMatch(s);
    var a := Step(s, TxFetch);
    var b := Step(a, TxRead);
    var c := Step(b, TxPoll(t0));
    StepKeeps(s, TxFetch);
    StepKeeps(a, TxRead);
    StepKeeps(b, TxPoll(t0));
    Fetched(s);
    HoldsFetched(a);
    ReadSize(a);
    LetThrough(b, t0, size);
    RunThree(c, second);
    var d := Step(c, TxSend(t1, Accepted));
    var e := Step(d, TxErase);
    StepKeeps(c, TxSend(t1, Accepted));
    StepKeeps(d, TxErase);
    StepKeeps(e, TxFree);
    TxApart(c);
    SizeFits(c);
    OnTheWire(c, t1);
    TxApart(d);
    Dropped(d);
  }

  lemma PendingMatch(s: State)
    requires Content(s)
    ensures |s.ids| == |s.pool.pending|
  {
  }

  lemma Fetched(s: State)
    requires s.tx.Idle? && s.pool.pending != [] && s.ids != []
    ensures Step(s, TxFetch) ==
            s.(pool := PopPending(s.pool), tx := Tx.Fetched(s.pool.pending[0], s.ids[0]), ids := s.ids[1..])
  {
  }

  lemma HoldsFetched(a: State)
    requires Content(a) && a.tx.Fetched?
    ensures InPool(a, a.tx.slot) && a.tx.id < |a.commits| && a.pool.sizes[a.tx.slot] == |a.commits[a.tx.id]|
  {
  }

  lemma ReadSize(a: State)
    requires a.tx.Fetched? && InPool(a, a.tx.slot)
    ensures Step(a, TxRead) == a.(tx := Waiting(a.tx.slot, a.tx.id, a.pool.sizes[a.tx.slot]))
  {
  }

  lemma LetThrough(b: State, t: int, size: nat)
    requires b.tx.Waiting? && b.tx.size == size > 0 && b.now <= t && b.bucket.Usable()
    requires Refilled(b.bucket, t).available >= size as real
    ensures Step(b, TxPoll(t)) == Granted(b, Spent(Refilled(b.bucket, t), size), t)
  {
    hide Refilled, Spent;
  }

  lemma SizeFits(c: State)
    requires Content(c) && c.tx.Ready?
    ensures InPool(c, c.tx.slot) && c.tx.size <= |c.pool.regions[c.tx.slot]|
  {
  }

  lemma OnTheWire(c: State, t: int)
    requires c.tx.Ready? && t >= c.now && c.log != []
    requires InPool(c, c.tx.slot) && c.tx.size <= |c.pool.regions[c.tx.slot]|
    ensures var d := Step(c, TxSend(t, Accepted));
      && d.tx == Dropping(c.tx.slot) && d.now == t && d.pool == c.pool && d.bucket == c.bucket
      && d.ids == c.ids && d.commits == c.commits && d.handles == c.handles
      && |d.log| == |c.log| && d.log[..|c.log| - 1] == c.log[..|c.log| - 1]
      && d.log[|c.log| - 1].sent == Some(Sent(t, c.pool.regions[c.tx.slot][..c.tx.size]))
  {
  }

  lemma Dropped(d: State)
    requires d.tx.Dropping? && InPool(d, d.tx.slot) && |d.pool.free| < d.pool.Slots()
    ensures var u := Step(Step(d, TxErase), TxFree);
      && u.tx == Idle && u.now == d.now && u.bucket == d.bucket && u.ids == d.ids && u.commits == d.commits
      && u.handles == d.handles && u.log == d.log && |u.pool.free| == |d.pool.free| + 1
  {
  }

  // ---------------------------------------------------------------------------------------------
  // A window of no length
  // ---------------------------------------------------------------------------------------------

  /** Three full packets; the first is granted at once and sent at `t`, the others are served at `t`. */
  function TightRun(now: int, t: int): seq<Event> {
    Commit(PACKET_CAP) + Commit(PACKET_CAP) + Commit(PACKET_CAP) + Serve(now, t) + Serve(t, t) + Serve(t, t)
  }

  lemma ThreeCommitted(s: State)
    requires Initial(s) && s.pool.Slots() >= 3 && |s.handles| > 0
    ensures var u := Run(s, Commit(PACKET_CAP) + Commit(PACKET_CAP) + Commit(PACKET_CAP));
      && Conserved(u) && Content(u) && Unoccupied(u) && PendingSizes(u) == [PACKET_CAP, PACKET_CAP, PACKET_CAP]
      && u.bucket == s.bucket && u.now == s.now && u.log == []
  {
    hide Conserved, Content, Step, Run, Commit;
    var c := Commit(PACKET_CAP);
    RunKeeps(s, []);
    RunNothing(s);
    var s1, s2 := Run(s, c), Run(Run(s, c), c);
    CommitOne(s, PACKET_CAP);
    CommitOne(s1, PACKET_CAP);
    CommitOne(s2, PACKET_CAP);
    RunConcat(s, c, c);
    RunConcat(s, c + c, c);
  }

  lemma RunNothing(s: State)
    ensures Run(s, []) == s
  {
  }

  /** The limiter's content through the three grants. */
  lemma FullBucket(b: Bucket, now: int, t: int)
    requires b.burst == BURST && b.available == BURST as real && b.rate >= 0.0 && b.lastRefill <= now <= t
    requires Earned(b.rate, t - now) >= PACKET_CAP as real
    ensures var b1 := Spent(Refilled(b, now), PACKET_CAP);
      var b2 := Spent(Refilled(b1, t), PACKET_CAP);
      var b3 := Spent(Refilled(b2, t), PACKET_CAP);
      && Refilled(b, now).available >= PACKET_CAP as real
      && Refilled(b1, t).available >= PACKET_CAP as real
      && Refilled(b2, t).available >= PACKET_CAP as real
      && b3 == b.(available := 0.0, lastRefill := t)
  {
    hide Earned;
    RefillKeepsValid(b, now);
    var b1 := Spent(Refilled(b, now), PACKET_CAP);
    EarnedNothing(b.rate);
  }

  /** Three full packets sent at `t`, and the limiter left empty. */
  lemma AfterTightRun(s: State, t: int)
    requires Initial(s) && s.pool.Slots() >= 3 && |s.handles| > 0 && s.bucket.Usable()
    requires s.now <= t && Earned(s.bucket.rate, t - s.now) >= PACKET_CAP as real
    ensures var u := Run(s, TightRun(s.now, t));
      && Conserved(u) && Content(u) && Unoccupied(u) && PendingSizes(u) == [] && u.pool.free != []
      && u.now == t && u.bucket == s.bucket.(available := 0.0, lastRefill := t)
      && |u.log| == 3 && forall k :: 0 <= k < 3 ==>
           u.log[k].sent.Some? && u.log[k].sent.value.at == t && |u.log[k].sent.value.bytes| == PACKET_CAP
  {
    hide Conserved, Content, Run, Step, Refilled, Spent, Earned, Commit, Serve, PendingSizes;
    var c := Commit(PACKET_CAP);
    var s3 := Run(s, c + c + c);
    ThreeCommitted(s);
    FullBucket(s.bucket, s.now, t);
    var u1 := Run(s3, Serve(s.now, t));
    ServeOne(s3, s.now, t, PACKET_CAP);
    var u2 := Run(u1, Serve(t, t));
    ServeOne(u1, t, t, PACKET_CAP);
    ServeOne(u2, t, t, PACKET_CAP);
    RunConcat(s, c + c + c, Serve(s.now, t));
    RunConcat(s, c + c + c + Serve(s.now, t), Serve(t, t));
    RunConcat(s, c + c + c + Serve(s.now, t) + Serve(t, t), Serve(t, t));
  }

  lemma ThreeSent(log: seq<Grant>, t: int, b: int)
    requires |log| == 3 && t <= b
    requires forall k :: 0 <= k < 3 ==>
               log[k].sent.Some? && log[k].sent.value.at == t && |log[k].sent.value.bytes| == PACKET_CAP
    ensures SentBytes(log, t, b) == BURST + PACKET_CAP
  {
    assert log[..2][..1] == log[..1] && log[..1][..0] == [];
    assert SentBytes(log[..1], t, b) == PACKET_CAP;
    assert SentBytes(log[..2], t, b) == 2 * PACKET_CAP;
  }

  lemma EarnedIs(rate: real, ticks: int)
    ensures Earned(rate, ticks) == ticks as real / 1000000000.0 * rate
    ensures Earned(rate, 1) == rate / 1000000000.0
  {
  }

  /**
   The bound is met: once the limiter has had time to earn a packet, three full packets can reach the
   wire at one instant. A burst plus one packet is what a window of no length may carry, and it can.
   */
  lemma BoundIsTight(s: State, t: int)
    requires Initial(s) && s.pool.Slots() >= 3 && |s.handles| > 0 && s.bucket.Usable()
    requires s.now <= t && (t - s.now) as real / 1000000000.0 * s.bucket.rate >= 512.0
    ensures SentBytes(Run(s, TightRun(s.now, t)).log, t, t) == 1536
  {
    EarnedIs(s.bucket.rate, t - s.now);
    hide Initial, Conserved, Content, Run, TightRun, Earned, SentBytes, PendingSizes;
    AfterTightRun(s, t);
    ThreeSent(Run(s, TightRun(s.now, t)).log, t, t);
  }

  // ---------------------------------------------------------------------------------------------
  // A window of any length
  // ---------------------------------------------------------------------------------------------

  /** The whole bytes earned in `ticks`. */
  function Whole(rate: real, ticks: nat): nat
    requires rate >= 0.0
  {
    EarnedSign(rate, ticks);
    Earned(rate, ticks).Floor
  }

  /** Whole bytes come a packet at most at a time, when a tick earns no more. */
  lemma WholeGrows(rate: real, k: nat)
    requires rate >= 0.0 && Earned(rate, 1) <= PACKET_CAP as real
    ensures Whole(rate, k) <= Whole(rate, k + 1) <= Whole(rate, k) + PACKET_CAP
  {
    hide Earned;
    EarnedSum(rate, k, 1);
    EarnedSign(rate, 1);
  }

  /** At every tick after `t` a packet of the whole bytes earned since the last one, if there are any. */
  function Trickle(rate: real, t: int, k: nat): seq<Event>
    requires rate >= 0.0
  {
    if k == 0 then []
    else
      var size := Whole(rate, k) - Whole(rate, k - 1);
      Trickle(rate, t, k - 1) + (if size <= 0 then [] else Commit(size) + Serve(t + k, t + k))
  }

  /** After `k` ticks the limiter has earned what is left of a byte; the window up to `b` has seen the rest. */
  ghost predicate Drained(u: State, rate: real, t: int, k: nat, b: int)
    requires rate >= 0.0
  {
    && Conserved(u) && Content(u) && Unoccupied(u) && PendingSizes(u) == [] && u.pool.free != []
    && u.now <= t + k && t <= u.bucket.lastRefill <= t + k
    && u.bucket.rate == rate && u.bucket.burst == BURST
    && u.bucket.available + Earned(rate, t + k - u.bucket.lastRefill) == Earned(rate, k) - Whole(rate, k) as real
    && SentBytes(u.log, t, b) == BURST + PACKET_CAP + Whole(rate, k)
  }

  lemma TickEarns(b: Bucket, t: int, k: nat)
    requires b.rate >= 0.0 && b.burst == BURST && Earned(b.rate, 1) <= PACKET_CAP as real
    requires b.lastRefill <= t + k
    requires b.available + Earned(b.rate, t + k - b.lastRefill) == Earned(b.rate, k) - Whole(b.rate, k) as real
    ensures b.available + Earned(b.rate, t + k + 1 - b.lastRefill) == Earned(b.rate, k + 1) - Whole(b.rate, k) as real
    ensures var size := Whole(b.rate, k + 1) - Whole(b.rate, k);
      var r := Refilled(b, t + k + 1);
      && size >= 0 && r.lastRefill == t + k + 1 && r.available >= size as real
      && Spent(r, size).available == Earned(b.rate, k + 1) - Whole(b.rate, k + 1) as real
  {
    hide Earned;
    EarnedSum(b.rate, t + k - b.lastRefill, 1);
    EarnedSum(b.rate, k, 1);
    WholeGrows(b.rate, k);
  }

  lemma OneTick(u: State, rate: real, t: int, k: nat, b: int)
    requires rate >= 0.0 && Earned(rate, 1) <= PACKET_CAP as real && u.bucket.Usable()
    requires Drained(u, rate, t, k, b) && t + k + 1 <= b
    ensures var size := Whole(rate, k + 1) - Whole(rate, k);
      var v := Run(u, if size <= 0 then [] else Commit(size) + Serve(t + k + 1, t + k + 1));
      Drained(v, rate, t, k + 1, b) && v.bucket.Usable()
  {
    hide Conserved, Content, Run, Refilled, Spent, Earned, Whole, Commit, Serve, PendingSizes;
    var size := Whole(rate, k + 1) - Whole(rate, k);
    TickEarns(u.bucket, t, k);
    WholeGrows(rate, k);
    if size <= 0 {
      RunNothing(u);
    } else {
      RunConcat(u, Commit(size), Serve(t + k + 1, t + k + 1));
      CommitOne(u, size);
      ServeOne(Run(u, Commit(size)), t + k + 1, t + k + 1, size);
      EarnedNothing(rate);
    }
  }

  lemma {:induction false} TrickleDrains(u: State, rate: real, t: int, k: nat, b: int)
    requires rate >= 0.0 && Earned(rate, 1) <= PACKET_CAP as real && u.bucket.Usable()
    requires Drained(u, rate, t, 0, b) && t + k <= b
    ensures var v := Run(u, Trickle(rate, t, k)); Drained(v, rate, t, k, b) && v.bucket.Usable()
  {
    hide Drained, Run, Earned, Whole, Commit, Serve;
    if k == 0 {
      RunNothing(u);
    } else {
      TrickleDrains(u, rate, t, k - 1, b);
      OneTick(Run(u, Trickle(rate, t, k - 1)), rate, t, k - 1, b);
      var size := Whole(rate, k) - Whole(rate, k - 1);
      RunConcat(u, Trickle(rate, t, k - 1), if size <= 0 then [] else Commit(size) + Serve(t + k, t + k));
    }
  }

  /**
   The bound is met by windows of every length, to the whole byte, when a tick of the clock earns a packet
   at most: after the three packets at `t`, everything the limiter earns goes out as soon as it is earned.
   No window of that length, in any run, carries more.
   */
  lemma EveryWindowIsTight(s: State, t: int, length: nat)
    requires Initial(s) && s.pool.Slots() >= 3 && |s.handles| > 0 && s.bucket.Usable()
    requires s.now <= t && (t - s.now) as real / 1000000000.0 * s.bucket.rate >= 512.0
    requires s.bucket.rate <= 512.0 * 1000000000.0
    ensures var carried := SentBytes(Run(s, TightRun(s.now, t) + Trickle(s.bucket.rate, t, length)).log, t, t + length);
      && carried == 1536 + (length as real / 1000000000.0 * s.bucket.rate).Floor
      && forall events, a, b :: b == a + length ==> SentBytes(Run(s, events).log, a, b) <= carried
  {
    hide Conserved, Content, Run, TightRun, Earned, SentBytes, PendingSizes, Trickle;
    EarnedIs(s.bucket.rate, t - s.now);
    EarnedIs(s.bucket.rate, 1);
    EarnedIs(s.bucket.rate, length);
    var u := Run(s, TightRun(s.now, t));
    AfterTightRun(s, t);
    ThreeSent(u.log, t, t + length);
    EarnedNothing(s.bucket.rate);
    TrickleDrains(u, s.bucket.rate, t, length, t + length);
    RunConcat(s, TightRun(s.now, t), Trickle(s.bucket.rate, t, length));
    forall events, a, b | b == a + length
      ensures SentBytes(Run(s, events).log, a, b) <= BURST + PACKET_CAP + Earned(s.bucket.rate, length).Floor
    {
      WireLimited(s, events, a, b);
    }
  }
}
