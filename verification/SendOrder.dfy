/** What reaches the wire: committed packets, in commit order, byte for byte. */
module SendOrder {
  import opened Bits
  import opened Fleet
  import opened SendQueue
  import opened TokenBucket
  import opened SendPipeline

  /** The slot still holds committed packet `id`, whole. */
  predicate Packed(s: State, slot: nat, id: nat) {
    && id < |s.commits| && InPool(s, slot)
    && s.pool.sizes[slot] == |s.commits[id]| <= |s.pool.regions[slot]|
    && s.pool.regions[slot][..|s.commits[id]|] == s.commits[id]
  }

  predicate Increasing(q: seq<nat>) {
    forall i, j :: 0 <= i < j < |q| ==> q[i] < q[j]
  }

  function LogIds(log: seq<Grant>): (q: seq<nat>)
    ensures |q| == |log|
  {
    seq(|log|, i requires 0 <= i < |log| => log[i].id)
  }

  /** The commit positions of the packets granted, being served, and pending. */
  function Line(s: State): seq<nat> {
    LogIds(s.log) + (if s.tx.Fetched? || s.tx.Waiting? then [s.tx.id] else []) + s.ids
  }

  predicate Lined(s: State) {
    && Increasing(Line(s))
    && (forall i :: 0 <= i < |Line(s)| ==> Line(s)[i] < |s.commits|)
  }

  predicate PendingPacked(s: State) {
    && |s.ids| == |s.pool.pending|
    && forall k :: 0 <= k < |s.ids| ==> Packed(s, s.pool.pending[k], s.ids[k])
  }

  predicate TxPacked(s: State) {
    match s.tx
    case Fetched(slot, id) => Packed(s, slot, id)
    case Waiting(slot, id, size) => Packed(s, slot, id) && size == |s.commits[id]|
    case Ready(slot, id, size, attempt) =>
      && Packed(s, slot, id) && size == |s.commits[id]| && attempt < SEND_RETRY_COUNT
      && s.log != [] && s.log[|s.log| - 1].id == id && s.log[|s.log| - 1].sent == None
    case _ => true
  }

  predicate SizesRecorded(s: State) {
    forall h :: 0 <= h < |s.handles| && s.handles[h].Recorded? ==>
      && InPool(s, s.handles[h].slot)
      && s.pool.sizes[s.handles[h].slot] == s.handles[h].size <= PACKET_CAP
  }

  predicate Logged(s: State) {
    forall k :: 0 <= k < |s.log| ==>
      var g := s.log[k];
      && g.id < |s.commits| && g.size == |s.commits[g.id]| <= PACKET_CAP
      && (g.sent.Some? ==> g.sent.value.bytes == s.commits[g.id])
  }

  predicate Content(s: State) {
    PendingPacked(s) && TxPacked(s) && SizesRecorded(s) && Lined(s) && Logged(s)
  }

  // ---------------------------------------------------------------------------------------------
  // Steps by producers and discarders
  // ---------------------------------------------------------------------------------------------

  /** `t` differs from `s` in the pool at slot `x` at most. */
  predicate Touches(s: State, t: State, x: nat) {
    && t.pool.Slots() == s.pool.Slots() && |t.pool.regions| == |s.pool.regions|
    && (forall i :: 0 <= i < s.pool.Slots() && i != x ==> t.pool.sizes[i] == s.pool.sizes[i])
    && (forall i :: 0 <= i < |s.pool.regions| && i != x ==> t.pool.regions[i] == s.pool.regions[i])
  }

  lemma PackedKept(s: State, t: State, x: nat, slot: nat, id: nat)
    requires Packed(s, slot, id) && Touches(s, t, x) && slot != x && s.commits <= t.commits
    ensures Packed(t, slot, id)
  {
  }

  /** A change confined to the slot of one handle harms no other packet. */
  lemma OwnSlotOnly(s: State, t: State, h: nat)
    requires Conserved(s) && Content(s) && Exists(s, h) && !s.handles[h].Empty?
    requires Touches(s, t, s.handles[h].slot)
    requires t.tx == s.tx && t.pool.pending == s.pool.pending && t.ids == s.ids && t.commits == s.commits
    requires t.log == s.log && |t.handles| == |s.handles|
    requires forall g :: 0 <= g < |s.handles| && g != h ==> t.handles[g] == s.handles[g]
    requires t.handles[h].Recorded? ==>
               && InPool(t, t.handles[h].slot)
               && t.pool.sizes[t.handles[h].slot] == t.handles[h].size <= PACKET_CAP
    ensures Content(t)
  {
    hide Packed, Copies, Total, Increasing, Conserved;
    var x := s.handles[h].slot;
    HandleApart(s, h);
    forall k | 0 <= k < |s.ids|
      ensures Packed(t, t.pool.pending[k], t.ids[k])
    {
      assert s.pool.pending[k] in s.pool.pending;
      PackedKept(s, t, x, s.pool.pending[k], s.ids[k]);
    }
    if s.tx.Fetched? || s.tx.Waiting? || s.tx.Ready? {
      PackedKept(s, t, x, s.tx.slot, s.tx.id);
    }
    forall g | 0 <= g < |t.handles| && t.handles[g].Recorded?
      ensures InPool(t, t.handles[g].slot)
      ensures t.pool.sizes[t.handles[g].slot] == t.handles[g].size <= PACKET_CAP
    {
      if g != h {
        HandlesApart(s, g, h);
      }
    }
    assert Line(t) == Line(s);
  }

  /** Steps that leave sizes, bytes and the pending ring alone. */
  lemma RingsOnly(s: State, t: State)
    requires Content(s)
    requires t.pool.sizes == s.pool.sizes && t.pool.regions == s.pool.regions && t.pool.pending == s.pool.pending
    requires t.tx == s.tx && t.ids == s.ids && t.commits == s.commits && t.log == s.log
    requires forall h :: 0 <= h < |t.handles| && t.handles[h].Recorded? ==>
               h < |s.handles| && t.handles[h] == s.handles[h]
    ensures Content(t)
  {
    hide Increasing;
    assert Line(t) == Line(s);
  }

  lemma Queued(s: State, h: nat)
    requires Conserved(s) && Content(s) && Exists(s, h) && s.handles[h].Recorded?
    ensures Content(HandleStep(s, Queue(h)))
  {
    hide Copies, Total, Conserved, Packed;
    var slot, size := s.handles[h].slot, s.handles[h].size;
    HandleApart(s, h);
    RegionSize(s, slot);
    var t := HandleStep(s, Queue(h));
    var packet := s.pool.regions[slot][..size];
    assert t.commits == s.commits + [packet];
    assert t.pool.pending == s.pool.pending + [slot] && t.ids == s.ids + [|s.commits|];
    forall k | 0 <= k < |t.ids|
      ensures Packed(t, t.pool.pending[k], t.ids[k])
    {
      if k < |s.ids| {
        PackedLater(s, t, s.pool.pending[k], s.ids[k]);
      } else {
        PackedNow(t, slot, |s.commits|);
      }
    }
    if s.tx.Fetched? || s.tx.Waiting? || s.tx.Ready? {
      PackedLater(s, t, s.tx.slot, s.tx.id);
    }
    assert Line(t) == Line(s) + [|s.commits|];
    LoggedLater(s, t);
  }

  lemma RegionSize(s: State, slot: nat)
    requires Conserved(s) && InPool(s, slot)
    ensures |s.pool.regions[slot]| == PACKET_CAP
  {
  }

  lemma PackedNow(t: State, slot: nat, id: nat)
    requires id < |t.commits| && InPool(t, slot)
    requires t.pool.sizes[slot] <= |t.pool.regions[slot]|
    requires t.commits[id] == t.pool.regions[slot][..t.pool.sizes[slot]]
    ensures Packed(t, slot, id)
  {
  }

  lemma PackedLater(s: State, t: State, slot: nat, id: nat)
    requires Packed(s, slot, id) && t.pool.sizes == s.pool.sizes && t.pool.regions == s.pool.regions
    requires s.commits <= t.commits
    ensures Packed(t, slot, id) && t.commits[id] == s.commits[id]
  {
  }

  lemma LoggedLater(s: State, t: State)
    requires Logged(s) && t.log == s.log && s.commits <= t.commits
    ensures Logged(t)
  {
  }

  lemma Discarding(s: State, h: nat)
    requires Content(s) && Exists(s, h) && s.handles[h].Empty? && s.pool.pending != []
    ensures Content(HandleStep(s, Discard(h)))
  {
    hide Packed;
    var t := HandleStep(s, Discard(h));
    forall k | 0 <= k < |t.ids|
      ensures Packed(t, t.pool.pending[k], t.ids[k])
    {
      PackedLater(s, t, s.pool.pending[k + 1], s.ids[k + 1]);
    }
    if s.tx.Fetched? || s.tx.Waiting? || s.tx.Ready? {
      PackedLater(s, t, s.tx.slot, s.tx.id);
    }
    LineShorter(s, t, |Line(s)| - |s.ids|);
  }

  /** Taking one packet out of the line leaves the rest in order. */
  lemma LineShorter(s: State, t: State, i: nat)
    requires Lined(s) && i < |Line(s)| && Line(t) == Line(s)[..i] + Line(s)[i + 1..] && t.commits == s.commits
    ensures Lined(t)
  {
    hide Line;
  }

  lemma HandleContent(s: State, e: Event)
    requires e.Acquire? || e.Store? || e.Record? || e.Queue? || e.Discard? || e.Erase? || e.Free?
    requires Conserved(s) && Content(s) && Exists(s, e.h)
    ensures Content(HandleStep(s, e))
  {
    hide Content, Conserved;
    var t := HandleStep(s, e);
    if t != s {
      match e
      case Queue(_) => Queued(s, e.h);
      case Discard(_) => Discarding(s, e.h);
      case Store(_, _, _) | Record(_, _) | Erase(_) => OwnSlotOnly(s, t, e.h);
      case _ => RingsOnly(s, t);
    }
  }

  // ---------------------------------------------------------------------------------------------
  // Steps by the transmit thread
  // ---------------------------------------------------------------------------------------------

  lemma TxContent(s: State, e: Event)
    requires e.TxFetch? || e.TxRead? || e.TxPoll? || e.TxStop? || e.TxSend? || e.TxErase? || e.TxFree?
    requires Conserved(s) && Content(s)
    ensures Content(TxStep(s, e))
  {
    hide Content, Conserved, Polled, Attempted;
    var t := TxStep(s, e);
    if t != s {
      match e
      case TxFetch => Fetching(s);
      case TxRead => Reading(s);
      case TxPoll(at) => Polling(s, at);
      case TxStop => Stopping(s);
      case TxSend(at, result) => Sending(s, at, result);
      case TxErase => Erasing(s);
      case TxFree => Freed(s);
    }
  }

  lemma Fetching(s: State)
    requires Content(s) && s.tx.Idle? && s.pool.pending != []
    ensures Content(TxStep(s, TxFetch))
  {
    hide Packed, Increasing;
    var t := TxStep(s, TxFetch);
    forall k | 0 <= k < |t.ids|
      ensures Packed(t, t.pool.pending[k], t.ids[k])
    {
      PackedLater(s, t, s.pool.pending[k + 1], s.ids[k + 1]);
    }
    PackedLater(s, t, s.pool.pending[0], s.ids[0]);
    assert Line(t) == Line(s);
  }

  lemma Reading(s: State)
    requires Content(s) && s.tx.Fetched?
    ensures Content(TxStep(s, TxRead))
  {
    hide Increasing;
    assert Line(TxStep(s, TxRead)) == Line(s);
  }

  /** Steps of the transmit thread that leave the pool as it is. */
  lemma PoolSame(s: State, t: State)
    requires Content(s)
    requires t.pool == s.pool && t.ids == s.ids && t.commits == s.commits && t.handles == s.handles
    ensures PendingPacked(t) && SizesRecorded(t)
  {
  }

  lemma Polling(s: State, at: int)
    requires Conserved(s) && Content(s) && s.tx.Waiting?
    ensures Content(Polled(s, at))
  {
    hide Increasing, Refilled, Spent, PendingPacked, SizesRecorded, Conserved;
    RegionSize(s, s.tx.slot);
    var t := Polled(s, at);
    PoolSame(s, t);
    if t.tx.Ready? {
      assert LogIds(t.log) == LogIds(s.log) + [s.tx.id];
      assert Line(t) == Line(s);
    } else if t.tx.Waiting? {
      assert Line(t) == Line(s);
    } else {
      LineShorter(s, t, |s.log|);
    }
  }

  lemma Stopping(s: State)
    requires Content(s) && (s.tx.Waiting? || s.tx.Ready?)
    ensures Content(TxStep(s, TxStop))
  {
    hide Increasing, PendingPacked, SizesRecorded;
    var t := TxStep(s, TxStop);
    PoolSame(s, t);
    if s.tx.Waiting? {
      LineShorter(s, t, |s.log|);
    } else {
      assert Line(t) == Line(s);
    }
  }

  lemma Sending(s: State, at: int, result: SendResult)
    requires Content(s) && s.tx.Ready?
    requires InPool(s, s.tx.slot) && s.tx.size <= |s.pool.regions[s.tx.slot]|
    ensures Content(Attempted(s, at, result))
  {
    hide Increasing, PendingPacked, SizesRecorded;
    var t := Attempted(s, at, result);
    PoolSame(s, t);
    assert LogIds(t.log) == LogIds(s.log);
    assert Line(t) == Line(s);
  }

  lemma Erasing(s: State)
    requires Conserved(s) && Content(s) && s.tx.Dropping?
    ensures Content(TxStep(s, TxErase))
  {
    hide Packed, Increasing, Copies, Total, Conserved;
    TxApart(s);
    var t := TxStep(s, TxErase);
    forall k | 0 <= k < |s.ids|
      ensures Packed(t, t.pool.pending[k], t.ids[k])
    {
      assert s.pool.pending[k] in s.pool.pending;
      PackedKept(s, t, s.tx.slot, s.pool.pending[k], s.ids[k]);
    }
    forall h | 0 <= h < |t.handles| && t.handles[h].Recorded?
      ensures InPool(t, t.handles[h].slot)
      ensures t.pool.sizes[t.handles[h].slot] == t.handles[h].size <= PACKET_CAP
    {
      HandleApart(s, h);
    }
    assert Line(t) == Line(s);
  }

  lemma Freed(s: State)
    requires Content(s) && s.tx.Freeing?
    ensures Content(TxStep(s, TxFree))
  {
    hide Increasing;
    assert Line(TxStep(s, TxFree)) == Line(s);
  }

  // ---------------------------------------------------------------------------------------------
  // Runs
  // ---------------------------------------------------------------------------------------------

  lemma MoveContent(s: State, from: nat, to: nat)
    requires Content(s)
    ensures Content(Step(s, Move(from, to)))
  {
    hide Content;
    var t := Step(s, Move(from, to));
    if t != s {
      RingsOnly(s, t);
    }
  }

  /** Every step of every thread keeps the slots and the packets in them. */
  lemma StepKeeps(s: State, e: Event)
    requires Conserved(s) && Content(s)
    ensures Conserved(Step(s, e)) && Content(Step(s, e))
  {
    hide Content, Conserved, HandleStep, TxStep;
    StepConserves(s, e);
    match e
    case Move(from, to) => MoveContent(s, from, to);
    case TxFetch | TxRead | TxPoll(_) | TxStop | TxSend(_, _) | TxErase | TxFree => TxContent(s, e);
    case _ => if Exists(s, e.h) { HandleContent(s, e); }
  }

  lemma {:induction false} RunKeeps(s: State, events: seq<Event>)
    requires Initial(s)
    ensures Conserved(Run(s, events)) && Content(Run(s, events))
    decreases |events|
  {
    hide Conserved, Step;
    if events == [] {
      InitialConserved(s);
    } else {
      RunKeeps(s, events[..|events| - 1]);
      StepKeeps(Run(s, events[..|events| - 1]), events[|events| - 1]);
    }
  }

  /**
   Safety of the slots, over every interleaving: no slot is lost or held twice, so freeing and queueing
   never find their ring full, and a handle's slot is nobody else's.
   */
  lemma SlotsNeverLost(s: State, events: seq<Event>)
    requires Initial(s)
    ensures var t := Run(s, events);
      && (forall x: nat :: Copies(t, x) == Once(x < t.pool.Slots()))
      && (forall h :: 0 <= h < |t.handles| && t.handles[h].Recorded? ==> |t.pool.pending| < t.pool.Slots())
      && (forall h :: 0 <= h < |t.handles| && t.handles[h].Erased? ==> |t.pool.free| < t.pool.Slots())
      && (t.tx.Freeing? ==> |t.pool.free| < t.pool.Slots())
      && (forall g, h :: 0 <= g < h < |t.handles| && !t.handles[g].Empty? && !t.handles[h].Empty? ==>
            t.handles[g].slot != t.handles[h].slot)
  {
    hide Copies, Content, Run, Total, Conserved;
    var t := Run(s, events);
    RunKeeps(s, events);
    PlacedOnce(t);
    forall h | 0 <= h < |t.handles| && !t.handles[h].Empty?
      ensures |t.pool.pending| < t.pool.Slots() && |t.pool.free| < t.pool.Slots()
    {
      HandleApart(t, h);
    }
    if t.tx.Freeing? {
      TxApart(t);
    }
    forall g, h | 0 <= g < h < |t.handles| && !t.handles[g].Empty? && !t.handles[h].Empty?
      ensures t.handles[g].slot != t.handles[h].slot
    {
      HandlesApart(t, g, h);
    }
  }

  lemma PlacedOnce(t: State)
    requires Conserved(t)
    ensures forall x: nat :: Copies(t, x) == Once(x < t.pool.Slots())
  {
    hide Copies;
  }

  /** When nothing is held, pending or in flight, all slots are back in the free ring. */
  lemma QuietMeansAllFree(s: State, events: seq<Event>)
    requires Initial(s)
    requires var t := Run(s, events);
      t.pool.pending == [] && t.tx.Idle? && forall h :: 0 <= h < |t.handles| ==> t.handles[h].Empty?
    ensures var t := Run(s, events);
      |t.pool.free| == t.pool.Slots() && forall x: nat :: x < t.pool.Slots() ==> Count(t.pool.free, x) == 1
  {
    hide Content, Run, Count;
    var t := Run(s, events);
    RunKeeps(s, events);
    EmptyHandles(t.handles);
    forall x: nat | x < t.pool.Slots()
      ensures Count(t.pool.free, x) == 1
    {
      CountOne(0, x);
      assert Copies(t, x) == Once(x < t.pool.Slots());
    }
  }

  /** What the socket accepted, in order. */
  function Wire(log: seq<Grant>): seq<seq<Byte>> {
    if log == [] then []
    else
      var last := log[|log| - 1];
      Wire(log[..|log| - 1]) + (if last.sent.Some? then [last.sent.value.bytes] else [])
  }

  /** The positions in commit order of what the socket accepted. */
  function WireIds(log: seq<Grant>): seq<nat> {
    if log == [] then []
    else
      var last := log[|log| - 1];
      WireIds(log[..|log| - 1]) + (if last.sent.Some? then [last.id] else [])
  }

  /** `a` is what is left of `b` at the increasing positions `at`. */
  predicate Selected<T(==)>(a: seq<T>, b: seq<T>, at: seq<nat>) {
    && |a| == |at| && Increasing(at)
    && forall k :: 0 <= k < |at| ==> at[k] < |b| && a[k] == b[at[k]]
  }

  lemma {:induction false} WireSelected(log: seq<Grant>, commits: seq<seq<Byte>>)
    requires Increasing(LogIds(log))
    requires forall k :: 0 <= k < |log| ==>
               && log[k].id < |commits|
               && (log[k].sent.Some? ==> log[k].sent.value.bytes == commits[log[k].id])
    ensures Selected(Wire(log), commits, WireIds(log))
    ensures forall k :: 0 <= k < |WireIds(log)| ==> WireIds(log)[k] <= log[|log| - 1].id
    decreases |log|
  {
    hide Selected, Increasing, Wire, WireIds;
    NothingSent();
    if log == [] {
      NothingSelected(commits);
    } else {
      var last := |log| - 1;
      var rest, g := log[..last], log[last];
      assert LogIds(rest) == LogIds(log)[..last];
      IncreasingPrefix(LogIds(log), last);
      WireSelected(rest, commits);
      if rest != [] {
        IncreasingAt(LogIds(log), last - 1, last);
        assert rest[last - 1].id < g.id;
      }
      LastSent(log);
      if g.sent.Some? {
        SelectedMore(Wire(rest), commits, WireIds(rest), g.id);
      }
    }
  }

  lemma NothingSent()
    ensures Wire([]) == [] && WireIds([]) == []
  {
  }

  lemma LastSent(log: seq<Grant>)
    requires log != []
    ensures var rest, g := log[..|log| - 1], log[|log| - 1];
      if g.sent.Some? then
        Wire(log) == Wire(rest) + [g.sent.value.bytes] && WireIds(log) == WireIds(rest) + [g.id]
      else
        Wire(log) == Wire(rest) && WireIds(log) == WireIds(rest)
  {
  }

  lemma NothingSelected<T>(b: seq<T>)
    ensures Selected([], b, [])
  {
  }

  lemma IncreasingPrefix(q: seq<nat>, n: nat)
    requires Increasing(q) && n <= |q|
    ensures Increasing(q[..n])
  {
  }

  lemma IncreasingAt(q: seq<nat>, i: nat, j: nat)
    requires Increasing(q) && i < j < |q|
    ensures q[i] < q[j]
  {
  }

  lemma SelectedMore<T>(a: seq<T>, b: seq<T>, at: seq<nat>, id: nat)
    requires Selected(a, b, at) && id < |b| && forall k :: 0 <= k < |at| ==> at[k] < id
    ensures Selected(a + [b[id]], b, at + [id])
  {
  }

  /**
   Order and content, over every interleaving: the packets the socket accepted are a selection of the
   committed packets in commit order, each with exactly the bytes it had at its commit.
   */
  lemma WireFollowsCommits(s: State, events: seq<Event>)
    requires Initial(s)
    ensures var t := Run(s, events); Selected(Wire(t.log), t.commits, WireIds(t.log))
  {
    hide Conserved, Run, Packed, Wire, WireIds;
    var t := Run(s, events);
    RunKeeps(s, events);
    assert LogIds(t.log) == Line(t)[..|t.log|];
    WireSelected(t.log, t.commits);
  }

  /** Recording a size and then queueing is what the pool's own operation does when nothing is full. */
  lemma TwoStepsAreEnqueue(s: State, h: nat, size: nat)
    requires Conserved(s) && Exists(s, h) && s.handles[h].Held? && size <= PACKET_CAP
    ensures s.handles[h].slot < s.pool.Slots()
    ensures Run(s, [Record(h, size), Queue(h)]).pool == Enqueued(s.pool, s.handles[h].slot, size)
  {
    hide Copies, Total, Conserved;
    HandleApart(s, h);
    RegionSize(s, s.handles[h].slot);
    assert [Record(h, size), Queue(h)][..1] == [Record(h, size)];
    assert Run(s, [Record(h, size)]) == Step(s, Record(h, size)) by {
      assert [Record(h, size)][..0] == [];
    }
  }

  /** Erasing and then freeing is what the pool's release does. */
  lemma TwoStepsAreRelease(s: State, h: nat)
    requires Conserved(s) && Exists(s, h) && (s.handles[h].Held? || s.handles[h].Taken?)
    ensures s.handles[h].slot < s.pool.Slots()
    ensures Run(s, [Erase(h), Free(h)]).pool == Released(s.pool, s.handles[h].slot)
  {
    hide Copies, Total, Conserved;
    HandleApart(s, h);
    assert [Erase(h), Free(h)][..1] == [Erase(h)];
    assert Run(s, [Erase(h)]) == Step(s, Erase(h)) by {
      assert [Erase(h)][..0] == [];
    }
  }

  /** Taking the oldest pending slot, erasing and freeing it is one turn of the pool's discarding loop. */
  lemma ThreeStepsAreDiscard(s: State, h: nat)
    requires Conserved(s) && Content(s) && Exists(s, h) && s.handles[h].Empty? && s.pool.pending != []
    ensures s.pool.pending[0] < s.pool.Slots()
    ensures Run(s, [Discard(h), Erase(h), Free(h)]).pool == Released(PopPending(s.pool), s.pool.pending[0])
  {
    hide Copies, Total, Conserved, Content, Run;
    PendingIds(s);
    var t := Step(s, Discard(h));
    StepConserves(s, Discard(h));
    HandleApart(t, h);
    TwoStepsAreRelease(t, h);
    assert [Discard(h), Erase(h), Free(h)] == [Discard(h)] + [Erase(h), Free(h)];
    RunFirst(s, Discard(h), [Erase(h), Free(h)]);
  }

  lemma PendingIds(s: State)
    requires Content(s)
    ensures |s.ids| == |s.pool.pending|
  {
  }

  // ---------------------------------------------------------------------------------------------
  // What a call of the socket does
  // ---------------------------------------------------------------------------------------------

  /** The packet the transmit thread offers to the socket. */
  predicate Offers(s: State, t: int, packet: seq<Byte>) {
    s.tx.Ready? && t >= s.now && s.tx.id < |s.commits| && packet == s.commits[s.tx.id]
  }

  /**
   A packet is on the wire if and only if the socket accepted it. A full socket is tried again, twice at
   most; after any other error, as after acceptance, the packet is dropped from its slot.
   */
  lemma SocketDecides(s: State, t: int, result: SendResult, packet: seq<Byte>)
    requires Conserved(s) && Content(s) && Offers(s, t, packet)
    ensures var u := Step(s, TxSend(t, result));
      && Wire(u.log) == Wire(s.log) + (if result == Accepted then [packet] else [])
      && u.tx == (if result == WouldBlock && s.tx.attempt < 2 then s.tx.(attempt := s.tx.attempt + 1)
                  else Dropping(s.tx.slot))
      && u.pool == s.pool && u.commits == s.commits
  {
    hide Conserved, Wire, WireIds, Increasing, PendingPacked, SizesRecorded, Lined;
    LastSent(s.log);
    if result == Accepted {
      LastSent(Step(s, TxSend(t, result)).log);
    }
  }

  /** No other step touches the wire. */
  lemma OnlySendsReachWire(s: State, e: Event)
    requires Conserved(s) && Content(s)
    requires e.TxSend? ==> s.tx.Ready? ==> e.t < s.now
    ensures Wire(Step(s, e).log) == Wire(s.log)
  {
    hide Conserved, Wire, WireIds, Increasing, PendingPacked, SizesRecorded, Lined, TokenBucket.Refilled, Spent;
    if e.TxPoll? && s.tx.Waiting? && Step(s, e).log != s.log {
      assert Step(s, e).log[..|s.log|] == s.log;
      LastSent(Step(s, e).log);
    }
  }
}
