/**
 The send pipeline as a system of atomic steps: any number of producers and discarders and one
 transmit thread. Each ring operation, each recorded size and each stored byte is a step of its own,
 so a run is any interleaving of them.
 */
module SendPipeline {
  import opened Bits
  import opened Fleet
  import opened SendQueue
  import opened TokenBucket
  import Channel

  const PACKET_CAP: nat := Channel.MOTOR_UDP_PACKET_CAP
  const BURST: nat := 2 * PACKET_CAP
  const SEND_RETRY_COUNT: nat := 3

  /**
   A packet buffer, or a call in progress that has taken a slot over: writing, recorded and about to be
   queued, taken off the pending ring, or erased and about to be freed.
   */
  datatype Handle =
    | Empty
    | Held(slot: nat)
    | Recorded(slot: nat, size: nat)
    | Taken(slot: nat)
    | Erased(slot: nat)

  /** The transmit thread: `id` is the position of its packet in the commit order. */
  datatype Tx =
    | Idle
    | Fetched(slot: nat, id: nat)
    | Waiting(slot: nat, id: nat, size: nat)
    | Ready(slot: nat, id: nat, size: nat, attempt: nat)
    | Dropping(slot: nat)
    | Freeing(slot: nat)

  datatype Sent = Sent(at: int, bytes: seq<Byte>)

  /** A packet let through by the limiter, and what the socket took, if it took it. */
  datatype Grant = Grant(id: nat, size: nat, at: int, sent: Option<Sent>)

  datatype State = State(
    pool: Pool,
    handles: seq<Handle>,
    tx: Tx,
    bucket: Bucket,
    now: int,
    commits: seq<seq<Byte>>, // every packet queued so far, in order
    ids: seq<nat>,           // the commit positions of the pending packets
    log: seq<Grant>
  )

  datatype Event =
    | Acquire(h: nat)
    | Move(from: nat, to: nat)
    | Store(h: nat, i: nat, v: Byte)
    | Record(h: nat, size: nat)
    | Queue(h: nat)
    | Discard(h: nat)
    | Erase(h: nat)
    | Free(h: nat)
    | TxFetch
    | TxRead
    | TxPoll(t: int)
    | TxStop
    | TxSend(t: int, result: SendResult)
    | TxErase
    | TxFree

  datatype SendResult = Accepted | WouldBlock | Aborted | Failed

  predicate Exists(s: State, h: nat) { h < |s.handles| }

  predicate InPool(s: State, slot: nat) {
    slot < s.pool.Slots() && slot < |s.pool.regions|
  }

  function Put(s: State, pool: Pool, h: nat, handle: Handle): State
    requires Exists(s, h)
  {
    s.(pool := pool, handles := s.handles[h := handle])
  }

  /** An event that is not enabled changes nothing. */
  function Step(s: State, e: Event): State {
    match e
    case TxFetch | TxRead | TxPoll(_) | TxStop | TxSend(_, _) | TxErase | TxFree => TxStep(s, e)
    case Move(from, to) =>
      if Exists(s, from) && Exists(s, to) && s.handles[from].Held? && s.handles[to].Empty?
      then s.(handles := s.handles[to := s.handles[from]][from := Empty])
      else s
    case _ => if Exists(s, e.h) then HandleStep(s, e) else s
  }

  function HandleStep(s: State, e: Event): State
    requires e.Acquire? || e.Store? || e.Record? || e.Queue? || e.Discard? || e.Erase? || e.Free?
    requires Exists(s, e.h)
  {
    var handle := s.handles[e.h];
    match e
    case Acquire(h) =>
      if handle.Empty? && s.pool.free != [] then Put(s, PopFree(s.pool), h, Held(s.pool.free[0])) else s
    case Store(h, i, v) =>
      if handle.Held? && InPool(s, handle.slot) && i < |s.pool.regions[handle.slot]|
      then s.(pool := WriteByte(s.pool, handle.slot, i, v)) else s
    case Record(h, size) =>
      if handle.Held? && InPool(s, handle.slot) && size <= PACKET_CAP
      then Put(s, SetSize(s.pool, handle.slot, size), h, Recorded(handle.slot, size)) else s
    case Queue(h) =>
      if handle.Recorded? && InPool(s, handle.slot) && handle.size <= |s.pool.regions[handle.slot]| then
        if |s.pool.pending| < s.pool.Slots() then
          Put(s, PushPending(s.pool, handle.slot), h, Empty)
          .(commits := s.commits + [s.pool.regions[handle.slot][..handle.size]], ids := s.ids + [|s.commits|])
        else Put(s, s.pool, h, Taken(handle.slot))
      else s
    case Discard(h) =>
      if handle.Empty? && s.pool.pending != [] && s.ids != []
      then Put(s, PopPending(s.pool), h, Taken(s.pool.pending[0])).(ids := s.ids[1..]) else s
    case Erase(h) =>
      if (handle.Held? || handle.Taken?) && InPool(s, handle.slot)
      then Put(s, SetSize(s.pool, handle.slot, 0), h, Erased(handle.slot)) else s
    case Free(h) =>
      if handle.Erased? then Put(s, PushFree(s.pool, handle.slot), h, Empty) else s
  }

  function TxStep(s: State, e: Event): State
    requires e.TxFetch? || e.TxRead? || e.TxPoll? || e.TxStop? || e.TxSend? || e.TxErase? || e.TxFree?
  {
    match e
    case TxFetch =>
      if s.tx.Idle? && s.pool.pending != [] && s.ids != []
      then s.(pool := PopPending(s.pool), tx := Fetched(s.pool.pending[0], s.ids[0]), ids := s.ids[1..]) else s
    case TxRead =>
      if s.tx.Fetched? && InPool(s, s.tx.slot)
      then s.(tx := Waiting(s.tx.slot, s.tx.id, s.pool.sizes[s.tx.slot])) else s
    case TxPoll(t) => if s.tx.Waiting? && t >= s.now then Polled(s, t) else s
    case TxStop => if s.tx.Waiting? || s.tx.Ready? then s.(tx := Dropping(s.tx.slot)) else s
    case TxSend(t, result) =>
      if s.tx.Ready? && t >= s.now && InPool(s, s.tx.slot) && s.tx.size <= |s.pool.regions[s.tx.slot]| && s.log != []
      then Attempted(s, t, result) else s
    case TxErase =>
      if s.tx.Dropping? && InPool(s, s.tx.slot)
      then s.(pool := SetSize(s.pool, s.tx.slot, 0), tx := Freeing(s.tx.slot)) else s
    case TxFree => if s.tx.Freeing? then s.(pool := PushFree(s.pool, s.tx.slot), tx := Idle) else s
  }

  /** One turn of the limiter's loop at time `t`. */
  function Polled(s: State, t: int): State
    requires s.tx.Waiting?
  {
    var size := s.tx.size;
    if size == 0 then Granted(s, s.bucket, t)
    else if !s.bucket.Usable() then s.(tx := Dropping(s.tx.slot), now := t)
    else
      var r := Refilled(s.bucket, t);
      if r.available >= size as real then Granted(s, Spent(r, size), t) else s.(bucket := r, now := t)
  }

  function Granted(s: State, bucket: Bucket, t: int): State
    requires s.tx.Waiting?
  {
    s.(bucket := bucket, now := t, tx := Ready(s.tx.slot, s.tx.id, s.tx.size, 0),
       log := s.log + [Grant(s.tx.id, s.tx.size, t, None)])
  }

  /** One call of the socket at time `t`. */
  function Attempted(s: State, t: int, result: SendResult): State
    requires s.tx.Ready? && InPool(s, s.tx.slot) && s.tx.size <= |s.pool.regions[s.tx.slot]| && s.log != []
  {
    var last := |s.log| - 1;
    match result
    case Accepted =>
      var sent := Sent(t, s.pool.regions[s.tx.slot][..s.tx.size]);
      s.(now := t, tx := Dropping(s.tx.slot), log := s.log[last := s.log[last].(sent := Some(sent))])
    case WouldBlock =>
      s.(now := t, tx := if s.tx.attempt + 1 >= SEND_RETRY_COUNT then Dropping(s.tx.slot)
                         else s.tx.(attempt := s.tx.attempt + 1))
    case _ => s.(now := t, tx := Dropping(s.tx.slot))
  }

  function Run(s: State, events: seq<Event>): State
    decreases |events|
  {
    if events == [] then s else Step(Run(s, events[..|events| - 1]), events[|events| - 1])
  }

  ghost predicate Initial(s: State) {
    && s.pool.free == FirstSlots(s.pool.Slots()) && s.pool.pending == []
    && |s.pool.regions| == s.pool.Slots()
    && (forall i :: 0 <= i < |s.pool.regions| ==> |s.pool.regions[i]| == PACKET_CAP)
    && (forall h :: 0 <= h < |s.handles| ==> s.handles[h] == Empty)
    && s.tx == Idle && s.commits == [] && s.ids == [] && s.log == []
    && s.bucket.burst == BURST && s.bucket.available == BURST as real && s.bucket.rate >= 0.0
    && s.bucket.lastRefill <= s.now
  }

  // ---------------------------------------------------------------------------------------------
  // Every slot is in exactly one place
  // ---------------------------------------------------------------------------------------------

  function Count(q: seq<nat>, x: nat): nat {
    if q == [] then 0 else Count(q[..|q| - 1], x) + Once(q[|q| - 1] == x)
  }

  function Once(b: bool): nat { if b then 1 else 0 }

  function HandleSlot(handle: Handle): seq<nat> {
    if handle.Empty? then [] else [handle.slot]
  }

  function HandleSlots(handles: seq<Handle>): seq<nat> {
    if handles == [] then [] else HandleSlots(handles[..|handles| - 1]) + HandleSlot(handles[|handles| - 1])
  }

  function TxSlot(tx: Tx): seq<nat> {
    if tx.Idle? then [] else [tx.slot]
  }

  /** How often slot `x` occurs in the free ring, the pending ring, the handles and the transmit thread. */
  function Copies(s: State, x: nat): nat {
    Count(s.pool.free, x) + Count(s.pool.pending, x) + Count(HandleSlots(s.handles), x) + Count(TxSlot(s.tx), x)
  }

  function Total(s: State): nat {
    |s.pool.free| + |s.pool.pending| + |HandleSlots(s.handles)| + |TxSlot(s.tx)|
  }

  /** Every slot is in exactly one place, and nothing else is anywhere. */
  ghost predicate Conserved(s: State) {
    && (forall x: nat :: Copies(s, x) == Once(x < s.pool.Slots()))
    && Total(s) == s.pool.Slots()
    && |s.pool.regions| == s.pool.Slots()
    && (forall i :: 0 <= i < |s.pool.regions| ==> |s.pool.regions[i]| == PACKET_CAP)
  }

  lemma {:induction false} CountConcat(a: seq<nat>, b: seq<nat>, x: nat)
    ensures Count(a + b, x) == Count(a, x) + Count(b, x)
    decreases |b|
  {
    if b == [] {
      assert a + b == a;
    } else {
      assert (a + b)[..|a + b| - 1] == a + b[..|b| - 1];
      CountConcat(a, b[..|b| - 1], x);
    }
  }

  lemma CountOne(y: nat, x: nat)
    ensures Count([y], x) == Once(y == x) && Count([], x) == 0
  {
  }

  lemma CountTail(q: seq<nat>, x: nat)
    requires q != []
    ensures Count(q, x) == Once(q[0] == x) + Count(q[1..], x)
  {
    assert q == [q[0]] + q[1..];
    CountConcat([q[0]], q[1..], x);
    CountOne(q[0], x);
  }

  lemma CountAppend(q: seq<nat>, y: nat, x: nat)
    ensures Count(q + [y], x) == Count(q, x) + Once(y == x)
  {
    CountConcat(q, [y], x);
    CountOne(y, x);
  }

  lemma CountAt(q: seq<nat>, i: nat)
    requires i < |q|
    ensures Count(q, q[i]) == Count(q[..i], q[i]) + 1 + Count(q[i + 1..], q[i])
  {
    assert q == q[..i] + q[i..];
    CountConcat(q[..i], q[i..], q[i]);
    CountTail(q[i..], q[i]);
    assert q[i..][1..] == q[i + 1..];
  }

  /** A value that is not counted is not there; one counted once is there once. */
  lemma CountZero(q: seq<nat>, x: nat)
    requires Count(q, x) == 0
    ensures x !in q
  {
    if x in q {
      var i :| 0 <= i < |q| && q[i] == x;
      CountAt(q, i);
    }
  }

  lemma {:induction false} FirstSlotsOnce(n: nat, x: nat)
    ensures Count(FirstSlots(n), x) == Once(x < n)
  {
    if n > 0 {
      FirstSlotsOnce(n - 1, x);
      CountAppend(FirstSlots(n - 1), n - 1, x);
    }
  }

  lemma {:induction false} HandleChanged(handles: seq<Handle>, h: nat, handle: Handle, x: nat)
    requires h < |handles|
    ensures var was, now := HandleSlots(handles), HandleSlots(handles[h := handle]);
      && Count(now, x) + Count(HandleSlot(handles[h]), x) == Count(was, x) + Count(HandleSlot(handle), x)
      && |now| + |HandleSlot(handles[h])| == |was| + |HandleSlot(handle)|
    decreases |handles|
  {
    hide Count, HandleSlot;
    var last := |handles| - 1;
    var changed := handles[h := handle];
    CountConcat(HandleSlots(handles[..last]), HandleSlot(handles[last]), x);
    CountConcat(HandleSlots(changed[..last]), HandleSlot(changed[last]), x);
    if h < last {
      assert changed[..last] == handles[..last][h := handle];
      HandleChanged(handles[..last], h, handle, x);
    } else {
      assert changed[..last] == handles[..last];
    }
  }

  /** A slot that a handle holds is in range and in no ring and not with the transmit thread. */
  lemma HandleApart(s: State, h: nat)
    requires Conserved(s) && Exists(s, h) && !s.handles[h].Empty?
    ensures var slot := s.handles[h].slot;
      && InPool(s, slot)
      && slot !in s.pool.free && slot !in s.pool.pending
      && (!s.tx.Idle? ==> s.tx.slot != slot)
    ensures |s.pool.free| < s.pool.Slots() && |s.pool.pending| < s.pool.Slots()
  {
    hide Count;
    var slot := s.handles[h].slot;
    HandleChanged(s.handles, h, Empty, slot);
    CountOne(slot, slot);
    assert Copies(s, slot) == Once(slot < s.pool.Slots());
    CountZero(s.pool.free, slot);
    CountZero(s.pool.pending, slot);
    CountZero(TxSlot(s.tx), slot);
  }

  lemma TxApart(s: State)
    requires Conserved(s) && !s.tx.Idle?
    ensures InPool(s, s.tx.slot) && s.tx.slot !in s.pool.free && s.tx.slot !in s.pool.pending
    ensures |s.pool.free| < s.pool.Slots() && |s.pool.pending| < s.pool.Slots()
  {
    hide Count;
    CountOne(s.tx.slot, s.tx.slot);
    assert Copies(s, s.tx.slot) == Once(s.tx.slot < s.pool.Slots());
    CountZero(s.pool.free, s.tx.slot);
    CountZero(s.pool.pending, s.tx.slot);
  }

  /** Two handles never hold the same slot. */
  lemma HandlesApart(s: State, g: nat, h: nat)
    requires Conserved(s) && Exists(s, g) && Exists(s, h) && g != h
    requires !s.handles[g].Empty? && !s.handles[h].Empty?
    ensures s.handles[g].slot != s.handles[h].slot
  {
    hide Count, HandleSlots;
    var slot := s.handles[g].slot;
    HandleChanged(s.handles, g, Empty, slot);
    HandleChanged(s.handles[g := Empty], h, Empty, slot);
    CountOne(slot, slot);
    CountOne(s.handles[h].slot, slot);
    assert Copies(s, slot) == Once(slot < s.pool.Slots());
  }

  lemma InitialConserved(s: State)
    requires Initial(s)
    ensures Conserved(s)
  {
    hide Count, FirstSlots;
    forall x: nat
      ensures Copies(s, x) == Once(x < s.pool.Slots())
    {
      FirstSlotsOnce(s.pool.Slots(), x);
      EmptyHandles(s.handles);
      CountOne(0, x);
    }
    EmptyHandles(s.handles);
  }

  lemma {:induction false} EmptyHandles(handles: seq<Handle>)
    requires forall h :: 0 <= h < |handles| ==> handles[h] == Empty
    ensures HandleSlots(handles) == []
  {
    if handles != [] {
      EmptyHandles(handles[..|handles| - 1]);
    }
  }

  lemma StepConserves(s: State, e: Event)
    requires Conserved(s)
    ensures Conserved(Step(s, e))
  {
    hide Copies, HandleStep, TxStep, HandleSlots;
    match e
    case Move(from, to) =>
      if Step(s, e) != s {
        MoveConserves(s, from, to);
      }
    case TxFetch | TxRead | TxPoll(_) | TxStop | TxSend(_, _) | TxErase | TxFree => TxConserves(s, e);
    case _ => if Exists(s, e.h) { HandleConserves(s, e); }
  }

  lemma MoveConserves(s: State, from: nat, to: nat)
    requires Conserved(s) && Exists(s, from) && Exists(s, to) && s.handles[from].Held? && s.handles[to].Empty?
    ensures Conserved(s.(handles := s.handles[to := s.handles[from]][from := Empty]))
  {
    hide Count, HandleSlots;
    var t := s.(handles := s.handles[to := s.handles[from]][from := Empty]);
    forall x: nat
      ensures Copies(t, x) == Copies(s, x) && Total(t) == Total(s)
    {
      HandleChanged(s.handles, to, s.handles[from], x);
      HandleChanged(s.handles[to := s.handles[from]], from, Empty, x);
    }
    assert Copies(t, 0) == Copies(s, 0);
  }

  lemma TxConserves(s: State, e: Event)
    requires e.TxFetch? || e.TxRead? || e.TxPoll? || e.TxStop? || e.TxSend? || e.TxErase? || e.TxFree?
    requires Conserved(s)
    ensures Conserved(TxStep(s, e))
  {
    hide Copies, HandleSlots, Polled, Attempted;
    var t := TxStep(s, e);
    if !s.tx.Idle? {
      TxApart(s);
    }
    forall x: nat
      ensures Copies(t, x) == Copies(s, x)
    {
      TxCopies(s, e, x);
    }
    TxCopies(s, e, 0);
    forall x: nat
      ensures Copies(t, x) == Once(x < t.pool.Slots())
    {
      assert Copies(t, x) == Copies(s, x);
    }
  }

  lemma TxCopies(s: State, e: Event, x: nat)
    requires e.TxFetch? || e.TxRead? || e.TxPoll? || e.TxStop? || e.TxSend? || e.TxErase? || e.TxFree?
    requires Conserved(s)
    ensures var t := TxStep(s, e);
      && Copies(t, x) == Copies(s, x) && Total(t) == Total(s)
      && t.pool.regions == s.pool.regions && t.pool.Slots() == s.pool.Slots()
  {
    hide Conserved, Count, HandleSlots, Refilled, Spent;
    if s.pool.pending != [] {
      CountTail(s.pool.pending, x);
      CountOne(s.pool.pending[0], x);
    }
    if !s.tx.Idle? {
      TxApart(s);
      CountOne(s.tx.slot, x);
      CountAppend(s.pool.free, s.tx.slot, x);
    }
  }

  lemma HandleConserves(s: State, e: Event)
    requires e.Acquire? || e.Store? || e.Record? || e.Queue? || e.Discard? || e.Erase? || e.Free?
    requires Conserved(s) && Exists(s, e.h)
    ensures Conserved(HandleStep(s, e))
  {
    hide HandleStep, Copies, Total;
    var t := HandleStep(s, e);
    forall x: nat
      ensures Copies(t, x) == Once(x < t.pool.Slots())
    {
      HandleCopies(s, e, x);
      assert Copies(s, x) == Once(x < s.pool.Slots());
    }
    HandleCopies(s, e, 0);
    HandleShape(s, e);
  }

  lemma HandleShape(s: State, e: Event)
    requires e.Acquire? || e.Store? || e.Record? || e.Queue? || e.Discard? || e.Erase? || e.Free?
    requires Conserved(s) && Exists(s, e.h)
    ensures var t := HandleStep(s, e);
      && |t.pool.regions| == t.pool.Slots()
      && (forall i :: 0 <= i < |t.pool.regions| ==> |t.pool.regions[i]| == PACKET_CAP)
  {
    hide Copies, Total;
  }

  lemma HandleCopies(s: State, e: Event, x: nat)
    requires e.Acquire? || e.Store? || e.Record? || e.Queue? || e.Discard? || e.Erase? || e.Free?
    requires Conserved(s) && Exists(s, e.h)
    ensures var t := HandleStep(s, e);
      Copies(t, x) == Copies(s, x) && Total(t) == Total(s) && t.pool.Slots() == s.pool.Slots()
  {
    hide Conserved, Count, HandleSlots;
    var t := HandleStep(s, e);
    HandleChanged(s.handles, e.h, t.handles[e.h], x);
    assert t.handles == s.handles[e.h := t.handles[e.h]];
    if !s.handles[e.h].Empty? {
      HandleApart(s, e.h);
      CountOne(s.handles[e.h].slot, x);
      if e.Queue? {
        CountAppend(s.pool.pending, s.handles[e.h].slot, x);
      } else if e.Free? {
        CountAppend(s.pool.free, s.handles[e.h].slot, x);
      }
    } else if e.Discard? && s.pool.pending != [] {
      CountTail(s.pool.pending, x);
      CountOne(s.pool.pending[0], x);
    } else if e.Acquire? && s.pool.free != [] {
      CountTail(s.pool.free, x);
      CountOne(s.pool.free[0], x);
    }
  }

  // ---------------------------------------------------------------------------------------------
  // The limiter's loop, turn by turn
  // ---------------------------------------------------------------------------------------------

  function Script(times: seq<int>): (polls: seq<Poll>)
    ensures polls != [] && polls[|polls| - 1].Stop? && |polls| == |times| + 1
  {
    if times == [] then [Stop] else [At(times[0])] + Script(times[1..])
  }

  function Turns(times: seq<int>): seq<Event> {
    if times == [] then [] else [TxPoll(times[0])] + Turns(times[1..])
  }

  lemma {:induction false} RunFirst(s: State, e: Event, rest: seq<Event>)
    ensures Run(s, [e] + rest) == Run(Step(s, e), rest)
    decreases |rest|
  {
    hide Step;
    if rest == [] {
      assert [e] + rest == [e] && [e][..0] == [];
      assert Run(s, [e]) == Step(Run(s, []), e);
    } else {
      assert ([e] + rest)[..|rest|] == [e] + rest[..|rest| - 1];
      RunFirst(s, e, rest[..|rest| - 1]);
    }
  }

  /** The poll steps of a run do what the limiter's waiting loop does with the same clock readings. */
  lemma {:induction false} TurnsAreWait(s: State, times: seq<int>)
    requires s.tx.Waiting? && s.tx.size > 0 && s.bucket.Usable()
    requires forall i :: 0 <= i < |times| ==> s.now <= times[i]
    requires forall i, j :: 0 <= i < j < |times| ==> times[i] <= times[j]
    ensures var o := Waited(s.bucket, s.tx.size, Script(times));
      && o.turns <= |times|
      && var t := Run(s, Turns(times[..o.turns]));
         && t.bucket == o.bucket
         && (if o.error == Ok then t.tx == Ready(s.tx.slot, s.tx.id, s.tx.size, 0)
             else o.error == Cancelled && o.turns == |times| && t.tx == s.tx)
    decreases |times|
  {
    hide Refilled, Spent, Run;
    var o := Waited(s.bucket, s.tx.size, Script(times));
    NoTurns(s);
    if times != [] {
      var next := Step(s, TxPoll(times[0]));
      var rest := times[1..];
      assert Script(times)[1..] == Script(rest);
      var n := o.turns;
      assert times[..n][0] == times[0] && times[..n][1..] == rest[..n - 1];
      RunFirst(s, TxPoll(times[0]), Turns(rest[..n - 1]));
      NoTurns(next);
      if next.tx.Waiting? {
        TurnsAreWait(next, rest);
      } else {
        assert rest[..0] == [];
      }
    }
  }

  lemma NoTurns(s: State)
    ensures Run(s, Turns([])) == s
  {
  }
}
