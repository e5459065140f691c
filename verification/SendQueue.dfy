/**
 The slot pool behind a send queue: one byte arena cut into equal slots, a ring of free slots and a
 ring of slots waiting to be sent. Acquiring, queueing and releasing a slot move its number from one to
 the other; its bytes stay where they are.
 */
module SendQueue {
  import opened Bits
  import opened Fleet
  import opened RingQueue

  const UINT32_MAX: nat := 0xFFFF_FFFF

  /** The pool as a value: the two rings, the recorded packet sizes and the bytes of each slot. */
  datatype Pool = Pool(free: seq<nat>, pending: seq<nat>, sizes: seq<nat>, regions: seq<seq<Byte>>) {
    function Slots(): nat { |sizes| }
  }

  /** Where a slot starts: the product is taken in 32 bits. */
  function Offset(slot: nat, cap: nat): nat {
    (slot * cap) % 0x1_0000_0000
  }

  /** Arena size for `slots` slots, or nothing where the source throws. */
  function StorageSize(slots: nat, cap: nat): Option<nat> {
    if cap == 0 || slots > UINT32_MAX / cap then None else Some((slots * cap) % 0x1_0000_0000)
  }

  /** The arithmetic of a sized arena never wraps, and slots do not overlap. */
  lemma SlotsDisjoint(slots: nat, cap: nat, a: nat, b: nat)
    requires StorageSize(slots, cap).Some? && a < slots && b < slots
    ensures StorageSize(slots, cap) == Some(slots * cap)
    ensures Offset(a, cap) == a * cap && Offset(b, cap) == b * cap
    ensures Offset(a, cap) + cap <= slots * cap
    ensures a != b ==> Offset(a, cap) + cap <= Offset(b, cap) || Offset(b, cap) + cap <= Offset(a, cap)
  {
    hide StorageSize, Offset;
    NoWrap(slots, cap);
    OffsetPlain(a, slots, cap);
    OffsetPlain(b, slots, cap);
    if a < b {
      MulLe(a + 1, b, cap);
      MulLe(a, b, cap);
    } else if b < a {
      MulLe(b + 1, a, cap);
      MulLe(b, a, cap);
    }
  }

  lemma NoWrap(slots: nat, cap: nat)
    requires StorageSize(slots, cap).Some?
    ensures cap > 0 && slots * cap < 0x1_0000_0000
    ensures StorageSize(slots, cap) == Some(slots * cap)
  {
    MulLe(slots, UINT32_MAX / cap, cap);
    SmallMod(slots * cap);
  }

  lemma OffsetPlain(a: nat, slots: nat, cap: nat)
    requires a < slots && slots * cap < 0x1_0000_0000
    ensures Offset(a, cap) == a * cap && a * cap + cap <= slots * cap
  {
    MulLe(a + 1, slots, cap);
    MulLe(a, slots, cap);
    SmallMod(a * cap);
  }

  lemma SmallMod(n: nat)
    requires n < 0x1_0000_0000
    ensures n % 0x1_0000_0000 == n
  {
  }

  lemma MulLe(a: nat, b: nat, c: nat)
    requires a <= b
    ensures a * c <= b * c
    ensures (a + 1) * c == a * c + c
  {
  }

  ghost predicate IsArena(bytes: seq<Byte>, slots: nat, cap: nat) {
    StorageSize(slots, cap) == Some(|bytes|)
  }

  lemma WholeArena(bytes: seq<Byte>, slots: nat, cap: nat)
    requires StorageSize(slots, cap) == Some(|bytes|)
    ensures IsArena(bytes, slots, cap)
  {
  }

  /** The first `n` slot numbers. */
  function FirstSlots(n: nat): (r: seq<nat>)
    ensures |r| == n && forall i :: 0 <= i < n ==> r[i] == i
  {
    if n == 0 then [] else FirstSlots(n - 1) + [n - 1]
  }

  lemma PushedAt<T>(q: seq<T>, capacity: nat, value: T)
    requires |q| < capacity
    ensures Pushed(q, capacity, value) == q + [value]
  {
  }

  /** The bytes of one slot of an arena. */
  ghost function SlotBytes(bytes: seq<Byte>, slots: nat, cap: nat, slot: nat): (r: seq<Byte>)
    requires IsArena(bytes, slots, cap) && slot < slots
    ensures |r| == cap
  {
    SlotsDisjoint(slots, cap, slot, slot);
    bytes[Offset(slot, cap)..Offset(slot, cap) + cap]
  }

  /** An arena cut into slots. */
  ghost function Carved(bytes: seq<Byte>, slots: nat, cap: nat): (r: seq<seq<Byte>>)
    requires IsArena(bytes, slots, cap)
    ensures |r| == slots && forall s :: 0 <= s < slots ==> r[s] == SlotBytes(bytes, slots, cap, s)
  {
    seq(slots, (s: nat) requires s < slots => SlotBytes(bytes, slots, cap, s))
  }

  function Patched(regions: seq<seq<Byte>>, slot: nat, i: nat, v: Byte): seq<seq<Byte>>
    requires slot < |regions| && i < |regions[slot]|
  {
    var region: seq<Byte> := regions[slot];
    regions[slot := region[i := v]]
  }

  /** Storing a byte through one slot's buffer changes that byte of that slot and no other slot. */
  lemma CarvedUpdate(bytes: seq<Byte>, slots: nat, cap: nat, slot: nat, i: nat, v: Byte)
    requires IsArena(bytes, slots, cap) && slot < slots && i < cap
    ensures Offset(slot, cap) + i < |bytes|
    ensures IsArena(bytes[Offset(slot, cap) + i := v], slots, cap)
    ensures Carved(bytes[Offset(slot, cap) + i := v], slots, cap) ==
            Patched(Carved(bytes, slots, cap), slot, i, v)
  {
    hide StorageSize, Offset, Carved, SlotBytes;
    SlotsDisjoint(slots, cap, slot, slot);
    var after: seq<Byte> := bytes[Offset(slot, cap) + i := v];
    forall s | 0 <= s < slots
      ensures Carved(after, slots, cap)[s] == Patched(Carved(bytes, slots, cap), slot, i, v)[s]
    {
      SlotBytesUpdate(bytes, slots, cap, slot, i, v, s);
    }
  }

  lemma SlotBytesUpdate(bytes: seq<Byte>, slots: nat, cap: nat, slot: nat, i: nat, v: Byte, s: nat)
    requires IsArena(bytes, slots, cap) && slot < slots && s < slots && i < cap
    ensures Offset(slot, cap) + i < |bytes|
    ensures SlotBytes(bytes[Offset(slot, cap) + i := v], slots, cap, s) ==
            if s == slot then SlotBytes(bytes, slots, cap, s)[i := v] else SlotBytes(bytes, slots, cap, s)
  {
    hide StorageSize, Offset;
    SlotsDisjoint(slots, cap, slot, s);
    SlotsDisjoint(slots, cap, s, slot);
    SliceUpdate(bytes, Offset(slot, cap), Offset(s, cap), cap, i, v);
  }

  lemma SliceUpdate(bytes: seq<Byte>, a: nat, b: nat, n: nat, i: nat, v: Byte)
    requires a + n <= |bytes| && b + n <= |bytes| && i < n
    requires a == b || a + n <= b || b + n <= a
    ensures bytes[a + i := v][b..b + n] == if a == b then bytes[b..b + n][i := v] else bytes[b..b + n]
  {
  }

  // What each pool operation does, as separate atomic steps where the source takes them separately.

  function WriteByte(p: Pool, slot: nat, i: nat, v: Byte): Pool
    requires slot < |p.regions| && i < |p.regions[slot]|
  {
    p.(regions := Patched(p.regions, slot, i, v))
  }

  function PopFree(p: Pool): (r: Pool)
    requires p.free != []
    ensures r.Slots() == p.Slots() && r.regions == p.regions
  {
    p.(free := p.free[1..])
  }

  function PushFree(p: Pool, slot: nat): Pool {
    p.(free := Pushed(p.free, p.Slots(), slot))
  }

  function SetSize(p: Pool, slot: nat, size: nat): Pool
    requires slot < p.Slots()
  {
    p.(sizes := p.sizes[slot := size])
  }

  function PushPending(p: Pool, slot: nat): Pool {
    p.(pending := Pushed(p.pending, p.Slots(), slot))
  }

  function PopPending(p: Pool): Pool
    requires p.pending != []
  {
    p.(pending := p.pending[1..])
  }

  function Released(p: Pool, slot: nat): (r: Pool)
    requires slot < p.Slots()
    ensures r.Slots() == p.Slots() && r.pending == p.pending && r.regions == p.regions
    ensures InRange(p) ==> InRange(r)
  {
    PushFree(SetSize(p, slot, 0), slot)
  }

  function Enqueued(p: Pool, slot: nat, size: nat): Pool
    requires slot < p.Slots()
  {
    if |p.pending| < p.Slots() then PushPending(SetSize(p, slot, size), slot)
    else Released(SetSize(p, slot, size), slot)
  }

  /** The slots named in the rings exist. */
  ghost predicate InRange(p: Pool) {
    && (forall i :: 0 <= i < |p.free| ==> p.free[i] < p.Slots())
    && (forall i :: 0 <= i < |p.pending| ==> p.pending[i] < p.Slots())
  }

  /** Everything pending returned to the free ring, in order. */
  ghost function Discarded(p: Pool): Pool
    requires InRange(p)
    decreases |p.pending|
  {
    if p.pending == [] then p
    else Discarded(Released(PopPending(p), p.pending[0]))
  }

  /**
   If no slot is lost or duplicated, discarding returns every pending slot to the free ring in order,
   forgets their sizes, and drops nothing.
   */
  lemma {:induction false} DiscardedAll(p: Pool)
    requires InRange(p) && |p.free| + |p.pending| <= p.Slots()
    ensures var d := Discarded(p);
      && d.free == p.free + p.pending && d.pending == [] && d.regions == p.regions
      && d.Slots() == p.Slots()
      && forall s :: 0 <= s < p.Slots() ==> d.sizes[s] == if s in p.pending then 0 else p.sizes[s]
    decreases |p.pending|
  {
    if p.pending == [] {
      assert p.free + p.pending == p.free;
    } else {
      var next := Released(PopPending(p), p.pending[0]);
      DiscardedAll(next);
      assert next.free + next.pending == p.free + p.pending;
      assert forall s :: s in p.pending <==> s == p.pending[0] || s in next.pending;
    }
  }

  /** A ring holding every slot, in order. */
  method FreeRing(slots: nat) returns (free: FixedRingQueue<nat>)
    ensures fresh(free) && fresh(free.storage) && free.Valid() && free.Capacity() == slots
    ensures free.Contents() == FirstSlots(slots)
  {
    free := new FixedRingQueue<nat>(slots);
    for slot := 0 to slots
      invariant fresh(free) && fresh(free.storage) && free.Valid() && free.Capacity() == slots
      invariant free.Contents() == FirstSlots(slot)
    {
      PushedAt(free.Contents(), slots, slot);
      var ok := free.TryPush(slot);
    }
  }

  /** What popping the pending ring hands out. */
  datatype Queued = Queued(slot: nat, size: nat)

  class PacketPool {
    const cap: nat
    const storage: array<Byte>
    const sizes: array<nat>
    const freeSlots: FixedRingQueue<nat>
    const pendingSlots: FixedRingQueue<nat>

    ghost function Repr(): set<object> {
      {storage, sizes, freeSlots, freeSlots.storage, pendingSlots, pendingSlots.storage}
    }

    /** The parts are separate objects of matching sizes. */
    ghost predicate WellFormed()
      reads Repr()
    {
      && freeSlots != pendingSlots && freeSlots.storage != pendingSlots.storage
      && sizes != freeSlots.storage && sizes != pendingSlots.storage
      && storage as object != sizes && storage as object != freeSlots.storage
      && storage as object != pendingSlots.storage
      && freeSlots.Valid() && pendingSlots.Valid()
      && freeSlots.Capacity() == pendingSlots.Capacity() == sizes.Length
      && IsArena(storage[..], sizes.Length, cap)
    }

    ghost predicate Valid()
      reads Repr()
    {
      WellFormed() && InRange(View())
    }

    ghost function View(): (p: Pool)
      reads Repr()
      requires WellFormed()
      ensures p.Slots() == |p.regions| == sizes.Length
      ensures forall s :: 0 <= s < p.Slots() ==> |p.regions[s]| == cap
    {
      Pool(freeSlots.Contents(), pendingSlots.Contents(), sizes[..], Carved(storage[..], sizes.Length, cap))
    }

    /** All slots start free, in order. */
    constructor (slots: nat, cap: nat)
      requires StorageSize(slots, cap).Some?
      ensures Valid() && fresh(Repr()) && this.cap == cap
      ensures View().free == FirstSlots(slots) && View().pending == [] && View().Slots() == slots
    {
      hide IsArena, Carved, StorageSize, Pushed;
      var free := FreeRing(slots);
      var pending := new FixedRingQueue<nat>(slots);
      var bytes := new Byte[StorageSize(slots, cap).value](_ => 0);
      WholeArena(bytes[..], slots, cap);
      this.cap := cap;
      this.storage := bytes;
      this.sizes := new nat[slots](_ => 0);
      this.freeSlots := free;
      this.pendingSlots := pending;
      new;
      assert storage[..] == bytes[..];
      assert IsArena(storage[..], slots, cap);
      assert WellFormed();
      assert InRange(View());
    }

    /** A store through the buffer of a slot. */
    method StoreByte(slot: nat, i: nat, v: Byte)
      requires Valid() && slot < sizes.Length && i < cap
      modifies storage
      ensures Valid() && View() == WriteByte(old(View()), slot, i, v)
    {
      hide IsArena, Carved, Offset;
      CarvedUpdate(storage[..], sizes.Length, cap, slot, i, v);
      storage[Offset(slot, cap) + i] := v;
      assert storage[..] == old(storage[..])[Offset(slot, cap) + i := v];
    }

    method AcquireSlot() returns (r: Result<nat>)
      requires Valid()
      modifies Repr()
      ensures Valid()
      ensures if old(View()).free == [] then r == Failure(Busy) && View() == old(View())
              else r == Success(old(View()).free[0]) && View() == PopFree(old(View()))
    {
      hide IsArena, Carved;
      var slot := freeSlots.TryPop();
      match slot
      case Some(s) => r := Success(s);
      case None => r := Failure(Busy);
    }

    method ReleaseSlot(slot: nat)
      requires Valid() && slot < sizes.Length
      modifies Repr()
      ensures Valid()
      ensures View() == Released(old(View()), slot)
    {
      hide IsArena, Carved;
      sizes[slot] := 0;
      var ignored := freeSlots.TryPush(slot);
    }

    method Enqueue(slot: nat, size: nat) returns (e: Err)
      requires Valid() && slot < sizes.Length
      modifies Repr()
      ensures Valid()
      ensures e == if |old(View()).pending| < old(View()).Slots() then Ok else Busy
      ensures View() == Enqueued(old(View()), slot, size)
    {
      hide IsArena, Carved;
      sizes[slot] := size;
      var ok := pendingSlots.TryPush(slot);
      if !ok {
        ReleaseSlot(slot);
        return Busy;
      }
      e := Ok;
    }

    method TryPopPending() returns (r: Option<Queued>)
      requires Valid()
      modifies Repr()
      ensures Valid()
      ensures if old(View()).pending == [] then r == None && View() == old(View())
              else
                && r == Some(Queued(old(View()).pending[0], old(View()).sizes[old(View()).pending[0]]))
                && View() == PopPending(old(View()))
    {
      hide IsArena, Carved;
      var slot := pendingSlots.TryPop();
      match slot
      case Some(s) => r := Some(Queued(s, sizes[s]));
      case None => r := None;
    }

    method DiscardPending()
      requires Valid()
      modifies Repr()
      ensures Valid()
      ensures View() == Discarded(old(View()))
    {
      hide IsArena, Carved, Released, Pushed;
      var next := TryPopPending();
      while next.Some?
        invariant Valid()
        invariant next.None? ==> View().pending == [] && View() == Discarded(old(View()))
        invariant next.Some? ==> next.value.slot < sizes.Length
        invariant next.Some? ==> Discarded(Released(View(), next.value.slot)) == Discarded(old(View()))
        decreases |View().pending|, next.Some?
      {
        ReleaseSlot(next.value.slot);
        next := TryPopPending();
      }
    }
  }
}
