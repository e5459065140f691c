/** The realtime channel's producer side: move-only packet buffers that own a slot of the pool. */
module Channel {
  import opened Bits
  import opened Fleet
  import opened SendQueue

  const MOTOR_UDP_PACKET_CAP: nat := 512

  /** Pool `p` with the first bytes of `slot` replaced by `data`. */
  function Filled(p: Pool, slot: nat, data: seq<Byte>): Pool
    requires slot < |p.regions| && |data| <= |p.regions[slot]|
  {
    p.(regions := p.regions[slot := data + p.regions[slot][|data|..]])
  }

  lemma FilledMore(p: Pool, slot: nat, data: seq<Byte>, i: nat)
    requires slot < |p.regions| && i < |data| <= |p.regions[slot]|
    ensures WriteByte(Filled(p, slot, data[..i]), slot, i, data[i]) == Filled(p, slot, data[..i + 1])
  {
    var region := p.regions[slot];
    assert (data[..i] + region[i..])[i := data[i]] == data[..i + 1] + region[i + 1..];
  }

  class PacketBuffer {
    var owner: RealtimeChannel?
    var slot: nat

    /** A buffer that owns nothing. */
    constructor Empty()
      ensures owner == null
    {
      owner, slot := null, 0;
    }

    constructor Owning(owner: RealtimeChannel, slot: nat)
      ensures this.owner == owner && this.slot == slot
    {
      this.owner, this.slot := owner, slot;
    }

    /** Move construction takes the slot and leaves the source empty. */
    constructor Move(other: PacketBuffer)
      modifies other
      ensures owner == old(other.owner) && slot == old(other.slot)
      ensures other.owner == null && other.slot == old(other.slot)
    {
      owner, slot := other.owner, other.slot;
      new;
      other.owner := null;
    }

    ghost predicate Valid()
      reads this, if owner == null then {} else owner.Footprint()
    {
      owner != null ==> owner.Valid() && slot < owner.pool.View().Slots()
    }

    /** Returns the slot to its pool, if there is one; also what destruction does. */
    method Release()
      requires Valid()
      modifies this, if owner == null then {} else owner.pool.Repr()
      ensures owner == null && slot == old(slot)
      ensures old(owner) != null ==>
                && old(owner).Valid()
                && old(owner).pool.View() == Released(old(owner.pool.View()), slot)
    {
      if owner != null {
        owner.pool.ReleaseSlot(slot);
      }
      owner := null;
    }

    /**
     Move assignment: assigning a buffer to itself does nothing; otherwise the slot held before goes
     back to its pool once, and the other buffer's slot changes hands.
     */
    method Assign(other: PacketBuffer)
      requires Valid()
      modifies this, other, if owner == null then {} else owner.pool.Repr()
      ensures owner == old(other.owner) && slot == old(other.slot)
      ensures other != this ==> other.owner == null && other.slot == old(other.slot)
      ensures old(owner) != null ==>
                && old(owner).Valid()
                && old(owner).pool.View() ==
                   if other == this then old(owner.pool.View()) else Released(old(owner.pool.View()), old(slot))
    {
      hide Released, InRange, PacketPool.WellFormed, PacketPool.View;
      if other == this {
        return;
      }
      Release();
      owner, slot := other.owner, other.slot;
      other.owner := null;
    }
  }

  class RealtimeChannel {
    const pool: PacketPool
    var stopped: bool

    ghost function Footprint(): set<object> { {this} + pool.Repr() }

    ghost predicate Valid()
      reads Footprint()
    {
      pool.Valid() && pool.cap == MOTOR_UDP_PACKET_CAP
    }

    constructor (slots: nat)
      requires StorageSize(slots, MOTOR_UDP_PACKET_CAP).Some?
      ensures Valid() && fresh(Footprint()) && !stopped
      ensures pool.View().free == FirstSlots(slots) && pool.View().pending == [] && pool.View().Slots() == slots
    {
      pool := new PacketPool(slots, MOTOR_UDP_PACKET_CAP);
      stopped := false;
    }

    /** Takes a free slot out of circulation, or takes nothing. */
    method PrepareSend() returns (r: Result<PacketBuffer>)
      requires Valid()
      modifies pool.Repr()
      ensures Valid()
      ensures stopped ==> r == Failure(Cancelled)
      ensures !stopped && old(pool.View()).free == [] ==> r == Failure(Busy)
      ensures r.Failure? ==> pool.View() == old(pool.View())
      ensures !stopped && old(pool.View()).free != [] ==>
                && r.Success? && fresh(r.value) && r.value.owner == this
                && r.value.slot == old(pool.View()).free[0] && r.value.slot < pool.View().Slots()
                && pool.View() == PopFree(old(pool.View()))
    {
      if stopped {
        return Failure(Cancelled);
      }
      var slot := pool.AcquireSlot();
      if slot.Failure? {
        return Failure(slot.error);
      }
      var packet := new PacketBuffer.Owning(this, slot.value);
      r := Success(packet);
    }

    /** Queues a packet. A refused packet keeps its slot, and its owner keeps the duty to release it. */
    method CommitSend(packet: PacketBuffer, size: nat) returns (e: Err)
      requires Valid()
      requires packet.owner == this ==> packet.slot < pool.View().Slots()
      modifies packet, pool.Repr()
      ensures Valid() && packet.slot == old(packet.slot)
      ensures (old(packet.owner) != this || size > MOTOR_UDP_PACKET_CAP) ==> e == InvalidArgument
      ensures old(packet.owner) == this && size <= MOTOR_UDP_PACKET_CAP && stopped ==> e == Cancelled
      ensures (old(packet.owner) != this || size > MOTOR_UDP_PACKET_CAP || stopped) ==>
                packet.owner == old(packet.owner) && pool.View() == old(pool.View())
      ensures old(packet.owner) == this && size <= MOTOR_UDP_PACKET_CAP && !stopped ==>
                && e == (if |old(pool.View()).pending| < old(pool.View()).Slots() then Ok else Busy)
                && packet.owner == null
                && pool.View() == Enqueued(old(pool.View()), packet.slot, size)
    {
      if packet.owner != this || size > MOTOR_UDP_PACKET_CAP {
        return InvalidArgument;
      }
      if stopped {
        return Cancelled;
      }
      var slot := packet.slot;
      packet.owner := null;
      e := pool.Enqueue(slot, size);
    }

    /**
     Copies `data` into a slot and queues it. `stopMeanwhile` is whether another thread stops the
     channel after the slot was taken. The slot ends queued, or back in the free ring.
     */
    method Send(data: seq<Byte>, stopMeanwhile: bool) returns (e: Err)
      requires Valid()
      modifies Footprint()
      ensures Valid()
      ensures |data| > MOTOR_UDP_PACKET_CAP ==> e == InvalidArgument
      ensures |data| <= MOTOR_UDP_PACKET_CAP && old(stopped) ==> e == Cancelled
      ensures |data| <= MOTOR_UDP_PACKET_CAP && !old(stopped) && old(pool.View()).free == [] ==> e == Busy
      ensures |data| > MOTOR_UDP_PACKET_CAP || old(stopped) || old(pool.View()).free == [] ==>
                pool.View() == old(pool.View()) && stopped == old(stopped)
      ensures |data| <= MOTOR_UDP_PACKET_CAP && !old(stopped) && old(pool.View()).free != [] ==>
                var slot := old(pool.View()).free[0];
                && slot < old(pool.View()).Slots()
                && e == (if stopMeanwhile then Cancelled
                         else if |old(pool.View()).pending| < old(pool.View()).Slots() then Ok else Busy)
                && stopped == stopMeanwhile
                && var filled := Filled(PopFree(old(pool.View())), slot, data);
                pool.View() == if stopMeanwhile then Released(filled, slot) else Enqueued(filled, slot, |data|)
    {
      hide Filled, Enqueued, Released, PacketPool.WellFormed, PacketPool.View;
      if |data| > MOTOR_UDP_PACKET_CAP {
        return InvalidArgument;
      }
      var prepared := PrepareSend();
      if prepared.Failure? {
        return prepared.error;
      }
      stopped := stopMeanwhile;
      e := CopyAndCommit(prepared.value, data);
    }

    method CopyAndCommit(packet: PacketBuffer, data: seq<Byte>) returns (e: Err)
      requires Valid() && |data| <= MOTOR_UDP_PACKET_CAP
      requires packet.owner == this && packet.slot < pool.View().Slots()
      modifies packet, pool.Repr()
      ensures Valid() && packet.owner == null
      ensures e == if stopped then Cancelled
                   else if |old(pool.View()).pending| < old(pool.View()).Slots() then Ok else Busy
      ensures var slot := old(packet.slot);
        && slot < old(pool.View()).Slots()
        && var filled := Filled(old(pool.View()), slot, data);
        pool.View() == if stopped then Released(filled, slot) else Enqueued(filled, slot, |data|)
    {
      hide Enqueued, Released, InRange, PacketPool.WellFormed, PacketPool.View;
      CopyInto(packet.slot, data);
      e := CommitSend(packet, |data|);
      packet.Release();
    }

    method CopyInto(slot: nat, data: seq<Byte>)
      requires Valid() && slot < pool.View().Slots() && |data| <= MOTOR_UDP_PACKET_CAP
      modifies pool.storage
      ensures Valid() && pool.View() == Filled(old(pool.View()), slot, data)
    {
      ghost var was := pool.View();
      assert Filled(was, slot, data[..0]) == was by {
        assert data[..0] + was.regions[slot][0..] == was.regions[slot];
      }
      for i := 0 to |data|
        invariant Valid() && pool.View() == Filled(was, slot, data[..i])
      {
        FilledMore(was, slot, data, i);
        pool.StoreByte(slot, i, data[i]);
      }
      assert data[..|data|] == data;
    }
  }
}
