/** A bounded first-in first-out queue over a fixed buffer with wrap-around. */
module RingQueue {
  import opened Fleet

  /** What pushing onto a queue of bounded capacity does. */
  function Pushed<T>(q: seq<T>, capacity: nat, value: T): seq<T> {
    if |q| < capacity then q + [value] else q
  }

  class FixedRingQueue<T(0)> {
    const storage: array<T>
    var head: nat
    var tail: nat
    var count: nat

    ghost predicate Valid()
      reads this
    {
      && count <= storage.Length
      && (if storage.Length == 0 then head == 0 && tail == 0
          else head < storage.Length && tail == Wrap(head + count))
    }

    ghost function Wrap(i: nat): int { if i < storage.Length then i else i - storage.Length }

    /** The queued values, oldest first. */
    ghost function Contents(): (q: seq<T>)
      reads this, storage
      requires Valid()
      ensures |q| == count
    {
      if head + count <= storage.Length then storage[head..head + count]
      else storage[head..] + storage[..head + count - storage.Length]
    }

    ghost function Capacity(): nat { storage.Length }

    constructor (capacity: nat)
      ensures Valid() && fresh(storage) && Capacity() == capacity && Contents() == []
    {
      storage := new T[capacity];
      head, tail, count := 0, 0, 0;
    }

    method TryPush(value: T) returns (ok: bool)
      requires Valid()
      modifies this, storage
      ensures Valid()
      ensures ok <==> |old(Contents())| < Capacity()
      ensures Contents() == Pushed(old(Contents()), Capacity(), value)
    {
      if count == storage.Length {
        return false;
      }
      storage[tail] := value;
      tail := Next(tail);
      count := count + 1;
      ok := true;
    }

    method TryPop() returns (r: Option<T>)
      requires Valid()
      modifies this
      ensures Valid()
      ensures r == if old(Contents()) == [] then None else Some(old(Contents())[0])
      ensures Contents() == if old(Contents()) == [] then [] else old(Contents())[1..]
    {
      if count == 0 {
        return None;
      }
      r := Some(storage[head]);
      head := Next(head);
      count := count - 1;
    }

    method Size() returns (n: nat)
      requires Valid()
      ensures n == |Contents()|
    {
      n := count;
    }

    function Next(index: nat): (n: nat)
      requires index < storage.Length
      ensures n < storage.Length
    {
      if index + 1 == storage.Length then 0 else index + 1
    }
  }
}
