/**
 Error detection of the packet checksum: what the register says about a message read as bits.
 Short bursts change it, and its parity is the parity of the message.
 */
module ErrorDetection {
  import opened Bits
  import opened Checksum

  /** The division, one message bit at a time. */
  function Feed(crc: Word, bits: seq<bool>): Word
    decreases |bits|
  {
    if bits == [] then crc else Feed(Shift(Xor(crc, [bits[0]] + Zeros(15))), bits[1..])
  }

  lemma {:induction false} FeedConcat(crc: Word, a: seq<bool>, b: seq<bool>)
    ensures Feed(crc, a + b) == Feed(Feed(crc, a), b)
    decreases |a|
  {
    hide Shift, Xor;
    if a == [] {
      assert a + b == b;
    } else {
      assert (a + b)[1..] == a[1..] + b;
      FeedConcat(Shift(Xor(crc, [a[0]] + Zeros(15))), a[1..], b);
    }
  }

  lemma {:induction false} FeedLinear(s: Word, t: Word, a: seq<bool>, b: seq<bool>)
    requires |a| == |b|
    ensures Feed(Xor(s, t), Xor(a, b)) == Xor(Feed(s, a), Feed(t, b))
    decreases |a|
  {
    hide Shift, Xor;
    if a != [] {
      var u, v := [a[0]] + Zeros(15), [b[0]] + Zeros(15);
      assert Xor(a, b)[1..] == Xor(a[1..], b[1..]);
      assert [Xor(a, b)[0]] + Zeros(15) == Xor(u, v);
      XorSwap(s, t, u, v);
      ShiftLinear(Xor(s, u), Xor(t, v));
      FeedLinear(Shift(Xor(s, u)), Shift(Xor(t, v)), a[1..], b[1..]);
    } else {
      assert Xor(a, b) == [];
    }
  }

  function Pad(bits: seq<bool>): Word
    requires |bits| <= 16
  {
    bits + Zeros(16 - |bits|)
  }

  /** Up to sixteen bits can be added to the register at once. */
  lemma {:induction false} FeedAtOnce(crc: Word, bits: seq<bool>)
    requires |bits| <= 16
    ensures Feed(crc, bits) == Shifts(Xor(crc, Pad(bits)), |bits|)
    decreases |bits|
  {
    hide Shift, Xor;
    if bits == [] {
      assert Pad(bits) == Zeros(16);
      XorZero(crc);
    } else {
      var top, rest := [bits[0]] + Zeros(15), [false] + bits[1..] + Zeros(16 - |bits|);
      var next := Shift(Xor(crc, top));
      FeedAtOnce(next, bits[1..]);
      assert Pad(bits) == Xor(top, rest);
      XorAssoc(crc, top, rest);
      ShiftLinear(Xor(crc, top), rest);
      ShiftPlain(rest);
      assert rest[1..] + [false] == Pad(bits[1..]);
    }
  }

  lemma ShiftPlain(crc: Word)
    requires !crc[0]
    ensures Shift(crc) == crc[1..] + [false]
  {
  }

  /** The bytewise checksum is the division fed with the message bits. */
  lemma {:induction false} CrcIsFeed(crc: Word, data: seq<Byte>)
    ensures Crc(crc, data) == Feed(crc, MessageBits(data))
    decreases |data|
  {
    hide Shift, Shifts, Xor, BitsOf;
    if data != [] {
      var d := ByteBits(data[0]);
      FeedConcat(crc, d, MessageBits(data[1..]));
      FeedAtOnce(crc, d);
      CrcIsFeed(Update(crc, data[0]), data[1..]);
    }
  }

  // ---------------------------------------------------------------------------------------------
  // Bursts
  // ---------------------------------------------------------------------------------------------

  /** The division step loses nothing: only the zero register steps to zero. */
  lemma ShiftNonZero(crc: Word)
    requires Shift(crc) == ZERO
    ensures crc == ZERO
  {
    forall i | 0 <= i < 16
      ensures !crc[i]
    {
      ShiftAt(crc, 15);
      if i > 0 {
        ShiftAt(crc, i - 1);
      }
    }
  }

  lemma {:induction false} ShiftsNonZero(crc: Word, n: nat)
    requires Shifts(crc, n) == ZERO
    ensures crc == ZERO
    decreases n
  {
    hide Shift;
    if n > 0 {
      ShiftsNonZero(Shift(crc), n - 1);
      ShiftNonZero(crc);
    }
  }

  lemma {:induction false} FeedZeros(crc: Word, n: nat)
    ensures Feed(crc, Zeros(n)) == Shifts(crc, n)
    decreases n
  {
    hide Shift, Xor;
    if n > 0 {
      assert Zeros(n)[1..] == Zeros(n - 1);
      assert [Zeros(n)[0]] + Zeros(15) == Zeros(16);
      XorZero(crc);
      FeedZeros(Shift(crc), n - 1);
    } else {
      assert Zeros(0) == [];
    }
  }

  /** A difference confined to sixteen consecutive bits, and not empty, leaves a non-zero register. */
  lemma BurstLeavesTrace(before: nat, middle: seq<bool>, after: nat)
    requires |middle| <= 16 && true in middle
    ensures Feed(ZERO, Zeros(before) + middle + Zeros(after)) != ZERO
  {
    hide Shift, Shifts, Xor, Feed;
    FeedConcat(ZERO, Zeros(before) + middle, Zeros(after));
    FeedConcat(ZERO, Zeros(before), middle);
    FeedZeros(ZERO, before);
    ShiftsZero(before);
    FeedAtOnce(ZERO, middle);
    XorZero(Pad(middle));
    var crc := Shifts(Pad(middle), |middle|);
    FeedZeros(crc, after);
    var i :| 0 <= i < |middle| && middle[i];
    assert Pad(middle)[i];
    if Shifts(crc, after) == ZERO {
      ShiftsNonZero(crc, after);
      ShiftsNonZero(Pad(middle), |middle|);
    }
  }

  /** Bits that differ between two equally long bit strings all lie in [from, from + width). */
  ghost predicate Confined(a: seq<bool>, b: seq<bool>, from: int, width: nat)
    requires |a| == |b|
  {
    forall i :: 0 <= i < |a| && a[i] != b[i] ==> from <= i < from + width
  }

  lemma BitBurstLeavesTrace(x: seq<bool>, y: seq<bool>, from: int)
    requires |x| == |y| && x != y && Confined(x, y, from, 16)
    ensures Feed(ZERO, Xor(x, y)) != ZERO
  {
    hide Xor, Feed, Shift, Shifts;
    var e := Xor(x, y);
    var lo := if from < 0 then 0 else if from <= |e| then from else |e|;
    var hi := if from + 16 < 0 then 0 else if from + 16 <= |e| then from + 16 else |e|;
    var i :| 0 <= i < |x| && x[i] != y[i];
    assert e[lo..hi][i - lo];
    assert e == Zeros(lo) + e[lo..hi] + Zeros(|e| - hi);
    BurstLeavesTrace(lo, e[lo..hi], |e| - hi);
  }

  /** Burst detection: two messages that differ, but only within sixteen bits, have different checksums. */
  lemma BurstDetected(a: seq<Byte>, b: seq<Byte>, from: int)
    requires |a| == |b| && a != b
    requires Confined(MessageBits(a), MessageBits(b), from, 16)
    ensures Crc(ZERO, a) != Crc(ZERO, b)
  {
    hide Shift, Shifts, Feed, MessageBits, Crc, Xor, Confined;
    var x, y := MessageBits(a), MessageBits(b);
    MessageBitsInjective(a, b);
    BitBurstLeavesTrace(x, y, from);
    CrcIsFeed(ZERO, a);
    CrcIsFeed(ZERO, b);
    XorZero(ZERO);
    FeedLinear(ZERO, ZERO, x, y);
    XorSelf(Crc(ZERO, a));
  }

  // ---------------------------------------------------------------------------------------------
  // Parity
  // ---------------------------------------------------------------------------------------------

  function Ones(bits: seq<bool>): nat {
    if bits == [] then 0 else (if bits[0] then 1 else 0) + Ones(bits[1..])
  }

  predicate OddOnes(bits: seq<bool>) {
    Ones(bits) % 2 == 1
  }

  lemma {:induction false} OnesConcat(a: seq<bool>, b: seq<bool>)
    ensures Ones(a + b) == Ones(a) + Ones(b)
  {
    if a == [] {
      assert a + b == b;
    } else {
      assert (a + b)[1..] == a[1..] + b;
      OnesConcat(a[1..], b);
    }
  }

  lemma {:induction false} OddXor(a: seq<bool>, b: seq<bool>)
    requires |a| == |b|
    ensures OddOnes(Xor(a, b)) == (OddOnes(a) != OddOnes(b))
  {
    hide Xor;
    if a == [] {
      assert Xor(a, b) == [];
    } else {
      assert Xor(a, b)[1..] == Xor(a[1..], b[1..]);
      OddXor(a[1..], b[1..]);
    }
  }

  lemma {:induction false} OnesZeros(n: nat)
    ensures Ones(Zeros(n)) == 0
  {
    if n > 0 {
      assert Zeros(n)[1..] == Zeros(n - 1);
      OnesZeros(n - 1);
    }
  }

  /** The generator has an even number of terms, so a division step keeps the parity. */
  lemma ShiftParity(crc: Word)
    ensures OddOnes(Shift(crc)) == OddOnes(crc)
  {
    hide Xor, POLY;
    OneMore(crc[1..]);
    PolyIsOdd();
    OddXor(Shl(crc), POLY);
  }

  lemma PolyIsOdd()
    ensures OddOnes(POLY)
  {
    hide Ones;
    assert POLY == Zeros(3) + [true] + Zeros(6) + [true] + Zeros(4) + [true];
    OneMore(Zeros(3));
    OnesConcat(Zeros(3) + [true], Zeros(6));
    OneMore(Zeros(3) + [true] + Zeros(6));
    OnesConcat(Zeros(3) + [true] + Zeros(6) + [true], Zeros(4));
    OneMore(Zeros(3) + [true] + Zeros(6) + [true] + Zeros(4));
    OnesZeros(3);
    OnesZeros(6);
    OnesZeros(4);
  }

  lemma OneMore(a: seq<bool>)
    ensures Ones(a + [true]) == Ones(a) + 1
    ensures Ones(a + [false]) == Ones(a)
  {
    OnesConcat(a, [true]);
    OnesConcat(a, [false]);
    assert [true][1..] == [] && [false][1..] == [];
  }

  lemma {:induction false} FeedParity(crc: Word, bits: seq<bool>)
    ensures OddOnes(Feed(crc, bits)) == (OddOnes(crc) != OddOnes(bits))
    decreases |bits|
  {
    hide Shift, Xor;
    if bits != [] {
      var top := [bits[0]] + Zeros(15);
      assert top[1..] == Zeros(15);
      OnesZeros(15);
      OddXor(crc, top);
      ShiftParity(Xor(crc, top));
      FeedParity(Shift(Xor(crc, top)), bits[1..]);
    }
  }

  /** The parity of a checksum is the parity of its message. */
  lemma CrcParity(data: seq<Byte>)
    ensures OddOnes(Crc(ZERO, data)) == OddOnes(MessageBits(data))
  {
    hide Crc, Feed, Ones;
    CrcIsFeed(ZERO, data);
    FeedParity(ZERO, MessageBits(data));
    OnesZeros(16);
  }

  /** Number of bits in which two byte strings of the same length differ. */
  function Flips(a: seq<Byte>, b: seq<Byte>): nat
    requires |a| == |b|
  {
    Ones(Xor(MessageBits(a), MessageBits(b)))
  }

  lemma FlipsParity(a: seq<Byte>, b: seq<Byte>)
    requires |a| == |b|
    ensures (Flips(a, b) % 2 == 1) == (OddOnes(MessageBits(a)) != OddOnes(MessageBits(b)))
  {
    hide Xor, Ones, MessageBits;
    OddXor(MessageBits(a), MessageBits(b));
  }
}
