/**
 Unsigned machine words, and the bits they stand for (most significant first). A byte is a number
 below 256; a word of n bits is also handled as the sequence of its n bits, so that exclusive or and
 shifts work bit by bit, and a string of bytes is one sequence of bits.
 */
module Bits {

  type Byte = n: nat | n < 256

  function Pow2(n: nat): (p: nat)
    ensures p > 0
  {
    if n == 0 then 1 else 2 * Pow2(n - 1)
  }

  /** The low `len` bits of `n`, most significant first. */
  function BitsOf(n: nat, len: nat): (bits: seq<bool>)
    ensures |bits| == len
  {
    if len == 0 then [] else BitsOf(n / 2, len - 1) + [n % 2 == 1]
  }

  /** The number whose binary digits are `bits`. */
  function Num(bits: seq<bool>): (n: nat)
    ensures n < Pow2(|bits|)
  {
    if bits == [] then 0
    else 2 * Num(bits[..|bits| - 1]) + (if bits[|bits| - 1] then 1 else 0)
  }

  /** Bitwise exclusive or. */
  function Xor(a: seq<bool>, b: seq<bool>): (c: seq<bool>)
    requires |a| == |b|
    ensures |c| == |a|
    ensures forall i :: 0 <= i < |a| ==> c[i] == (a[i] != b[i])
  {
    seq(|a|, i requires 0 <= i < |a| => a[i] != b[i])
  }

  function Zeros(n: nat): (z: seq<bool>)
    ensures |z| == n
    ensures forall i :: 0 <= i < n ==> !z[i]
  {
    seq(n, _ => false)
  }

  lemma XorAssoc(a: seq<bool>, b: seq<bool>, c: seq<bool>)
    requires |a| == |b| == |c|
    ensures Xor(Xor(a, b), c) == Xor(a, Xor(b, c))
  {
  }

  lemma XorComm(a: seq<bool>, b: seq<bool>)
    requires |a| == |b|
    ensures Xor(a, b) == Xor(b, a)
  {
  }

  lemma XorZero(a: seq<bool>)
    ensures Xor(a, Zeros(|a|)) == a
    ensures Xor(Zeros(|a|), a) == a
  {
  }

  lemma XorSelf(a: seq<bool>)
    ensures Xor(a, a) == Zeros(|a|)
  {
  }

  /** The middle terms of a four-term sum may change places. */
  lemma XorSwap(a: seq<bool>, b: seq<bool>, c: seq<bool>, d: seq<bool>)
    requires |a| == |b| == |c| == |d|
    ensures Xor(Xor(a, b), Xor(c, d)) == Xor(Xor(a, c), Xor(b, d))
  {
  }

  /** Reading the bits of a number that fits gives the number. */
  lemma {:induction false} NumOfBits(n: nat, len: nat)
    requires n < Pow2(len)
    ensures Num(BitsOf(n, len)) == n
  {
    if len > 0 {
      NumOfBits(n / 2, len - 1);
      assert BitsOf(n, len)[..len - 1] == BitsOf(n / 2, len - 1);
    }
  }

  /** Bits written as a number and read back are the same bits. */
  lemma {:induction false} BitsOfNum(bits: seq<bool>)
    ensures BitsOf(Num(bits), |bits|) == bits
  {
    if bits != [] {
      BitsOfNum(bits[..|bits| - 1]);
    }
  }

  lemma Pow2Byte()
    ensures Pow2(8) == 256
    ensures Pow2(16) == 0x1_0000
    ensures Pow2(32) == 0x1_0000_0000
  {
    assert Pow2(4) == 16;
    assert Pow2(8) == 256;
    assert Pow2(12) == 0x1000;
    assert Pow2(16) == 0x1_0000;
    assert Pow2(20) == 0x10_0000;
    assert Pow2(24) == 0x100_0000;
    assert Pow2(28) == 0x1000_0000;
  }

  /** The eight bits of a byte. */
  function ByteBits(b: Byte): (bits: seq<bool>)
    ensures |bits| == 8
  {
    BitsOf(b, 8)
  }

  /** The byte with these eight bits. */
  function ByteNum(bits: seq<bool>): (b: Byte)
    requires |bits| == 8
  {
    Pow2Byte();
    Num(bits)
  }

  lemma ByteRoundTrip(b: Byte)
    ensures ByteNum(ByteBits(b)) == b
  {
    Pow2Byte();
    NumOfBits(b, 8);
  }

  lemma ByteBitsOfNum(bits: seq<bool>)
    requires |bits| == 8
    ensures ByteBits(ByteNum(bits)) == bits
  {
    BitsOfNum(bits);
  }

  /** The low eight bits of a number, as a cast to `uint8_t` keeps them. */
  function Low8(n: nat): Byte {
    n % 256
  }

  // ---------------------------------------------------------------------------------------------
  // Byte strings as bit strings
  // ---------------------------------------------------------------------------------------------

  /** All bits of a message in the order the checksum consumes them. */
  function MessageBits(data: seq<Byte>): (bits: seq<bool>)
    ensures |bits| == 8 * |data|
  {
    if data == [] then [] else ByteBits(data[0]) + MessageBits(data[1..])
  }

  lemma {:induction false} MessageBitsConcat(a: seq<Byte>, b: seq<Byte>)
    ensures MessageBits(a + b) == MessageBits(a) + MessageBits(b)
  {
    hide BitsOf;
    if a == [] {
      assert a + b == b;
    } else {
      assert (a + b)[1..] == a[1..] + b;
      MessageBitsConcat(a[1..], b);
    }
  }

  lemma {:induction false} MessageBitsInjective(a: seq<Byte>, b: seq<Byte>)
    requires |a| == |b| && a != b
    ensures MessageBits(a) != MessageBits(b)
    decreases |a|
  {
    hide BitsOf, Num;
    assert MessageBits(a)[..8] == ByteBits(a[0]) && MessageBits(b)[..8] == ByteBits(b[0]);
    assert MessageBits(a)[8..] == MessageBits(a[1..]) && MessageBits(b)[8..] == MessageBits(b[1..]);
    if a[0] != b[0] {
      ByteRoundTrip(a[0]);
      ByteRoundTrip(b[0]);
    } else {
      assert a[1..] != b[1..] by {
        assert a == [a[0]] + a[1..] && b == [b[0]] + b[1..];
      }
      MessageBitsInjective(a[1..], b[1..]);
    }
  }

  /** Bit i of a byte string is bit i % 8 of byte i / 8. */
  lemma {:induction false} MessageBitsAt(data: seq<Byte>, i: nat)
    requires i < 8 * |data|
    ensures MessageBits(data)[i] == ByteBits(data[i / 8])[i % 8]
  {
    hide BitsOf;
    if i >= 8 {
      MessageBitsAt(data[1..], i - 8);
    }
  }

  /** Replacing a byte replaces its eight bits. */
  lemma MessageBitsUpdate(data: seq<Byte>, j: nat, b: Byte)
    requires j < |data|
    ensures MessageBits(data[j := b]) ==
            MessageBits(data)[..8 * j] + ByteBits(b) + MessageBits(data)[8 * j + 8..]
  {
    hide MessageBits, BitsOf;
    var x, y := MessageBits(data), MessageBits(data[j := b]);
    forall i | 0 <= i < 8 * |data|
      ensures y[i] == (x[..8 * j] + ByteBits(b) + x[8 * j + 8..])[i]
    {
      MessageBitsAt(data, i);
      MessageBitsAt(data[j := b], i);
    }
  }

  // ---------------------------------------------------------------------------------------------
  // Shifts and masks on unsigned numbers
  // ---------------------------------------------------------------------------------------------

  /** `n >> k`: k halvings. */
  function Shr(n: nat, k: nat): nat
    decreases k
  {
    if k == 0 then n else Shr(n / 2, k - 1)
  }

  /** A right shift leaves nothing exactly when the number fits in the bits shifted out. */
  lemma {:induction false} ShrZero(n: nat, k: nat)
    ensures Shr(n, k) == 0 <==> n < Pow2(k)
    decreases k
  {
    if k > 0 {
      ShrZero(n / 2, k - 1);
    }
  }

  /** Bit k of a word is the lowest bit after the bits below it are shifted out. */
  lemma {:induction false} BitByShift(n: nat, len: nat, k: nat)
    requires k < len
    ensures BitsOf(n, len)[k] == (Shr(n, len - 1 - k) % 2 == 1)
    decreases len
  {
    if k < len - 1 {
      BitByShift(n / 2, len - 1, k);
    }
  }

  /** The upper bits of a word are the bits of the shifted word. */
  lemma {:induction false} BitsOfShr(n: nat, len: nat, m: nat)
    requires m <= len
    ensures BitsOf(n, len)[..len - m] == BitsOf(Shr(n, m), len - m)
    decreases m
  {
    if m > 0 {
      BitsOfShr(n / 2, len - 1, m - 1);
      assert BitsOf(n, len)[..len - m] == BitsOf(n / 2, len - 1)[..len - m];
    }
  }

  /** Bits above the length do not matter. */
  lemma {:induction false} BitsOfPlus(n: nat, q: nat, k: nat)
    ensures BitsOf(n + Pow2(k) * q, k) == BitsOf(n, k)
    decreases k
  {
    if k > 0 {
      var t := Pow2(k - 1) * q;
      assert Pow2(k) * q == 2 * t;
      BitsOfPlus(n / 2, q, k - 1);
      assert (n + 2 * t) / 2 == n / 2 + t && (n + 2 * t) % 2 == n % 2;
    }
  }

  lemma BitsOfLow8(n: nat)
    ensures BitsOf(n, 8) == ByteBits(Low8(n))
  {
    hide BitsOf, Pow2;
    Pow2Byte();
    BitsOfPlus(n % 256, n / 256, 8);
    assert Pow2(8) * (n / 256) == 256 * (n / 256);
    assert n == n % 256 + 256 * (n / 256);
  }

  /** Splitting a word: the upper bits, then the lower ones. */
  lemma {:induction false} BitsOfSplit(n: nat, a: nat, b: nat)
    ensures BitsOf(n, a + b) == BitsOf(Shr(n, b), a) + BitsOf(n, b)
    decreases b
  {
    if b > 0 {
      BitsOfSplit(n / 2, a, b - 1);
      assert BitsOf(n, a + b) == (BitsOf(Shr(n / 2, b - 1), a) + BitsOf(n / 2, b - 1)) + [n % 2 == 1];
    } else {
      assert BitsOf(n, 0) == [];
    }
  }

  lemma {:induction false} NumZeros(n: nat)
    ensures Num(Zeros(n)) == 0
  {
    if n > 0 {
      assert Zeros(n)[..n - 1] == Zeros(n - 1);
      NumZeros(n - 1);
    }
  }

  /** Appending a byte to a number's digits. */
  lemma NumAppendByte(a: seq<bool>, b: Byte)
    ensures Num(a + ByteBits(b)) == 256 * Num(a) + b
  {
    NumConcat(a, ByteBits(b));
    Pow2Byte();
    NumOfBits(b, 8);
  }

  lemma {:induction false} NumConcat(a: seq<bool>, b: seq<bool>)
    ensures Num(a + b) == Pow2(|b|) * Num(a) + Num(b)
    decreases |b|
  {
    if b == [] {
      assert a + b == a;
    } else {
      var last := |b| - 1;
      var x := Pow2(last) * Num(a);
      NumConcat(a, b[..last]);
      assert (a + b)[..|a| + last] == a + b[..last];
      assert (a + b)[|a| + last] == b[last];
      assert Num(a + b) == 2 * (x + Num(b[..last])) + (if b[last] then 1 else 0);
      Twice(Pow2(last), Num(a));
    }
  }

  lemma Twice(p: nat, n: nat)
    ensures 2 * p * n == 2 * (p * n)
  {
  }

  function OrByte(a: Byte, b: Byte): Byte {
    ByteNum(seq(8, i requires 0 <= i < 8 => ByteBits(a)[i] || ByteBits(b)[i]))
  }

  function AndNotByte(a: Byte, b: Byte): Byte {
    ByteNum(seq(8, i requires 0 <= i < 8 => ByteBits(a)[i] && !ByteBits(b)[i]))
  }

  /** A power of two has a single bit set. */
  lemma {:induction false} OneHot(j: nat, len: nat)
    requires j < len
    ensures BitsOf(Pow2(j), len) == Zeros(len)[len - 1 - j := true]
    decreases len
  {
    if j > 0 {
      OneHot(j - 1, len - 1);
      assert Zeros(len)[len - 1 - j := true] == Zeros(len - 1)[len - 1 - j := true] + [false];
    } else {
      BitsOfZero(len - 1);
      assert Pow2(0) / 2 == 0;
      assert Zeros(len)[len - 1 := true] == Zeros(len - 1) + [true];
    }
  }

  lemma {:induction false} BitsOfZero(len: nat)
    ensures BitsOf(0, len) == Zeros(len)
  {
    if len > 0 {
      BitsOfZero(len - 1);
      assert Zeros(len) == Zeros(len - 1) + [false];
    }
  }

  // ---------------------------------------------------------------------------------------------
  // Big-endian integers
  // ---------------------------------------------------------------------------------------------

  /** Two bytes read most significant first. */
  function U16Be(hi: Byte, lo: Byte): (n: nat)
    ensures n < 0x1_0000
  {
    256 * hi + lo
  }

  /** Four bytes read most significant first. */
  function U32Be(b0: Byte, b1: Byte, b2: Byte, b3: Byte): (n: nat)
    ensures n < 0x1_0000_0000
  {
    0x100_0000 * b0 + 0x1_0000 * b1 + 256 * b2 + b3
  }

  /** A number is made of its big-endian bytes. */
  lemma Digits(n: nat)
    ensures n < 256 ==> Low8(n) == n
    ensures n < 0x1_0000 ==> U16Be(Low8(n / 256), Low8(n)) == n
    ensures n < 0x1_0000_0000 ==>
              U32Be(Low8(n / 0x100_0000), Low8(n / 0x1_0000), Low8(n / 256), Low8(n)) == n
  {
    assert n / 0x1_0000 == (n / 256) / 256;
    assert n / 0x100_0000 == (n / 0x1_0000) / 256;
  }
}
