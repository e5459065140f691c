/**
 Big-endian bit fields of 1 to 32 bits at any bit offset of a byte buffer. A buffer is read as the
 string of its bits; reading takes a window of that string, writing replaces one.
 */
module CodecBit {
  import opened Bits
  import opened Fleet

  /** Is [offset, offset + len) a window the codec accepts in a buffer of `size` bytes? */
  predicate InRange(size: nat, offset: nat, len: nat) {
    1 <= len <= 32 && offset + len <= 8 * size
  }

  /** The bits of a window. */
  function Window(data: seq<Byte>, offset: nat, len: nat): (w: seq<bool>)
    requires InRange(|data|, offset, len)
    ensures |w| == len
  {
    MessageBits(data)[offset..offset + len]
  }

  /** `bits` with the window at `offset` replaced by `w`. */
  function Splice(bits: seq<bool>, offset: nat, w: seq<bool>): (r: seq<bool>)
    requires offset + |w| <= |bits|
    ensures |r| == |bits|
  {
    bits[..offset] + w + bits[offset + |w|..]
  }

  // ---------------------------------------------------------------------------------------------
  // Generic paths
  // ---------------------------------------------------------------------------------------------

  method ReadU32Be(bytes: array?<Byte>, offset: nat, len: nat) returns (r: Result<nat>)
    ensures r.Success? <==> bytes != null && InRange(bytes.Length, offset, len)
    ensures r.Failure? ==> r.error == InvalidArgument
    ensures r.Success? ==> r.value == Num(Window(bytes[..], offset, len))
  {
    if bytes == null || len == 0 || len > 32 || offset + len > bytes.Length * 8 {
      return Failure(InvalidArgument);
    }
    if offset % 8 == 0 && len % 8 == 0 {
      var value := ReadWholeBytes(bytes, offset, len);
      return Success(value);
    }
    var value := ReadBits(bytes, offset, len);
    r := Success(value);
  }

  method ReadWholeBytes(bytes: array<Byte>, offset: nat, len: nat) returns (value: nat)
    requires InRange(bytes.Length, offset, len) && offset % 8 == 0 && len % 8 == 0
    ensures value == Num(Window(bytes[..], offset, len))
  {
    hide Num, ByteBits, MessageBits, Pow2;
    var start := offset / 8;
    ghost var bits := MessageBits(bytes[..]);
    value := 0;
    NumEmpty(bits[offset..offset]);
    for i := 0 to len / 8
      invariant value == Num(bits[offset..offset + 8 * i])
    {
      NumFits(bits[offset..offset + 8 * i]);
      WindowByte(bytes[..], start + i);
      NumAppendByte(bits[offset..offset + 8 * i], bytes[start + i]);
      assert bits[offset..offset + 8 * i] + ByteBits(bytes[start + i]) == bits[offset..offset + 8 * (i + 1)];
      value := (value * 256) % 0x1_0000_0000 + bytes[start + i];
    }
  }

  method ReadBits(bytes: array<Byte>, offset: nat, len: nat) returns (value: nat)
    requires InRange(bytes.Length, offset, len)
    ensures value == Num(Window(bytes[..], offset, len))
  {
    hide Num, BitsOf, MessageBits, Pow2;
    ghost var bits := MessageBits(bytes[..]);
    value := 0;
    NumEmpty(bits[offset..offset]);
    for i := 0 to len
      invariant value == Num(bits[offset..offset + i])
    {
      var bit := offset + i;
      var b := bytes[bit / 8];
      var shift := 7 - bit % 8;
      MessageBitsAt(bytes[..], bit);
      BitByShift(b, 8, bit % 8);
      NumFits(bits[offset..offset + i]);
      NumAppend(bits[offset..offset + i], bits[bit]);
      assert bits[offset..offset + i] + [bits[bit]] == bits[offset..offset + i + 1];
      value := (value * 2) % 0x1_0000_0000 + Shr(b, shift) % 2;
    }
  }

  lemma NumEmpty(w: seq<bool>)
    requires w == []
    ensures Num(w) == 0
  {
  }

  /** Fewer than 32 bits leave room for another shift in a 32-bit register. */
  lemma NumFits(w: seq<bool>)
    ensures |w| < 32 ==> Num(w) * 2 < 0x1_0000_0000
    ensures |w| <= 24 ==> Num(w) * 256 < 0x1_0000_0000
  {
    Pow2Byte();
    if |w| < 32 {
      Pow2Monotone(|w|, 31);
      assert Pow2(32) == 2 * Pow2(31);
    }
    if |w| <= 24 {
      Pow2Monotone(|w|, 24);
      assert Pow2(20) == 0x10_0000 && Pow2(24) == 0x100_0000;
    }
  }

  lemma {:induction false} Pow2Monotone(a: nat, b: nat)
    requires a <= b
    ensures Pow2(a) <= Pow2(b)
    decreases b
  {
    if a < b {
      Pow2Monotone(a, b - 1);
    }
  }

  lemma NumAppend(w: seq<bool>, b: bool)
    ensures Num(w + [b]) == 2 * Num(w) + (if b then 1 else 0)
  {
    assert (w + [b])[..|w|] == w;
  }

  lemma {:induction false} WindowByte(data: seq<Byte>, j: nat)
    requires j < |data|
    ensures MessageBits(data)[8 * j..8 * j + 8] == ByteBits(data[j])
  {
    hide BitsOf;
    if j > 0 {
      WindowByte(data[1..], j - 1);
      assert MessageBits(data)[8 * j..8 * j + 8] == MessageBits(data[1..])[8 * (j - 1)..8 * (j - 1) + 8];
    }
  }

  /** Writes a field; a failure leaves the buffer untouched. */
  method WriteU32Be(bytes: array?<Byte>, offset: nat, len: nat, value: nat) returns (e: Err)
    requires value < 0x1_0000_0000
    modifies bytes
    ensures e == Ok <==> bytes != null && InRange(bytes.Length, offset, len) && value < Pow2(len)
    ensures e != Ok ==> e == InvalidArgument && (bytes != null ==> bytes[..] == old(bytes[..]))
    ensures e == Ok ==>
              MessageBits(bytes[..]) == Splice(old(MessageBits(bytes[..])), offset, BitsOf(value, len))
  {
    if bytes == null || len == 0 || len > 32 || offset + len > bytes.Length * 8 {
      return InvalidArgument;
    }
    ShrZero(value, len);
    Pow2Byte();
    if len < 32 && Shr(value, len) != 0 {
      return InvalidArgument;
    }
    if offset % 8 == 0 && len % 8 == 0 {
      WriteWholeBytes(bytes, offset, len, value);
      return Ok;
    }
    WriteBits(bytes, offset, len, value);
    e := Ok;
  }

  method WriteWholeBytes(bytes: array<Byte>, offset: nat, len: nat, value: nat)
    requires InRange(bytes.Length, offset, len) && offset % 8 == 0 && len % 8 == 0
    modifies bytes
    ensures MessageBits(bytes[..]) == Splice(old(MessageBits(bytes[..])), offset, BitsOf(value, len))
  {
    hide BitsOf, MessageBits, Shr, ByteBits, Splice;
    var start := offset / 8;
    ghost var before := MessageBits(bytes[..]);
    ghost var w := BitsOf(value, len);
    SpliceNothing(before, offset, w);
    for i := 0 to len / 8
      invariant MessageBits(bytes[..]) == Splice(before, offset, w[..8 * i])
    {
      var shift := len - 8 - i * 8;
      ghost var was := bytes[..];
      bytes[start + i] := Low8(Shr(value, shift));
      assert bytes[..] == was[start + i := Low8(Shr(value, shift))];
      MessageBitsUpdate(was, start + i, Low8(Shr(value, shift)));
      ByteOfValue(value, len, i);
      SpliceMore(before, offset, w, 8 * i, 8);
    }
    assert w[..len] == w;
  }

  /** Byte i of a field, counted from the top, is the value shifted down and truncated. */
  lemma ByteOfValue(value: nat, len: nat, i: nat)
    requires 8 * i + 8 <= len
    ensures BitsOf(value, len)[8 * i..8 * i + 8] == ByteBits(Low8(Shr(value, len - 8 - 8 * i)))
  {
    hide BitsOf, Shr, ByteBits;
    var m := len - 8 - 8 * i;
    BitsOfShr(value, len, m);
    BitsOfSplit(Shr(value, m), 8 * i, 8);
    BitsOfLow8(Shr(value, m));
    assert BitsOf(value, len)[8 * i..8 * i + 8] == BitsOf(value, len)[..len - m][8 * i..];
  }

  lemma SpliceNothing(bits: seq<bool>, offset: nat, w: seq<bool>)
    requires offset <= |bits|
    ensures Splice(bits, offset, w[..0]) == bits
  {
  }

  /** Extending a spliced prefix of `w` by its next n bits. */
  lemma SpliceMore(bits: seq<bool>, offset: nat, w: seq<bool>, i: nat, n: nat)
    requires i + n <= |w| && offset + |w| <= |bits|
    ensures Splice(bits, offset, w[..i])[..offset + i] + w[i..i + n] + Splice(bits, offset, w[..i])[offset + i + n..] ==
            Splice(bits, offset, w[..i + n])
  {
  }

  method WriteBits(bytes: array<Byte>, offset: nat, len: nat, value: nat)
    requires InRange(bytes.Length, offset, len)
    modifies bytes
    ensures MessageBits(bytes[..]) == Splice(old(MessageBits(bytes[..])), offset, BitsOf(value, len))
  {
    hide BitsOf, MessageBits, Shr, Splice;
    ghost var before := MessageBits(bytes[..]);
    ghost var w := BitsOf(value, len);
    SpliceNothing(before, offset, w);
    for i := 0 to len
      invariant MessageBits(bytes[..]) == Splice(before, offset, w[..i])
    {
      var on := Shr(value, len - 1 - i) % 2 == 1;
      BitByShift(value, len, i);
      PutBit(bytes, offset + i, on);
      assert w[i..i + 1] == [on];
      SpliceMore(before, offset, w, i, 1);
    }
    assert w[..len] == w;
  }

  /** Sets or clears one bit through a mask. */
  method PutBit(bytes: array<Byte>, bit: nat, on: bool)
    requires bit < 8 * bytes.Length
    modifies bytes
    ensures MessageBits(bytes[..]) ==
            old(MessageBits(bytes[..])[..bit]) + [on] + old(MessageBits(bytes[..])[bit + 1..])
  {
    hide MessageBits, OrByte, AndNotByte, Pow2;
    MaskFits(bit % 8);
    var mask := Pow2(7 - bit % 8);
    ghost var was := bytes[..];
    if on {
      bytes[bit / 8] := OrByte(bytes[bit / 8], mask);
    } else {
      bytes[bit / 8] := AndNotByte(bytes[bit / 8], mask);
    }
    assert bytes[..] == was[bit / 8 := bytes[bit / 8]];
    BitSet(was, bit, on);
  }

  lemma MaskFits(k: nat)
    requires k < 8
    ensures Pow2(7 - k) < 256
  {
    Pow2Byte();
    Pow2Monotone(7 - k, 7);
    assert Pow2(8) == 2 * Pow2(7);
  }

  /** Or-ing in a one-bit mask, or clearing it, gives that bit its value. */
  lemma MaskBit(b: Byte, k: nat, on: bool)
    requires k < 8
    ensures Pow2(7 - k) < 256
    ensures ByteBits(if on then OrByte(b, Pow2(7 - k)) else AndNotByte(b, Pow2(7 - k))) == ByteBits(b)[k := on]
  {
    hide BitsOf, Num;
    MaskFits(k);
    OneHot(7 - k, 8);
    var mask := ByteBits(Pow2(7 - k));
    ByteBitsOfNum(seq(8, i requires 0 <= i < 8 => ByteBits(b)[i] || mask[i]));
    ByteBitsOfNum(seq(8, i requires 0 <= i < 8 => ByteBits(b)[i] && !mask[i]));
  }

  lemma BitSet(data: seq<Byte>, bit: nat, on: bool)
    requires bit < 8 * |data|
    ensures Pow2(7 - bit % 8) < 256
    ensures var mask := Pow2(7 - bit % 8);
            var b := data[bit / 8];
            MessageBits(data[bit / 8 := if on then OrByte(b, mask) else AndNotByte(b, mask)]) ==
            MessageBits(data)[..bit] + [on] + MessageBits(data)[bit + 1..]
  {
    hide MessageBits, BitsOf, Pow2, OrByte, AndNotByte;
    var j, k := bit / 8, bit % 8;
    MaskBit(data[j], k, on);
    var mask := Pow2(7 - k);
    var b := if on then OrByte(data[j], mask) else AndNotByte(data[j], mask);
    MessageBitsUpdate(data, j, b);
    WindowByte(data, j);
    PointUpdate(MessageBits(data), 8 * j, k, on);
  }

  lemma PointUpdate(x: seq<bool>, lo: nat, k: nat, on: bool)
    requires k < 8 && lo + 8 <= |x|
    ensures x[..lo] + x[lo..lo + 8][k := on] + x[lo + 8..] == x[..lo + k] + [on] + x[lo + k + 1..]
  {
  }

  // ---------------------------------------------------------------------------------------------
  // Aligned fields and dispatch
  // ---------------------------------------------------------------------------------------------

  predicate AlignedField(offset: nat, len: nat) {
    offset % 8 == 0 && (len == 8 || len == 16 || len == 32)
  }

  /** The straight-line path for byte-aligned 8, 16 and 32 bit fields. */
  method ReadAligned(bytes: array<Byte>, offset: nat, len: nat) returns (r: Result<nat>)
    requires AlignedField(offset, len)
    ensures r.Success? <==> InRange(bytes.Length, offset, len)
    ensures r.Failure? ==> r.error == InvalidArgument
    ensures r.Success? ==> r.value == Num(Window(bytes[..], offset, len))
  {
    var j := offset / 8;
    if bytes.Length < j + len / 8 {
      return Failure(InvalidArgument);
    }
    AlignedWindow(bytes[..], j, len / 8);
    if len == 8 {
      r := Success(bytes[j]);
    } else if len == 16 {
      r := Success(U16Be(bytes[j], bytes[j + 1]));
    } else {
      r := Success(U32Be(bytes[j], bytes[j + 1], bytes[j + 2], bytes[j + 3]));
    }
  }

  /** The value of a whole number of bytes, most significant first. */
  function BigEndian(data: seq<Byte>): nat {
    if data == [] then 0 else 256 * BigEndian(data[..|data| - 1]) + data[|data| - 1]
  }

  lemma {:induction false} BigEndianBits(data: seq<Byte>)
    ensures Num(MessageBits(data)) == BigEndian(data)
  {
    hide MessageBits, Num, ByteBits;
    if data == [] {
      NumEmpty(MessageBits(data));
    } else {
      var last := |data| - 1;
      BigEndianBits(data[..last]);
      MessageBitsAppend(data[..last], data[last]);
      assert data[..last] + [data[last]] == data;
      NumAppendByte(MessageBits(data[..last]), data[last]);
    }
  }

  lemma MessageBitsAppend(data: seq<Byte>, b: Byte)
    ensures MessageBits(data + [b]) == MessageBits(data) + ByteBits(b)
  {
    hide ByteBits;
    MessageBitsConcat(data, [b]);
    assert [b][1..] == [];
    assert MessageBits([b]) == ByteBits(b);
  }

  lemma {:induction false} WindowOfBytes(data: seq<Byte>, j: nat, n: nat)
    requires j + n <= |data|
    ensures MessageBits(data)[8 * j..8 * (j + n)] == MessageBits(data[j..j + n])
  {
    hide MessageBits, BitsOf;
    assert data == data[..j] + data[j..j + n] + data[j + n..];
    MessageBitsConcat(data[..j] + data[j..j + n], data[j + n..]);
    MessageBitsConcat(data[..j], data[j..j + n]);
  }

  lemma BigEndianShown(d: seq<Byte>)
    requires |d| == 1 || |d| == 2 || |d| == 4
    ensures BigEndian(d) ==
            if |d| == 1 then d[0] else if |d| == 2 then U16Be(d[0], d[1]) else U32Be(d[0], d[1], d[2], d[3])
  {
    assert d[..|d|] == d;
    assert d[..1][..0] == [];
    assert BigEndian(d[..1]) == d[0];
    if |d| >= 2 {
      assert d[..2][..1] == d[..1];
      assert BigEndian(d[..2]) == U16Be(d[0], d[1]);
    }
    if |d| == 4 {
      assert d[..3][..2] == d[..2];
      assert BigEndian(d[..3]) == 256 * U16Be(d[0], d[1]) + d[2];
      assert d[..4][..3] == d[..3];
    }
  }

  lemma AlignedWindow(data: seq<Byte>, j: nat, n: nat)
    requires (n == 1 || n == 2 || n == 4) && j + n <= |data|
    ensures Num(MessageBits(data)[8 * j..8 * j + 8 * n]) ==
            if n == 1 then data[j] else if n == 2 then U16Be(data[j], data[j + 1])
            else U32Be(data[j], data[j + 1], data[j + 2], data[j + 3])
  {
    hide MessageBits, Num, BigEndian;
    WindowOfBytes(data, j, n);
    var d := data[j..j + n];
    BigEndianBits(d);
    BigEndianShown(d);
    assert 8 * (j + n) == 8 * j + 8 * n;
  }

  /** The straight-line path for writing; of a value that is too large the low bits are stored. */
  method WriteAligned(bytes: array<Byte>, offset: nat, len: nat, raw: nat) returns (e: Err)
    requires AlignedField(offset, len)
    modifies bytes
    ensures e == Ok <==> InRange(bytes.Length, offset, len)
    ensures e != Ok ==> e == InvalidArgument && bytes[..] == old(bytes[..])
    ensures e == Ok ==>
              MessageBits(bytes[..]) == Splice(old(MessageBits(bytes[..])), offset, BitsOf(raw, len))
  {
    hide MessageBits, BitsOf, DigitsOf, Splice;
    var j := offset / 8;
    if bytes.Length < j + len / 8 {
      return InvalidArgument;
    }
    ghost var before := bytes[..];
    StoreDigits(bytes, j, len / 8, raw);
    DigitBits(raw, len / 8);
    AlignedSplice(before, bytes[..], j, len / 8, raw);
    e := Ok;
  }

  /** Stores one, two or four bytes, most significant first. */
  method StoreDigits(bytes: array<Byte>, j: nat, n: nat, raw: nat)
    requires (n == 1 || n == 2 || n == 4) && j + n <= bytes.Length
    modifies bytes
    ensures bytes[..j] == old(bytes[..j]) && bytes[j + n..] == old(bytes[j + n..])
    ensures bytes[j..j + n] == DigitsOf(raw, n)
  {
    hide Low8;
    if n == 1 {
      bytes[j] := Low8(raw);
    } else if n == 2 {
      bytes[j] := Low8(raw / 256);
      bytes[j + 1] := Low8(raw);
    } else {
      bytes[j] := Low8(raw / 0x100_0000);
      bytes[j + 1] := Low8(raw / 0x1_0000);
      bytes[j + 2] := Low8(raw / 256);
      bytes[j + 3] := Low8(raw);
    }
  }

  /** The last n base-256 digits of `raw`, for one, two or four of them. */
  function DigitsOf(raw: nat, n: nat): seq<Byte> {
    if n == 1 then [Low8(raw)]
    else if n == 2 then [Low8(raw / 256), Low8(raw)]
    else [Low8(raw / 0x100_0000), Low8(raw / 0x1_0000), Low8(raw / 256), Low8(raw)]
  }

  lemma DigitBits(raw: nat, n: nat)
    requires n == 1 || n == 2 || n == 4
    ensures MessageBits(DigitsOf(raw, n)) == BitsOf(raw, 8 * n)
  {
    hide MessageBits, BitsOf, Low8, Shr, ByteBits;
    ShrBytes(raw);
    forall i | 0 <= i < n
      ensures MessageBits(DigitsOf(raw, n))[8 * i..8 * i + 8] == BitsOf(raw, 8 * n)[8 * i..8 * i + 8]
    {
      ByteOfValue(raw, 8 * n, i);
      WindowByte(DigitsOf(raw, n), i);
    }
    SameByteByByte(MessageBits(DigitsOf(raw, n)), BitsOf(raw, 8 * n), n);
  }

  /** Shifting by whole bytes is dividing by powers of 256. */
  lemma ShrBytes(n: nat)
    ensures Shr(n, 0) == n && Shr(n, 8) == n / 256 && Shr(n, 16) == n / 0x1_0000 && Shr(n, 24) == n / 0x100_0000
  {
    hide Shr;
    EightHalvings(n);
    EightHalvings(n / 256);
    EightHalvings(n / 0x1_0000);
    ShrSplit(n, 8, 8);
    ShrSplit(n, 16, 8);
    assert n / 0x1_0000 == n / 256 / 256 && n / 0x100_0000 == n / 0x1_0000 / 256;
    NoShift(n);
  }

  lemma NoShift(n: nat)
    ensures Shr(n, 0) == n
  {
  }

  lemma EightHalvings(n: nat)
    ensures Shr(n, 8) == n / 256
  {
    assert Shr(n, 4) == n / 2 / 2 / 2 / 2;
    assert Shr(n / 16, 4) == n / 16 / 2 / 2 / 2 / 2;
    ShrSplit(n, 4, 4);
  }

  lemma {:induction false} ShrSplit(n: nat, a: nat, b: nat)
    ensures Shr(n, a + b) == Shr(Shr(n, a), b)
    decreases a
  {
    if a > 0 {
      ShrSplit(n / 2, a - 1, b);
    }
  }

  lemma SameByteByByte(x: seq<bool>, y: seq<bool>, n: nat)
    requires |x| == |y| == 8 * n
    requires forall i :: 0 <= i < n ==> x[8 * i..8 * i + 8] == y[8 * i..8 * i + 8]
    ensures x == y
  {
    forall k | 0 <= k < 8 * n
      ensures x[k] == y[k]
    {
      var i := k / 8;
      assert x[k] == x[8 * i..8 * i + 8][k % 8] && y[k] == y[8 * i..8 * i + 8][k % 8];
    }
  }

  /** Replacing whole bytes by the digits of `raw` splices its bits in. */
  lemma AlignedSplice(before: seq<Byte>, after: seq<Byte>, j: nat, n: nat, raw: nat)
    requires |before| == |after| && j + n <= |before| && n > 0
    requires after[..j] == before[..j] && after[j + n..] == before[j + n..]
    requires MessageBits(after[j..j + n]) == BitsOf(raw, 8 * n)
    ensures MessageBits(after) == Splice(MessageBits(before), 8 * j, BitsOf(raw, 8 * n))
  {
    hide MessageBits, BitsOf;
    Sandwich(before, j, n);
    Sandwich(after, j, n);
  }

  lemma Sandwich(data: seq<Byte>, j: nat, n: nat)
    requires j + n <= |data|
    ensures MessageBits(data) == MessageBits(data[..j]) + MessageBits(data[j..j + n]) + MessageBits(data[j + n..])
    ensures MessageBits(data)[..8 * j] == MessageBits(data[..j])
    ensures MessageBits(data)[8 * (j + n)..] == MessageBits(data[j + n..])
  {
    hide MessageBits;
    assert data == data[..j] + data[j..j + n] + data[j + n..];
    MessageBitsConcat(data[..j] + data[j..j + n], data[j + n..]);
    MessageBitsConcat(data[..j], data[j..j + n]);
  }

  /** `mask32`: the low `bits` bits set. */
  function Mask32(bits: nat): nat {
    if bits >= 32 then 0xFFFF_FFFF else Pow2(bits) - 1
  }

  /** The field reader used by the frame codec. */
  method Read(bytes: array<Byte>, offset: nat, len: nat) returns (r: Result<nat>)
    requires 1 <= len <= 32
    ensures r.Success? <==> InRange(bytes.Length, offset, len)
    ensures r.Failure? ==> r.error == InvalidArgument
    ensures r.Success? ==> r.value == Num(Window(bytes[..], offset, len))
  {
    if offset % 8 == 0 && (len == 8 || len == 16 || len == 32) {
      r := ReadAligned(bytes, offset, len);
    } else {
      r := ReadU32Be(bytes, offset, len);
    }
  }

  /** The field writer used by the frame codec. */
  method Write(bytes: array<Byte>, offset: nat, len: nat, raw: nat) returns (e: Err)
    requires 1 <= len <= 32 && raw < 0x1_0000_0000
    modifies bytes
    ensures e == Ok <==> InRange(bytes.Length, offset, len) && raw < Pow2(len)
    ensures e != Ok ==> e == InvalidArgument && bytes[..] == old(bytes[..])
    ensures e == Ok ==>
              MessageBits(bytes[..]) == Splice(old(MessageBits(bytes[..])), offset, BitsOf(raw, len))
  {
    Pow2Byte();
    if raw > Mask32(len) {
      return InvalidArgument;
    }
    if offset % 8 == 0 && (len == 8 || len == 16 || len == 32) {
      e := WriteAligned(bytes, offset, len, raw);
    } else {
      e := WriteU32Be(bytes, offset, len, raw);
    }
  }

  // ---------------------------------------------------------------------------------------------
  // Laws
  // ---------------------------------------------------------------------------------------------

  /** What a successful write leaves behind. */
  ghost predicate Written(before: seq<Byte>, after: seq<Byte>, offset: nat, len: nat, value: nat) {
    && |before| == |after|
    && InRange(|before|, offset, len) && value < Pow2(len)
    && MessageBits(after) == Splice(MessageBits(before), offset, BitsOf(value, len))
  }

  /** The buffer after a write is determined by the buffer before it: both code paths agree. */
  lemma WriteDetermined(before: seq<Byte>, a: seq<Byte>, b: seq<Byte>, offset: nat, len: nat, value: nat)
    requires Written(before, a, offset, len, value) && Written(before, b, offset, len, value)
    ensures a == b
  {
    hide MessageBits, BitsOf;
    if a != b {
      MessageBitsInjective(a, b);
    }
  }

  /** Read after write gives the value; every other bit is as before. */
  lemma ReadAfterWrite(before: seq<Byte>, after: seq<Byte>, offset: nat, len: nat, value: nat)
    requires Written(before, after, offset, len, value)
    ensures Num(Window(after, offset, len)) == value
    ensures forall i :: 0 <= i < 8 * |before| && !(offset <= i < offset + len) ==>
                          MessageBits(after)[i] == MessageBits(before)[i]
  {
    hide MessageBits, BitsOf, Num;
    NumOfBits(value, len);
    assert Window(after, offset, len) == BitsOf(value, len);
  }

  /** Writing back what was read changes nothing. */
  lemma WriteOfRead(before: seq<Byte>, after: seq<Byte>, offset: nat, len: nat)
    requires InRange(|before|, offset, len)
    requires Written(before, after, offset, len, Num(Window(before, offset, len)))
    ensures after == before
  {
    hide MessageBits, BitsOf, Num;
    BitsOfNum(Window(before, offset, len));
    assert MessageBits(after) == MessageBits(before);
    if after != before {
      MessageBitsInjective(after, before);
    }
  }

  /** A window that does not meet the written one reads as before. */
  lemma ReadElsewhere(before: seq<Byte>, after: seq<Byte>, offset: nat, len: nat, value: nat, o: nat, l: nat)
    requires Written(before, after, offset, len, value)
    requires InRange(|before|, o, l) && (o + l <= offset || offset + len <= o)
    ensures Num(Window(after, o, l)) == Num(Window(before, o, l))
  {
    hide MessageBits, BitsOf, Num;
    assert Window(after, o, l) == Window(before, o, l);
  }

  /** Writes to disjoint windows commute. */
  lemma WritesCommute(start: seq<Byte>, a: seq<Byte>, ab: seq<Byte>, b: seq<Byte>, ba: seq<Byte>,
                      o1: nat, l1: nat, v1: nat, o2: nat, l2: nat, v2: nat)
    requires o1 + l1 <= o2 || o2 + l2 <= o1
    requires Written(start, a, o1, l1, v1) && Written(a, ab, o2, l2, v2)
    requires Written(start, b, o2, l2, v2) && Written(b, ba, o1, l1, v1)
    ensures ab == ba
  {
    hide MessageBits, BitsOf;
    assert MessageBits(ab) == MessageBits(ba);
    if ab != ba {
      MessageBitsInjective(ab, ba);
    }
  }

  /** A second write to the same window hides the first. */
  lemma LastWriteWins(
      start: seq<Byte>, a: seq<Byte>, ab: seq<Byte>, b: seq<Byte>, offset: nat, len: nat, v: nat, w: nat)
    requires Written(start, a, offset, len, v) && Written(a, ab, offset, len, w)
    requires Written(start, b, offset, len, w)
    ensures ab == b
  {
    hide MessageBits, BitsOf;
    assert MessageBits(ab) == MessageBits(b);
    if ab != b {
      MessageBitsInjective(ab, b);
    }
  }

  // ---------------------------------------------------------------------------------------------
  // Fields as slices of one number
  // ---------------------------------------------------------------------------------------------

  /** How many bits of a buffer come after a window. */
  function Below(size: nat, offset: nat, len: nat): nat
    requires InRange(size, offset, len)
  {
    8 * size - offset - len
  }

  lemma Multiples(p: nat, d: int)
    ensures d >= 1 ==> p * d >= p
    ensures d <= -1 ==> p * d + p <= 0
  {
    if d >= 1 {
      assert p * d == p + p * (d - 1);
    } else if d <= -1 {
      assert p * d + p == p * (d + 1);
    }
  }

  /** Number, radix, remainder. */
  lemma DivisionUnique(q: nat, p: nat, r: nat)
    requires r < p
    ensures (p * q + r) / p == q && (p * q + r) % p == r
  {
    var n := p * q + r;
    var d := n / p - q;
    assert n == p * (n / p) + n % p;
    assert p * (n / p) - p * q == p * d;
    Multiples(p, d);
  }

  /** The buffer is one big-endian number, and a field is the digits of that number in its window. */
  lemma FieldIsSlice(data: seq<Byte>, offset: nat, len: nat)
    requires InRange(|data|, offset, len)
    ensures Num(Window(data, offset, len)) == BigEndian(data) / Pow2(Below(|data|, offset, len)) % Pow2(len)
  {
    hide MessageBits, Num, Pow2, BigEndian;
    var bits, c := MessageBits(data), Below(|data|, offset, len);
    var a, w, z := bits[..offset], bits[offset..offset + len], bits[offset + len..];
    BigEndianBits(data);
    assert bits == a + w + z;
    NumConcat(a + w, z);
    NumConcat(a, w);
    DivisionUnique(Num(a + w), Pow2(c), Num(z));
    DivisionUnique(Num(a), Pow2(len), Num(w));
  }

  /** Writing a field adds the change of the field, shifted to its place, to that number. */
  lemma WriteIsAddition(before: seq<Byte>, after: seq<Byte>, offset: nat, len: nat, value: nat)
    requires Written(before, after, offset, len, value)
    ensures BigEndian(after) - BigEndian(before) ==
            Pow2(Below(|before|, offset, len)) * (value - Num(Window(before, offset, len)))
  {
    hide MessageBits, Num, Pow2, BigEndian, BitsOf;
    var c := Below(|before|, offset, len);
    var x, y := MessageBits(before), MessageBits(after);
    var a, v, w, z := x[..offset], x[offset..offset + len], BitsOf(value, len), x[offset + len..];
    BigEndianBits(before);
    BigEndianBits(after);
    assert x == a + v + z && y == a + w + z;
    NumConcat(a + v, z);
    NumConcat(a + w, z);
    NumConcat(a, v);
    NumConcat(a, w);
    NumOfBits(value, len);
    Distribute(Pow2(c), Pow2(len) * Num(a), Num(w), Num(v));
  }

  lemma Distribute(p: nat, base: nat, w: nat, v: nat)
    ensures p * (base + w) - p * (base + v) == p * (w - v)
  {
  }
}
