/** The packet checksum: a byte-sliced CRC, and the bit-at-a-time division it has to agree with. */
module Checksum {
  import opened Bits

  // Generator x^16 + x^12 + x^5 + 1, initial value 0, most significant bit first. The 16-bit register
  // is handled as its bits, so exclusive or and shifts are what they are on the machine.

  type Word = w: seq<bool> | |w| == 16 witness Zeros(16)

  const ZERO: Word := Zeros(16)

  /** 0x1021: the generator without its leading term. */
  const POLY: Word :=
    [false, false, false, true, false, false, false, false, false, false, true, false, false, false, false, true]

  function Shl(crc: Word): Word { crc[1..] + [false] }

  /** One step of the division: shift out the top bit and subtract the generator if it was set. */
  function Shift(crc: Word): Word {
    if crc[0] then Xor(Shl(crc), POLY) else Shl(crc)
  }

  function Shifts(crc: Word, n: nat): Word
    decreases n
  {
    if n == 0 then crc else Shifts(Shift(crc), n - 1)
  }

  function Hi(crc: Word): (h: seq<bool>) ensures |h| == 8 { crc[..8] }
  function Lo(crc: Word): (l: seq<bool>) ensures |l| == 8 { crc[8..] }

  /** A byte in the upper half of a word. */
  function Upper(b: seq<bool>): Word
    requires |b| == 8
  {
    b + Zeros(8)
  }

  /** A byte in the lower half of a word. */
  function Lower(b: seq<bool>): Word
    requires |b| == 8
  {
    Zeros(8) + b
  }

  /** Bit-at-a-time treatment of one byte. */
  function Update(crc: Word, b: Byte): Word {
    Shifts(Xor(crc, Upper(ByteBits(b))), 8)
  }

  /** The reference checksum of `data`, continued from the register value `crc`. */
  function Crc(crc: Word, data: seq<Byte>): Word
    decreases |data|
  {
    if data == [] then crc else Crc(Update(crc, data[0]), data[1..])
  }

  /** Entry with index bits `b` of slice table `k`. */
  function Slice(k: nat, b: seq<bool>): Word
    requires |b| == 8
  {
    Shifts(Upper(b), 8 * (k + 1))
  }

  ghost predicate IsSlice(table: seq<Word>, k: nat) {
    && |table| == 256
    && forall b: Byte :: table[b] == Slice(k, ByteBits(b))
  }

  ghost predicate AreSlices(tables: seq<seq<Word>>) {
    && |tables| == 8
    && forall k :: 0 <= k < 8 ==> IsSlice(tables[k], k)
  }

  // ---------------------------------------------------------------------------------------------
  // Linearity over GF(2)
  // ---------------------------------------------------------------------------------------------

  lemma ShiftAt(crc: Word, i: nat)
    requires i < 16
    ensures Shift(crc)[i] == ((i < 15 && crc[i + 1]) != (crc[0] && POLY[i]))
  {
  }

  lemma ShiftLinear(a: Word, b: Word)
    ensures Shift(Xor(a, b)) == Xor(Shift(a), Shift(b))
  {
    forall i | 0 <= i < 16
      ensures Shift(Xor(a, b))[i] == Xor(Shift(a), Shift(b))[i]
    {
      ShiftAt(a, i);
      ShiftAt(b, i);
      ShiftAt(Xor(a, b), i);
    }
  }

  lemma {:induction false} ShiftsLinear(a: Word, b: Word, n: nat)
    ensures Shifts(Xor(a, b), n) == Xor(Shifts(a, n), Shifts(b, n))
    decreases n
  {
    if n > 0 {
      ShiftLinear(a, b);
      ShiftsLinear(Shift(a), Shift(b), n - 1);
    }
  }

  lemma {:induction false} ShiftsAdd(a: Word, m: nat, n: nat)
    ensures Shifts(a, m + n) == Shifts(Shifts(a, m), n)
    decreases m
  {
    if m > 0 {
      ShiftsAdd(Shift(a), m - 1, n);
    }
  }

  /** While only zeros are shifted out, a step is a plain shift. */
  lemma {:induction false} ShiftsZerosOut(crc: Word, n: nat)
    requires n <= 16
    requires forall i :: 0 <= i < n ==> !crc[i]
    ensures Shifts(crc, n) == crc[n..] + Zeros(n)
    decreases n
  {
    if n > 0 {
      ShiftsZerosOut(Shl(crc), n - 1);
    }
  }

  /** Eight steps move the low byte up unchanged. */
  lemma ShiftsLower(b: seq<bool>)
    requires |b| == 8
    ensures Shifts(Lower(b), 8) == Upper(b)
  {
    ShiftsZerosOut(Lower(b), 8);
  }

  lemma SplitWord(crc: Word)
    ensures crc == Xor(Upper(Hi(crc)), Lower(Lo(crc)))
  {
  }

  /** Any number of whole bytes of shifting splits over the two register bytes. */
  lemma ShiftsSplit(crc: Word, k: nat)
    ensures Shifts(crc, 8 * (k + 1)) == Xor(Slice(k, Hi(crc)), Shifts(Upper(Lo(crc)), 8 * k))
  {
    hide Shift, Xor, BitsOf;
    SplitWord(crc);
    ShiftsLinear(Upper(Hi(crc)), Lower(Lo(crc)), 8 * (k + 1));
    ShiftsAdd(Lower(Lo(crc)), 8, 8 * k);
    ShiftsLower(Lo(crc));
  }

  lemma SliceXor(k: nat, a: seq<bool>, b: seq<bool>)
    requires |a| == |b| == 8
    ensures Slice(k, Xor(a, b)) == Xor(Slice(k, a), Slice(k, b))
  {
    assert Upper(Xor(a, b)) == Xor(Upper(a), Upper(b));
    ShiftsLinear(Upper(a), Upper(b), 8 * (k + 1));
  }

  /** The table-driven update of one byte is eight division steps. */
  lemma TableUpdate(crc: Word, b: Byte)
    ensures Update(crc, b) == Xor(Upper(Lo(crc)), Slice(0, Xor(Hi(crc), ByteBits(b))))
  {
    hide Shift, Xor, BitsOf;
    var d := ByteBits(b);
    ShiftsLinear(crc, Upper(d), 8);
    ShiftsSplit(crc, 0);
    SliceXor(0, Hi(crc), d);
    var s, u, t := Slice(0, Hi(crc)), Upper(Lo(crc)), Slice(0, d);
    XorComm(s, u);
    XorAssoc(u, s, t);
  }

  /** Each slice table is the previous one advanced by a zero byte. */
  lemma NextSlice(k: nat, b: seq<bool>)
    requires |b| == 8
    ensures Slice(k + 1, b) == Update(Slice(k, b), 0)
  {
    hide Shift, Shifts, Xor, BitsOf;
    ShiftsAdd(Upper(b), 8 * (k + 1), 8);
    ZeroByte();
    XorZero(Slice(k, b));
  }

  lemma ZeroByte()
    ensures Upper(ByteBits(0)) == ZERO
  {
    BitsOfZero(8);
  }

  // ---------------------------------------------------------------------------------------------
  // The checksum as a sum of table entries
  // ---------------------------------------------------------------------------------------------

  /** Sum of the contributions of `data`, each byte through the table for its distance to the end. */
  function Contributions(data: seq<Byte>): Word
    decreases |data|
  {
    if data == [] then ZERO
    else Xor(Slice(|data| - 1, ByteBits(data[0])), Contributions(data[1..]))
  }

  /** A checksum is the register advanced over the data plus the table contributions of the data. */
  lemma {:induction false} CrcContributions(crc: Word, data: seq<Byte>)
    ensures Crc(crc, data) == Xor(Shifts(crc, 8 * |data|), Contributions(data))
    decreases |data|
  {
    hide Shift, Xor, BitsOf;
    if data != [] {
      var m := |data| - 1;
      var d := ByteBits(data[0]);
      CrcContributions(Update(crc, data[0]), data[1..]);
      ShiftsLinear(crc, Upper(d), 8);
      ShiftsLinear(Shifts(crc, 8), Slice(0, d), 8 * m);
      ShiftsAdd(crc, 8, 8 * m);
      ShiftsAdd(Upper(d), 8, 8 * m);
      XorAssoc(Shifts(crc, 8 * |data|), Slice(m, d), Contributions(data[1..]));
    } else {
      XorZero(crc);
    }
  }

  /** One eight-byte block of the sliced loop. */
  lemma Block(crc: Word, d: seq<Byte>)
    requires |d| == 8
    ensures Crc(crc, d) ==
            Xor(Xor(Xor(Xor(Xor(Xor(Xor(
            Slice(7, Xor(Hi(crc), ByteBits(d[0]))), Slice(6, Xor(Lo(crc), ByteBits(d[1])))),
            Slice(5, ByteBits(d[2]))), Slice(4, ByteBits(d[3]))), Slice(3, ByteBits(d[4]))),
            Slice(2, ByteBits(d[5]))), Slice(1, ByteBits(d[6]))), Slice(0, ByteBits(d[7])))
  {
    hide Shift, Xor, BitsOf;
    var h, l := Slice(7, Hi(crc)), Slice(6, Lo(crc));
    var s7, s6 := Slice(7, ByteBits(d[0])), Slice(6, ByteBits(d[1]));
    var rest := Contributions(d[2..]);
    CrcContributions(crc, d);
    ShiftsSplit(crc, 7);
    SliceXor(7, Hi(crc), ByteBits(d[0]));
    SliceXor(6, Lo(crc), ByteBits(d[1]));
    assert Crc(crc, d) == Xor(Xor(h, l), Contributions(d));
    ContributionsTwo(d[0], d[1], d[2..]);
    assert d == [d[0], d[1]] + d[2..];
    XorAssoc(s7, s6, rest);
    XorAssoc(Xor(h, l), Xor(s7, s6), rest);
    XorSwap(h, l, s7, s6);
    SumLeft(Xor(Xor(h, s7), Xor(l, s6)), d[2..]);
  }

  /** The contributions of six bytes, added to a start value from the left. */
  lemma SumLeft(start: Word, d: seq<Byte>)
    requires |d| == 6
    ensures Xor(start, Contributions(d)) ==
            Xor(Xor(Xor(Xor(Xor(Xor(start, Slice(5, ByteBits(d[0]))), Slice(4, ByteBits(d[1]))),
            Slice(3, ByteBits(d[2]))), Slice(2, ByteBits(d[3]))), Slice(1, ByteBits(d[4]))), Slice(0, ByteBits(d[5])))
  {
    var x5 := Xor(start, Slice(5, ByteBits(d[0])));
    var x4 := Xor(x5, Slice(4, ByteBits(d[1])));
    var x3 := Xor(x4, Slice(3, ByteBits(d[2])));
    var x2 := Xor(x3, Slice(2, ByteBits(d[3])));
    var x1 := Xor(x2, Slice(1, ByteBits(d[4])));
    SumStep(start, d);
    SumStep(x5, d[1..]);
    SumStep(x4, d[1..][1..]);
    SumStep(x3, d[1..][1..][1..]);
    SumStep(x2, d[1..][1..][1..][1..]);
    SumStep(x1, d[1..][1..][1..][1..][1..]);
    XorZero(Xor(x1, Slice(0, ByteBits(d[5]))));
  }

  lemma SumStep(start: Word, d: seq<Byte>)
    requires d != []
    ensures Xor(start, Contributions(d)) ==
            Xor(Xor(start, Slice(|d| - 1, ByteBits(d[0]))), Contributions(d[1..]))
  {
    XorAssoc(start, Slice(|d| - 1, ByteBits(d[0])), Contributions(d[1..]));
  }

  lemma {:induction false} CrcConcat(crc: Word, a: seq<Byte>, b: seq<Byte>)
    ensures Crc(crc, a + b) == Crc(Crc(crc, a), b)
    decreases |a|
  {
    if a == [] {
      assert a + b == b;
    } else {
      assert (a + b)[1..] == a[1..] + b;
      CrcConcat(Update(crc, a[0]), a[1..], b);
    }
  }

  lemma CrcEmpty(crc: Word)
    ensures Crc(crc, []) == crc
  {
  }

  lemma CrcAppend(crc: Word, a: seq<Byte>, b: Byte)
    ensures Crc(crc, a + [b]) == Update(Crc(crc, a), b)
  {
    CrcConcat(crc, a, [b]);
    assert [b][1..] == [];
  }

  // ---------------------------------------------------------------------------------------------
  // What the tables and the starting register mean
  // ---------------------------------------------------------------------------------------------

  function ZeroBytes(n: nat): (z: seq<Byte>)
    ensures |z| == n
  {
    seq(n, _ => 0)
  }

  /** Table k at b is the checksum of b followed by k zero bytes. */
  lemma {:induction false} SliceIsCrc(k: nat, b: Byte)
    ensures Slice(k, ByteBits(b)) == Crc(ZERO, [b] + ZeroBytes(k))
  {
    hide Shift, Shifts, Xor, BitsOf;
    if k == 0 {
      assert [b] + ZeroBytes(0) == [] + [b];
      CrcAppend(ZERO, [], b);
      XorZero(Upper(ByteBits(b)));
    } else {
      SliceIsCrc(k - 1, b);
      NextSlice(k - 1, ByteBits(b));
      assert [b] + ZeroBytes(k) == ([b] + ZeroBytes(k - 1)) + [0];
      CrcAppend(ZERO, [b] + ZeroBytes(k - 1), 0);
    }
  }

  /** A non-zero starting register acts like its two bytes added to the first two data bytes. */
  lemma CrcStateAsData(crc: Word, a: Byte, b: Byte, rest: seq<Byte>)
    ensures Crc(crc, [a, b] + rest) ==
            Crc(ZERO, [ByteNum(Xor(ByteBits(a), Hi(crc))), ByteNum(Xor(ByteBits(b), Lo(crc)))] + rest)
  {
    var m := |rest|;
    var a', b' := ByteNum(Xor(ByteBits(a), Hi(crc))), ByteNum(Xor(ByteBits(b), Lo(crc)));
    ByteBitsOfNum(Xor(ByteBits(a), Hi(crc)));
    ByteBitsOfNum(Xor(ByteBits(b), Lo(crc)));
    CrcContributions(crc, [a, b] + rest);
    CrcContributions(ZERO, [a', b'] + rest);
    ShiftsZero(8 * (m + 2));
    ShiftsSplit(crc, m + 1);
    SliceXor(m + 1, ByteBits(a), Hi(crc));
    SliceXor(m, ByteBits(b), Lo(crc));
    ContributionsTwo(a, b, rest);
    ContributionsTwo(a', b', rest);
    var h, l, c := Slice(m + 1, Hi(crc)), Slice(m, Lo(crc)), Contributions(rest);
    var s, t := Slice(m + 1, ByteBits(a)), Slice(m, ByteBits(b));
    XorZero(Contributions([a', b'] + rest));
    XorAssoc(s, t, c);
    XorAssoc(Xor(s, h), Xor(t, l), c);
    XorSwap(s, h, t, l);
    XorComm(Xor(s, t), Xor(h, l));
    XorAssoc(Xor(h, l), Xor(s, t), c);
  }

  lemma ContributionsTwo(a: Byte, b: Byte, rest: seq<Byte>)
    ensures Contributions([a, b] + rest) ==
            Xor(Slice(|rest| + 1, ByteBits(a)), Xor(Slice(|rest|, ByteBits(b)), Contributions(rest)))
  {
    hide Slice, ByteBits, Xor;
    ContributionsFirst([a, b] + rest);
    ContributionsFirst([b] + rest);
    assert ([a, b] + rest)[1..] == [b] + rest;
    assert ([b] + rest)[1..] == rest;
  }

  lemma ContributionsFirst(data: seq<Byte>)
    requires data != []
    ensures Contributions(data) == Xor(Slice(|data| - 1, ByteBits(data[0])), Contributions(data[1..]))
  {
  }

  lemma {:induction false} ShiftsZero(n: nat)
    ensures Shifts(ZERO, n) == ZERO
  {
    if n > 0 {
      assert Shift(ZERO) == ZERO;
      ShiftsZero(n - 1);
    }
  }

  // ---------------------------------------------------------------------------------------------
  // The implementation
  // ---------------------------------------------------------------------------------------------

  method TableEntry(index: Byte) returns (crc: Word)
    ensures crc == Slice(0, ByteBits(index))
  {
    crc := ByteBits(index) + Zeros(8);
    for bit := 0 to 8
      invariant Shifts(crc, 8 - bit) == Slice(0, ByteBits(index))
    {
      if crc[0] {
        crc := Xor(Shl(crc), POLY);
      } else {
        crc := Shl(crc);
      }
    }
  }

  method MakeTable() returns (table: seq<Word>)
    ensures IsSlice(table, 0)
  {
    hide Shifts, BitsOf;
    var entries := new Word[256](_ => ZERO);
    for index := 0 to 256
      invariant forall b: Byte :: b < index ==> entries[b] == Slice(0, ByteBits(b))
    {
      entries[index] := TableEntry(index);
    }
    table := entries[..];
  }

  method TableDrivenUpdate(table: seq<Word>, crc: Word, b: Byte) returns (next: Word)
    requires IsSlice(table, 0)
    ensures next == Update(crc, b)
  {
    var index := Xor(Hi(crc), ByteBits(b));
    next := Xor(Lo(crc) + Zeros(8), table[ByteNum(index)]);
    ByteBitsOfNum(index);
    TableUpdate(crc, b);
  }

  method MakeSliceTable(base: seq<Word>, previous: seq<Word>, ghost k: nat) returns (table: seq<Word>)
    requires IsSlice(base, 0) && IsSlice(previous, k)
    ensures IsSlice(table, k + 1)
  {
    hide Shifts, Update, Xor, BitsOf;
    var entries := new Word[256](_ => ZERO);
    for index := 0 to 256
      invariant forall b: Byte :: b < index ==> entries[b] == Slice(k + 1, ByteBits(b))
    {
      NextSlice(k, ByteBits(index));
      var entry := TableDrivenUpdate(base, previous[index], 0);
      entries[index] := entry;
    }
    table := entries[..];
  }

  method MakeTables() returns (tables: seq<seq<Word>>)
    ensures AreSlices(tables)
  {
    var base := MakeTable();
    tables := [base];
    for k := 0 to 7
      invariant |tables| == k + 1
      invariant forall j :: 0 <= j <= k ==> IsSlice(tables[j], j)
      invariant tables[0] == base
    {
      var next := MakeSliceTable(base, tables[k], k);
      tables := tables + [next];
    }
  }

  /** Slicing by eight with a bytewise tail computes the bit-at-a-time checksum of every string. */
  method Crc16Ccitt(tables: seq<seq<Word>>, data: seq<Byte>) returns (crc: Word)
    requires AreSlices(tables)
    ensures crc == Crc(ZERO, data)
  {
    hide Crc, Slice, Shifts, Update, Xor, BitsOf;
    crc := ZERO;
    CrcEmpty(ZERO);
    var offset := 0;
    while offset + 8 <= |data|
      invariant 0 <= offset <= |data|
      invariant crc == Crc(ZERO, data[..offset])
    {
      ghost var d := data[offset..offset + 8];
      Block(crc, d);
      CrcConcat(ZERO, data[..offset], d);
      assert data[..offset] + d == data[..offset + 8];
      ByteBitsOfNum(Xor(Hi(crc), ByteBits(data[offset])));
      ByteBitsOfNum(Xor(Lo(crc), ByteBits(data[offset + 1])));
      crc := Xor(Xor(Xor(Xor(Xor(Xor(Xor(
      tables[7][ByteNum(Xor(Hi(crc), ByteBits(data[offset])))],
      tables[6][ByteNum(Xor(Lo(crc), ByteBits(data[offset + 1])))]),
      tables[5][data[offset + 2]]),
      tables[4][data[offset + 3]]),
      tables[3][data[offset + 4]]),
      tables[2][data[offset + 5]]),
      tables[1][data[offset + 6]]),
      tables[0][data[offset + 7]]);
      offset := offset + 8;
    }
    while offset < |data|
      invariant 0 <= offset <= |data|
      invariant crc == Crc(ZERO, data[..offset])
    {
      CrcAppend(ZERO, data[..offset], data[offset]);
      assert data[..offset] + [data[offset]] == data[..offset + 1];
      crc := TableDrivenUpdate(tables[0], crc, data[offset]);
      offset := offset + 1;
    }
    assert data[..offset] == data;
  }

  /** The bit-at-a-time checksum of the test tool. */
  method Crc16Bitwise(data: seq<Byte>) returns (crc: Word)
    ensures crc == Crc(ZERO, data)
  {
    hide Crc, Xor, BitsOf, Upper;
    crc := ZERO;
    CrcEmpty(ZERO);
    for i := 0 to |data|
      invariant crc == Crc(ZERO, data[..i])
    {
      ghost var next := Update(crc, data[i]);
      CrcAppend(ZERO, data[..i], data[i]);
      assert data[..i] + [data[i]] == data[..i + 1];
      crc := Xor(crc, Upper(ByteBits(data[i])));
      for bit := 0 to 8
        invariant Shifts(crc, 8 - bit) == next
      {
        if crc[0] {
          crc := Xor(Shl(crc), POLY);
        } else {
          crc := Shl(crc);
        }
      }
    }
    assert data[..|data|] == data;
  }
}
