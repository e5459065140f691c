/**
 What corruption a packet survives unnoticed. Odd numbers of bit flips and bursts of up to twelve bits are
 always rejected, wherever they fall. Because the checksum travels low byte first, thirteen is the
 limit: one such burst goes unnoticed in every packet that carries a frame. Inside the covered
 region, or inside the checksum, sixteen bits are still safe.
 */
module PacketIntegrity {
  import opened Bits
  import opened Fleet
  import opened Checksum
  import opened ErrorDetection
  import opened CodecMotor

  /** Framed, of consistent length, and with a matching checksum; the type and entries may be anything. */
  predicate Sealed(p: seq<Byte>) {
    && |p| >= MIN_PACKET_SZ
    && p[0] == STX && p[|p| - 1] == ETX
    && |p| == PacketSize(PayloadLen(p))
    && CrcMatches(p, PayloadLen(p))
  }

  /** The bytes the checksum is computed over. */
  function CoveredPart(p: seq<Byte>): (c: seq<Byte>)
    requires |p| >= MIN_PACKET_SZ
    ensures |c| == |p| - 4
  {
    p[1..|p| - 3]
  }

  lemma AcceptedIsSealed(p: seq<Byte>)
    requires Accepted(p)
    ensures Sealed(p)
  {
  }

  lemma EncodingIsSealed(kind: Byte, frames: seq<CanFrame>)
    requires |frames| <= MAX_FRAMES_PER_PACKET
    ensures Sealed(Encoding(kind, frames))
  {
    hide Crc, Entries, BitsOf;
    var b := Encoding(kind, frames);
    var covered := Covered(kind, frames);
    assert b[1..4 + PayloadLenFor(|frames|)] == covered;
    var crc := Crc(ZERO, covered);
    ByteBitsOfNum(Lo(crc));
    ByteBitsOfNum(Hi(crc));
    assert crc == Hi(crc) + Lo(crc);
  }

  /** A sealed packet as its bits: start byte, message, checksum low byte first, end byte. */
  lemma SealedBits(p: seq<Byte>)
    requires Sealed(p)
    ensures MessageBits(p) ==
            ByteBits(STX) + MessageBits(CoveredPart(p)) + FieldBits(Crc(ZERO, CoveredPart(p))) + ByteBits(ETX)
  {
    hide Crc, BitsOf, MessageBits;
    var n := |p| - 3;
    var crc := Crc(ZERO, CoveredPart(p));
    assert p == [p[0]] + CoveredPart(p) + [p[n]] + [p[n + 1]] + [p[n + 2]];
    OneByte(p[0]);
    OneByte(p[n]);
    OneByte(p[n + 1]);
    OneByte(p[n + 2]);
    MessageBitsConcat([p[0]], CoveredPart(p));
    MessageBitsConcat([p[0]] + CoveredPart(p), [p[n]]);
    MessageBitsConcat([p[0]] + CoveredPart(p) + [p[n]], [p[n + 1]]);
    MessageBitsConcat([p[0]] + CoveredPart(p) + [p[n]] + [p[n + 1]], [p[n + 2]]);
    assert FieldBits(crc) == ByteBits(p[n]) + ByteBits(p[n + 1]);
  }

  lemma OneByte(b: Byte)
    ensures MessageBits([b]) == ByteBits(b)
  {
    assert [b][1..] == [];
  }

  /** The checksum bits in the order the packet carries them: low byte first. */
  function FieldBits(crc: Word): (bits: seq<bool>)
    ensures |bits| == 16
  {
    Lo(crc) + Hi(crc)
  }

  // ---------------------------------------------------------------------------------------------
  // Parity
  // ---------------------------------------------------------------------------------------------

  /** All sealed packets have the same parity. */
  lemma SealedParity(p: seq<Byte>)
    requires Sealed(p)
    ensures OddOnes(MessageBits(p)) == (OddOnes(ByteBits(STX)) != OddOnes(ByteBits(ETX)))
  {
    hide Crc, BitsOf, MessageBits, Ones, CrcMatches;
    var m := MessageBits(CoveredPart(p));
    var crc := Crc(ZERO, CoveredPart(p));
    var f := FieldBits(crc);
    SealedBits(p);
    CrcParity(CoveredPart(p));
    OnesConcat(Lo(crc), Hi(crc));
    OnesConcat(Hi(crc), Lo(crc));
    assert crc == Hi(crc) + Lo(crc);
    OnesConcat(ByteBits(STX), m);
    OnesConcat(ByteBits(STX) + m, f);
    OnesConcat(ByteBits(STX) + m + f, ByteBits(ETX));
  }

  /** An odd number of flipped bits, anywhere in the packet, is rejected and nothing is delivered. */
  lemma OddFlipsRejected(p: seq<Byte>, q: seq<Byte>, d: Decoded)
    requires Sealed(p) && |q| == |p|
    requires Flips(p, q) % 2 == 1
    requires DecodesTo(q, d)
    ensures d.error != Ok && d.delivered == []
  {
    hide CrcMatches, MessageBits, Ones, BitsOf;
    if Accepted(q) {
      AcceptedIsSealed(q);
      SealedParity(p);
      SealedParity(q);
      FlipsParity(p, q);
    }
  }

  // ---------------------------------------------------------------------------------------------
  // Bursts that do not cross the end of the message
  // ---------------------------------------------------------------------------------------------

  /** The altered bits of a packet lie within `width` consecutive bits. */
  ghost predicate Burst(p: seq<Byte>, q: seq<Byte>, from: int, width: nat)
    requires |p| == |q|
  {
    p != q && Confined(MessageBits(p), MessageBits(q), from, width)
  }

  /** Two sealed packets of the same length that differ by a burst of at most 16 bits differ on both
      sides of the end of the covered region. */
  lemma SealedBurstCrosses(p: seq<Byte>, q: seq<Byte>, from: int)
    requires Sealed(p) && Sealed(q) && |p| == |q|
    requires Burst(p, q, from, 16)
    ensures CoveredPart(p) != CoveredPart(q)
    ensures Crc(ZERO, CoveredPart(p)) != Crc(ZERO, CoveredPart(q))
    ensures p[|p| - 3..|p| - 1] != q[|p| - 3..|p| - 1]
  {
    hide Crc, BitsOf, MessageBits, CrcMatches;
    var a, b := CoveredPart(p), CoveredPart(q);
    SealedBits(p);
    SealedBits(q);
    if a == b {
      MessageBitsInjective(p, q);
    } else {
      var x, y := MessageBits(p), MessageBits(q);
      forall i | 0 <= i < 8 * |a| && MessageBits(a)[i] != MessageBits(b)[i]
        ensures from - 8 <= i < from + 8
      {
        assert x[8 + i] == MessageBits(a)[i] && y[8 + i] == MessageBits(b)[i];
      }
      BurstDetected(a, b, from - 8);
      SameField(p, q);
    }
  }

  /** Equal checksum bytes mean equal checksums. */
  lemma SameField(p: seq<Byte>, q: seq<Byte>)
    requires Sealed(p) && Sealed(q) && |p| == |q|
    ensures p[|p| - 3..|p| - 1] == q[|p| - 3..|p| - 1] ==> Crc(ZERO, CoveredPart(p)) == Crc(ZERO, CoveredPart(q))
  {
    hide Crc, BitsOf;
    var n := |p| - 3;
    assert p[n] == p[n..n + 2][0] && p[n + 1] == p[n..n + 2][1];
    assert q[n] == q[n..n + 2][0] && q[n + 1] == q[n..n + 2][1];
  }

  /** A burst of at most 16 bits that leaves either the covered bytes or the checksum bytes alone is
      rejected and nothing is delivered. */
  lemma BurstRejected(p: seq<Byte>, q: seq<Byte>, from: int, d: Decoded)
    requires Sealed(p) && |q| == |p|
    requires Burst(p, q, from, 16)
    requires CoveredPart(p) == CoveredPart(q) || p[|p| - 3..|p| - 1] == q[|p| - 3..|p| - 1]
    requires DecodesTo(q, d)
    ensures d.error != Ok && d.delivered == []
  {
    hide Crc, BitsOf, MessageBits, Burst;
    if Accepted(q) {
      AcceptedIsSealed(q);
      SealedBurstCrosses(p, q, from);
    }
  }

  // ---------------------------------------------------------------------------------------------
  // Bursts across the end of the message: safe up to twelve bits
  // ---------------------------------------------------------------------------------------------

  /** Four division steps at once: the four bits shifted out come back at three places. */
  lemma FourSteps(c: Word, d: Word)
    requires d == Shifts(c, 4)
    ensures d[0] == (c[4] != c[0]) && d[1] == (c[5] != c[1]) && d[2] == (c[6] != c[2]) && d[3] == (c[7] != c[3])
    ensures d[4] == c[8] && d[5] == c[9] && d[6] == c[10] && d[7] == (c[11] != c[0])
    ensures d[8] == (c[12] != c[1]) && d[9] == (c[13] != c[2]) && d[10] == (c[14] != c[3]) && d[11] == c[15]
    ensures d[12] == c[0] && d[13] == c[1] && d[14] == c[2] && d[15] == c[3]
  {
    hide Shift;
    var c1 := Shift(c);
    var c2 := Shift(c1);
    var c3 := Shift(c2);
    assert Shifts(c, 4) == Shifts(c1, 3) == Shifts(c2, 2) == Shifts(c3, 1) == Shift(c3);
    OneStep(c);
    OneStep(c1);
    OneStep(c2);
    OneStep(c3);
  }

  lemma OneStep(c: Word)
    ensures var d := Shift(c);
            && d[0] == c[1] && d[1] == c[2] && d[2] == c[3] && d[3] == (c[4] != c[0])
            && d[4] == c[5] && d[5] == c[6] && d[6] == c[7] && d[7] == c[8] && d[8] == c[9] && d[9] == c[10]
            && d[10] == (c[11] != c[0]) && d[11] == c[12] && d[12] == c[13] && d[13] == c[14] && d[14] == c[15]
            && d[15] == c[0]
  {
    hide Shift;
    ShiftAt(c, 0);
    ShiftAt(c, 1);
    ShiftAt(c, 2);
    ShiftAt(c, 3);
    ShiftAt(c, 4);
    ShiftAt(c, 5);
    ShiftAt(c, 6);
    ShiftAt(c, 7);
    ShiftAt(c, 8);
    ShiftAt(c, 9);
    ShiftAt(c, 10);
    ShiftAt(c, 11);
    ShiftAt(c, 12);
    ShiftAt(c, 13);
    ShiftAt(c, 14);
    ShiftAt(c, 15);
  }

  /** If the first altered bit among the last twelve message bits is bit k, then some checksum bit from
      k on (in packet order) is altered as well: together they span more than twelve bits. */
  lemma TailReaches(a: seq<bool>, k: nat)
    requires |a| == 12 && k < 12 && a[k] && forall i :: 0 <= i < k ==> !a[i]
    ensures exists j :: k <= j < 16 && FieldBits(Feed(ZERO, a))[j]
  {
    hide Shift, Shifts, Xor, Feed;
    FeedAtOnce(ZERO, a);
    XorZero(Pad(a));
    var c := Pad(a);
    var c4 := Shifts(c, 4);
    var c8 := Shifts(c4, 4);
    var d := Shifts(c8, 4);
    ShiftsAdd(c, 4, 8);
    ShiftsAdd(c4, 4, 4);
    FourSteps(c, c4);
    FourSteps(c4, c8);
    FourSteps(c8, d);
    var f := FieldBits(d);
    assert f[0] == d[8] && f[1] == d[9] && f[2] == d[10] && f[3] == d[11];
    assert f[4] == d[12] && f[5] == d[13] && f[6] == d[14] && f[7] == d[15];
    assert f[8] == d[0] && f[9] == d[1] && f[10] == d[2] && f[11] == d[3];
    assert f[12] == d[4] && f[13] == d[5] && f[14] == d[6] && f[15] == d[7];
    var last := f[12] || f[13] || f[14] || f[15];
    if k >= 8 {
      assert (k <= 8 && f[8]) || (k <= 9 && f[9]) || (k <= 10 && f[10]) || (k <= 11 && f[11]) || last;
    } else if k >= 4 {
      assert (k <= 4 && f[4]) || (k <= 5 && f[5]) || (k <= 6 && f[6]) || f[7] || f[8] || f[9] || f[10] || f[11] || last;
    } else {
      assert (k <= 0 && f[0]) || (k <= 1 && f[1]) || (k <= 2 && f[2]) || f[3] || f[4] || f[5] || f[6] || f[7]
             || f[8] || f[9] || f[10] || f[11] || last;
    }
  }

  /** The difference of two equally long messages whose last twelve bits alone differ. */
  lemma TailDifference(a: seq<Byte>, b: seq<Byte>, tail: seq<bool>)
    requires |a| == |b| >= 2 && |tail| == 12
    requires Xor(MessageBits(a), MessageBits(b)) == Zeros(8 * |a| - 12) + tail
    ensures Xor(Crc(ZERO, a), Crc(ZERO, b)) == Feed(ZERO, tail)
  {
    hide Crc, Feed, Xor, MessageBits, Shift, Shifts, ZERO, Zeros;
    var n := 8 * |a| - 12;
    CrcIsFeed(ZERO, a);
    CrcIsFeed(ZERO, b);
    XorOfZeros();
    FeedLinear(ZERO, ZERO, MessageBits(a), MessageBits(b));
    FeedConcat(ZERO, Zeros(n), tail);
    FeedZeros(ZERO, n);
    ShiftsZero(n);
  }

  lemma XorOfZeros()
    ensures Xor(ZERO, ZERO) == ZERO
  {
    XorSelf(ZERO);
  }

  /** Where a burst that stays in sight of the checksum can alter the covered bytes: their last bits. */
  lemma TailOfBurst(p: seq<Byte>, q: seq<Byte>, from: int) returns (tail: seq<bool>, k: nat)
    requires Sealed(p) && Sealed(q) && |p| == |q|
    requires Burst(p, q, from, 12)
    ensures |tail| == 12 && k < 12 && tail[k] && (forall i :: 0 <= i < k ==> !tail[i])
    ensures from <= 8 * |CoveredPart(p)| - 4 + k
    ensures Xor(MessageBits(CoveredPart(p)), MessageBits(CoveredPart(q))) ==
            Zeros(8 * |CoveredPart(p)| - 12) + tail
  {
    hide Crc, BitsOf, ByteBits, MessageBits, Sealed, FieldBits, Xor;
    SealedSize(p);
    SealedSize(q);
    var a, b := CoveredPart(p), CoveredPart(q);
    var m := 8 * |a|;
    var x, y := MessageBits(a), MessageBits(b);
    SealedBits(p);
    SealedBits(q);
    SealedBurstCrosses(p, q, from);
    FieldBitsInjective(Crc(ZERO, a), Crc(ZERO, b));
    var f, g := FieldBits(Crc(ZERO, a)), FieldBits(Crc(ZERO, b));
    var j :| 0 <= j < 16 && f[j] != g[j];
    assert MessageBits(p)[8 + m + j] == f[j] && MessageBits(q)[8 + m + j] == g[j];
    forall i | 0 <= i < m && x[i] != y[i]
      ensures from - 8 <= i && m - 12 <= i
    {
      assert MessageBits(p)[8 + i] == x[i] && MessageBits(q)[8 + i] == y[i];
    }
    var e := Xor(x, y);
    tail := e[m - 12..];
    assert e == Zeros(m - 12) + tail;
    MessageBitsInjective(a, b);
    var i :| 0 <= i < m && x[i] != y[i];
    assert tail[i - (m - 12)];
    k := FirstSet(tail);
    assert x[m - 12 + k] != y[m - 12 + k];
  }

  lemma SealedSize(p: seq<Byte>)
    requires Sealed(p)
    ensures |p| >= MIN_PACKET_SZ
  {
  }

  function FirstSet(a: seq<bool>): (k: nat)
    requires true in a
    ensures k < |a| && a[k] && forall i :: 0 <= i < k ==> !a[i]
  {
    if a[0] then 0 else
    assert true in a[1..];
    var k := FirstSet(a[1..]);
    assert forall i :: 0 < i <= k + 1 ==> a[i] == a[1..][i - 1];
    k + 1
  }

  lemma FieldBitsInjective(c: Word, d: Word)
    requires c != d
    ensures FieldBits(c) != FieldBits(d)
  {
    assert c == Hi(c) + Lo(c) && d == Hi(d) + Lo(d);
    assert FieldBits(c)[..8] == Lo(c) && FieldBits(c)[8..] == Hi(c);
    assert FieldBits(d)[..8] == Lo(d) && FieldBits(d)[8..] == Hi(d);
  }

  /** Two sealed packets whose covered bytes differ only in the last twelve bits, first in bit k of
      those, also differ in a bit at least twelve places later. */
  lemma SealedSpan(p: seq<Byte>, q: seq<Byte>, tail: seq<bool>, k: nat) returns (j: nat)
    requires Sealed(p) && Sealed(q) && |p| == |q|
    requires |tail| == 12 && k < 12 && tail[k] && forall i :: 0 <= i < k ==> !tail[i]
    requires Xor(MessageBits(CoveredPart(p)), MessageBits(CoveredPart(q))) ==
             Zeros(8 * |CoveredPart(p)| - 12) + tail
    ensures 8 * |CoveredPart(p)| + 8 + k <= j < |MessageBits(p)|
    ensures MessageBits(p)[j] != MessageBits(q)[j]
  {
    hide CrcMatches, MessageBits, Crc, Feed, Xor, BitsOf;
    var a, b := CoveredPart(p), CoveredPart(q);
    TailDifference(a, b, tail);
    TailReaches(tail, k);
    SealedBits(p);
    SealedBits(q);
    var f, g := FieldBits(Crc(ZERO, a)), FieldBits(Crc(ZERO, b));
    var i :| k <= i < 16 && FieldBits(Feed(ZERO, tail))[i];
    FieldOfXor(Crc(ZERO, a), Crc(ZERO, b), i);
    j := 8 + 8 * |a| + i;
    assert MessageBits(p)[j] == f[i] && MessageBits(q)[j] == g[i];
  }

  lemma FieldOfXor(c: Word, d: Word, i: nat)
    requires i < 16
    ensures FieldBits(Xor(c, d))[i] == (FieldBits(c)[i] != FieldBits(d)[i])
  {
    hide Xor;
  }

  /** A burst of at most twelve bits, anywhere in the packet, is rejected and nothing is delivered. */
  lemma ShortBurstRejected(p: seq<Byte>, q: seq<Byte>, from: int, d: Decoded)
    requires Sealed(p) && |q| == |p|
    requires Burst(p, q, from, 12)
    requires DecodesTo(q, d)
    ensures d.error != Ok && d.delivered == []
  {
    hide CrcMatches, MessageBits, Crc, Feed, Xor;
    if Accepted(q) {
      AcceptedIsSealed(q);
      var tail, k := TailOfBurst(p, q, from);
      var j := SealedSpan(p, q, tail, k);
    }
  }

  // ---------------------------------------------------------------------------------------------
  // Thirteen bits can go unnoticed
  // ---------------------------------------------------------------------------------------------

  /** The byte with its lowest bit flipped. */
  function Flip(b: Byte): Byte {
    if b % 2 == 0 then b + 1 else b - 1
  }

  /** The last data byte of the last frame altered in its lowest bit. */
  function Tampered(frames: seq<CanFrame>): (t: seq<CanFrame>)
    requires frames != []
    ensures |t| == |frames| && t != frames
    ensures AllValid(frames) ==> AllValid(t)
  {
    var last := frames[|frames| - 1];
    var frame := last.(data := last.data[7 := Flip(last.data[7])]);
    assert frame.data[7] != last.data[7];
    assert frames[..|frames| - 1] + [frame] != frames by {
      assert (frames[..|frames| - 1] + [frame])[|frames| - 1] == frame;
    }
    frames[..|frames| - 1] + [frame]
  }

  lemma TamperedCovered(kind: Byte, frames: seq<CanFrame>)
    requires 0 < |frames| <= MAX_FRAMES_PER_PACKET
    ensures var c, n := Covered(kind, frames), 3 + 14 * |frames|;
            Covered(kind, Tampered(frames)) == c[..n] + [Flip(c[n])] && c == c[..n] + [c[n]]
  {
    hide U32Bytes, Low8;
    var last := |frames| - 1;
    var t := Tampered(frames);
    assert t[..last] == frames[..last];
    assert Entry(t[last]) == Entry(frames[last])[13 := Flip(Entry(frames[last])[13])];
    assert Entries(t) == Entries(frames[..last]) + Entry(t[last]);
    assert Entries(frames) == Entries(frames[..last]) + Entry(frames[last]);
  }

  lemma FlipBits(b: Byte)
    ensures ByteBits(Flip(b)) == Xor(ByteBits(b), Zeros(7) + [true])
  {
    hide Xor;
    assert Flip(b) / 2 == b / 2;
    assert ByteBits(b) == BitsOf(b / 2, 7) + [b % 2 == 1];
    assert ByteBits(Flip(b)) == BitsOf(b / 2, 7) + [b % 2 != 1];
  }

  /** Flipping the lowest bit of the last byte adds the generator to the checksum. */
  lemma FlipAddsGenerator(c: seq<Byte>, b: Byte)
    ensures Crc(ZERO, c + [Flip(b)]) == Xor(Crc(ZERO, c + [b]), POLY)
  {
    hide Crc, Xor, BitsOf, Shift, POLY;
    var s := Crc(ZERO, c);
    var u, v := Upper(ByteBits(b)), Upper(Zeros(7) + [true]);
    CrcAppend(ZERO, c, Flip(b));
    CrcAppend(ZERO, c, b);
    FlipBits(b);
    assert Upper(ByteBits(Flip(b))) == Xor(u, v);
    XorAssoc(s, u, v);
    ShiftsLinear(Xor(s, u), v, 8);
    ShiftsZerosOut(v, 7);
    ShiftsAdd(v, 7, 1);
    var w: Word := [true] + Zeros(15);
    assert v[7..] + Zeros(7) == w;
    assert Shifts(v, 8) == Shift(w);
    ShiftOfTop();
  }

  lemma ShiftOfTop()
    ensures Shift([true] + Zeros(15)) == POLY
  {
    hide POLY, Xor;
    assert Shl([true] + Zeros(15)) == Zeros(16);
    XorZero(POLY);
  }

  /** Every packet with a frame has a thirteen-bit burst that turns it into another acceptable packet:
      the corrupted packet decodes without error and delivers an altered data byte. */
  lemma ThirteenBitsUnnoticed(kind: Byte, frames: seq<CanFrame>, d: Decoded)
    requires 0 < |frames| <= MAX_FRAMES_PER_PACKET && AllValid(frames)
    requires kind == TYPE_CAN2UDP || kind == TYPE_UDP2CAN
    requires DecodesTo(Encoding(kind, Tampered(frames)), d)
    ensures Burst(Encoding(kind, frames), Encoding(kind, Tampered(frames)), 39 + 112 * |frames|, 13)
    ensures d == Decoded(Ok, Tampered(frames)) && d.delivered != frames
  {
    hide Covered, Crc, Tampered, MessageBits, DecodesTo, Sealed;
    var t := Tampered(frames);
    var p, q := Encoding(kind, frames), Encoding(kind, t);
    RoundTrip(kind, t, d);
    EncodingIsSealed(kind, frames);
    EncodingIsSealed(kind, t);
    SealedBits(p);
    SealedBits(q);
    TamperedConfined(kind, frames);
    if p == q {
      EncodingInjective(kind, frames, kind, t);
    }
  }

  lemma TamperedConfined(kind: Byte, frames: seq<CanFrame>)
    requires 0 < |frames| <= MAX_FRAMES_PER_PACKET
    ensures Confined(MessageBits(Encoding(kind, frames)), MessageBits(Encoding(kind, Tampered(frames))),
                     39 + 112 * |frames|, 13)
  {
    hide Crc, Tampered, MessageBits, Xor, Sealed, Covered, FieldBits, Confined, BitsOf;
    var t := Tampered(frames);
    var p, q := Encoding(kind, frames), Encoding(kind, t);
    var n := 3 + 14 * |frames|;
    var c := Covered(kind, frames);
    EncodingIsSealed(kind, frames);
    EncodingIsSealed(kind, t);
    assert CoveredPart(p) == c && CoveredPart(q) == Covered(kind, t);
    SealedBits(p);
    SealedBits(q);
    TamperedCovered(kind, frames);
    FlipAddsGenerator(c[..n], c[n]);
    FlippedMessage(c[..n], c[n]);
    FieldOfSum(Crc(ZERO, c));
    Layers(ByteBits(STX), MessageBits(c), MessageBits(Covered(kind, t)),
           FieldBits(Crc(ZERO, c)), FieldBits(Crc(ZERO, Covered(kind, t))), ByteBits(ETX));
  }

  /** Flipping the lowest bit of the last byte changes the last message bit only. */
  lemma FlippedMessage(c: seq<Byte>, b: Byte)
    ensures var x, y := MessageBits(c + [b]), MessageBits(c + [Flip(b)]);
      |x| == |y| == 8 * |c| + 8 && forall i :: 0 <= i < 8 * |c| + 7 ==> x[i] == y[i]
  {
    hide MessageBits, Flip, BitsOf;
    MessageBitsConcat(c, [b]);
    MessageBitsConcat(c, [Flip(b)]);
    OneByte(b);
    OneByte(Flip(b));
    FlipBits(b);
  }

  /** Two bit strings in layers that differ in the last message bit and the first twelve field bits. */
  lemma Layers(s: seq<bool>, a: seq<bool>, b: seq<bool>, f: seq<bool>, g: seq<bool>, e: seq<bool>)
    requires |a| == |b| > 0 && |f| == |g| == 16
    requires forall i :: 0 <= i < |a| - 1 ==> a[i] == b[i]
    requires forall i :: 12 <= i < 16 ==> f[i] == g[i]
    ensures Confined(s + a + f + e, s + b + g + e, |s| + |a| - 1, 13)
  {
  }

  /** The generator in packet order ends with its bit 11. */
  lemma FieldOfSum(c: Word)
    ensures forall i :: 12 <= i < 16 ==> FieldBits(Xor(c, POLY))[i] == FieldBits(c)[i]
  {
  }

  // ---------------------------------------------------------------------------------------------
  // The exact limit
  // ---------------------------------------------------------------------------------------------

  /** The lowest bit of the first of four bytes, carried through the division: bit 6 of the register is
      set in the end and bit 7 is not. They are the last two bits of the checksum in a packet. */
  lemma TypeBitTrace(w: Word)
    requires w == Upper(Zeros(7) + [true])
    ensures Shifts(w, 32)[6] && !Shifts(w, 32)[7]
  {
    hide Shift, Shifts;
    var c1 := FourMore(w, 28);
    var c2 := FourMore(c1, 24);
    var c3 := FourMore(c2, 20);
    var c4 := FourMore(c3, 16);
    var c5 := FourMore(c4, 12);
    var c6 := FourMore(c5, 8);
    var c7 := FourMore(c6, 4);
    FourSteps(c7, Shifts(c7, 4));
  }

  lemma FourMore(c: Word, n: nat) returns (d: Word)
    ensures d == Shifts(c, 4) && Shifts(c, 4 + n) == Shifts(d, n)
    ensures d[0] == (c[4] != c[0]) && d[1] == (c[5] != c[1]) && d[2] == (c[6] != c[2]) && d[3] == (c[7] != c[3])
    ensures d[4] == c[8] && d[5] == c[9] && d[6] == c[10] && d[7] == (c[11] != c[0])
    ensures d[8] == (c[12] != c[1]) && d[9] == (c[13] != c[2]) && d[10] == (c[14] != c[3]) && d[11] == c[15]
    ensures d[12] == c[0] && d[13] == c[1] && d[14] == c[2] && d[15] == c[3]
  {
    hide Shift, Shifts;
    d := Shifts(c, 4);
    FourSteps(c, d);
    ShiftsAdd(c, 4, n);
  }

  lemma TypeBitChecksums()
    ensures var f, g := FieldBits(Crc(ZERO, [1, 0, 1, 0])), FieldBits(Crc(ZERO, [0, 0, 1, 0]));
      f[14] != g[14] && f[15] == g[15]
  {
    hide Crc, Shifts, Slice, Contributions;
    var rest: seq<Byte> := [0, 1, 0];
    FirstOfFour(1, rest);
    FirstOfFour(0, rest);
    assert [1, 0, 1, 0] == [1] + rest && [0, 0, 1, 0] == [0] + rest;
    BitsOfZero(8);
    SmallBytes();
    ShiftsZero(32);
    assert Upper(Zeros(8)) == ZERO;
    SliceThree(Zeros(8));
    SliceThree(Zeros(7) + [true]);
    TypeBitTrace(Upper(Zeros(7) + [true]));
  }

  lemma FirstOfFour(a: Byte, rest: seq<Byte>)
    requires |rest| == 3
    ensures Crc(ZERO, [a] + rest) == Xor(Slice(3, ByteBits(a)), Contributions(rest))
  {
    hide Crc, Shifts, Slice, Xor, BitsOf;
    var data := [a] + rest;
    CrcContributions(ZERO, data);
    ShiftsZero(8 * |data|);
    ContributionsFirst(data);
    assert data[1..] == rest;
    XorZero(Contributions(data));
  }

  lemma SliceThree(b: seq<bool>)
    requires |b| == 8
    ensures Slice(3, b) == Shifts(Upper(b), 32)
  {
    hide Shifts;
  }

  lemma SmallBytes()
    ensures ByteBits(0) == Zeros(8) && ByteBits(1) == Zeros(7) + [true]
  {
    BitsOfZero(8);
    BitsOfZero(7);
  }

  lemma CoveredFrameless(kind: Byte)
    ensures |Encoding(kind, [])| == 8 && CoveredPart(Encoding(kind, [])) == [kind, 0, 1, 0]
    ensures Encoding(kind, [])[1] == kind && Sealed(Encoding(kind, []))
  {
    hide Crc, CrcMatches, ByteNum, BitsOf, Sealed;
    EncodingIsSealed(kind, []);
    var p := Encoding(kind, []);
    assert Covered(kind, []) == [kind, 0, 1, 0];
    assert p[1..5] == Covered(kind, []);
  }

  /** Where the two frameless packets differ: from the lowest type bit to the last checksum bit but one. */
  lemma FramelessDiffer(p: seq<Byte>, q: seq<Byte>, i: nat)
    requires p == Encoding(1, []) && q == Encoding(0, []) && i < 64
    ensures |MessageBits(p)| == |MessageBits(q)| == 64
    ensures MessageBits(p)[i] != MessageBits(q)[i] ==> i == 15 || 40 <= i < 55
    ensures i == 15 || i == 54 ==> MessageBits(p)[i] != MessageBits(q)[i]
  {
    hide Encoding, Crc, MessageBits, BitsOf, Sealed, ByteBits;
    CoveredFrameless(1);
    CoveredFrameless(0);
    SealedBits(p);
    SealedBits(q);
    TypeBitChecksums();
    SmallBytes();
    MessageBitsAt([1, 0, 1, 0], if 8 <= i < 40 then i - 8 else 0);
    MessageBitsAt([0, 0, 1, 0], if 8 <= i < 40 then i - 8 else 0);
  }

  /** The burst between the two frameless packets is 40 bits long. */
  lemma FramelessBurst(p: seq<Byte>, q: seq<Byte>, from: int, width: nat)
    requires (p == Encoding(1, []) && q == Encoding(0, [])) || (p == Encoding(0, []) && q == Encoding(1, []))
    ensures |p| == |q| && (Burst(p, q, from, width) <==> from <= 15 && 55 <= from + width)
  {
    hide Encoding, MessageBits, Confined, Sealed;
    CoveredFrameless(1);
    CoveredFrameless(0);
    FramelessSpan(Encoding(1, []), Encoding(0, []), from, width);
    ConfinedEitherWay(MessageBits(p), MessageBits(q), from, width);
  }

  lemma FramelessSpan(one: seq<Byte>, zero: seq<Byte>, from: int, width: nat)
    requires one == Encoding(1, []) && zero == Encoding(0, [])
    ensures |MessageBits(one)| == |MessageBits(zero)|
    ensures Confined(MessageBits(one), MessageBits(zero), from, width) <==> from <= 15 && 55 <= from + width
  {
    hide Encoding, MessageBits;
    FramelessDiffer(one, zero, 15);
    FramelessDiffer(one, zero, 54);
    forall i: nat | i < 64
      ensures MessageBits(one)[i] != MessageBits(zero)[i] ==> 15 <= i < 55
    {
      FramelessDiffer(one, zero, i);
    }
  }

  lemma ConfinedEitherWay(a: seq<bool>, b: seq<bool>, from: int, width: nat)
    requires |a| == |b|
    ensures Confined(a, b, from, width) <==> Confined(b, a, from, width)
  {
  }

  /** The only other packet of that length that is not rejected is the one of the other type. */
  lemma FramelessRest(kind: Byte, q: seq<Byte>, d: Decoded)
    requires kind == TYPE_CAN2UDP || kind == TYPE_UDP2CAN
    requires |q| == |Encoding(kind, [])| && q != Encoding(kind, []) && DecodesTo(q, d)
    requires d.error == Ok || d.delivered != []
    ensures q == Encoding(1 - kind, [])
  {
    hide Encoding, CrcMatches, Nth;
    CoveredFrameless(kind);
    assert d.delivered == [] && d.error == Ok;
    Converse(q, d);
    CoveredFrameless(q[1]);
  }

  /** Whatever burst of at most this width hits the packet, it is rejected and nothing is delivered. */
  ghost predicate RejectsBursts(p: seq<Byte>, width: nat) {
    forall q: seq<Byte>, from: int, d: Decoded ::
      |q| == |p| && Burst(p, q, from, width) && DecodesTo(q, d) ==> d.error != Ok && d.delivered == []
  }

  lemma WiderBurst(p: seq<Byte>, q: seq<Byte>, from: int, narrow: nat, wide: nat)
    requires |p| == |q| && narrow <= wide && Burst(p, q, from, narrow)
    ensures Burst(p, q, from, wide)
  {
    hide MessageBits;
  }

  /**
   The limits are exact: of an encoded packet every burst of a given width, wherever it lies, is rejected
   if and only if the width is at most twelve bits, or at most 39 if the packet carries no frame.
   */
  lemma BurstLimit(kind: Byte, frames: seq<CanFrame>, width: nat)
    requires |frames| <= MAX_FRAMES_PER_PACKET && AllValid(frames)
    requires kind == TYPE_CAN2UDP || kind == TYPE_UDP2CAN
    ensures RejectsBursts(Encoding(kind, frames), width) <==> width <= (if frames == [] then 39 else 12)
  {
    hide Encoding, RejectsBursts;
    if frames == [] {
      FramelessLimit(kind, width);
    } else if width <= 12 {
      TwelveBitsSafe(kind, frames, width);
    } else {
      ThirteenBitsUnsafe(kind, frames, width);
    }
  }

  lemma FramelessLimit(kind: Byte, width: nat)
    requires kind == TYPE_CAN2UDP || kind == TYPE_UDP2CAN
    ensures RejectsBursts(Encoding(kind, []), width) <==> width <= 39
  {
    hide Encoding, Burst, DecodesTo;
    var p, other := Encoding(kind, []), Encoding(1 - kind, []);
    if width <= 39 {
      forall q: seq<Byte>, from: int, d: Decoded | |q| == |p| && Burst(p, q, from, width) && DecodesTo(q, d)
        ensures d.error != Ok && d.delivered == []
      {
        if d.error == Ok || d.delivered != [] {
          BurstAlters(p, q, from, width);
          FramelessRest(kind, q, d);
          FramelessBurst(p, q, from, width);
        }
      }
    } else {
      FramelessBurst(p, other, 15, width);
      EncodingDecodes(1 - kind, []);
      assert Burst(p, other, 15, width) && DecodesTo(other, Decoded(Ok, []));
    }
  }

  lemma BurstAlters(p: seq<Byte>, q: seq<Byte>, from: int, width: nat)
    requires |p| == |q| && Burst(p, q, from, width)
    ensures p != q
  {
  }

  lemma TwelveBitsSafe(kind: Byte, frames: seq<CanFrame>, width: nat)
    requires |frames| <= MAX_FRAMES_PER_PACKET && width <= 12
    ensures RejectsBursts(Encoding(kind, frames), width)
  {
    hide Encoding, Burst, DecodesTo, Sealed;
    var p := Encoding(kind, frames);
    EncodingIsSealed(kind, frames);
    forall q: seq<Byte>, from: int, d: Decoded | |q| == |p| && Burst(p, q, from, width) && DecodesTo(q, d)
      ensures d.error != Ok && d.delivered == []
    {
      WiderBurst(p, q, from, width, 12);
      ShortBurstRejected(p, q, from, d);
    }
  }

  lemma ThirteenBitsUnsafe(kind: Byte, frames: seq<CanFrame>, width: nat)
    requires 0 < |frames| <= MAX_FRAMES_PER_PACKET && AllValid(frames) && width >= 13
    requires kind == TYPE_CAN2UDP || kind == TYPE_UDP2CAN
    ensures !RejectsBursts(Encoding(kind, frames), width)
  {
    hide Encoding, Burst, DecodesTo, Tampered, AllValid;
    var t := Tampered(frames);
    var d := Decoded(Ok, t);
    TamperedValid(frames);
    EncodingDecodes(kind, t);
    ThirteenBitsUnnoticed(kind, frames, d);
    WiderBurst(Encoding(kind, frames), Encoding(kind, t), 39 + 112 * |frames|, 13, width);
  }

  lemma TamperedValid(frames: seq<CanFrame>)
    requires frames != [] && AllValid(frames)
    ensures AllValid(Tampered(frames))
  {
  }
}
