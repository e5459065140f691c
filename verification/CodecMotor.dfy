/**
 The CAN-over-UDP packet: start byte, type, big-endian payload length, message count, 14-byte CAN
 entries, little-endian checksum, end byte.
 */
module CodecMotor {
  import opened Bits
  import opened Fleet
  import opened Checksum

  const STX: Byte := 0xAA
  const ETX: Byte := 0xBB
  const TYPE_CAN2UDP: Byte := 0
  const TYPE_UDP2CAN: Byte := 1
  const CAN_ENTRY_SZ: nat := 14
  const MIN_PACKET_SZ: nat := 8
  const MAX_CAN_DATA_LEN: nat := 8
  const MAX_FRAMES_PER_PACKET: nat := 32
  const EXTENDED_ID_FLAG: nat := 0x8000_0000
  const EMPTY_DATA: seq<Byte> := [0, 0, 0, 0, 0, 0, 0, 0]

  type U32 = n: nat | n < 0x1_0000_0000
  type CanData = d: seq<Byte> | |d| == 8 witness [0, 0, 0, 0, 0, 0, 0, 0]

  datatype CanFrame = CanFrame(port: Byte, id: U32, extended: bool, data: CanData, len: Byte) {
    predicate Valid() {
      id <= (if extended then 0x1FFF_FFFF else 0x7FF) && len <= MAX_CAN_DATA_LEN
    }
  }

  function PacketSize(payloadLen: nat): nat { 4 + payloadLen + 2 + 1 }

  function PayloadLenFor(count: nat): nat { 1 + count * CAN_ENTRY_SZ }

  // ---------------------------------------------------------------------------------------------
  // Writing
  // ---------------------------------------------------------------------------------------------

  /** The id on the wire: bit 31 marks an extended frame. */
  function WireId(frame: CanFrame): U32 {
    if frame.extended && frame.id < EXTENDED_ID_FLAG then frame.id + EXTENDED_ID_FLAG else frame.id
  }

  function U32Bytes(n: U32): (b: seq<Byte>)
    ensures |b| == 4
  {
    [n / 0x100_0000, Low8(n / 0x1_0000), Low8(n / 256), Low8(n)]
  }

  function Entry(frame: CanFrame): (b: seq<Byte>)
    ensures |b| == 14
  {
    [frame.port] + U32Bytes(WireId(frame)) + [frame.len] + frame.data
  }

  function Entries(frames: seq<CanFrame>): (b: seq<Byte>)
    ensures |b| == 14 * |frames|
  {
    if frames == [] then [] else Entries(frames[..|frames| - 1]) + Entry(frames[|frames| - 1])
  }

  /** The part of a packet that the checksum covers: type, length, count and entries. */
  function Covered(kind: Byte, frames: seq<CanFrame>): (b: seq<Byte>)
    requires |frames| <= MAX_FRAMES_PER_PACKET
    ensures |b| == 4 + 14 * |frames|
  {
    var len := PayloadLenFor(|frames|);
    [kind, len / 256, Low8(len), |frames|] + Entries(frames)
  }

  function Encoding(kind: Byte, frames: seq<CanFrame>): (b: seq<Byte>)
    requires |frames| <= MAX_FRAMES_PER_PACKET
    ensures |b| == PacketSize(PayloadLenFor(|frames|))
  {
    var covered := Covered(kind, frames);
    var crc := Crc(ZERO, covered);
    [STX] + covered + [ByteNum(Lo(crc)), ByteNum(Hi(crc)), ETX]
  }

  predicate AllValid(frames: seq<CanFrame>) {
    forall i :: 0 <= i < |frames| ==> frames[i].Valid()
  }

  // ---------------------------------------------------------------------------------------------
  // The format, byte for byte
  // ---------------------------------------------------------------------------------------------

  /** A packet with `n` entries: start, length, count, checksum and end are where the protocol has them. */
  ghost predicate Envelope(b: seq<Byte>, n: nat) {
    && n <= 32 && |b| == 8 + 14 * n
    && b[0] == 0xAA && b[2] as nat * 256 + b[3] == 1 + 14 * n && b[4] == n
    && b[6 + 14 * n] as nat * 256 + b[5 + 14 * n] == Num(Crc(Zeros(16), b[1..5 + 14 * n]))
    && b[7 + 14 * n] == 0xBB
  }

  /** The i-th entry of a packet. */
  function EntryBytes(b: seq<Byte>, i: nat): (e: seq<Byte>)
    requires 19 + 14 * i <= |b|
    ensures |e| == 14
  {
    b[5 + 14 * i..19 + 14 * i]
  }

  /** Port, big-endian id whose bit 31 marks an extended frame, length, eight data bytes. */
  predicate EntryShows(e: seq<Byte>, frame: CanFrame)
    requires |e| == 14
  {
    && e[0] == frame.port && (frame.extended <==> e[1] >= 0x80)
    && e[1] as nat * 0x100_0000 + e[2] as nat * 0x1_0000 + e[3] as nat * 256 + e[4] ==
       frame.id + (if frame.extended then 0x8000_0000 else 0)
    && e[5] == frame.len && e[6..14] == frame.data
  }

  /** Standard ids have 11 bits, extended ones 29, and there are at most eight data bytes. */
  predicate EntryLegal(e: seq<Byte>)
    requires |e| == 14
  {
    && e[5] <= 8
    && (e[1] < 0x80 ==> e[1] == 0 && e[2] == 0 && e[3] <= 7)
    && (e[1] >= 0x80 ==> e[1] < 0xA0)
  }

  /** `b` is the packet of these frames, with this type byte. */
  ghost predicate Layout(b: seq<Byte>, kind: Byte, frames: seq<CanFrame>) {
    && Envelope(b, |frames|) && b[1] == kind
    && forall i :: 0 <= i < |frames| ==> EntryShows(EntryBytes(b, i), frames[i]) && EntryLegal(EntryBytes(b, i))
  }

  lemma TopDigit(n: U32)
    ensures n / 0x100_0000 == Low8(n / 0x100_0000)
  {
  }

  lemma U32Digits(n: U32)
    ensures var b := U32Bytes(n); U32Be(b[0], b[1], b[2], b[3]) == n
  {
    hide Low8, U32Be;
    Digits(n);
    TopDigit(n);
  }

  lemma U32Split(n: U32)
    ensures var b := U32Bytes(n); n == b[0] as nat * 0x100_0000 + b[1] as nat * 0x1_0000 + b[2] as nat * 256 + b[3]
  {
    hide U32Bytes;
    U32Digits(n);
  }

  /** The bounds of a number in its first bytes. */
  lemma U32Bounds(n: U32)
    ensures var b := U32Bytes(n);
      && (n < 0x8000_0000 <==> b[0] < 0x80) && (n < 0xA000_0000 <==> b[0] < 0xA0)
      && (n <= 0x7FF <==> b[0] == 0 && b[1] == 0 && b[2] <= 7)
  {
    hide U32Be;
    U32Digits(n);
    U32Split(n);
  }

  /** An entry shows its frame, and is legal exactly when the frame is valid. */
  lemma EntryLayout(frame: CanFrame)
    requires frame.id < 0x8000_0000
    ensures EntryShows(Entry(frame), frame) && (EntryLegal(Entry(frame)) <==> frame.Valid())
  {
    hide U32Bytes;
    var n := WireId(frame);
    U32Split(n);
    U32Bounds(n);
    var b, w := Entry(frame), U32Bytes(n);
    assert b[1] == w[0] && b[2] == w[1] && b[3] == w[2] && b[4] == w[3] && b[6..14] == frame.data;
  }

  method WriteCanEntry(out: array<Byte>, offset: nat, frame: CanFrame)
    requires offset + CAN_ENTRY_SZ <= out.Length
    modifies out
    ensures out[offset..offset + CAN_ENTRY_SZ] == Entry(frame)
    ensures frame.id < 0x8000_0000 ==> EntryShows(out[offset..offset + 14], frame)
    ensures out[..offset] == old(out[..offset])
    ensures out[offset + CAN_ENTRY_SZ..] == old(out[offset + CAN_ENTRY_SZ..])
  {
    var wireId := WireId(frame);
    out[offset] := frame.port;
    out[offset + 1] := wireId / 0x100_0000;
    out[offset + 2] := Low8(wireId / 0x1_0000);
    out[offset + 3] := Low8(wireId / 256);
    out[offset + 4] := Low8(wireId);
    out[offset + 5] := frame.len;
    for k := 0 to 8
      invariant out[..offset] == old(out[..offset])
      invariant out[offset + CAN_ENTRY_SZ..] == old(out[offset + CAN_ENTRY_SZ..])
      invariant out[offset..offset + 6 + k] == [frame.port] + U32Bytes(wireId) + [frame.len] + frame.data[..k]
    {
      out[offset + 6 + k] := frame.data[k];
      assert out[offset..offset + 6 + k + 1] == out[offset..offset + 6 + k] + [frame.data[k]];
      assert frame.data[..k] + [frame.data[k]] == frame.data[..k + 1];
    }
    assert frame.data[..8] == frame.data;
    if frame.id < 0x8000_0000 {
      EntryLayout(frame);
    }
  }

  lemma NoEntries(frames: seq<CanFrame>)
    ensures Entries(frames[..0]) == []
  {
  }

  lemma EntriesMore(frames: seq<CanFrame>, i: nat)
    requires i < |frames|
    ensures Entries(frames[..i + 1]) == Entries(frames[..i]) + Entry(frames[i])
  {
    assert frames[..i + 1][..i] == frames[..i];
  }

  /** Writes everything before the checksum. */
  method WriteCovered(out: array<Byte>, kind: Byte, frames: seq<CanFrame>)
    requires |frames| <= MAX_FRAMES_PER_PACKET && out.Length >= 5 + 14 * |frames|
    modifies out
    ensures out[..5 + 14 * |frames|] == [STX] + Covered(kind, frames)
    ensures out[5 + 14 * |frames|..] == old(out[5 + 14 * |frames|..])
  {
    hide Entry, Entries, Low8;
    var payloadLen := PayloadLenFor(|frames|);
    out[0] := STX;
    out[1] := kind;
    out[2] := payloadLen / 256;
    out[3] := Low8(payloadLen);
    out[4] := |frames|;
    var offset := 5;
    ghost var header := [STX, kind, payloadLen / 256, Low8(payloadLen), |frames|];
    NoEntries(frames);
    for i := 0 to |frames|
      invariant offset == 5 + 14 * i
      invariant out[..offset] == header + Entries(frames[..i])
      invariant out[offset..] == old(out[offset..])
    {
      assert out[offset + 14..] == out[offset..][14..];
      assert old(out[offset + 14..]) == old(out[offset..])[14..];
      WriteCanEntry(out, offset, frames[i]);
      EntriesMore(frames, i);
      assert out[..offset + 14] == out[..offset] + out[offset..offset + 14];
      offset := offset + CAN_ENTRY_SZ;
    }
    assert frames[..|frames|] == frames;
  }

  lemma U32OfDigits(b0: Byte, b1: Byte, b2: Byte, b3: Byte)
    ensures U32Bytes(U32Be(b0, b1, b2, b3)) == [b0, b1, b2, b3]
  {
    var n := U32Be(b0, b1, b2, b3);
    assert n / 256 == 0x1_0000 * b0 + 256 * b1 + b2;
    assert n / 0x1_0000 == 256 * b0 + b1;
    assert n / 0x100_0000 == b0;
  }

  lemma {:induction false} EntriesAt(frames: seq<CanFrame>, i: nat)
    requires i < |frames|
    ensures Entries(frames)[14 * i..14 * i + 14] == Entry(frames[i])
  {
    hide Entry;
    var last := |frames| - 1;
    if i < last {
      EntriesAt(frames[..last], i);
      assert Entries(frames)[14 * i..14 * i + 14] == Entries(frames[..last])[14 * i..14 * i + 14];
    }
  }

  /** The two checksum bytes, low one first, are the checksum as a number. */
  lemma TrailerNumber(crc: Word)
    ensures ByteNum(Lo(crc)) + 256 * ByteNum(Hi(crc)) == Num(crc)
  {
    hide BitsOf, Num, Pow2;
    Pow2Byte();
    NumConcat(Hi(crc), Lo(crc));
    assert crc == Hi(crc) + Lo(crc);
  }

  /** The parts of an encoding, by position. */
  lemma EncodingParts(kind: Byte, frames: seq<CanFrame>)
    requires |frames| <= MAX_FRAMES_PER_PACKET
    ensures var b, n, covered := Encoding(kind, frames), |frames|, Covered(kind, frames);
      && |b| == 8 + 14 * n && b[0] == STX && b[7 + 14 * n] == ETX
      && b[1..5 + 14 * n] == covered && b[5..5 + 14 * n] == Entries(frames)
      && b[1] == kind && b[2] as nat * 256 + b[3] == 1 + 14 * n && b[4] == n
      && b[5 + 14 * n] == ByteNum(Lo(Crc(ZERO, covered))) && b[6 + 14 * n] == ByteNum(Hi(Crc(ZERO, covered)))
  {
    hide Crc, Entries, ByteNum, BitsOf;
    var b, n, covered := Encoding(kind, frames), |frames|, Covered(kind, frames);
    assert b[1..5 + 14 * n] == covered;
    assert covered[4..] == Entries(frames);
  }

  /** The encoding of valid frames has the layout of their packet. */
  lemma EncodingLayout(kind: Byte, frames: seq<CanFrame>)
    requires |frames| <= MAX_FRAMES_PER_PACKET && AllValid(frames)
    ensures Layout(Encoding(kind, frames), kind, frames)
  {
    hide Crc, Entries, Entry, EntryShows, EntryLegal, Num, ByteNum, Encoding, Covered, BitsOf;
    var b, n := Encoding(kind, frames), |frames|;
    EncodingParts(kind, frames);
    TrailerNumber(Crc(ZERO, Covered(kind, frames)));
    assert Envelope(b, n);
    forall i | 0 <= i < n
      ensures EntryShows(EntryBytes(b, i), frames[i]) && EntryLegal(EntryBytes(b, i))
    {
      EntriesAt(frames, i);
      EntryLayout(frames[i]);
      assert EntryBytes(b, i) == b[5..5 + 14 * n][14 * i..14 * i + 14];
    }
  }

  /** Encodes into a caller's buffer; a failure leaves the buffer untouched. */
  method EncodeInto(tables: seq<seq<Word>>, out: array<Byte>, kind: Byte, frames: seq<CanFrame>)
    returns (r: Result<nat>)
    requires AreSlices(tables)
    modifies out
    ensures |frames| > MAX_FRAMES_PER_PACKET ==> r == Failure(ProtocolError)
    ensures |frames| <= MAX_FRAMES_PER_PACKET ==>
              var size := PacketSize(PayloadLenFor(|frames|));
              if out.Length < size then r == Failure(InvalidArgument)
              else if !AllValid(frames) then r == Failure(ProtocolError)
              else r == Success(size)
    ensures r.Success? <==>
              && |frames| <= 32 && out.Length >= 8 + 14 * |frames|
              && forall i :: 0 <= i < |frames| ==>
                   frames[i].len <= 8 && frames[i].id <= (if frames[i].extended then 0x1FFF_FFFF else 0x7FF)
    ensures r.Success? ==> r.value == 8 + 14 * |frames| && Layout(out[..r.value], kind, frames)
    ensures r.Success? ==>
              && |frames| <= MAX_FRAMES_PER_PACKET
              && r.value <= out.Length
              && out[..r.value] == Encoding(kind, frames)
              && out[r.value..] == old(out[r.value..])
    ensures r.Failure? ==> out[..] == old(out[..])
  {
    hide Crc, Covered, ByteNum, AreSlices, Layout;
    if |frames| > MAX_FRAMES_PER_PACKET {
      return Failure(ProtocolError);
    }
    var payloadLen := PayloadLenFor(|frames|);
    var size := PacketSize(payloadLen);
    if out.Length < size {
      return Failure(InvalidArgument);
    }
    for i := 0 to |frames|
      invariant forall j :: 0 <= j < i ==> frames[j].Valid()
    {
      if !frames[i].Valid() {
        return Failure(ProtocolError);
      }
    }
    WriteCovered(out, kind, frames);
    var offset := 4 + payloadLen;
    assert out[size..] == old(out[size..]) by {
      assert out[size..] == out[offset..][3..];
      assert old(out[size..]) == old(out[offset..])[3..];
    }
    ghost var covered := Covered(kind, frames);
    assert out[1..offset] == covered by {
      assert out[1..offset] == out[..offset][1..];
    }
    var crc := Crc16Ccitt(tables, out[1..1 + 3 + payloadLen]);
    out[offset] := ByteNum(Lo(crc));
    out[offset + 1] := ByteNum(Hi(crc));
    out[offset + 2] := ETX;
    assert out[..size] == out[..offset] + [ByteNum(Lo(crc)), ByteNum(Hi(crc)), ETX];
    assert out[..offset] == [STX] + covered;
    EncodingLayout(kind, frames);
    r := Success(size);
  }

  // ---------------------------------------------------------------------------------------------
  // Reading
  // ---------------------------------------------------------------------------------------------

  function PayloadLen(bytes: seq<Byte>): nat
    requires |bytes| >= MIN_PACKET_SZ
  {
    U16Be(bytes[2], bytes[3])
  }

  /** The payload length of a well-framed packet. */
  function ReadHeader(bytes: seq<Byte>): Result<nat> {
    if |bytes| < MIN_PACKET_SZ || bytes[0] != STX || bytes[|bytes| - 1] != ETX then
      Failure(ProtocolError)
    else if bytes[1] != TYPE_CAN2UDP && bytes[1] != TYPE_UDP2CAN then
      Failure(Unsupported)
    else if |bytes| != PacketSize(PayloadLen(bytes)) || PayloadLen(bytes) < 1 then
      Failure(ProtocolError)
    else
      Success(PayloadLen(bytes))
  }

  /** Does the trailing checksum match the covered bytes? */
  predicate CrcMatches(bytes: seq<Byte>, payloadLen: nat)
    requires |bytes| == PacketSize(payloadLen)
  {
    Crc(ZERO, bytes[1..4 + payloadLen]) ==
    ByteBits(bytes[4 + payloadLen + 1]) + ByteBits(bytes[4 + payloadLen])
  }

  /** The frame in the entry at `offset`, whether or not it is valid. */
  function FrameAt(bytes: seq<Byte>, offset: nat): CanFrame
    requires offset + CAN_ENTRY_SZ <= |bytes|
  {
    var wireId := U32Be(bytes[offset + 1], bytes[offset + 2], bytes[offset + 3], bytes[offset + 4]);
    CanFrame(bytes[offset], wireId % EXTENDED_ID_FLAG, wireId >= EXTENDED_ID_FLAG,
             bytes[offset + 6..offset + 14], bytes[offset + 5])
  }

  datatype Decoded = Decoded(error: Err, delivered: seq<CanFrame>)

  /** Header, checksum and count all pass: only then are entries looked at. */
  predicate Accepted(bytes: seq<Byte>) {
    && ReadHeader(bytes).Success?
    && CrcMatches(bytes, PayloadLen(bytes))
    && PayloadLen(bytes) == PayloadLenFor(bytes[4])
    && bytes[4] <= MAX_FRAMES_PER_PACKET
  }

  function FrameCount(bytes: seq<Byte>): (n: nat)
    requires Accepted(bytes)
    ensures n <= MAX_FRAMES_PER_PACKET && |bytes| == PacketSize(PayloadLenFor(n))
  {
    bytes[4]
  }

  function Nth(bytes: seq<Byte>, i: nat): CanFrame
    requires Accepted(bytes) && i < FrameCount(bytes)
  {
    FrameAt(bytes, 5 + 14 * i)
  }

  /** What the handler gets and what is returned: entries are delivered up to the first invalid one. */
  ghost predicate DecodesTo(bytes: seq<Byte>, d: Decoded) {
    if !Accepted(bytes) then
      d.delivered == [] && d.error == RejectionOf(bytes)
    else
      && |d.delivered| <= FrameCount(bytes)
      && (forall i :: 0 <= i < |d.delivered| ==> d.delivered[i] == Nth(bytes, i) && Nth(bytes, i).Valid())
      && (|d.delivered| < FrameCount(bytes) ==> !Nth(bytes, |d.delivered|).Valid())
      && d.error == (if |d.delivered| == FrameCount(bytes) then Ok else ProtocolError)
  }

  /**
   The same off the bytes alone: an unknown type is unsupported; a packet whose envelope is right delivers
   its entries up to the first that is not legal; anything else is a protocol error.
   */
  ghost predicate Hears(bytes: seq<Byte>, d: Decoded) {
    if |bytes| >= 8 && bytes[0] == 0xAA && bytes[|bytes| - 1] == 0xBB && bytes[1] > 1 then
      d == Decoded(Unsupported, [])
    else if |bytes| >= 8 && Envelope(bytes, bytes[4]) then
      && |d.delivered| <= bytes[4]
      && (forall i :: 0 <= i < |d.delivered| ==>
            EntryShows(EntryBytes(bytes, i), d.delivered[i]) && EntryLegal(EntryBytes(bytes, i)))
      && (if |d.delivered| == bytes[4] then d.error == Ok
          else d.error == ProtocolError && !EntryLegal(EntryBytes(bytes, |d.delivered|)))
    else
      d == Decoded(ProtocolError, [])
  }

  function RejectionOf(bytes: seq<Byte>): (e: Err)
    requires !Accepted(bytes)
    ensures e != Ok
  {
    var header := ReadHeader(bytes);
    if header.Failure? then header.error else ProtocolError
  }

  /** An entry shows only one frame, and a frame is shown by only one entry. */
  lemma EntryShowsOne(e: seq<Byte>, f: CanFrame, c: seq<Byte>, g: CanFrame)
    requires |e| == 14 && |c| == 14 && EntryShows(e, f) && EntryShows(c, g) && f.Valid() && g.Valid()
    ensures e == c <==> f == g
  {
    if f == g {
      U32OfDigits(e[1], e[2], e[3], e[4]);
      U32OfDigits(c[1], c[2], c[3], c[4]);
      assert e == [e[0]] + [e[1], e[2], e[3], e[4]] + [e[5]] + e[6..14];
      assert c == [c[0]] + [c[1], c[2], c[3], c[4]] + [c[5]] + c[6..14];
    }
  }

  lemma ShownIsValid(e: seq<Byte>, frame: CanFrame)
    requires |e| == 14 && EntryShows(e, frame) && EntryLegal(e)
    ensures frame.Valid()
  {
  }

  /** Two packets with the same type byte are equal exactly when their frames are. */
  lemma LayoutDetermined(a: seq<Byte>, b: seq<Byte>, kind: Byte, f: seq<CanFrame>, g: seq<CanFrame>)
    requires Layout(a, kind, f) && Layout(b, kind, g)
    ensures a == b <==> f == g
  {
    hide Crc, Num, EntryShows, EntryLegal;
    forall i | 0 <= i < |f| && i < |g|
      ensures EntryBytes(a, i) == EntryBytes(b, i) <==> f[i] == g[i]
    {
      ShownIsValid(EntryBytes(a, i), f[i]);
      ShownIsValid(EntryBytes(b, i), g[i]);
      EntryShowsOne(EntryBytes(a, i), f[i], EntryBytes(b, i), g[i]);
    }
    if f == g {
      SameEntries(a, b, |f|);
      SameEnds(a, b, |f|);
    }
  }

  lemma {:induction false} SameEntries(a: seq<Byte>, b: seq<Byte>, n: nat)
    requires |a| == |b| >= 5 + 14 * n && forall i :: 0 <= i < n ==> EntryBytes(a, i) == EntryBytes(b, i)
    ensures a[5..5 + 14 * n] == b[5..5 + 14 * n]
  {
    if n > 0 {
      SameEntries(a, b, n - 1);
      assert a[5..5 + 14 * n] == a[5..5 + 14 * (n - 1)] + EntryBytes(a, n - 1);
      assert b[5..5 + 14 * n] == b[5..5 + 14 * (n - 1)] + EntryBytes(b, n - 1);
    }
  }

  lemma SamePair(h: Byte, l: Byte, h2: Byte, l2: Byte)
    requires h as nat * 256 + l == h2 as nat * 256 + l2
    ensures h == h2 && l == l2
  {
  }

  lemma SameEnds(a: seq<Byte>, b: seq<Byte>, n: nat)
    requires Envelope(a, n) && Envelope(b, n) && a[1] == b[1] && a[5..5 + 14 * n] == b[5..5 + 14 * n]
    ensures a == b
  {
    hide Crc, Num, Pow2;
    SamePair(a[2], a[3], b[2], b[3]);
    assert a[1..5 + 14 * n] == [a[1], a[2], a[3], a[4]] + a[5..5 + 14 * n];
    assert b[1..5 + 14 * n] == [b[1], b[2], b[3], b[4]] + b[5..5 + 14 * n];
    SamePair(a[6 + 14 * n], a[5 + 14 * n], b[6 + 14 * n], b[5 + 14 * n]);
    Reassembled(a, n);
    Reassembled(b, n);
  }

  lemma Reassembled(a: seq<Byte>, n: nat)
    requires |a| == 8 + 14 * n
    ensures a == [a[0]] + a[1..5 + 14 * n] + [a[5 + 14 * n], a[6 + 14 * n], a[7 + 14 * n]]
  {
  }

  /** Decodes a datagram for a handler. */
  method DecodeEntries(tables: seq<seq<Word>>, bytes: seq<Byte>) returns (d: Decoded)
    requires AreSlices(tables)
    ensures DecodesTo(bytes, d)
  {
    hide Crc, BitsOf, FrameAt;
    var header := ReadHeader(bytes);
    if header.Failure? {
      return Decoded(header.error, []);
    }
    var payloadLen := header.value;
    var crc := Crc16Ccitt(tables, bytes[1..1 + 3 + payloadLen]);
    if crc != ByteBits(bytes[4 + payloadLen + 1]) + ByteBits(bytes[4 + payloadLen]) {
      return Decoded(ProtocolError, []);
    }
    var count := bytes[4];
    if payloadLen != PayloadLenFor(count) || count > MAX_FRAMES_PER_PACKET {
      return Decoded(ProtocolError, []);
    }
    var offset := 5;
    var delivered := [];
    for index := 0 to count
      invariant offset == 5 + 14 * index
      invariant |delivered| == index
      invariant forall i :: 0 <= i < index ==> delivered[i] == Nth(bytes, i) && Nth(bytes, i).Valid()
    {
      var frame := FrameAt(bytes, offset);
      if !frame.Valid() {
        return Decoded(ProtocolError, delivered);
      }
      offset := offset + CAN_ENTRY_SZ;
      delivered := delivered + [frame];
    }
    d := Decoded(Ok, delivered);
  }

  lemma AcceptedHeader(bytes: seq<Byte>)
    requires Accepted(bytes)
    ensures var len := PayloadLen(bytes);
      && len == PayloadLenFor(bytes[4]) && |bytes| == PacketSize(len)
      && bytes[0] == STX && bytes[2] == len / 256 && bytes[3] == Low8(len) && bytes[len + 6] == ETX
  {
    hide CrcMatches;
  }

  /** A matching checksum is the one its two bytes encode. */
  lemma CrcBytes(bytes: seq<Byte>, len: nat)
    requires |bytes| == PacketSize(len) && CrcMatches(bytes, len)
    ensures var crc := Crc(ZERO, bytes[1..4 + len]);
      ByteNum(Lo(crc)) == bytes[4 + len] && ByteNum(Hi(crc)) == bytes[4 + len + 1]
  {
    hide Crc, BitsOf, ByteNum;
    var crc := Crc(ZERO, bytes[1..4 + len]);
    ByteRoundTrip(bytes[4 + len]);
    ByteRoundTrip(bytes[4 + len + 1]);
    assert Lo(crc) == ByteBits(bytes[4 + len]) && Hi(crc) == ByteBits(bytes[4 + len + 1]);
  }

  /** An entry shows the frame read from it, which is valid exactly when the entry is legal. */
  lemma EntryRead(bytes: seq<Byte>, i: nat)
    requires 19 + 14 * i <= |bytes|
    ensures var frame := FrameAt(bytes, 5 + 14 * i);
      EntryShows(EntryBytes(bytes, i), frame) && (frame.Valid() <==> EntryLegal(EntryBytes(bytes, i)))
  {
    var e, o := EntryBytes(bytes, i), 5 + 14 * i;
    assert e[0] == bytes[o] && e[1] == bytes[o + 1] && e[2] == bytes[o + 2];
    assert e[3] == bytes[o + 3] && e[4] == bytes[o + 4] && e[5] == bytes[o + 5];
    assert e[6..14] == bytes[o + 6..o + 14];
  }

  /** The envelope is right exactly when header, checksum and count pass, whatever the type. */
  lemma AcceptedEnvelope(bytes: seq<Byte>)
    requires |bytes| >= 8 && bytes[1] <= 1
    ensures Accepted(bytes) <==> Envelope(bytes, bytes[4])
  {
    hide Crc, BitsOf, Num, ByteNum;
    var n: nat := bytes[4];
    if |bytes| == 8 + 14 * n {
      TrailerMatches(Crc(ZERO, bytes[1..5 + 14 * n]), bytes[5 + 14 * n], bytes[6 + 14 * n]);
    }
  }

  lemma TrailerMatches(crc: Word, low: Byte, high: Byte)
    ensures crc == ByteBits(high) + ByteBits(low) <==> low + 256 * high == Num(crc)
  {
    hide BitsOf, Num, Pow2;
    Pow2Byte();
    ByteRoundTrip(low);
    ByteRoundTrip(high);
    ByteBitsOfNum(Lo(crc));
    ByteBitsOfNum(Hi(crc));
    TrailerNumber(crc);
    assert crc == Hi(crc) + Lo(crc);
  }

  lemma EnvelopeEnds(b: seq<Byte>, n: nat)
    requires Envelope(b, n)
    ensures |b| == 8 + 14 * n && b[0] == 0xAA && b[|b| - 1] == 0xBB
  {
    hide Crc, Num;
  }

  /** What the decoder delivers and reports can be read off the bytes. */
  lemma HeardOffTheBytes(bytes: seq<Byte>, d: Decoded)
    requires DecodesTo(bytes, d)
    ensures Hears(bytes, d)
  {
    hide Crc, CrcMatches, FrameAt, EntryShows, EntryLegal, Envelope, PayloadLen;
    if |bytes| >= 8 && bytes[1] <= 1 {
      AcceptedEnvelope(bytes);
    }
    if |bytes| >= 8 && Envelope(bytes, bytes[4]) {
      EnvelopeEnds(bytes, bytes[4]);
    }
    if Accepted(bytes) {
      forall i | 0 <= i < FrameCount(bytes)
        ensures var e := EntryBytes(bytes, i);
          EntryShows(e, Nth(bytes, i)) && (Nth(bytes, i).Valid() <==> EntryLegal(e))
      {
        EntryRead(bytes, i);
      }
    }
  }

  /** Decodes a datagram. `delivered` is the sequence of frames handed to the handler. */
  method DecodeEach(tables: seq<seq<Word>>, bytes: seq<Byte>, hasHandler: bool) returns (d: Decoded)
    requires AreSlices(tables)
    ensures !hasHandler ==> d == Decoded(InvalidArgument, [])
    ensures hasHandler ==> DecodesTo(bytes, d) && Hears(bytes, d)
  {
    if !hasHandler {
      return Decoded(InvalidArgument, []);
    }
    d := DecodeEntries(tables, bytes);
    HeardOffTheBytes(bytes, d);
  }

  /** The description of the decoder leaves no choice. */
  lemma DecodesToOne(bytes: seq<Byte>, a: Decoded, b: Decoded)
    requires DecodesTo(bytes, a) && DecodesTo(bytes, b)
    ensures a == b
  {
    hide CrcMatches, FrameAt, ReadHeader;
    if Accepted(bytes) {
      assert |a.delivered| == |b.delivered|;
      assert a.delivered == b.delivered;
    }
  }

  /** The frames from entry i on that are delivered: up to the first invalid one. */
  function DeliveredFrom(bytes: seq<Byte>, i: nat): seq<CanFrame>
    requires Accepted(bytes) && i <= FrameCount(bytes)
    decreases FrameCount(bytes) - i
  {
    if i == FrameCount(bytes) || !Nth(bytes, i).Valid() then [] else [Nth(bytes, i)] + DeliveredFrom(bytes, i + 1)
  }

  function Delivered(bytes: seq<Byte>): seq<CanFrame> {
    if Accepted(bytes) then DeliveredFrom(bytes, 0) else []
  }

  /** What the decoder delivers, as a function of the bytes. */
  lemma DeliveredIs(bytes: seq<Byte>, d: Decoded)
    requires DecodesTo(bytes, d)
    ensures d.delivered == Delivered(bytes)
  {
    hide Accepted;
    if Accepted(bytes) {
      DeliveredTail(bytes, d, 0);
    }
  }

  lemma {:induction false} DeliveredTail(bytes: seq<Byte>, d: Decoded, i: nat)
    requires DecodesTo(bytes, d) && Accepted(bytes) && i <= |d.delivered|
    ensures DeliveredFrom(bytes, i) == d.delivered[i..]
    decreases |d.delivered| - i
  {
    hide Accepted, FrameAt;
    if i < |d.delivered| {
      DeliveredTail(bytes, d, i + 1);
    }
  }

  // ---------------------------------------------------------------------------------------------
  // Printer and parser are inverse
  // ---------------------------------------------------------------------------------------------

  lemma EntryRoundTrip(frame: CanFrame)
    requires frame.Valid()
    ensures FrameAt(Entry(frame), 0) == frame
  {
    hide U32Bytes, U32Be, Low8;
    var n := WireId(frame);
    var b := Entry(frame);
    U32Digits(n);
    assert b[1..5] == U32Bytes(n);
    assert U32Be(b[1], b[2], b[3], b[4]) == n;
    assert b[6..14] == frame.data;
  }

  lemma EntryOfFrame(bytes: seq<Byte>, offset: nat)
    requires offset + 14 <= |bytes|
    ensures Entry(FrameAt(bytes, offset)) == bytes[offset..offset + 14]
  {
    hide U32Bytes, U32Be, Low8;
    U32OfDigits(bytes[offset + 1], bytes[offset + 2], bytes[offset + 3], bytes[offset + 4]);
  }

  lemma FrameAtShift(a: seq<Byte>, b: seq<Byte>, i: nat, j: nat)
    requires i + 14 <= |a| && j + 14 <= |b| && a[i..i + 14] == b[j..j + 14]
    ensures FrameAt(a, i) == FrameAt(b, j)
  {
    var x, y := a[i..i + 14], b[j..j + 14];
    assert a[i] == x[0] && a[i + 1] == x[1] && a[i + 2] == x[2];
    assert a[i + 3] == x[3] && a[i + 4] == x[4] && a[i + 5] == x[5];
    assert b[j] == y[0] && b[j + 1] == y[1] && b[j + 2] == y[2];
    assert b[j + 3] == y[3] && b[j + 4] == y[4] && b[j + 5] == y[5];
    assert a[i + 6..i + 14] == x[6..] && b[j + 6..j + 14] == y[6..];
  }

  /** Every encoding of at most 32 frames with a known type passes the header, checksum and count checks. */
  lemma EncodingAccepted(kind: Byte, frames: seq<CanFrame>)
    requires |frames| <= MAX_FRAMES_PER_PACKET && (kind == TYPE_CAN2UDP || kind == TYPE_UDP2CAN)
    ensures Accepted(Encoding(kind, frames)) && FrameCount(Encoding(kind, frames)) == |frames|
  {
    hide Crc, Entries, BitsOf;
    var b := Encoding(kind, frames);
    var n := |frames|;
    var covered := Covered(kind, frames);
    assert b[1..4 + PayloadLenFor(n)] == covered;
    var crc := Crc(ZERO, covered);
    ByteBitsOfNum(Lo(crc));
    ByteBitsOfNum(Hi(crc));
    assert crc == Hi(crc) + Lo(crc);
  }

  /** Decoding an encoding gives back the frames, with every data byte. */
  lemma RoundTrip(kind: Byte, frames: seq<CanFrame>, d: Decoded)
    requires |frames| <= MAX_FRAMES_PER_PACKET && (kind == TYPE_CAN2UDP || kind == TYPE_UDP2CAN)
    requires AllValid(frames)
    requires DecodesTo(Encoding(kind, frames), d)
    ensures d == Decoded(Ok, frames)
  {
    hide DecodesTo, Encoding;
    EncodingDecodes(kind, frames);
    DecodesToOne(Encoding(kind, frames), d, Decoded(Ok, frames));
  }

  lemma EncodingDecodes(kind: Byte, frames: seq<CanFrame>)
    requires |frames| <= MAX_FRAMES_PER_PACKET && (kind == TYPE_CAN2UDP || kind == TYPE_UDP2CAN)
    requires AllValid(frames)
    ensures DecodesTo(Encoding(kind, frames), Decoded(Ok, frames))
  {
    hide Crc, Entries, Entry, FrameAt, CrcMatches, ReadHeader;
    var b := Encoding(kind, frames);
    EncodingAccepted(kind, frames);
    forall i | 0 <= i < |frames|
      ensures Nth(b, i) == frames[i]
    {
      EntriesAt(frames, i);
      EntryRoundTrip(frames[i]);
      assert b[5 + 14 * i..5 + 14 * i + 14] == Entries(frames)[14 * i..14 * i + 14];
      FrameAtShift(b, Entry(frames[i]), 5 + 14 * i, 0);
    }
  }

  /** Everything that decodes without error is the encoding of its type byte and its frames. */
  lemma Converse(bytes: seq<Byte>, d: Decoded)
    requires DecodesTo(bytes, d) && d.error == Ok
    ensures |d.delivered| <= MAX_FRAMES_PER_PACKET && AllValid(d.delivered)
    ensures bytes == Encoding(bytes[1], d.delivered)
  {
    hide Crc, Entries, FrameAt, CrcMatches, ReadHeader, PayloadLen, Low8, ByteNum;
    var n := |d.delivered|;
    var len := PayloadLen(bytes);
    AcceptedHeader(bytes);
    EntriesOf(bytes, d.delivered, n);
    assert d.delivered[..n] == d.delivered;
    assert bytes[1..4 + len] == [bytes[1], bytes[2], bytes[3], bytes[4]] + bytes[5..5 + 14 * n];
    assert bytes[1..4 + len] == Covered(bytes[1], d.delivered);
    CrcBytes(bytes, len);
    assert bytes == [STX] + bytes[1..4 + len] + [bytes[4 + len], bytes[4 + len + 1], ETX];
  }

  lemma {:induction false} EntriesOf(bytes: seq<Byte>, frames: seq<CanFrame>, n: nat)
    requires Accepted(bytes) && |frames| == FrameCount(bytes) && n <= |frames|
    requires forall i :: 0 <= i < |frames| ==> frames[i] == Nth(bytes, i)
    ensures Entries(frames[..n]) == bytes[5..5 + 14 * n]
  {
    hide Entry, FrameAt, CrcMatches, ReadHeader;
    if n > 0 {
      EntriesOf(bytes, frames, n - 1);
      EntryOfFrame(bytes, 5 + 14 * (n - 1));
      assert frames[..n][..n - 1] == frames[..n - 1];
      assert bytes[5..5 + 14 * n] == bytes[5..5 + 14 * (n - 1)] + bytes[5 + 14 * (n - 1)..5 + 14 * n];
    }
  }

  /** Different frame lists, or different types, never share an encoding. */
  lemma EncodingInjective(k1: Byte, f1: seq<CanFrame>, k2: Byte, f2: seq<CanFrame>)
    requires |f1| <= MAX_FRAMES_PER_PACKET && |f2| <= MAX_FRAMES_PER_PACKET
    requires AllValid(f1) && AllValid(f2)
    requires Encoding(k1, f1) == Encoding(k2, f2)
    ensures k1 == k2 && f1 == f2
  {
    hide Crc, Entries, Entry, FrameAt;
    var b := Encoding(k1, f1);
    assert b[1] == k1 && b[1] == k2;
    assert |f1| == |f2|;
    forall i | 0 <= i < |f1|
      ensures f1[i] == f2[i]
    {
      EntriesAt(f1, i);
      EntriesAt(f2, i);
      assert b[5 + 14 * i..5 + 14 * i + 14] == Entries(f1)[14 * i..14 * i + 14];
      assert b[5 + 14 * i..5 + 14 * i + 14] == Entries(f2)[14 * i..14 * i + 14];
      EntryRoundTrip(f1[i]);
      EntryRoundTrip(f2[i]);
    }
  }
}
