/**
 The second implementation of the packet format, in the Python tool: what it builds and parses, next to
 what the library encodes and decodes.
 */
module ToolFrames {
  import opened Bits
  import opened Fleet
  import opened Checksum
  import opened CodecMotor

  /** A message as the tool's callers give it: only the data bytes in use. */
  datatype Message = Message(port: nat, id: nat, ext: bool, data: seq<Byte>)

  /** The tool raises on more than eight data bytes, and on an id or a length that overflows its field. */
  predicate Buildable(messages: seq<Message>) {
    && 1 + 14 * |messages| < 0x1_0000
    && forall i :: 0 <= i < |messages| ==> |messages[i].data| <= 8 && messages[i].id < 0x8000_0000
  }

  /** The frame that a message stands for; unused data bytes are zero. */
  function FrameOf(m: Message): CanFrame
    requires |m.data| <= 8 && m.id < 0x8000_0000
  {
    CanFrame(m.port % 256, m.id, m.ext, m.data + seq(8 - |m.data|, _ => 0), |m.data|)
  }

  function FramesOf(messages: seq<Message>): (frames: seq<CanFrame>)
    requires Buildable(messages)
    ensures |frames| == |messages|
  {
    seq(|messages|, i requires 0 <= i < |messages| => FrameOf(messages[i]))
  }

  predicate LegalFrame(f: CanFrame) {
    f.len <= 8 && f.id <= (if f.extended then 0x1FFF_FFFF else 0x7FF)
  }

  /** A number in four bytes, most significant first. */
  method ToBytes(n: nat) returns (b: seq<Byte>)
    requires n < 0x1_0000_0000
    ensures |b| == 4
    ensures b[0] as nat * 0x100_0000 + b[1] as nat * 0x1_0000 + b[2] as nat * 256 + b[3] == n
  {
    Digits(n);
    b := [n / 0x100_0000, n / 0x1_0000 % 256, n / 256 % 256, n % 256];
  }

  /** Fourteen bytes show the frame of a message, and are legal when it is. */
  predicate Shows(e: seq<Byte>, m: Message) {
    && |e| == 14 && |m.data| <= 8 && m.id < 0x8000_0000
    && EntryShows(e, FrameOf(m)) && (EntryLegal(e) <==> LegalFrame(FrameOf(m)))
  }

  method BuildEntry(m: Message) returns (e: seq<Byte>)
    requires |m.data| <= 8 && m.id < 0x8000_0000
    ensures Shows(e, m)
  {
    var idNet := if m.ext then m.id + 0x8000_0000 else m.id;
    var id := ToBytes(idNet);
    e := [m.port % 256] + id + [|m.data|] + m.data + seq(8 - |m.data|, _ => 0);
    assert e[6..14] == m.data + seq(8 - |m.data|, _ => 0);
  }

  method BuildEntries(messages: seq<Message>) returns (entries: seq<Byte>)
    requires Buildable(messages)
    ensures |entries| == 14 * |messages|
    ensures forall j :: 0 <= j < |messages| ==> Shows(entries[14 * j..14 * j + 14], messages[j])
  {
    hide Shows;
    entries := [];
    for i := 0 to |messages|
      invariant |entries| == 14 * i
      invariant forall j :: 0 <= j < i ==> Shows(entries[14 * j..14 * j + 14], messages[j])
    {
      ghost var before := entries;
      var entry := BuildEntry(messages[i]);
      assert |entry| == 14 by { ShownLength(entry, messages[i]); }
      entries := entries + entry;
      forall j | 0 <= j <= i
        ensures Shows(entries[14 * j..14 * j + 14], messages[j])
      {
        assert entries[14 * j..14 * j + 14] == if j < i then before[14 * j..14 * j + 14] else entry;
      }
    }
  }

  lemma ShownLength(e: seq<Byte>, m: Message)
    requires Shows(e, m)
    ensures |e| == 14
  {
  }

  /** The tool's packet, if its callers' messages can be built; the checksum is the tool's own. */
  method BuildFrame(kind: nat, messages: seq<Message>) returns (frame: seq<Byte>)
    requires Buildable(messages)
    ensures |messages| <= 32 && (forall i :: 0 <= i < |messages| ==> LegalFrame(FrameOf(messages[i]))) ==>
              Layout(frame, kind % 256, FramesOf(messages))
  {
    hide Shows, Layout, Num, Crc, LegalFrame, FrameOf;
    var entries := BuildEntries(messages);
    var payload: seq<Byte> := [|messages| % 256] + entries;
    var header: seq<Byte> := [0xAA, kind % 256, |payload| / 256, |payload| % 256];
    var crc := Crc16Bitwise(header[1..] + payload);
    frame := header + payload + [ByteNum(Lo(crc)), ByteNum(Hi(crc)), 0xBB];
    if |messages| <= 32 && forall i :: 0 <= i < |messages| ==> LegalFrame(FrameOf(messages[i])) {
      assert frame[1..5 + 14 * |messages|] == header[1..] + payload;
      assert frame[5..5 + 14 * |messages|] == entries;
      TrailerNumber(crc);
      assert Envelope(frame, |messages|);
      HasLayout(frame, kind % 256, messages, entries);
    }
  }

  lemma HasLayout(frame: seq<Byte>, kind: Byte, messages: seq<Message>, entries: seq<Byte>)
    requires Buildable(messages) && Envelope(frame, |messages|) && frame[1] == kind
    requires |entries| == 14 * |messages| && frame[5..5 + 14 * |messages|] == entries
    requires forall j :: 0 <= j < |messages| ==> Shows(entries[14 * j..14 * j + 14], messages[j])
    requires forall i :: 0 <= i < |messages| ==> LegalFrame(FrameOf(messages[i]))
    ensures Layout(frame, kind, FramesOf(messages))
  {
    hide Crc, Num, EntryShows, EntryLegal, LegalFrame, FrameOf;
    forall i | 0 <= i < |messages|
      ensures EntryShows(EntryBytes(frame, i), FramesOf(messages)[i]) && EntryLegal(EntryBytes(frame, i))
    {
      SliceWithin(frame, 5, 14 * |messages|, 14 * i);
    }
  }

  lemma SliceWithin(s: seq<Byte>, start: nat, len: nat, offset: nat)
    requires start + len <= |s| && offset + 14 <= len
    ensures s[start..start + len][offset..offset + 14] == s[start + offset..start + offset + 14]
  {
    var x, y := s[start..start + len][offset..offset + 14], s[start + offset..start + offset + 14];
    assert |x| == |y|;
    forall k | 0 <= k < 14
      ensures x[k] == y[k]
    {
    }
  }

  /** Data bytes past the length are zero. */
  predicate ZeroPadded(frame: CanFrame) {
    forall k :: 0 <= k < 8 && frame.len <= k ==> frame.data[k] == 0
  }

  /** What the tool keeps of a frame. */
  function MessageOf(frame: CanFrame): Message {
    Message(frame.port, frame.id, frame.extended, frame.data[..if frame.len <= 8 then frame.len else 8])
  }

  function MessagesOf(frames: seq<CanFrame>): (messages: seq<Message>)
    ensures |messages| == |frames|
  {
    seq(|frames|, i requires 0 <= i < |frames| => MessageOf(frames[i]))
  }

  lemma KeptWhenPadded(frame: CanFrame)
    requires LegalFrame(frame)
    ensures FrameOf(MessageOf(frame)) == frame <==> ZeroPadded(frame)
    ensures LegalFrame(FrameOf(MessageOf(frame)))
  {
    var n := frame.len;
    assert frame.data == frame.data[..n] + frame.data[n..];
    if ZeroPadded(frame) {
      assert frame.data[n..] == seq(8 - n, _ => 0);
    } else {
      var k :| n <= k < 8 && frame.data[k] != 0;
      assert FrameOf(MessageOf(frame)).data[k] == 0;
    }
  }

  /**
   Given the same frames, library and tool build the same packet if and only if all data bytes past the
   length are zero: the library sends them as they are, the tool as zeros.
   */
  lemma ToolAgrees(library: seq<Byte>, tool: seq<Byte>, kind: Byte, frames: seq<CanFrame>)
    requires Layout(library, kind, frames)
    requires Buildable(MessagesOf(frames)) && Layout(tool, kind, FramesOf(MessagesOf(frames)))
    ensures library == tool <==> forall i :: 0 <= i < |frames| ==> ZeroPadded(frames[i])
  {
    hide EntryShows, EntryLegal, Crc, Num, FrameOf, MessageOf, ZeroPadded;
    var kept := FramesOf(MessagesOf(frames));
    LayoutDetermined(library, tool, kind, frames, kept);
    forall i | 0 <= i < |frames|
      ensures kept[i] == frames[i] <==> ZeroPadded(frames[i])
    {
      ShownIsValid(EntryBytes(library, i), frames[i]);
      KeptWhenPadded(frames[i]);
    }
  }

  /** What the tool reads from a packet. */
  datatype Parsed = Parsed(kind: Byte, messages: seq<Message>)

  /** One entry was read as the frame it shows, cut to the data in use. */
  ghost predicate Reads(e: seq<Byte>, m: Message)
    requires |e| == 14
  {
    forall frame :: EntryShows(e, frame) ==> m == MessageOf(frame)
  }

  method ParseEntry(e: seq<Byte>) returns (m: Option<Message>)
    requires |e| == 14
    ensures m.None? <==> e[5] > 8
    ensures m.Some? ==> Reads(e, m.value)
  {
    var idNet := U32Be(e[1], e[2], e[3], e[4]);
    var dlc := e[5];
    if dlc > 8 {
      return None;
    }
    var ext := idNet >= 0x8000_0000;
    var id := if ext then idNet - 0x8000_0000 else idNet;
    m := Some(Message(e[0], id, ext, e[6..6 + dlc]));
    forall frame | EntryShows(e, frame)
      ensures m.value == MessageOf(frame)
    {
      assert frame.data[..dlc] == e[6..14][..dlc] == e[6..6 + dlc];
    }
  }

  /** The tool's checks before it looks at entries; the result is the number of entries. */
  method CheckFrame(raw: seq<Byte>) returns (count: Option<nat>)
    ensures count.Some? ==> |raw| == 8 + 14 * count.value
    ensures forall n: nat :: n <= 32 ==> (count == Some(n) <==> Envelope(raw, n))
  {
    hide Num, Crc, BitsOf;
    if |raw| < 8 || raw[0] != 0xAA {
      return None;
    }
    var payloadLen: nat := raw[2] as nat * 256 + raw[3];
    if |raw| != 4 + payloadLen + 2 + 1 {
      return None;
    }
    var crc := Crc16Bitwise(raw[1..4 + payloadLen]);
    TrailerMatches(crc, raw[4 + payloadLen], raw[5 + payloadLen]);
    if crc != ByteBits(raw[5 + payloadLen]) + ByteBits(raw[4 + payloadLen]) {
      return None;
    }
    if raw[6 + payloadLen] != 0xBB || payloadLen < 1 || payloadLen != 1 + raw[4] as nat * 14 {
      return None;
    }
    count := Some(raw[4]);
  }

  /** No entry of a packet has more than eight data bytes. */
  lemma ShortEntry(raw: seq<Byte>, n: nat, i: nat)
    requires |raw| == 8 + 14 * n && i < n
    ensures forall frames :: Layout(raw, raw[1], frames) ==> EntryBytes(raw, i)[5] <= 8
  {
    hide EntryShows, Crc, Num;
    forall frames | Layout(raw, raw[1], frames)
      ensures EntryBytes(raw, i)[5] <= 8
    {
      assert |frames| == n && EntryLegal(EntryBytes(raw, i));
    }
  }

  /**
   What the tool reads from any bytes; none where it raises. From every packet of the library it reads
   the same frames, each with the data bytes in use.
   */
  method ParseFrame(raw: seq<Byte>) returns (r: Option<Parsed>)
    ensures |raw| >= 8 ==>
              forall frames :: Layout(raw, raw[1], frames) ==> r == Some(Parsed(raw[1], MessagesOf(frames)))
    ensures r.Some? && |r.value.messages| <= 32 ==> Envelope(raw, |r.value.messages|) && r.value.kind == raw[1]
  {
    hide EntryShows, EntryLegal, MessageOf, Crc, Num, Reads;
    var count := CheckFrame(raw);
    if count.None? {
      return None;
    }
    var messages := [];
    for i := 0 to count.value
      invariant |messages| == i
      invariant forall j :: 0 <= j < i ==> Reads(EntryBytes(raw, j), messages[j])
    {
      var m := ParseEntry(EntryBytes(raw, i));
      if m.None? {
        ShortEntry(raw, count.value, i);
        return None;
      }
      messages := messages + [m.value];
    }
    r := Some(Parsed(raw[1], messages));
    forall frames | Layout(raw, raw[1], frames)
      ensures messages == MessagesOf(frames)
    {
      AllRead(raw, frames, messages);
    }
  }

  lemma AllRead(raw: seq<Byte>, frames: seq<CanFrame>, messages: seq<Message>)
    requires |raw| == 8 + 14 * |messages| && Layout(raw, raw[1], frames)
    requires forall j :: 0 <= j < |messages| ==> Reads(EntryBytes(raw, j), messages[j])
    ensures messages == MessagesOf(frames)
  {
    hide EntryShows, EntryLegal, MessageOf, Crc, Num;
    assert |frames| == |messages|;
    forall j | 0 <= j < |messages|
      ensures messages[j] == MessageOf(frames[j])
    {
      assert Reads(EntryBytes(raw, j), messages[j]) && EntryShows(EntryBytes(raw, j), frames[j]);
    }
  }
}
