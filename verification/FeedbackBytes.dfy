/**
 What every response frame says, read off its bytes by arithmetic on whole bytes, and that parsing gives
 just that: the six response types, the answer to every query, the broadcasts, and each way in which a
 frame can be refused.
 */
module FeedbackBytes {
  import opened Bits
  import opened Fleet
  import opened CodecMotor
  import opened CodecBit
  import opened Quantise
  import opened CommandFrames
  import opened Feedback

  // ---------------------------------------------------------------------------------------------
  // The numbers of the protocol
  // ---------------------------------------------------------------------------------------------

  /** The error that an error number stands for. */
  predicate ErrorSays(n: nat, e: MotorErr) {
    match e
    case NoError => n == 0
    case OverTemp => n == 1
    case OverCurrent => n == 2
    case OverVoltage => n == 3
    case UnderVoltage => n == 4
    case EncoderFail => n == 5
    case BrakeOverVoltage => n == 6
    case DriverError => n == 7
    case CommError => n == 30
    case UnknownError => 8 <= n && n != 30
  }

  /** The number of a query. */
  function KeyOf(code: QueryCode): nat {
    match code
    case QPosition => 1
    case QVelocity => 2
    case QCurrent => 3
    case QPower => 4
    case QAcceleration => 5
    case QFluxObserverGain => 6
    case QDisturbance => 7
    case QFeedbackCompensation => 8
    case QDamping => 9
    case QTorqueRatio => 22
    case QKpRange => 23
    case QKdRange => 24
    case QPositionLimit => 25
    case QVelocityLimit => 26
    case QTorqueLimit => 27
    case QCurrentLimit => 28
    case QMcuUuid => 29
    case QVersion => 30
    case QCanTimeout => 31
    case QCurrentLoopPi => 32
    case QVelocityLoopPi => 33
    case QPositionLoopPd => 34
    case QBrakeStatus => 37
  }

  /** How many payload bytes the answer to a query needs. */
  function Needs(code: QueryCode): nat {
    match code
    case QPosition | QVelocity | QCurrent | QPower => 4
    case QKpRange | QKdRange | QPositionLimit | QVelocityLimit | QTorqueLimit | QCurrentLimit => 4
    case QCurrentLoopPi | QVelocityLoopPi | QPositionLoopPd => 4
    case QMcuUuid => 5
    case QVersion => 6
    case QBrakeStatus => 1
    case _ => 2
  }

  function Pair16(hi: nat, lo: nat): nat { hi * 256 + lo }

  function Signed(hi: nat, lo: nat): int {
    if hi < 128 then Pair16(hi, lo) else Pair16(hi, lo) - 65536
  }

  function Quad32(a: nat, b: nat, c: nat, d: nat): nat { ((a * 256 + b) * 256 + c) * 256 + d }

  /** The answer to a query in a payload that is long enough. */
  function AnswerIn(code: QueryCode, p: seq<Byte>): QueryValue
    requires |p| >= Needs(code)
  {
    match code
    case QPosition | QVelocity | QCurrent | QPower => Scalar(Raw(Quad32(p[0], p[1], p[2], p[3])))
    case QTorqueRatio => Scalar(Exact(Pair16(p[0], p[1]) as real / 100.0))
    case QKpRange | QKdRange => Range(Pair16(p[0], p[1]) as real, Pair16(p[2], p[3]) as real)
    case QPositionLimit | QVelocityLimit =>
      Range(Signed(p[0], p[1]) as real / 100.0, Signed(p[2], p[3]) as real / 100.0)
    case QTorqueLimit | QCurrentLimit => Range(Signed(p[0], p[1]) as real / 10.0, Signed(p[2], p[3]) as real / 10.0)
    case QMcuUuid => Fragment(p[0], [p[1], p[2], p[3], p[4]])
    case QVersion => Version([p[0], p[1], p[2], p[3], p[4], p[5]])
    case QCanTimeout => Millis(Pair16(p[0], p[1]))
    case QCurrentLoopPi => Gains(Pair16(p[0], p[1]) as real / 10000.0, Pair16(p[2], p[3]) as real / 10.0)
    case QVelocityLoopPi | QPositionLoopPd =>
      Gains(Pair16(p[0], p[1]) as real / 100000.0, Pair16(p[2], p[3]) as real / 100000.0)
    case QBrakeStatus => Flag(p[0] != 0)
    case _ => Scalar(Exact(Pair16(p[0], p[1]) as real))
  }

  // ---------------------------------------------------------------------------------------------
  // The six responses
  // ---------------------------------------------------------------------------------------------

  function Temperature(b: nat): real { (b as real - 50.0) / 2.0 }

  /** A share of the range, or the share itself if the range is not known. */
  function InRangeOf(range: Option<(real, real)>, share: real): real {
    match range
    case None => share
    case Some((min, max)) => min + share * (max - min)
  }

  /** Type 1. Position and velocity fill +-12.5 rad and +-18 rad/s, the current its motor's range. */
  predicate SaysStatus(d: CanData, range: Option<(real, real)>, m: Feedback) {
    && m.Status? && ErrorSays(d[0] % 32, m.error)
    && m.position == Exact(Pair16(d[1], d[2]) as real * 25.0 / 65535.0 - 12.5)
    && m.velocity == Exact((d[3] as nat * 16 + d[4] / 16) as real * 36.0 / 4095.0 - 18.0)
    && m.current == Exact(InRangeOf(range, Pair16(d[4] % 16, d[5]) as real / 4095.0))
    && m.motorTemp == Temperature(d[6]) && m.mosfetTemp == Temperature(d[7])
  }

  /** Type 2: a float, hundredths of an ampere, a temperature. */
  predicate SaysPosition(d: CanData, m: Feedback) {
    && m.PositionFeedback? && ErrorSays(d[0] % 32, m.error)
    && m.position == Raw(Quad32(d[1], d[2], d[3], d[4])) && m.current == Exact(Signed(d[5], d[6]) as real / 100.0)
    && m.motorTemp == Temperature(d[7])
  }

  /** Type 3: likewise for a velocity. */
  predicate SaysVelocity(d: CanData, m: Feedback) {
    && m.VelocityFeedback? && ErrorSays(d[0] % 32, m.error)
    && m.velocity == Raw(Quad32(d[1], d[2], d[3], d[4])) && m.current == Exact(Signed(d[5], d[6]) as real / 100.0)
    && m.motorTemp == Temperature(d[7])
  }

  /** Type 5: an unknown key is unsupported, a payload that is too short a protocol error. */
  predicate SaysQuery(frame: CanFrame, r: Result<Feedback>)
    requires 2 <= frame.len <= 8
  {
    if r.Success? then
      && r.value.Query? && ErrorSays(frame.data[0] % 32, r.value.error) && KeyOf(r.value.code) == frame.data[1]
      && frame.len - 2 >= Needs(r.value.code)
      && r.value.answer == AnswerIn(r.value.code, frame.data[2..frame.len])
    else if r.error == Unsupported then KeyUnknown(frame.data[1])
    else r.error == ProtocolError && !KeyUnknown(frame.data[1]) && TooShort(frame.data[1], frame.len - 2)
  }

  predicate KeyUnknown(key: nat) { key == 0 || 10 <= key <= 21 || key == 35 || key == 36 || key >= 38 }

  /** The answer to this query needs more bytes. */
  predicate TooShort(key: nat, n: nat) {
    match key
    case 37 => n < 1
    case 29 => n < 5
    case 30 => n < 6
    case _ => if key <= 4 || 23 <= key <= 28 || key >= 32 then n < 4 else n < 2
  }

  /** What a response frame says, byte by byte; `range` is the current range of the motor's model. */
  predicate Says(frame: CanFrame, range: Option<(real, real)>, r: Result<Feedback>) {
    var d, n := frame.data, frame.len;
    if n == 0 || n > 8 then r == Failure(ProtocolError)
    else if frame.id == 0x7FF && n == 5 && d[0] == 0xFF && d[1] == 0xFF && d[2] == 1 then
      r == Success(ConfigAck(NoError, 2, true))
    else if frame.id == 0x7FF && n >= 4 && d[2] == 1 then
      r == Success(ConfigAck(NoError, 1, d[3] != 0))
    else
      match d[0] / 32
      case 1 => if n < 8 then r == Failure(ProtocolError) else r.Success? && SaysStatus(d, range, r.value)
      case 2 => if n < 8 then r == Failure(ProtocolError) else r.Success? && SaysPosition(d, r.value)
      case 3 => if n < 8 then r == Failure(ProtocolError) else r.Success? && SaysVelocity(d, r.value)
      case 4 =>
        if n < 3 then r == Failure(ProtocolError)
        else r.Success? && r.value.ConfigAck? && ErrorSays(d[0] % 32, r.value.error)
             && r.value.key == d[1] && r.value.accepted == (d[2] == 1)
      case 5 => if n < 2 then r == Failure(ProtocolError) else SaysQuery(frame, r)
      case 6 =>
        if n < 2 then r == Failure(ProtocolError)
        else r.Success? && r.value.BrakeStatus? && ErrorSays(d[0] % 32, r.value.error)
             && r.value.engaged == (d[1] != 0)
      case _ => r == Failure(Unsupported)
  }

  // ---------------------------------------------------------------------------------------------
  // Bit fields as bytes
  // ---------------------------------------------------------------------------------------------

  /** The upper and the lower bits of a byte. */
  lemma ByteParts(b: Byte)
    ensures Num(ByteBits(b)[..3]) == b / 32 && Num(ByteBits(b)[3..]) == b % 32
    ensures Num(ByteBits(b)[..4]) == b / 16 && Num(ByteBits(b)[4..]) == b % 16
  {
    hide BitsOf, Num;
    BytePart(b, 3, 5, 32);
    BytePart(b, 4, 4, 16);
  }

  lemma BytePart(b: Byte, high: nat, low: nat, unit: nat)
    requires (high == 3 && low == 5 && unit == 32) || (high == 4 && low == 4 && unit == 16)
    ensures Num(ByteBits(b)[..high]) == b / unit && Num(ByteBits(b)[high..]) == b % unit
  {
    hide BitsOf, Num, Pow2;
    FieldMasks();
    assert Pow2(4) == 16 by { Pow2Four(); }
    BitsOfSplit(b, high, low);
    ShrIsDivision(b, low, unit);
    NumOfBits(b / unit, high);
    BitsOfPlus(b % unit, b / unit, low);
    assert b == b % unit + unit * (b / unit);
    NumOfBits(b % unit, low);
  }

  lemma Pow2Four()
    ensures Pow2(4) == 16
  {
  }

  lemma ShrIsDivision(b: Byte, low: nat, unit: nat)
    requires (low == 5 && unit == 32) || (low == 4 && unit == 16)
    ensures Shr(b, low) == b / unit
  {
    assert Shr(b, 4) == b / 2 / 2 / 2 / 2;
    assert Shr(b, 5) == b / 2 / 2 / 2 / 2 / 2;
  }

  /** The type is in the top three bits of the first byte, the error in the others. */
  lemma HeadFields(frame: CanFrame)
    requires 1 <= frame.len <= 8
    ensures FieldOf(frame, 0, 3) == frame.data[0] / 32 && FieldOf(frame, 3, 5) == frame.data[0] % 32
  {
    hide MessageBits, BitsOf, Num;
    var d := frame.data[..frame.len];
    WindowByte(d, 0);
    ByteParts(d[0]);
    Inside(MessageBits(d), 0, 0, 3);
    Inside(MessageBits(d), 0, 3, 8);
  }

  lemma Inside(bits: seq<bool>, o: nat, a: nat, b: nat)
    requires a <= b <= 8 && o + 8 <= |bits|
    ensures bits[o..o + 8][a..b] == bits[o + a..o + b]
  {
    var x, y := bits[o..o + 8][a..b], bits[o + a..o + b];
    forall k | 0 <= k < b - a
      ensures x[k] == y[k]
    {
    }
  }

  /** A field of whole bytes. */
  lemma WholeBytes(frame: CanFrame, j: nat, n: nat)
    requires frame.len <= 8 && (n == 1 || n == 2 || n == 4) && j + n <= frame.len
    ensures var d := frame.data;
      FieldOf(frame, 8 * j, 8 * n) ==
      if n == 1 then d[j] else if n == 2 then Pair16(d[j], d[j + 1]) else Quad32(d[j], d[j + 1], d[j + 2], d[j + 3])
  {
    hide MessageBits, Num;
    AlignedWindow(frame.data[..frame.len], j, n);
    assert 8 * j + 8 * n == 8 * (j + n);
  }

  /** Eight bits and the four after them, and four bits and the eight after them. */
  lemma Twelve(bits: seq<bool>, a: Byte, b: Byte, c: Byte)
    requires bits == ByteBits(a) + ByteBits(b) + ByteBits(c)
    ensures Num(bits[..12]) == a as nat * 16 + b / 16 && Num(bits[12..]) == Pair16(b % 16, c)
  {
    hide BitsOf, Num, Pow2;
    ByteParts(b);
    Pow2Byte();
    Pow2Four();
    NumConcat(ByteBits(a), ByteBits(b)[..4]);
    NumConcat(ByteBits(b)[4..], ByteBits(c));
    assert bits[..12] == ByteBits(a) + ByteBits(b)[..4] && bits[12..] == ByteBits(b)[4..] + ByteBits(c);
    ByteRoundTrip(a);
    ByteRoundTrip(c);
  }

  /** The two twelve-bit fields of a status response share the fifth byte. */
  lemma TwelveBits(frame: CanFrame)
    requires frame.len == 8
    ensures FieldOf(frame, 24, 12) == frame.data[3] as nat * 16 + frame.data[4] / 16
    ensures FieldOf(frame, 36, 12) == Pair16(frame.data[4] % 16, frame.data[5])
  {
    hide MessageBits, BitsOf, Num, Pair16;
    var d := frame.data[..8];
    var bits := MessageBits(d);
    WindowByte(d, 3);
    WindowByte(d, 4);
    WindowByte(d, 5);
    assert bits[24..48] == bits[24..32] + bits[32..40] + bits[40..48];
    Twelve(bits[24..48], d[3], d[4], d[5]);
    assert bits[24..48][..12] == bits[24..36] && bits[24..48][12..] == bits[36..48];
  }

  // ---------------------------------------------------------------------------------------------
  // Parsing
  // ---------------------------------------------------------------------------------------------

  lemma ErrorParsed(n: nat)
    requires n < 32
    ensures ErrorSays(n, ParseError(n))
  {
  }

  lemma SignedParsed(hi: Byte, lo: Byte)
    ensures FromU16(Pair16(hi, lo) % 0x1_0000) == Signed(hi, lo)
  {
  }

  lemma ScalesParsed(k: nat)
    ensures DecodeSymmetric(k, 12.5, 65535) == k as real * 25.0 / 65535.0 - 12.5
    ensures DecodeSymmetric(k, 18.0, 4095) == k as real * 36.0 / 4095.0 - 18.0
  {
  }

  lemma CurrentParsed(range: Option<(real, real)>, k: nat)
    ensures InRangeOf(range, k as real / 4095.0) ==
            if range.Some? then DecodeLinear(k, range.value.0, range.value.1, 4095) else k as real / 4095.0
  {
  }

  /** No broadcast answer. */
  predicate Own(frame: CanFrame) { frame.id != 0x7FF || BroadcastResponse(frame).None? }

  lemma StatusParsed(frame: CanFrame, range: Option<(real, real)>)
    requires frame.len == 8 && Own(frame) && frame.data[0] / 32 == 1
    ensures var r := ParseFeedback(frame, range); r.Success? && SaysStatus(frame.data, range, r.value)
  {
    hide FieldOf, ParseError, ErrorSays, BroadcastResponse, DecodeSymmetric, DecodeLinear, InRangeOf;
    HeadFields(frame);
    ErrorParsed(frame.data[0] % 32);
    WholeBytes(frame, 1, 2);
    TwelveBits(frame);
    ScalesParsed(FieldOf(frame, 8, 16));
    ScalesParsed(FieldOf(frame, 24, 12));
    CurrentParsed(range, FieldOf(frame, 36, 12));
    WholeBytes(frame, 6, 1);
    WholeBytes(frame, 7, 1);
  }

  lemma MotionParsed(frame: CanFrame, range: Option<(real, real)>)
    requires frame.len == 8 && Own(frame)
    ensures var r := ParseFeedback(frame, range);
      && (frame.data[0] / 32 == 2 ==> r.Success? && SaysPosition(frame.data, r.value))
      && (frame.data[0] / 32 == 3 ==> r.Success? && SaysVelocity(frame.data, r.value))
  {
    hide FieldOf, ParseError, ErrorSays, FromU16, BroadcastResponse;
    HeadFields(frame);
    ErrorParsed(frame.data[0] % 32);
    WholeBytes(frame, 1, 4);
    WholeBytes(frame, 5, 2);
    SignedParsed(frame.data[5], frame.data[6]);
    WholeBytes(frame, 7, 1);
  }

  lemma KeyParsed(key: Byte)
    ensures var code := QueryCodeOf(key);
      && (code.None? <==> KeyUnknown(key))
      && (code.Some? ==> KeyOf(code.value) == key && forall n: nat :: TooShort(key, n) <==> n < Needs(code.value))
  {
  }

  predicate IsScalar(code: QueryCode) {
    code in {QPosition, QVelocity, QCurrent, QPower, QAcceleration, QFluxObserverGain, QDisturbance,
             QFeedbackCompensation, QDamping, QTorqueRatio, QCanTimeout}
  }

  lemma ScalarParsed(code: QueryCode, p: seq<Byte>)
    requires IsScalar(code)
    ensures DecodeQueryResult(code, p) ==
            if |p| < Needs(code) then Failure(ProtocolError) else Success(AnswerIn(code, p))
  {
  }

  predicate IsLimit(code: QueryCode) {
    code in {QPositionLimit, QVelocityLimit, QTorqueLimit, QCurrentLimit}
  }

  lemma LimitsRead(a: Byte, b: Byte, c: Byte, d: Byte)
    ensures SignedRange(U16Be(a, b), U16Be(c, d), 100.0) ==
            Range(Signed(a, b) as real / 100.0, Signed(c, d) as real / 100.0)
    ensures SignedRange(U16Be(a, b), U16Be(c, d), 10.0) ==
            Range(Signed(a, b) as real / 10.0, Signed(c, d) as real / 10.0)
  {
    hide FromU16, Signed;
    SignedParsed(a, b);
    SignedParsed(c, d);
  }

  lemma LimitParsed(code: QueryCode, p: seq<Byte>)
    requires IsLimit(code)
    ensures DecodeQueryResult(code, p) ==
            if |p| < Needs(code) then Failure(ProtocolError) else Success(AnswerIn(code, p))
  {
    hide FromU16, DecodeScalar, Signed, SignedRange, U16Be;
    if |p| >= 4 {
      LimitsRead(p[0], p[1], p[2], p[3]);
    }
  }

  lemma PairParsed(code: QueryCode, p: seq<Byte>)
    requires !IsScalar(code) && !IsLimit(code) && code != QMcuUuid && code != QVersion && code != QBrakeStatus
    ensures DecodeQueryResult(code, p) ==
            if |p| < Needs(code) then Failure(ProtocolError) else Success(AnswerIn(code, p))
  {
    hide FromU16, DecodeScalar, Signed, SignedRange;
  }

  lemma AnswerParsed(code: QueryCode, p: seq<Byte>)
    ensures DecodeQueryResult(code, p) ==
            if |p| < Needs(code) then Failure(ProtocolError) else Success(AnswerIn(code, p))
  {
    hide DecodeScalar, Signed, Pair16, Quad32, PairAs;
    if IsScalar(code) {
      ScalarParsed(code, p);
    } else if IsLimit(code) {
      LimitParsed(code, p);
    } else if code != QMcuUuid && code != QVersion && code != QBrakeStatus {
      PairParsed(code, p);
    } else if code == QMcuUuid && |p| >= 5 {
      assert p[1..5] == [p[1], p[2], p[3], p[4]];
    } else if code == QVersion && |p| >= 6 {
      assert p[..6] == [p[0], p[1], p[2], p[3], p[4], p[5]];
    }
  }

  lemma QueryParsed(frame: CanFrame, range: Option<(real, real)>)
    requires 2 <= frame.len <= 8 && Own(frame) && frame.data[0] / 32 == 5
    ensures SaysQuery(frame, ParseFeedback(frame, range))
  {
    hide FieldOf, ParseError, ErrorSays, BroadcastResponse, QueryCodeOf, KeyUnknown, TooShort, KeyOf, Needs, AnswerIn,
      DecodeQueryResult;
    HeadFields(frame);
    ErrorParsed(frame.data[0] % 32);
    KeyParsed(frame.data[1]);
    var code := QueryCodeOf(frame.data[1]);
    if code.Some? {
      AnswerParsed(code.value, frame.data[2..frame.len]);
    }
  }

  lemma ShortParsed(frame: CanFrame, range: Option<(real, real)>)
    requires 1 <= frame.len <= 8 && Own(frame) && frame.data[0] / 32 in {0, 4, 6, 7}
    ensures Says(frame, range, ParseFeedback(frame, range))
  {
    hide FieldOf, ParseError, ErrorSays, SaysQuery;
    HeadFields(frame);
    ErrorParsed(frame.data[0] % 32);
    if frame.len >= 2 {
      WholeBytes(frame, 1, 1);
    }
    if frame.len >= 3 {
      WholeBytes(frame, 2, 1);
    }
  }

  /**
   Parsing is exactly what the bytes say: for every frame, the type, error, position, velocity, current,
   temperatures, acknowledgement, answer or brake state of the response, or the failure.
   */
  lemma ParsedExactly(frame: CanFrame, range: Option<(real, real)>)
    ensures Says(frame, range, ParseFeedback(frame, range))
  {
    hide FieldOf, ParseError, ErrorSays, SaysStatus, SaysPosition, SaysVelocity, SaysQuery, DecodeQueryResult;
    if 1 <= frame.len <= 8 && Own(frame) {
      HeadFields(frame);
      if frame.data[0] / 32 == 1 && frame.len == 8 {
        StatusParsed(frame, range);
      } else if (frame.data[0] / 32 == 2 || frame.data[0] / 32 == 3) && frame.len == 8 {
        MotionParsed(frame, range);
      } else if frame.data[0] / 32 == 5 && frame.len >= 2 {
        QueryParsed(frame, range);
      } else if frame.data[0] / 32 in {0, 4, 6, 7} {
        ShortParsed(frame, range);
      }
    }
  }

  lemma ErrorSaysOne(n: nat, a: MotorErr, b: MotorErr)
    requires ErrorSays(n, a) && ErrorSays(n, b)
    ensures a == b
  {
  }

  lemma KeySays(a: QueryCode, key: nat)
    requires KeyOf(a) == key
    ensures !KeyUnknown(key) && forall n: nat :: TooShort(key, n) <==> n < Needs(a)
    ensures forall b :: KeyOf(b) == key ==> b == a
  {
  }

  lemma QuerySaysOne(frame: CanFrame, a: Result<Feedback>, b: Result<Feedback>)
    requires 2 <= frame.len <= 8 && SaysQuery(frame, a) && SaysQuery(frame, b)
    ensures a == b
  {
    hide ErrorSays, KeyOf, AnswerIn, Needs, TooShort, KeyUnknown;
    if a.Success? {
      KeySays(a.value.code, frame.data[1]);
    } else if b.Success? {
      KeySays(b.value.code, frame.data[1]);
    }
    if a.Success? && b.Success? {
      ErrorSaysOne(frame.data[0] % 32, a.value.error, b.value.error);
    }
  }

  /** The bytes leave no choice. */
  lemma SaysOne(frame: CanFrame, range: Option<(real, real)>, a: Result<Feedback>, b: Result<Feedback>)
    requires Says(frame, range, a) && Says(frame, range, b)
    ensures a == b
  {
    hide ErrorSays, SaysQuery, Temperature, Quad32, Pair16, Signed, InRangeOf;
    var d, n := frame.data, frame.len;
    if 1 <= n <= 8 && Own(frame) {
      if d[0] / 32 == 5 && n >= 2 {
        QuerySaysOne(frame, a, b);
      } else if a.Success? && b.Success? {
        ErrorSaysOne(d[0] % 32, a.value.error, b.value.error);
      }
    }
  }

  /** What the bytes say, as a function. */
  ghost function Said(frame: CanFrame, range: Option<(real, real)>): (r: Result<Feedback>)
    ensures Says(frame, range, r)
  {
    ParsedExactly(frame, range);
    var r :| Says(frame, range, r);
    r
  }

  lemma SaidIsParsed(frame: CanFrame, range: Option<(real, real)>)
    ensures ParseFeedback(frame, range) == Said(frame, range)
  {
    hide Says, ParseFeedback, Said;
    ParsedExactly(frame, range);
    SaysOne(frame, range, ParseFeedback(frame, range), Said(frame, range));
  }
}
