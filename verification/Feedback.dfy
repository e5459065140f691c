/**
 Feedback frames: what each response type is decoded to, and what a configuration value looks like when
 it is set and later queried. Single-precision bit patterns are kept as they are; scaled numbers are
 exact.
 */
module Feedback {
  import opened Bits
  import opened Fleet
  import opened CodecMotor
  import opened CodecBit
  import opened Quantise
  import opened CommandFrames

  /** A sampled quantity: an exact number, or the bit pattern of a `float`. */
  datatype Quantity = Exact(value: real) | Raw(bits: nat)

  datatype MotorErr =
    | NoError | OverTemp | OverCurrent | OverVoltage | UnderVoltage | EncoderFail | BrakeOverVoltage
    | DriverError | CommError | UnknownError

  datatype QueryCode =
    | QPosition | QVelocity | QCurrent | QPower | QAcceleration | QFluxObserverGain | QDisturbance
    | QFeedbackCompensation | QDamping | QTorqueRatio | QKpRange | QKdRange | QPositionLimit
    | QVelocityLimit | QTorqueLimit | QCurrentLimit | QMcuUuid | QVersion | QCanTimeout
    | QCurrentLoopPi | QVelocityLoopPi | QPositionLoopPd | QBrakeStatus

  datatype QueryValue =
    | Scalar(q: Quantity)
    | Range(min: real, max: real)
    | Gains(first: real, second: real)
    | Millis(count: nat)
    | Fragment(index: Byte, bytes: seq<Byte>)
    | Version(fields: seq<Byte>)
    | Flag(on: bool)

  datatype Feedback =
    | Status(
        error: MotorErr, position: Quantity, velocity: Quantity, current: Quantity, motorTemp: real, mosfetTemp: real)
    | PositionFeedback(error: MotorErr, position: Quantity, current: Quantity, motorTemp: real)
    | VelocityFeedback(error: MotorErr, velocity: Quantity, current: Quantity, motorTemp: real)
    | ConfigAck(error: MotorErr, key: Byte, accepted: bool)
    | Query(error: MotorErr, code: QueryCode, answer: QueryValue)
    | BrakeStatus(error: MotorErr, engaged: bool)

  function ParseError(value: nat): MotorErr {
    match value
    case 0 => NoError
    case 1 => OverTemp
    case 2 => OverCurrent
    case 3 => OverVoltage
    case 4 => UnderVoltage
    case 5 => EncoderFail
    case 6 => BrakeOverVoltage
    case 7 => DriverError
    case 0x1E => CommError
    case _ => UnknownError
  }

  function QueryCodeOf(key: Byte): Option<QueryCode> {
    match key
    case 1 => Some(QPosition)
    case 2 => Some(QVelocity)
    case 3 => Some(QCurrent)
    case 4 => Some(QPower)
    case 5 => Some(QAcceleration)
    case 6 => Some(QFluxObserverGain)
    case 7 => Some(QDisturbance)
    case 8 => Some(QFeedbackCompensation)
    case 9 => Some(QDamping)
    case 22 => Some(QTorqueRatio)
    case 23 => Some(QKpRange)
    case 24 => Some(QKdRange)
    case 25 => Some(QPositionLimit)
    case 26 => Some(QVelocityLimit)
    case 27 => Some(QTorqueLimit)
    case 28 => Some(QCurrentLimit)
    case 29 => Some(QMcuUuid)
    case 30 => Some(QVersion)
    case 31 => Some(QCanTimeout)
    case 32 => Some(QCurrentLoopPi)
    case 33 => Some(QVelocityLoopPi)
    case 34 => Some(QPositionLoopPd)
    case 37 => Some(QBrakeStatus)
    case _ => None
  }

  /** Two consecutive big-endian 16-bit values at the start of a payload. */
  function Pair(payload: seq<Byte>): Result<(nat, nat)> {
    if |payload| < 4 then Failure(ProtocolError)
    else Success((U16Be(payload[0], payload[1]), U16Be(payload[2], payload[3])))
  }

  function PairAs(payload: seq<Byte>, f: (nat, nat) -> QueryValue): Result<QueryValue> {
    var p := Pair(payload);
    if p.Failure? then Failure(p.error) else Success(f(p.value.0, p.value.1))
  }

  function SignedRange(a: nat, b: nat, scale: real): QueryValue
    requires scale > 0.0
  {
    Range(FromU16(a % 0x1_0000) as real / scale, FromU16(b % 0x1_0000) as real / scale)
  }

  function DecodeQueryResult(code: QueryCode, payload: seq<Byte>): Result<QueryValue> {
    match code
    case QMcuUuid =>
      if |payload| < 5 then Failure(ProtocolError) else Success(Fragment(payload[0], payload[1..5]))
    case QVersion =>
      if |payload| < 6 then Failure(ProtocolError) else Success(Version(payload[..6]))
    case QBrakeStatus =>
      if payload == [] then Failure(ProtocolError) else Success(Flag(payload[0] != 0))
    case QKpRange => PairAs(payload, (a: nat, b: nat) => Range(a as real, b as real))
    case QKdRange => PairAs(payload, (a: nat, b: nat) => Range(a as real, b as real))
    case QPositionLimit => PairAs(payload, (a: nat, b: nat) => SignedRange(a, b, 100.0))
    case QVelocityLimit => PairAs(payload, (a: nat, b: nat) => SignedRange(a, b, 100.0))
    case QTorqueLimit => PairAs(payload, (a: nat, b: nat) => SignedRange(a, b, 10.0))
    case QCurrentLimit => PairAs(payload, (a: nat, b: nat) => SignedRange(a, b, 10.0))
    case QCurrentLoopPi => PairAs(payload, (a: nat, b: nat) => Gains(a as real / 10000.0, b as real / 10.0))
    case QVelocityLoopPi => PairAs(payload, (a: nat, b: nat) => Gains(a as real / 100000.0, b as real / 100000.0))
    case QPositionLoopPd => PairAs(payload, (a: nat, b: nat) => Gains(a as real / 100000.0, b as real / 100000.0))
    case _ => DecodeScalar(code, payload)
  }

  function DecodeScalar(code: QueryCode, payload: seq<Byte>): Result<QueryValue> {
    if code == QPosition || code == QVelocity || code == QCurrent || code == QPower then
      if |payload| < 4 then Failure(ProtocolError)
      else Success(Scalar(Raw(U32Be(payload[0], payload[1], payload[2], payload[3]))))
    else if |payload| < 2 then Failure(ProtocolError)
    else
      var raw := U16Be(payload[0], payload[1]);
      if code == QCanTimeout then Success(Millis(raw))
      else if code == QTorqueRatio then Success(Scalar(Exact(raw as real / 100.0)))
      else Success(Scalar(Exact(raw as real)))
  }

  // ---------------------------------------------------------------------------------------------
  // Whole frames
  // ---------------------------------------------------------------------------------------------

  /** A field of a frame's active bytes; callers have checked that the frame is long enough. */
  function FieldOf(frame: CanFrame, offset: nat, len: nat): nat
    requires frame.len <= 8 && InRange(frame.len, offset, len)
  {
    Num(Window(frame.data[..frame.len], offset, len))
  }

  function Celsius(raw: nat): real { (raw as real - 50.0) / 2.0 }

  function Hundredths(raw: nat): real { FromU16(raw % 0x1_0000) as real / 100.0 }

  /** A response frame. `currentRange` is the current range of the motor's model, if it is known. */
  function ParseFeedback(frame: CanFrame, currentRange: Option<(real, real)>): Result<Feedback> {
    if frame.len == 0 || frame.len > 8 then Failure(ProtocolError)
    else if frame.id == 0x7FF && BroadcastResponse(frame).Some? then Success(BroadcastResponse(frame).value)
    else
      var error := ParseError(FieldOf(frame, 3, 5));
      match FieldOf(frame, 0, 3)
      case 1 =>
        if frame.len < 8 then Failure(ProtocolError)
        else
          Success(Status(error,
            Exact(DecodeSymmetric(FieldOf(frame, 8, 16), 12.5, 65535)),
            Exact(DecodeSymmetric(FieldOf(frame, 24, 12), 18.0, 4095)),
            Exact(if currentRange.Some?
                  then DecodeLinear(FieldOf(frame, 36, 12), currentRange.value.0, currentRange.value.1, 4095)
                  else FieldOf(frame, 36, 12) as real / 4095.0),
            Celsius(FieldOf(frame, 48, 8)), Celsius(FieldOf(frame, 56, 8))))
      case 2 =>
        if frame.len < 8 then Failure(ProtocolError)
        else
          Success(PositionFeedback(error, Raw(FieldOf(frame, 8, 32)), Exact(Hundredths(FieldOf(frame, 40, 16))),
            Celsius(FieldOf(frame, 56, 8))))
      case 3 =>
        if frame.len < 8 then Failure(ProtocolError)
        else
          Success(VelocityFeedback(error, Raw(FieldOf(frame, 8, 32)), Exact(Hundredths(FieldOf(frame, 40, 16))),
            Celsius(FieldOf(frame, 56, 8))))
      case 4 =>
        if frame.len < 3 then Failure(ProtocolError)
        else Success(ConfigAck(error, frame.data[1], FieldOf(frame, 16, 8) == 1))
      case 5 =>
        if frame.len < 2 then Failure(ProtocolError)
        else
          var code := QueryCodeOf(frame.data[1]);
          if code.None? then Failure(Unsupported)
          else
            var answer := DecodeQueryResult(code.value, frame.data[2..frame.len]);
            if answer.Failure? then Failure(answer.error) else Success(Query(error, code.value, answer.value))
      case 6 =>
        if frame.len < 2 then Failure(ProtocolError)
        else Success(BrakeStatus(error, FieldOf(frame, 8, 8) != 0))
      case _ => Failure(Unsupported)
  }

  function BroadcastResponse(frame: CanFrame): Option<Feedback> {
    if frame.len == 5 && frame.data[0] == 0xFF && frame.data[1] == 0xFF && frame.data[2] == 0x01 then
      Some(ConfigAck(NoError, CommMode.Wire(), true))
    else if frame.len >= 4 && frame.data[2] == 0x01 then
      Some(ConfigAck(NoError, Accel.Wire(), frame.data[3] != 0))
    else None
  }

  // ---------------------------------------------------------------------------------------------
  // Set, then query
  // ---------------------------------------------------------------------------------------------

  /** The query that reads back what a configuration code sets. */
  function QueryFor(code: SetCode): Option<QueryCode> {
    match code
    case Accel => Some(QAcceleration)
    case CommMode => None
    case TorqueRatio => Some(QTorqueRatio)
    case PvtKp => Some(QKpRange)
    case PvtKd => Some(QKdRange)
    case PositionLimit => Some(QPositionLimit)
    case VelocityLimit => Some(QVelocityLimit)
    case TorqueLimit => Some(QTorqueLimit)
    case CurrentLimit => Some(QCurrentLimit)
    case CanTimeout => Some(QCanTimeout)
    case CurrentLoopPi => Some(QCurrentLoopPi)
    case VelocityLoopPi => Some(QVelocityLoopPi)
    case PositionLoopPd => Some(QPositionLoopPd)
  }

  /** The configured value as it travels: the frame without its mode and key bytes. */
  function Payload(frame: CanFrame): seq<Byte>
    requires 2 <= frame.len <= 8
  {
    frame.data[2..frame.len]
  }

  /** A 16-bit field at a byte boundary is the two bytes found there. */
  lemma FieldBytes(frame: CanFrame, addr: Address, plan: Plan, i: nat, j: nat)
    requires Carries(frame, addr, plan) && i < |plan.fields|
    requires plan.fields[i].len == 16 && OffsetOf(plan.fields, i) == 8 * j && j + 2 <= plan.len
    ensures U16Be(frame.data[j], frame.data[j + 1]) == plan.fields[i].value
  {
    hide Num, Window, FieldBits, MessageBits;
    FieldReadBack(frame, addr, plan, i);
    AlignedWindow(frame.data[..plan.len], j, 2);
    WindowIs(frame.data[..plan.len], 8 * j);
  }

  lemma WindowIs(data: seq<Byte>, o: nat)
    requires InRange(|data|, o, 16)
    ensures Window(data, o, 16) == MessageBits(data)[o..o + 16]
  {
  }

  /** A range frame carries its two values as the payload pair. */
  lemma RangePayload(frame: CanFrame, addr: Address, code: SetCode, min: nat, max: nat)
    requires Carries(frame, addr, ConfigRangePlan(code, min, max))
    ensures Pair(Payload(frame)) == Success((min, max))
  {
    hide Fits, FieldBits, MessageBits, OffsetOf;
    var plan := ConfigRangePlan(code, min, max);
    Offsets(plan.fields);
    FieldBytes(frame, addr, plan, 3, 2);
    FieldBytes(frame, addr, plan, 4, 4);
  }

  lemma ValuePayload(frame: CanFrame, addr: Address, code: SetCode, value: nat)
    requires Carries(frame, addr, ConfigValuePlan(code, value))
    ensures U16Be(Payload(frame)[0], Payload(frame)[1]) == value && |Payload(frame)| == 2
  {
    hide Fits, FieldBits, MessageBits, OffsetOf;
    var plan := ConfigValuePlan(code, value);
    Offsets(plan.fields);
    FieldBytes(frame, addr, plan, 3, 2);
  }

  predicate Near(a: real, b: real, tolerance: real) {
    -tolerance <= a - b <= tolerance
  }

  /** Half a step of the code's scale. */
  function HalfStep(code: SetCode): real {
    match code
    case PvtKp => 0.5
    case PvtKd => 0.5
    case PositionLimit => 0.005
    case VelocityLimit => 0.005
    case TorqueLimit => 0.05
    case CurrentLimit => 0.05
    case _ => 0.0
  }

  /** Every range that can be set is read back to within half a step, negative limits included. */
  lemma RangeSetThenQuery(frame: CanFrame, addr: Address, code: SetCode, min: real, max: real)
    requires ConfigPlan(code, OfRange(Finite(min), Finite(max))).Success?
    requires Carries(frame, addr, ConfigPlan(code, OfRange(Finite(min), Finite(max))).value)
    ensures QueryFor(code).Some?
    ensures var r := DecodeQueryResult(QueryFor(code).value, Payload(frame));
            && r.Success? && r.value.Range?
            && Near(r.value.min, min, HalfStep(code)) && Near(r.value.max, max, HalfStep(code))
  {
    hide Fits, FieldBits, MessageBits, CheckedI16Scaled, CheckedU16Scaled, DecodeQueryResult, RangeEndValue, HalfStep;
    var a, b := RangeEnd(code, Finite(min)).value, RangeEnd(code, Finite(max)).value;
    RangePayload(frame, addr, code, a, b);
    DecodedRange(code, Payload(frame), a, b);
    RangeEndError(code, min);
    RangeEndError(code, max);
  }

  /** A gain range given in whole numbers is read back exactly. */
  lemma WholeRangeSetThenQuery(frame: CanFrame, addr: Address, code: SetCode, min: U16, max: U16)
    requires ConfigPlan(code, OfU16Range(min, max)).Success?
    requires Carries(frame, addr, ConfigPlan(code, OfU16Range(min, max)).value)
    ensures QueryFor(code).Some?
    ensures DecodeQueryResult(QueryFor(code).value, Payload(frame)) == Success(Range(min as real, max as real))
  {
    hide Fits, FieldBits, MessageBits, DecodeQueryResult;
    RangePayload(frame, addr, code, min, max);
    DecodedRange(code, Payload(frame), min, max);
  }

  /** The number a quantised range end stands for. */
  function RangeEndValue(code: SetCode, raw: nat): real {
    match code
    case PvtKp => raw as real
    case PvtKd => raw as real
    case PositionLimit => FromU16(raw % 0x1_0000) as real / 100.0
    case VelocityLimit => FromU16(raw % 0x1_0000) as real / 100.0
    case _ => FromU16(raw % 0x1_0000) as real / 10.0
  }

  lemma DecodedRange(code: SetCode, payload: seq<Byte>, a: nat, b: nat)
    requires Pair(payload) == Success((a, b))
    requires code in {PvtKp, PvtKd, PositionLimit, VelocityLimit, TorqueLimit, CurrentLimit}
    ensures DecodeQueryResult(QueryFor(code).value, payload) ==
            Success(Range(RangeEndValue(code, a), RangeEndValue(code, b)))
  {
    hide Pair, FromU16;
  }

  lemma RangeEndError(code: SetCode, v: real)
    requires RangeEnd(code, Finite(v)).Success?
    ensures Near(RangeEndValue(code, RangeEnd(code, Finite(v)).value), v, HalfStep(code))
  {
    hide Round;
    match code
    case PvtKp => ScaledError(v, 1.0, Round(Scaled(v, 1.0)));
    case PvtKd => ScaledError(v, 1.0, Round(Scaled(v, 1.0)));
    case PositionLimit => SignedError(v, 100.0);
    case VelocityLimit => SignedError(v, 100.0);
    case TorqueLimit => SignedError(v, 10.0);
    case CurrentLimit => SignedError(v, 10.0);
    case _ =>
  }

  lemma SignedError(v: real, scale: real)
    requires scale > 0.0 && CheckedI16Scaled(Finite(v), scale).Success?
    ensures var raw := ToU16(CheckedI16Scaled(Finite(v), scale).value);
            Near(FromU16(raw % 0x1_0000) as real / scale, v, 0.5 / scale)
  {
    hide Round;
    var n := CheckedI16Scaled(Finite(v), scale).value;
    SignedRoundTrip(n);
    ScaledError(v, scale, n);
  }

  /** Loop gains are read back to within half a step of their own scales. */
  lemma GainsSetThenQuery(frame: CanFrame, addr: Address, code: SetCode, kp: real, kd: real, ki: real)
    requires ConfigPlan(code, OfGains(Finite(kp), Finite(kd), Finite(ki))).Success?
    requires Carries(frame, addr, ConfigPlan(code, OfGains(Finite(kp), Finite(kd), Finite(ki))).value)
    ensures QueryFor(code).Some?
    ensures var r := DecodeQueryResult(QueryFor(code).value, Payload(frame));
            && r.Success? && r.value.Gains?
            && Near(r.value.first, kp, if code == CurrentLoopPi then 0.00005 else 0.000005)
            && Near(r.value.second, if code == PositionLoopPd then kd else ki,
                    if code == CurrentLoopPi then 0.05 else 0.000005)
  {
    hide Carries, Round, CheckedU16Scaled;
    var scale := if code == CurrentLoopPi then 10000.0 else 100000.0;
    var scale2 := if code == CurrentLoopPi then 10.0 else 100000.0;
    var second := if code == PositionLoopPd then kd else ki;
    var a, b := CheckedU16Scaled(Finite(kp), scale, 0xFFFF), CheckedU16Scaled(Finite(second), scale2, 0xFFFF);
    RangePayload(frame, addr, code, a.value, b.value);
    U16Error(kp, scale);
    U16Error(second, scale2);
  }

  lemma U16Error(v: real, scale: real)
    requires scale > 0.0 && CheckedU16Scaled(Finite(v), scale, 0xFFFF).Success?
    ensures Near(CheckedU16Scaled(Finite(v), scale, 0xFFFF).value as real / scale, v, 0.5 / scale)
  {
    hide Round;
    ScaledError(v, scale, CheckedU16Scaled(Finite(v), scale, 0xFFFF).value);
  }

  /** The torque ratio is read back to within half a hundredth, a timeout exactly. */
  lemma ScalarsSetThenQuery(frame: CanFrame, addr: Address, ratio: real, count: int)
    ensures ConfigPlan(TorqueRatio, OfDouble(Finite(ratio))).Success?
            && Carries(frame, addr, ConfigPlan(TorqueRatio, OfDouble(Finite(ratio))).value) ==>
              var r := DecodeQueryResult(QTorqueRatio, Payload(frame));
              r.Success? && r.value.Scalar? && r.value.q.Exact? && Near(r.value.q.value, ratio, 0.005)
    ensures ConfigPlan(CanTimeout, OfMillis(count)).Success?
            && Carries(frame, addr, ConfigPlan(CanTimeout, OfMillis(count)).value) ==>
              DecodeQueryResult(QCanTimeout, Payload(frame)) == Success(Millis(count))
  {
    hide Carries, Round, CheckedU16Scaled;
    if ConfigPlan(TorqueRatio, OfDouble(Finite(ratio))).Success?
       && Carries(frame, addr, ConfigPlan(TorqueRatio, OfDouble(Finite(ratio))).value) {
      ValuePayload(frame, addr, TorqueRatio, CheckedU16Scaled(Finite(ratio), 100.0, 0xFFFF).value);
      U16Error(ratio, 100.0);
    }
    if ConfigPlan(CanTimeout, OfMillis(count)).Success?
       && Carries(frame, addr, ConfigPlan(CanTimeout, OfMillis(count)).value) {
      ValuePayload(frame, addr, CanTimeout, count);
    }
  }

  /** An acceleration is sent in hundredths but read back unscaled: the answer is the number of hundredths,
      and it is within half a hundredth of what was set only for values that round to zero. */
  lemma AccelerationSetThenQuery(frame: CanFrame, addr: Address, a: real)
    requires ConfigPlan(Accel, OfFloat(Finite(a))).Success?
    requires Carries(frame, addr, ConfigPlan(Accel, OfFloat(Finite(a))).value)
    ensures var r := DecodeQueryResult(QAcceleration, Payload(frame));
            && r == Success(Scalar(Exact(Round(Scaled(a, 100.0)) as real)))
            && (Near(r.value.q.value, a, 0.005) <==> -0.005 < a < 0.005)
  {
    hide Carries;
    var n := CheckedU16Scaled(Finite(a), 100.0, 0xFFFF).value;
    ValuePayload(frame, addr, Accel, n);
    ScaledError(a, 100.0, n);
  }

  // ---------------------------------------------------------------------------------------------
  // Commanded and reported positions
  // ---------------------------------------------------------------------------------------------

  /** A motor that reports the very codes it was commanded is read within one and a half command steps of
      the commanded position and velocity. */
  lemma EchoedPvt(c: Command, frame: CanFrame, currentRange: Option<(real, real)>)
    requires c.Pvt? && c.position.Finite? && c.velocity.Finite? && PvtPlan(c).Success?
    requires frame.len == 8 && frame.id != 0x7FF && FieldOf(frame, 0, 3) == 1
    requires FieldOf(frame, 8, 16) == PvtPlan(c).value.fields[3].value
    requires FieldOf(frame, 24, 12) == PvtPlan(c).value.fields[4].value
    ensures var r := ParseFeedback(frame, currentRange);
            && r.Success? && r.value.Status?
            && r.value.position.Exact? && Near(r.value.position.value, c.position.value, 1.5 * 12.5 / 32767.0)
            && r.value.velocity.Exact? && Near(r.value.velocity.value, c.velocity.value, 1.5 * 18.0 / 2047.0)
  {
    hide CheckedSymmetric, CheckedPvtGain, DecodeSymmetric, FieldOf, DecodeLinear;
    SymmetricError(c.position.value, 12.5, 32767, 65535);
    SymmetricError(c.velocity.value, 18.0, 2047, 4095);
  }

  /** Commanding a reported position reproduces its code in the lower half of the range and the code below
      it in the upper half: reported positions and commanded positions use slightly different scales. */
  lemma ReportedPositionAsCommand(frame: CanFrame, currentRange: Option<(real, real)>)
    requires frame.len == 8 && frame.id != 0x7FF && FieldOf(frame, 0, 3) == 1
    ensures var r := ParseFeedback(frame, currentRange);
            var code := FieldOf(frame, 8, 16);
            && r.Success? && r.value.Status? && r.value.position.Exact?
            && CheckedSymmetric(Finite(r.value.position.value), Finite(12.5), 32767, 0xFFFF) ==
               Success(if code <= 32767 then code else code - 1)
  {
    hide CheckedSymmetric, DecodeSymmetric, DecodeLinear, Num, MessageBits, Pow2;
    Pow2Byte();
    CodeRoundTrip(FieldOf(frame, 8, 16), 12.5, 32767, 65535);
  }
}
