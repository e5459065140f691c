/**
 Motor commands as CAN frames. Each command quantises its arguments and writes them as bit fields; the
 fields of a frame tile its active bytes, so a frame is the concatenation of its fields.
 */
module CommandFrames {
  import opened Bits
  import opened Fleet
  import opened CodecMotor
  import opened CodecBit
  import opened Quantise

  datatype Address = Address(port: Byte, id: U32)

  type Reply = n: nat | n < 4

  datatype Brake = Damping | Energy(threshold: Float) | Regen(threshold: Float) | Engage(open: bool)

  datatype SetCode =
    | Accel | CommMode | TorqueRatio | PvtKp | PvtKd | PositionLimit | VelocityLimit | TorqueLimit
    | CurrentLimit | CanTimeout | CurrentLoopPi | VelocityLoopPi | PositionLoopPd
  {
    function Wire(): Byte {
      match this
      case Accel => 0x01
      case CommMode => 0x02
      case TorqueRatio => 0x04
      case PvtKp => 0x05
      case PvtKd => 0x06
      case PositionLimit => 0x07
      case VelocityLimit => 0x08
      case TorqueLimit => 0x09
      case CurrentLimit => 0x0A
      case CanTimeout => 0x0B
      case CurrentLoopPi => 0x0C
      case VelocityLoopPi => 0x0D
      case PositionLoopPd => 0x0E
    }
  }

  datatype SetValue =
    | OfFloat(f: Float)
    | OfByte(b: Byte)
    | OfDouble(d: Float)
    | OfU16Range(umin: U16, umax: U16)
    | OfRange(min: Float, max: Float)
    | OfMillis(count: int)
    | OfGains(kp: Float, kd: Float, ki: Float)

  type U16 = n: nat | n < 0x1_0000

  datatype Command =
    | Pvt(kp: Float, kd: Float, position: Float, velocity: Float, torque: Float)
    | Position(degBits: U32, velocityLimit: Float, currentLimit: Float, reply: Reply)
    | Velocity(rpmBits: U32, currentLimit: Float, reply: Reply)
    | Torque(nm: Float, reply: Reply)
    | Current(amps: Float, reply: Reply)
    | BrakeCmd(control: Brake, reply: Reply)
    | ConfigSet(code: SetCode, value: SetValue)
    | ConfigQuery(key: Byte)

  // ---------------------------------------------------------------------------------------------
  // Frames as lists of fields
  // ---------------------------------------------------------------------------------------------

  datatype Field = Field(len: nat, value: nat)

  /** The fields of a frame of `len` bytes, first to last. */
  datatype Plan = Plan(len: nat, fields: seq<Field>)

  function FieldBits(fields: seq<Field>): seq<bool> {
    if fields == [] then []
    else FieldBits(fields[..|fields| - 1]) + BitsOf(fields[|fields| - 1].value, fields[|fields| - 1].len)
  }

  predicate Fits(fields: seq<Field>) {
    forall i :: 0 <= i < |fields| ==> 1 <= fields[i].len <= 32 && fields[i].value < Pow2(fields[i].len)
  }

  /** Where field i starts. */
  function OffsetOf(fields: seq<Field>, i: nat): nat
    requires i <= |fields|
  {
    if i == 0 then 0 else OffsetOf(fields, i - 1) + fields[i - 1].len
  }

  /** `frame` goes to `addr` and carries exactly the fields of `plan`. */
  ghost predicate Carries(frame: CanFrame, addr: Address, plan: Plan) {
    && frame.port == addr.port && frame.id == addr.id && !frame.extended
    && frame.len == plan.len <= 8
    && Fits(plan.fields)
    && MessageBits(frame.data[..plan.len]) == FieldBits(plan.fields)
    && forall i :: plan.len <= i < 8 ==> frame.data[i] == 0
  }

  lemma {:induction false} FieldBitsPrefix(fields: seq<Field>, i: nat)
    requires i <= |fields|
    ensures |FieldBits(fields)| == OffsetOf(fields, |fields|)
    ensures OffsetOf(fields, i) <= |FieldBits(fields)|
    ensures FieldBits(fields)[..OffsetOf(fields, i)] == FieldBits(fields[..i])
    decreases |fields|
  {
    hide BitsOf;
    var last := |fields| - 1;
    if i == |fields| {
      assert fields[..i] == fields;
      if fields != [] {
        FieldBitsPrefix(fields[..last], last);
        OffsetOfPrefix(fields, last, last);
      }
    } else {
      FieldBitsPrefix(fields[..last], i);
      OffsetOfPrefix(fields, last, i);
      OffsetOfPrefix(fields, last, last);
      assert fields[..last][..i] == fields[..i];
    }
  }

  lemma {:induction false} OffsetOfPrefix(fields: seq<Field>, n: nat, i: nat)
    requires i <= n <= |fields|
    ensures OffsetOf(fields[..n], i) == OffsetOf(fields, i)
  {
    if i > 0 {
      OffsetOfPrefix(fields, n, i - 1);
    }
  }

  /** Field i occupies exactly its window. */
  lemma FieldWindow(fields: seq<Field>, i: nat)
    requires i < |fields|
    ensures OffsetOf(fields, i) + fields[i].len <= |FieldBits(fields)|
    ensures FieldBits(fields)[OffsetOf(fields, i)..OffsetOf(fields, i) + fields[i].len] ==
            BitsOf(fields[i].value, fields[i].len)
  {
    hide BitsOf, FieldBits, OffsetOf;
    var o, end, bits := OffsetOf(fields, i), OffsetOf(fields, i + 1), FieldBits(fields);
    FieldBitsPrefix(fields, i);
    FieldBitsPrefix(fields, i + 1);
    OneMoreField(fields, i);
    assert bits[o..end] == bits[..end][o..];
  }

  lemma OneMoreField(fields: seq<Field>, i: nat)
    requires i < |fields|
    ensures OffsetOf(fields, i + 1) == OffsetOf(fields, i) + fields[i].len
    ensures FieldBits(fields[..i + 1]) == FieldBits(fields[..i]) + BitsOf(fields[i].value, fields[i].len)
  {
    hide BitsOf;
    assert fields[..i + 1][..i] == fields[..i];
  }

  /** Reading any field of a command frame back gives the quantised value that was written. */
  lemma FieldReadBack(frame: CanFrame, addr: Address, plan: Plan, i: nat)
    requires Carries(frame, addr, plan) && i < |plan.fields|
    ensures InRange(plan.len, OffsetOf(plan.fields, i), plan.fields[i].len)
    ensures Num(Window(frame.data[..plan.len], OffsetOf(plan.fields, i), plan.fields[i].len)) == plan.fields[i].value
  {
    hide BitsOf, Num, FieldBits, MessageBits, Pow2;
    FieldWindow(plan.fields, i);
    NumOfBits(plan.fields[i].value, plan.fields[i].len);
  }

  /** A frame determines its fields: equal bytes in the same layout mean equal field values. */
  lemma FrameDeterminesFields(frame: CanFrame, addr: Address, a: Plan, b: Plan)
    requires Carries(frame, addr, a) && Carries(frame, addr, b)
    requires a.len == b.len && |a.fields| == |b.fields|
    requires forall i :: 0 <= i < |a.fields| ==> a.fields[i].len == b.fields[i].len
    ensures a.fields == b.fields
  {
    hide BitsOf, Num, FieldBits, MessageBits, Carries;
    forall i | 0 <= i < |a.fields|
      ensures a.fields[i] == b.fields[i]
    {
      SameOffsets(a.fields, b.fields, i);
      FieldReadBack(frame, addr, a, i);
      FieldReadBack(frame, addr, b, i);
    }
  }

  lemma {:induction false} SameOffsets(a: seq<Field>, b: seq<Field>, i: nat)
    requires i <= |a| == |b|
    requires forall k :: 0 <= k < |a| ==> a[k].len == b[k].len
    ensures OffsetOf(a, i) == OffsetOf(b, i)
  {
    if i > 0 {
      SameOffsets(a, b, i - 1);
    }
  }

  /** The same plan at the same address always gives the same frame. */
  lemma PlanDeterminesFrame(a: CanFrame, b: CanFrame, addr: Address, plan: Plan)
    requires Carries(a, addr, plan) && Carries(b, addr, plan)
    ensures a == b
  {
    hide FieldBits, MessageBits, Fits;
    if a.data[..plan.len] != b.data[..plan.len] {
      MessageBitsInjective(a.data[..plan.len], b.data[..plan.len]);
    }
    assert a.data == a.data[..plan.len] + a.data[plan.len..];
    assert b.data == b.data[..plan.len] + b.data[plan.len..];
    assert a.data[plan.len..] == b.data[plan.len..];
  }

  // ---------------------------------------------------------------------------------------------
  // What each command puts into its frame
  // ---------------------------------------------------------------------------------------------

  /** Continues with two quantised values, or fails with the first failure. */
  function Both(a: Result<nat>, b: Result<nat>, f: (nat, nat) -> Plan): Result<Plan> {
    if a.Failure? then Failure(a.error) else if b.Failure? then Failure(b.error) else Success(f(a.value, b.value))
  }

  /** A signed quantised value as the 16 bits that are sent. */
  function Signed(r: Result<int>): Result<nat>
    requires r.Success? ==> -0x8000 <= r.value < 0x8000
  {
    if r.Failure? then Failure(r.error) else Success(ToU16(r.value))
  }

  function PvtPlan(c: Command): Result<Plan>
    requires c.Pvt?
  {
    var kp := CheckedPvtGain(c.kp, Finite(500.0), 4095);
    var kd := CheckedPvtGain(c.kd, Finite(5.0), 511);
    var position := CheckedSymmetric(c.position, Finite(12.5), 32767, 0xFFFF);
    var velocity := CheckedSymmetric(c.velocity, Finite(18.0), 2047, 0x0FFF);
    var torque := CheckedSymmetric(c.torque, Finite(30.0), 2047, 0x0FFF);
    if kp.Failure? || kd.Failure? || position.Failure? || velocity.Failure? || torque.Failure? then
      Failure(InvalidArgument)
    else
      Success(Plan(8, [Field(3, 0), Field(12, kp.value), Field(9, kd.value), Field(16, position.value),
                       Field(12, velocity.value), Field(12, torque.value)]))
  }

  function PositionPlan(c: Command): Result<Plan>
    requires c.Position?
  {
    Both(CheckedU16Scaled(c.velocityLimit, 10.0, 0x7FFF), CheckedU16Scaled(c.currentLimit, 10.0, 0x0FFF),
         (v: nat, i: nat) =>
           Plan(8, [Field(3, 1), Field(32, c.degBits), Field(15, v), Field(12, i), Field(2, c.reply)]))
  }

  function VelocityPlan(c: Command): Result<Plan>
    requires c.Velocity?
  {
    var i := CheckedU16Scaled(c.currentLimit, 10.0, 0xFFFF);
    if i.Failure? then Failure(i.error)
    else Success(Plan(7, [Field(3, 2), Field(3, 0), Field(2, c.reply), Field(32, c.rpmBits), Field(16, i.value)]))
  }

  function TorquePlan(mode: nat, value: Float, reply: Reply): Result<Plan> {
    var raw := Signed(CheckedI16Scaled(value, 100.0));
    if raw.Failure? then Failure(raw.error)
    else Success(Plan(3, [Field(3, 3), Field(3, mode), Field(2, reply), Field(16, raw.value)]))
  }

  function BrakePlan(control: Brake, reply: Reply): Result<Plan> {
    match control
    case Damping => TorquePlan(2, Finite(0.0), reply)
    case Energy(i) => TorquePlan(4, i, reply)
    case Regen(i) => TorquePlan(4, i, reply)
    case Engage(open) => Success(Plan(2, [Field(3, 4), Field(5, 0), Field(8, if open then 1 else 0)]))
  }

  function ConfigValuePlan(code: SetCode, value: nat): Plan {
    Plan(4, [Field(3, 6), Field(5, 0), Field(8, code.Wire()), Field(16, value)])
  }

  function ConfigRangePlan(code: SetCode, min: nat, max: nat): Plan {
    Plan(6, [Field(3, 6), Field(5, 0), Field(8, code.Wire()), Field(16, min), Field(16, max)])
  }

  function ConfigPlan(code: SetCode, value: SetValue): Result<Plan> {
    match value
    case OfByte(mode) =>
      if code != CommMode then Failure(InvalidArgument)
      else Success(Plan(3, [Field(3, 6), Field(5, 0), Field(8, code.Wire()), Field(8, mode)]))
    case OfDouble(ratio) =>
      if code != TorqueRatio then Failure(InvalidArgument)
      else Valued(code, CheckedU16Scaled(ratio, 100.0, 0xFFFF))
    case OfFloat(acceleration) =>
      if code != Accel then Failure(InvalidArgument)
      else Valued(code, CheckedU16Scaled(acceleration, 100.0, 0xFFFF))
    case OfU16Range(min, max) =>
      if code != PvtKp && code != PvtKd then Failure(InvalidArgument)
      else Success(ConfigRangePlan(code, min, max))
    case OfRange(min, max) =>
      Ranged(code, RangeEnd(code, min), RangeEnd(code, max))
    case OfMillis(count) =>
      if code != CanTimeout || count < 0 || count > 0xFFFF then Failure(InvalidArgument)
      else Success(ConfigValuePlan(code, count))
    case OfGains(kp, kd, ki) =>
      if code == CurrentLoopPi then
        Ranged(code, CheckedU16Scaled(kp, 10000.0, 0xFFFF), CheckedU16Scaled(ki, 10.0, 0xFFFF))
      else if code == VelocityLoopPi then
        Ranged(code, CheckedU16Scaled(kp, 100000.0, 0xFFFF), CheckedU16Scaled(ki, 100000.0, 0xFFFF))
      else if code == PositionLoopPd then
        Ranged(code, CheckedU16Scaled(kp, 100000.0, 0xFFFF), CheckedU16Scaled(kd, 100000.0, 0xFFFF))
      else Failure(InvalidArgument)
  }

  /** One end of a floating-point range, quantised as its code asks. */
  function RangeEnd(code: SetCode, value: Float): Result<nat> {
    match code
    case PvtKp => CheckedU16Scaled(value, 1.0, 0xFFFF)
    case PvtKd => CheckedU16Scaled(value, 1.0, 0xFFFF)
    case PositionLimit => Signed(CheckedI16Scaled(value, 100.0))
    case VelocityLimit => Signed(CheckedI16Scaled(value, 100.0))
    case TorqueLimit => Signed(CheckedI16Scaled(value, 10.0))
    case CurrentLimit => Signed(CheckedI16Scaled(value, 10.0))
    case _ => Failure(InvalidArgument)
  }

  function Valued(code: SetCode, raw: Result<nat>): Result<Plan> {
    if raw.Failure? then Failure(raw.error) else Success(ConfigValuePlan(code, raw.value))
  }

  function Ranged(code: SetCode, min: Result<nat>, max: Result<nat>): Result<Plan> {
    Both(min, max, (a: nat, b: nat) => ConfigRangePlan(code, a, b))
  }

  /** The frame contents of a command: a quantiser's failure is the command's failure. */
  function PlanOf(c: Command): Result<Plan> {
    match c
    case Pvt(_, _, _, _, _) => PvtPlan(c)
    case Position(_, _, _, _) => PositionPlan(c)
    case Velocity(_, _, _) => VelocityPlan(c)
    case Torque(nm, reply) => TorquePlan(1, nm, reply)
    case Current(amps, reply) => TorquePlan(0, amps, reply)
    case BrakeCmd(control, reply) => BrakePlan(control, reply)
    case ConfigSet(code, value) => ConfigPlan(code, value)
    case ConfigQuery(key) => Success(Plan(2, [Field(3, 7), Field(5, 0), Field(8, key)]))
  }

  // ---------------------------------------------------------------------------------------------
  // What a motor reads from a frame
  // ---------------------------------------------------------------------------------------------

  /** The number in `len` bits from bit `offset` of a frame's active bytes. */
  function At(frame: CanFrame, offset: nat, len: nat): nat {
    if frame.len <= 8 && InRange(frame.len, offset, len) then Num(Window(frame.data[..frame.len], offset, len)) else 0
  }

  /** The number is finite, and the code is a nearest one to its place on the code scale. */
  predicate Nearest(code: int, number: Float, scale: real, center: real) {
    && number.Finite?
    && -0.5 <= code as real - Scaled(number.value, scale) - center <= 0.5
  }

  /** Sixteen bits as a signed number. */
  function Signed16(bits: nat): int {
    if bits < 0x8000 then bits else bits - 0x1_0000
  }

  /** The configuration code that a key byte stands for. */
  function CodeOf(key: nat): Option<SetCode> {
    match key
    case 0x01 => Some(Accel)
    case 0x02 => Some(CommMode)
    case 0x04 => Some(TorqueRatio)
    case 0x05 => Some(PvtKp)
    case 0x06 => Some(PvtKd)
    case 0x07 => Some(PositionLimit)
    case 0x08 => Some(VelocityLimit)
    case 0x09 => Some(TorqueLimit)
    case 0x0A => Some(CurrentLimit)
    case 0x0B => Some(CanTimeout)
    case 0x0C => Some(CurrentLoopPi)
    case 0x0D => Some(VelocityLoopPi)
    case 0x0E => Some(PositionLoopPd)
    case _ => None
  }

  /** A torque-control frame: its state, whether to reply, and hundredths. */
  predicate MeansTorque(f: CanFrame, state: nat, number: Float, reply: Reply) {
    && f.len == 3 && At(f, 0, 3) == 3 && At(f, 3, 3) == state && At(f, 6, 2) == reply
    && Nearest(Signed16(At(f, 8, 16)), number, 100.0, 0.0)
  }

  /** A frame that carries two 16-bit configuration values. */
  predicate MeansPair(f: CanFrame, a: int, b: int) {
    f.len == 6 && At(f, 16, 16) == a && At(f, 32, 16) == b
  }

  predicate MeansScaledPair(f: CanFrame, a: Float, scaleA: real, b: Float, scaleB: real) {
    f.len == 6 && Nearest(At(f, 16, 16), a, scaleA, 0.0) && Nearest(At(f, 32, 16), b, scaleB, 0.0)
  }

  predicate MeansSignedPair(f: CanFrame, a: Float, b: Float, scale: real) {
    && f.len == 6
    && Nearest(Signed16(At(f, 16, 16)), a, scale, 0.0) && Nearest(Signed16(At(f, 32, 16)), b, scale, 0.0)
  }

  /** The value of a configuration frame, on the scale of its code. */
  predicate MeansValue(f: CanFrame, code: SetCode, value: SetValue) {
    match value
    case OfByte(mode) => code == CommMode && f.len == 3 && At(f, 16, 8) == mode
    case OfDouble(ratio) => code == TorqueRatio && f.len == 4 && Nearest(At(f, 16, 16), ratio, 100.0, 0.0)
    case OfFloat(acceleration) => code == Accel && f.len == 4 && Nearest(At(f, 16, 16), acceleration, 100.0, 0.0)
    case OfMillis(count) => code == CanTimeout && f.len == 4 && At(f, 16, 16) == count
    case OfU16Range(min, max) => (code == PvtKp || code == PvtKd) && MeansPair(f, min, max)
    case OfRange(min, max) =>
      || ((code == PvtKp || code == PvtKd) && MeansScaledPair(f, min, 1.0, max, 1.0))
      || ((code == PositionLimit || code == VelocityLimit) && MeansSignedPair(f, min, max, 100.0))
      || ((code == TorqueLimit || code == CurrentLimit) && MeansSignedPair(f, min, max, 10.0))
    case OfGains(kp, kd, ki) =>
      || (code == CurrentLoopPi && MeansScaledPair(f, kp, 10000.0, ki, 10.0))
      || (code == VelocityLoopPi && MeansScaledPair(f, kp, 100000.0, ki, 100000.0))
      || (code == PositionLoopPd && MeansScaledPair(f, kp, 100000.0, kd, 100000.0))
  }

  /** Field by field, at its place in the frame, every argument of the command. */
  predicate MeansFields(f: CanFrame, c: Command) {
    match c
    case Pvt(kp, kd, position, velocity, torque) =>
      && f.len == 8 && At(f, 0, 3) == 0
      && Nearest(At(f, 3, 12), kp, 4095.0 / 500.0, 0.0) && Nearest(At(f, 15, 9), kd, 511.0 / 5.0, 0.0)
      && Nearest(At(f, 24, 16), position, 32767.0 / 12.5, 32767.0)
      && Nearest(At(f, 40, 12), velocity, 2047.0 / 18.0, 2047.0)
      && Nearest(At(f, 52, 12), torque, 2047.0 / 30.0, 2047.0)
    case Position(degBits, velocityLimit, currentLimit, reply) =>
      && f.len == 8 && At(f, 0, 3) == 1 && At(f, 3, 32) == degBits
      && Nearest(At(f, 35, 15), velocityLimit, 10.0, 0.0) && Nearest(At(f, 50, 12), currentLimit, 10.0, 0.0)
      && At(f, 62, 2) == reply
    case Velocity(rpmBits, currentLimit, reply) =>
      && f.len == 7 && At(f, 0, 3) == 2 && At(f, 3, 3) == 0 && At(f, 6, 2) == reply && At(f, 8, 32) == rpmBits
      && Nearest(At(f, 40, 16), currentLimit, 10.0, 0.0)
    case Torque(nm, reply) => MeansTorque(f, 1, nm, reply)
    case Current(amps, reply) => MeansTorque(f, 0, amps, reply)
    case BrakeCmd(Damping, reply) => MeansTorque(f, 2, Finite(0.0), reply)
    case BrakeCmd(Energy(threshold), reply) => MeansTorque(f, 4, threshold, reply)
    case BrakeCmd(Regen(threshold), reply) => MeansTorque(f, 4, threshold, reply)
    case BrakeCmd(Engage(open), _) =>
      f.len == 2 && At(f, 0, 3) == 4 && At(f, 3, 5) == 0 && At(f, 8, 8) == (if open then 1 else 0)
    case ConfigSet(code, value) =>
      && At(f, 0, 3) == 6 && At(f, 3, 5) == 0 && CodeOf(At(f, 8, 8)) == Some(code)
      && MeansValue(f, code, value)
    case ConfigQuery(key) => f.len == 2 && At(f, 0, 3) == 7 && At(f, 3, 5) == 0 && At(f, 8, 8) == key
  }

  /** The frame goes to this address, says what the command says, and nothing after that. */
  predicate Means(f: CanFrame, addr: Address, c: Command) {
    && f.port == addr.port && f.id == addr.id && !f.extended && MeansFields(f, c)
    && forall i :: f.len <= i < 8 ==> f.data[i] == 0
  }

  /** A finite number whose place on the code scale is less than half a step outside 0 to `max`. */
  predicate Codable(number: Float, scale: real, center: real, max: real) {
    number.Finite? && -0.5 < Scaled(number.value, scale) + center < max + 0.5
  }

  predicate Codable16(number: Float, scale: real) {
    number.Finite? && -32768.5 < Scaled(number.value, scale) < 32767.5
  }

  /** The configuration value belongs to its code and is in range. */
  predicate AcceptableValue(code: SetCode, value: SetValue) {
    match value
    case OfByte(_) => code == CommMode
    case OfDouble(ratio) => code == TorqueRatio && Codable(ratio, 100.0, 0.0, 65535.0)
    case OfFloat(acceleration) => code == Accel && Codable(acceleration, 100.0, 0.0, 65535.0)
    case OfMillis(count) => code == CanTimeout && 0 <= count <= 65535
    case OfU16Range(_, _) => code == PvtKp || code == PvtKd
    case OfRange(min, max) =>
      || ((code == PvtKp || code == PvtKd) && Codable(min, 1.0, 0.0, 65535.0) && Codable(max, 1.0, 0.0, 65535.0))
      || ((code == PositionLimit || code == VelocityLimit) && Codable16(min, 100.0) && Codable16(max, 100.0))
      || ((code == TorqueLimit || code == CurrentLimit) && Codable16(min, 10.0) && Codable16(max, 10.0))
    case OfGains(kp, kd, ki) =>
      || (code == CurrentLoopPi && Codable(kp, 10000.0, 0.0, 65535.0) && Codable(ki, 10.0, 0.0, 65535.0))
      || (code == VelocityLoopPi && Codable(kp, 100000.0, 0.0, 65535.0) && Codable(ki, 100000.0, 0.0, 65535.0))
      || (code == PositionLoopPd && Codable(kp, 100000.0, 0.0, 65535.0) && Codable(kd, 100000.0, 0.0, 65535.0))
  }

  /** The commands that can be encoded. */
  predicate Acceptable(c: Command) {
    match c
    case Pvt(kp, kd, position, velocity, torque) =>
      && Codable(kp, 4095.0 / 500.0, 0.0, 4095.0) && Codable(kd, 511.0 / 5.0, 0.0, 511.0)
      && Codable(position, 32767.0 / 12.5, 32767.0, 65535.0)
      && Codable(velocity, 2047.0 / 18.0, 2047.0, 4095.0) && Codable(torque, 2047.0 / 30.0, 2047.0, 4095.0)
    case Position(_, velocityLimit, currentLimit, _) =>
      Codable(velocityLimit, 10.0, 0.0, 32767.0) && Codable(currentLimit, 10.0, 0.0, 4095.0)
    case Velocity(_, currentLimit, _) => Codable(currentLimit, 10.0, 0.0, 65535.0)
    case Torque(nm, _) => Codable16(nm, 100.0)
    case Current(amps, _) => Codable16(amps, 100.0)
    case BrakeCmd(Energy(threshold), _) => Codable16(threshold, 100.0)
    case BrakeCmd(Regen(threshold), _) => Codable16(threshold, 100.0)
    case BrakeCmd(_, _) => true
    case ConfigSet(code, value) => AcceptableValue(code, value)
    case ConfigQuery(_) => true
  }

  lemma SymmetricCode(v: Float, range: real, center: nat, max: nat, scale: real)
    requires range > 0.0 && max < 0x1_0000 && scale == center as real / range
    ensures var r := CheckedSymmetric(v, Finite(range), center, max);
      && (r.Success? <==> Codable(v, scale, center as real, max as real))
      && (r.Success? ==> Nearest(r.value, v, scale, center as real))
  {
    hide Round;
    if v.Finite? {
      var x := SymmetricScale(v.value, range, center);
      Rescaled(v.value, range, center as real);
      CodeAccepts(x, max);
      RoundNear(x);
    }
  }

  lemma Rescaled(v: real, range: real, center: real)
    requires range > 0.0
    ensures v / range * center == Scaled(v, center / range)
  {
    var a, b := v / range, center / range;
    assert a * range == v && b * range == center;
    assert v * b == a * range * b == a * center;
  }

  lemma GainCode(v: Float, maxValue: real, maxRaw: nat, scale: real)
    requires maxValue > 0.0 && maxRaw < 0x1_0000 && scale == maxRaw as real / maxValue
    ensures var r := CheckedPvtGain(v, Finite(maxValue), maxRaw);
      && (r.Success? <==> Codable(v, scale, 0.0, maxRaw as real))
      && (r.Success? ==> Nearest(r.value, v, scale, 0.0))
  {
    hide Round;
    if v.Finite? {
      var x := GainScale(v.value, maxValue, maxRaw);
      Rescaled(v.value, maxValue, maxRaw as real);
      CodeAccepts(x, maxRaw);
      RoundNear(x);
    }
  }

  lemma ScaledCode(v: Float, scale: real, max: nat)
    ensures var r := CheckedU16Scaled(v, scale, max);
      && (r.Success? <==> Codable(v, scale, 0.0, max as real))
      && (r.Success? ==> Nearest(r.value, v, scale, 0.0))
  {
    hide Round;
    if v.Finite? {
      RoundInRange(Scaled(v.value, scale), max);
      RoundNear(Scaled(v.value, scale));
    }
  }

  lemma SignedCode(v: Float, scale: real)
    ensures var r := Signed(CheckedI16Scaled(v, scale));
      && (r.Success? <==> Codable16(v, scale))
      && (r.Success? ==> r.value < 0x1_0000 && Nearest(Signed16(r.value), v, scale, 0.0))
  {
    hide Round;
    if v.Finite? {
      RoundInSignedRange(Scaled(v.value, scale), -0x8000, 0x7FFF);
      RoundNear(Scaled(v.value, scale));
    }
  }

  /** Field i of a frame is found at its literal place. */
  lemma FieldAt(frame: CanFrame, addr: Address, plan: Plan, i: nat, offset: nat)
    requires Carries(frame, addr, plan) && i < |plan.fields| && OffsetOf(plan.fields, i) == offset
    ensures At(frame, offset, plan.fields[i].len) == plan.fields[i].value
  {
    hide FieldBits, Num, MessageBits, Fits, OffsetOf;
    FieldReadBack(frame, addr, plan, i);
  }

  lemma PvtMeaning(frame: CanFrame, addr: Address, c: Command)
    requires c.Pvt?
    ensures PvtPlan(c).Success? <==> Acceptable(c)
    ensures PvtPlan(c).Success? && Carries(frame, addr, PvtPlan(c).value) ==> MeansFields(frame, c)
  {
    hide CheckedPvtGain, CheckedSymmetric, Carries, Nearest, Codable, At, OffsetOf;
    GainCode(c.kp, 500.0, 4095, 4095.0 / 500.0);
    GainCode(c.kd, 5.0, 511, 511.0 / 5.0);
    SymmetricCode(c.position, 12.5, 32767, 0xFFFF, 32767.0 / 12.5);
    SymmetricCode(c.velocity, 18.0, 2047, 0x0FFF, 2047.0 / 18.0);
    SymmetricCode(c.torque, 30.0, 2047, 0x0FFF, 2047.0 / 30.0);
    if PvtPlan(c).Success? && Carries(frame, addr, PvtPlan(c).value) {
      FieldsAt(frame, addr, PvtPlan(c).value);
    }
  }

  lemma PositionMeaning(frame: CanFrame, addr: Address, c: Command)
    requires c.Position?
    ensures PositionPlan(c).Success? <==> Acceptable(c)
    ensures PositionPlan(c).Success? && Carries(frame, addr, PositionPlan(c).value) ==> MeansFields(frame, c)
  {
    hide CheckedU16Scaled, Carries, Nearest, Codable, At, OffsetOf;
    ScaledCode(c.velocityLimit, 10.0, 0x7FFF);
    ScaledCode(c.currentLimit, 10.0, 0x0FFF);
    if PositionPlan(c).Success? && Carries(frame, addr, PositionPlan(c).value) {
      FieldsAt(frame, addr, PositionPlan(c).value);
    }
  }

  lemma VelocityMeaning(frame: CanFrame, addr: Address, c: Command)
    requires c.Velocity?
    ensures VelocityPlan(c).Success? <==> Acceptable(c)
    ensures VelocityPlan(c).Success? && Carries(frame, addr, VelocityPlan(c).value) ==> MeansFields(frame, c)
  {
    hide CheckedU16Scaled, Carries, Nearest, Codable, At, OffsetOf;
    ScaledCode(c.currentLimit, 10.0, 0xFFFF);
    if VelocityPlan(c).Success? && Carries(frame, addr, VelocityPlan(c).value) {
      FieldsAt(frame, addr, VelocityPlan(c).value);
    }
  }

  lemma TorqueMeaning(frame: CanFrame, addr: Address, mode: nat, value: Float, reply: Reply)
    requires mode < 8
    ensures TorquePlan(mode, value, reply).Success? <==> Codable16(value, 100.0)
    ensures TorquePlan(mode, value, reply).Success? && Carries(frame, addr, TorquePlan(mode, value, reply).value) ==>
              MeansTorque(frame, mode, value, reply)
  {
    hide CheckedI16Scaled, Carries, Nearest, Codable16, At, OffsetOf;
    SignedCode(value, 100.0);
    if TorquePlan(mode, value, reply).Success? && Carries(frame, addr, TorquePlan(mode, value, reply).value) {
      FieldsAt(frame, addr, TorquePlan(mode, value, reply).value);
    }
  }

  lemma BrakeMeaning(frame: CanFrame, addr: Address, control: Brake, reply: Reply)
    ensures BrakePlan(control, reply).Success? <==> Acceptable(BrakeCmd(control, reply))
    ensures BrakePlan(control, reply).Success? && Carries(frame, addr, BrakePlan(control, reply).value) ==>
              MeansFields(frame, BrakeCmd(control, reply))
  {
    hide TorquePlan, Carries, MeansTorque, Codable16, At, OffsetOf;
    match control
    case Damping =>
      TorqueMeaning(frame, addr, 2, Finite(0.0), reply);
      ZeroIsCodable();
    case Energy(threshold) => TorqueMeaning(frame, addr, 4, threshold, reply);
    case Regen(threshold) => TorqueMeaning(frame, addr, 4, threshold, reply);
    case Engage(open) =>
      if Carries(frame, addr, BrakePlan(control, reply).value) {
        FieldsAt(frame, addr, BrakePlan(control, reply).value);
      }
  }

  lemma ZeroIsCodable()
    ensures Codable16(Finite(0.0), 100.0)
  {
  }

  /** The first six fields, at the offsets that their lengths add up to. */
  predicate Reads(frame: CanFrame, f: seq<Field>) {
    && (|f| >= 1 ==> At(frame, 0, f[0].len) == f[0].value)
    && (|f| >= 2 ==> At(frame, f[0].len, f[1].len) == f[1].value)
    && (|f| >= 3 ==> At(frame, f[0].len + f[1].len, f[2].len) == f[2].value)
    && (|f| >= 4 ==> At(frame, f[0].len + f[1].len + f[2].len, f[3].len) == f[3].value)
    && (|f| >= 5 ==> At(frame, f[0].len + f[1].len + f[2].len + f[3].len, f[4].len) == f[4].value)
    && (|f| >= 6 ==> At(frame, f[0].len + f[1].len + f[2].len + f[3].len + f[4].len, f[5].len) == f[5].value)
  }

  /** A frame that carries a plan reads as its fields, goes to its address, and ends in zeros. */
  lemma FieldsAt(frame: CanFrame, addr: Address, plan: Plan)
    requires Carries(frame, addr, plan)
    ensures frame.len == plan.len && frame.port == addr.port && frame.id == addr.id && !frame.extended
    ensures forall i :: plan.len <= i < 8 ==> frame.data[i] == 0
    ensures Reads(frame, plan.fields)
  {
    hide FieldBits, MessageBits, Fits, OffsetOf, At;
    var f := plan.fields;
    Offsets(f);
    if |f| >= 1 { FieldAt(frame, addr, plan, 0, 0); }
    if |f| >= 2 { FieldAt(frame, addr, plan, 1, f[0].len); }
    if |f| >= 3 { FieldAt(frame, addr, plan, 2, f[0].len + f[1].len); }
    if |f| >= 4 { FieldAt(frame, addr, plan, 3, f[0].len + f[1].len + f[2].len); }
    if |f| >= 5 { FieldAt(frame, addr, plan, 4, f[0].len + f[1].len + f[2].len + f[3].len); }
    if |f| >= 6 { FieldAt(frame, addr, plan, 5, f[0].len + f[1].len + f[2].len + f[3].len + f[4].len); }
  }

  lemma KeyIsCode(code: SetCode)
    ensures CodeOf(code.Wire()) == Some(code)
  {
  }

  lemma ValueMeaning(frame: CanFrame, addr: Address, code: SetCode, raw: nat)
    requires Carries(frame, addr, ConfigValuePlan(code, raw))
    ensures frame.len == 4 && At(frame, 0, 3) == 6 && At(frame, 3, 5) == 0 && CodeOf(At(frame, 8, 8)) == Some(code)
    ensures At(frame, 16, 16) == raw
  {
    hide Carries, At, OffsetOf, CodeOf;
    FieldsAt(frame, addr, ConfigValuePlan(code, raw));
    KeyIsCode(code);
  }

  lemma RangeMeaning(frame: CanFrame, addr: Address, code: SetCode, a: nat, b: nat)
    requires Carries(frame, addr, ConfigRangePlan(code, a, b))
    ensures frame.len == 6 && At(frame, 0, 3) == 6 && At(frame, 3, 5) == 0 && CodeOf(At(frame, 8, 8)) == Some(code)
    ensures At(frame, 16, 16) == a && At(frame, 32, 16) == b
  {
    hide Carries, At, OffsetOf, CodeOf;
    FieldsAt(frame, addr, ConfigRangePlan(code, a, b));
    KeyIsCode(code);
  }

  lemma ConfigAccepts(code: SetCode, value: SetValue)
    ensures ConfigPlan(code, value).Success? <==> AcceptableValue(code, value)
  {
    hide CheckedU16Scaled, CheckedI16Scaled, Codable, Codable16, Nearest;
    match value
    case OfDouble(ratio) => ScaledCode(ratio, 100.0, 0xFFFF);
    case OfFloat(acceleration) => ScaledCode(acceleration, 100.0, 0xFFFF);
    case OfRange(min, max) =>
      RangeEndMeaning(code, min);
      RangeEndMeaning(code, max);
    case OfGains(kp, kd, ki) => GainsAccept(code, kp, kd, ki);
    case _ =>
  }

  lemma GainsAccept(code: SetCode, kp: Float, kd: Float, ki: Float)
    ensures ConfigPlan(code, OfGains(kp, kd, ki)).Success? <==> AcceptableValue(code, OfGains(kp, kd, ki))
  {
    hide CheckedU16Scaled, Codable, Nearest;
    if code == CurrentLoopPi {
      ScaledCode(kp, 10000.0, 0xFFFF);
      ScaledCode(ki, 10.0, 0xFFFF);
    } else {
      ScaledCode(kp, 100000.0, 0xFFFF);
      ScaledCode(if code == VelocityLoopPi then ki else kd, 100000.0, 0xFFFF);
    }
  }

  /** What one end of a range is as the bits `r`, on the scale of its code. */
  predicate EndMeans(code: SetCode, v: Float, r: Result<nat>) {
    match code
    case PvtKp | PvtKd =>
      && (r.Success? <==> Codable(v, 1.0, 0.0, 65535.0))
      && (r.Success? ==> Nearest(r.value, v, 1.0, 0.0))
    case PositionLimit | VelocityLimit =>
      && (r.Success? <==> Codable16(v, 100.0))
      && (r.Success? ==> Nearest(Signed16(r.value), v, 100.0, 0.0))
    case TorqueLimit | CurrentLimit =>
      && (r.Success? <==> Codable16(v, 10.0))
      && (r.Success? ==> Nearest(Signed16(r.value), v, 10.0, 0.0))
    case _ => r.Failure?
  }

  lemma RangeEndMeaning(code: SetCode, v: Float)
    ensures EndMeans(code, v, RangeEnd(code, v))
  {
    hide CheckedU16Scaled, CheckedI16Scaled, Codable, Codable16, Nearest, Signed, Signed16;
    ScaledCode(v, 1.0, 0xFFFF);
    SignedCode(v, 100.0);
    SignedCode(v, 10.0);
  }

  lemma ConfigMeaning(frame: CanFrame, addr: Address, code: SetCode, value: SetValue)
    requires ConfigPlan(code, value).Success? && Carries(frame, addr, ConfigPlan(code, value).value)
    ensures MeansFields(frame, ConfigSet(code, value))
  {
    hide CheckedU16Scaled, CheckedI16Scaled, Carries, Nearest, At, OffsetOf, CodeOf, ConfigValuePlan, ConfigRangePlan,
      Signed16, RangeEnd;
    match value
    case OfByte(mode) =>
      FieldsAt(frame, addr, ConfigPlan(code, value).value);
      KeyIsCode(code);
    case OfDouble(ratio) =>
      ScaledCode(ratio, 100.0, 0xFFFF);
      ValueMeaning(frame, addr, code, CheckedU16Scaled(ratio, 100.0, 0xFFFF).value);
    case OfFloat(acceleration) =>
      ScaledCode(acceleration, 100.0, 0xFFFF);
      ValueMeaning(frame, addr, code, CheckedU16Scaled(acceleration, 100.0, 0xFFFF).value);
    case OfMillis(count) => ValueMeaning(frame, addr, code, count);
    case OfU16Range(min, max) => RangeMeaning(frame, addr, code, min, max);
    case OfRange(min, max) =>
      RangeEndMeaning(code, min);
      RangeEndMeaning(code, max);
      RangeMeaning(frame, addr, code, RangeEnd(code, min).value, RangeEnd(code, max).value);
    case OfGains(kp, kd, ki) => GainsMeaning(frame, addr, code, kp, kd, ki);
  }

  lemma GainsMeaning(frame: CanFrame, addr: Address, code: SetCode, kp: Float, kd: Float, ki: Float)
    requires ConfigPlan(code, OfGains(kp, kd, ki)).Success?
    requires Carries(frame, addr, ConfigPlan(code, OfGains(kp, kd, ki)).value)
    ensures MeansFields(frame, ConfigSet(code, OfGains(kp, kd, ki)))
  {
    hide CheckedU16Scaled, Carries, Nearest, At, OffsetOf, CodeOf, ConfigRangePlan;
    var first := if code == CurrentLoopPi then 10000.0 else 100000.0;
    var second := if code == CurrentLoopPi then 10.0 else 100000.0;
    var other := if code == PositionLoopPd then kd else ki;
    ScaledCode(kp, first, 0xFFFF);
    ScaledCode(other, second, 0xFFFF);
    RangeMeaning(frame, addr, code, CheckedU16Scaled(kp, first, 0xFFFF).value,
                 CheckedU16Scaled(other, second, 0xFFFF).value);
  }

  /** A frame that carries a command's fields means the command; the acceptable ones have such fields. */
  lemma PlanMeaning(frame: CanFrame, addr: Address, c: Command)
    ensures PlanOf(c).Success? <==> Acceptable(c)
    ensures PlanOf(c).Success? && Carries(frame, addr, PlanOf(c).value) ==> Means(frame, addr, c)
  {
    hide PvtPlan, PositionPlan, VelocityPlan, TorquePlan, BrakePlan, ConfigPlan, Carries, MeansFields;
    if PlanOf(c).Success? && Carries(frame, addr, PlanOf(c).value) {
      FieldsAt(frame, addr, PlanOf(c).value);
    }
    match c
    case Pvt(_, _, _, _, _) => PvtMeaning(frame, addr, c);
    case Position(_, _, _, _) => PositionMeaning(frame, addr, c);
    case Velocity(_, _, _) => VelocityMeaning(frame, addr, c);
    case Torque(nm, reply) => TorqueCommandMeaning(frame, addr, c);
    case Current(amps, reply) => TorqueCommandMeaning(frame, addr, c);
    case BrakeCmd(control, reply) => BrakeMeaning(frame, addr, control, reply);
    case ConfigSet(code, value) =>
      ConfigAccepts(code, value);
      if PlanOf(c).Success? && Carries(frame, addr, PlanOf(c).value) {
        ConfigMeaning(frame, addr, code, value);
      }
    case ConfigQuery(_) => QueryMeaning(frame, addr, c);
  }

  const ANY_FRAME: CanFrame := CanFrame(0, 0, false, EMPTY_DATA, 0)

  lemma Accepts(c: Command)
    ensures PlanOf(c).Success? <==> Acceptable(c)
  {
    hide PlanOf, Acceptable;
    PlanMeaning(ANY_FRAME, Address(0, 0), c);
  }

  lemma TorqueCommandMeaning(frame: CanFrame, addr: Address, c: Command)
    requires c.Torque? || c.Current?
    ensures PlanOf(c).Success? && Carries(frame, addr, PlanOf(c).value) ==> MeansFields(frame, c)
    ensures PlanOf(c).Success? <==> Acceptable(c)
  {
    hide TorquePlan, Carries, MeansTorque, Codable16;
    if c.Torque? {
      TorqueMeaning(frame, addr, 1, c.nm, c.reply);
    } else {
      TorqueMeaning(frame, addr, 0, c.amps, c.reply);
    }
  }

  lemma QueryMeaning(frame: CanFrame, addr: Address, c: Command)
    requires c.ConfigQuery?
    ensures Carries(frame, addr, PlanOf(c).value) ==> MeansFields(frame, c)
  {
    hide Carries, At, OffsetOf;
    if Carries(frame, addr, PlanOf(c).value) {
      FieldsAt(frame, addr, PlanOf(c).value);
    }
  }

  // ---------------------------------------------------------------------------------------------
  // Building frames
  // ---------------------------------------------------------------------------------------------

  /** The buffer holds the fields written so far, then zeros. */
  ghost predicate Holds(buf: seq<Byte>, fields: seq<Field>) {
    && |FieldBits(fields)| <= 8 * |buf|
    && Fits(fields)
    && MessageBits(buf) == FieldBits(fields) + Zeros(8 * |buf| - |FieldBits(fields)|)
  }

  method NewBuffer(len: nat) returns (buf: array<Byte>)
    ensures fresh(buf) && buf.Length == len
    ensures Holds(buf[..], [])
  {
    buf := new Byte[len](_ => 0);
    ZeroBuffer(buf[..]);
  }

  lemma {:induction false} ZeroBuffer(buf: seq<Byte>)
    requires forall i :: 0 <= i < |buf| ==> buf[i] == 0
    ensures MessageBits(buf) == Zeros(8 * |buf|)
  {
    if buf != [] {
      BitsOfZero(8);
      ZeroBuffer(buf[1..]);
      assert Zeros(8 * |buf|) == Zeros(8) + Zeros(8 * (|buf| - 1));
    }
  }

  /** Writes the next field. It fails only for a value that does not fit, or past the end. */
  method Put(buf: array<Byte>, ghost done: seq<Field>, offset: nat, len: nat, value: nat)
    returns (e: Err, ghost more: seq<Field>)
    requires Holds(buf[..], done) && offset == |FieldBits(done)|
    requires 1 <= len <= 32 && value < 0x1_0000_0000
    modifies buf
    ensures e == Ok <==> offset + len <= 8 * buf.Length && value < Pow2(len)
    ensures e == Ok ==> more == done + [Field(len, value)] && Holds(buf[..], more)
    ensures e == Ok ==> |FieldBits(more)| == offset + len
  {
    hide MessageBits, BitsOf, Pow2, FieldBits;
    e := Write(buf, offset, len, value);
    more := done + [Field(len, value)];
    FieldBitsMore(done, Field(len, value));
  }

  lemma FieldBitsMore(done: seq<Field>, f: Field)
    ensures FieldBits(done + [f]) == FieldBits(done) + BitsOf(f.value, f.len)
  {
    assert (done + [f])[..|done|] == done;
  }

  /** Reserved bits that nobody writes are a zero field. */
  lemma Skip(buf: seq<Byte>, done: seq<Field>, len: nat)
    requires Holds(buf, done) && 1 <= len <= 32 && |FieldBits(done)| + len <= 8 * |buf|
    ensures Holds(buf, done + [Field(len, 0)])
    ensures |FieldBits(done + [Field(len, 0)])| == |FieldBits(done)| + len
  {
    hide MessageBits, BitsOf;
    FieldBitsMore(done, Field(len, 0));
    BitsOfZero(len);
    assert Zeros(8 * |buf| - |FieldBits(done)|) == Zeros(len) + Zeros(8 * |buf| - |FieldBits(done)| - len);
  }

  lemma EmptyFields()
    ensures |FieldBits([])| == 0
  {
  }

  lemma FieldMasks()
    ensures Pow2(2) == 4 && Pow2(3) == 8 && Pow2(5) == 32 && Pow2(9) == 512 && Pow2(12) == 4096 && Pow2(15) == 32768
    ensures Pow2(8) == 256 && Pow2(16) == 0x1_0000 && Pow2(32) == 0x1_0000_0000
  {
    Pow2Byte();
    assert Pow2(2) == 4;
    assert Pow2(5) == 8 * Pow2(2);
    assert Pow2(9) == 2 * Pow2(8);
    assert Pow2(10) == 4 * Pow2(8);
    assert Pow2(12) == 4 * Pow2(10);
    assert Pow2(14) == 4 * Pow2(12);
  }

  /** The finished frame: inactive bytes stay zero. */
  method Finish(buf: array<Byte>, addr: Address, ghost fields: seq<Field>) returns (frame: CanFrame)
    requires buf.Length <= 8 && Holds(buf[..], fields) && |FieldBits(fields)| == 8 * buf.Length
    ensures Carries(frame, addr, Plan(buf.Length, fields))
  {
    hide MessageBits, FieldBits, Fits;
    var data := buf[..] + seq(8 - buf.Length, _ => 0);
    assert data[..buf.Length] == buf[..];
    frame := CanFrame(addr.port, addr.id, false, data, buf.Length);
  }

  method MakePvt(addr: Address, c: Command) returns (r: Result<CanFrame>)
    requires c.Pvt?
    ensures r.Failure? <==> PvtPlan(c).Failure?
    ensures r.Failure? ==> r.error == InvalidArgument
    ensures r.Success? ==> Carries(r.value, addr, PvtPlan(c).value)
    ensures r.Success? <==> Acceptable(c)
    ensures r.Success? ==> Means(r.value, addr, c)
  {
    hide Acceptable, Means, Holds, FieldBits, Fits, Pow2, Carries, CheckedPvtGain, CheckedSymmetric;
    Accepts(c);
    var buf := NewBuffer(8);
    var kp := CheckedPvtGain(c.kp, Finite(500.0), 4095);
    var kd := CheckedPvtGain(c.kd, Finite(5.0), 511);
    var position := CheckedSymmetric(c.position, Finite(12.5), 32767, 0xFFFF);
    var velocity := CheckedSymmetric(c.velocity, Finite(18.0), 2047, 0x0FFF);
    var torque := CheckedSymmetric(c.torque, Finite(30.0), 2047, 0x0FFF);
    if kp.Failure? { return Failure(InvalidArgument); }
    if kd.Failure? { return Failure(InvalidArgument); }
    if position.Failure? { return Failure(InvalidArgument); }
    if velocity.Failure? { return Failure(InvalidArgument); }
    if torque.Failure? { return Failure(InvalidArgument); }
    FieldMasks();
    EmptyFields();
    ghost var fields := [];
    var e;
    e, fields := Put(buf, fields, 0, 3, 0);
    if e != Ok { return Failure(e); }
    e, fields := Put(buf, fields, 3, 12, kp.value);
    if e != Ok { return Failure(e); }
    e, fields := Put(buf, fields, 15, 9, kd.value);
    if e != Ok { return Failure(e); }
    e, fields := Put(buf, fields, 24, 16, position.value);
    if e != Ok { return Failure(e); }
    e, fields := Put(buf, fields, 40, 12, velocity.value);
    if e != Ok { return Failure(e); }
    e, fields := Put(buf, fields, 52, 12, torque.value);
    if e != Ok { return Failure(e); }
    assert fields == PvtPlan(c).value.fields;
    var frame := Finish(buf, addr, fields);
    PlanMeaning(frame, addr, c);
    r := Success(frame);
  }

  method MakePosition(addr: Address, c: Command) returns (r: Result<CanFrame>)
    requires c.Position?
    ensures r.Failure? <==> PositionPlan(c).Failure?
    ensures r.Failure? ==> r.error == InvalidArgument
    ensures r.Success? ==> Carries(r.value, addr, PositionPlan(c).value)
    ensures r.Success? <==> Acceptable(c)
    ensures r.Success? ==> Means(r.value, addr, c)
  {
    hide Acceptable, Means, Holds, FieldBits, Fits, Pow2, Carries;
    Accepts(c);
    var buf := NewBuffer(8);
    var velocity := CheckedU16Scaled(c.velocityLimit, 10.0, 0x7FFF);
    if velocity.Failure? { return Failure(velocity.error); }
    var current := CheckedU16Scaled(c.currentLimit, 10.0, 0x0FFF);
    if current.Failure? { return Failure(current.error); }
    FieldMasks();
    EmptyFields();
    ghost var fields := [];
    var e;
    e, fields := Put(buf, fields, 0, 3, 1);
    if e != Ok { return Failure(e); }
    e, fields := Put(buf, fields, 3, 32, c.degBits);
    if e != Ok { return Failure(e); }
    e, fields := Put(buf, fields, 35, 15, velocity.value);
    if e != Ok { return Failure(e); }
    e, fields := Put(buf, fields, 50, 12, current.value);
    if e != Ok { return Failure(e); }
    e, fields := Put(buf, fields, 62, 2, c.reply);
    if e != Ok { return Failure(e); }
    assert fields == PositionPlan(c).value.fields;
    var frame := Finish(buf, addr, fields);
    PlanMeaning(frame, addr, c);
    r := Success(frame);
  }

  method MakeVelocity(addr: Address, c: Command) returns (r: Result<CanFrame>)
    requires c.Velocity?
    ensures r.Failure? <==> VelocityPlan(c).Failure?
    ensures r.Failure? ==> r.error == InvalidArgument
    ensures r.Success? ==> Carries(r.value, addr, VelocityPlan(c).value)
    ensures r.Success? <==> Acceptable(c)
    ensures r.Success? ==> Means(r.value, addr, c)
  {
    hide Acceptable, Means, Holds, FieldBits, Fits, Pow2, Carries;
    Accepts(c);
    var buf := NewBuffer(7);
    var current := CheckedU16Scaled(c.currentLimit, 10.0, 0xFFFF);
    if current.Failure? { return Failure(current.error); }
    FieldMasks();
    EmptyFields();
    ghost var fields := [];
    var e;
    e, fields := Put(buf, fields, 0, 3, 2);
    if e != Ok { return Failure(e); }
    e, fields := Put(buf, fields, 3, 3, 0);
    if e != Ok { return Failure(e); }
    e, fields := Put(buf, fields, 6, 2, c.reply);
    if e != Ok { return Failure(e); }
    e, fields := Put(buf, fields, 8, 32, c.rpmBits);
    if e != Ok { return Failure(e); }
    e, fields := Put(buf, fields, 40, 16, current.value);
    if e != Ok { return Failure(e); }
    assert fields == VelocityPlan(c).value.fields;
    var frame := Finish(buf, addr, fields);
    PlanMeaning(frame, addr, c);
    r := Success(frame);
  }

  method EncodeTorqueControl(addr: Address, mode: nat, value: Float, reply: Reply) returns (r: Result<CanFrame>)
    requires mode < 8
    ensures r.Failure? <==> TorquePlan(mode, value, reply).Failure?
    ensures r.Failure? ==> r.error == InvalidArgument
    ensures r.Success? ==> Carries(r.value, addr, TorquePlan(mode, value, reply).value)
    ensures r.Success? <==> Codable16(value, 100.0)
    ensures r.Success? ==> MeansTorque(r.value, mode, value, reply)
  {
    hide Holds, FieldBits, Fits, Pow2, Carries, Codable16, MeansTorque;
    TorqueMeaning(ANY_FRAME, addr, mode, value, reply);
    var buf := NewBuffer(3);
    var raw := CheckedI16Scaled(value, 100.0);
    if raw.Failure? { return Failure(raw.error); }
    FieldMasks();
    EmptyFields();
    ghost var fields := [];
    var e;
    e, fields := Put(buf, fields, 0, 3, 3);
    if e != Ok { return Failure(e); }
    e, fields := Put(buf, fields, 3, 3, mode);
    if e != Ok { return Failure(e); }
    e, fields := Put(buf, fields, 6, 2, reply);
    if e != Ok { return Failure(e); }
    e, fields := Put(buf, fields, 8, 16, ToU16(raw.value));
    if e != Ok { return Failure(e); }
    assert fields == TorquePlan(mode, value, reply).value.fields;
    var frame := Finish(buf, addr, fields);
    TorqueMeaning(frame, addr, mode, value, reply);
    r := Success(frame);
  }

  method MakeBrake(addr: Address, control: Brake, reply: Reply) returns (r: Result<CanFrame>)
    ensures r.Failure? <==> BrakePlan(control, reply).Failure?
    ensures r.Failure? ==> r.error == InvalidArgument
    ensures r.Success? ==> Carries(r.value, addr, BrakePlan(control, reply).value)
    ensures r.Success? <==> Acceptable(BrakeCmd(control, reply))
    ensures r.Success? ==> Means(r.value, addr, BrakeCmd(control, reply))
  {
    hide Holds, FieldBits, Fits, Pow2, Carries, TorquePlan, Acceptable, Means;
    Accepts(BrakeCmd(control, reply));
    match control {
    case Damping =>
      r := EncodeTorqueControl(addr, 2, Finite(0.0), reply);
    case Energy(threshold) =>
      r := EncodeTorqueControl(addr, 4, threshold, reply);
    case Regen(threshold) =>
      r := EncodeTorqueControl(addr, 4, threshold, reply);
    case Engage(open) =>
      var buf := NewBuffer(2);
      FieldMasks();
      EmptyFields();
      ghost var fields := [];
      var e;
      e, fields := Put(buf, fields, 0, 3, 4);
      if e != Ok { return Failure(e); }
      e, fields := Put(buf, fields, 3, 5, 0);
      if e != Ok { return Failure(e); }
      e, fields := Put(buf, fields, 8, 8, if open then 1 else 0);
      if e != Ok { return Failure(e); }
      assert fields == BrakePlan(control, reply).value.fields;
      var frame := Finish(buf, addr, fields);
      r := Success(frame);
    }
    if r.Success? {
      PlanMeaning(r.value, addr, BrakeCmd(control, reply));
    }
  }

  /** Mode and key of a configuration frame; the bits between them stay zero. */
  method PutConfigHead(buf: array<Byte>, mode: nat, key: Byte) returns (e: Err, ghost fields: seq<Field>)
    requires buf.Length >= 2 && Holds(buf[..], []) && mode < 8
    modifies buf
    ensures e == Ok
    ensures fields == [Field(3, mode), Field(5, 0), Field(8, key)]
    ensures Holds(buf[..], fields) && |FieldBits(fields)| == 16
  {
    hide Holds, FieldBits, Fits, Pow2;
    FieldMasks();
    EmptyFields();
    e, fields := Put(buf, [], 0, 3, mode);
    Skip(buf[..], fields, 5);
    fields := fields + [Field(5, 0)];
    e, fields := Put(buf, fields, 8, 8, key);
  }

  method MakeConfigValue(addr: Address, code: SetCode, value: U16) returns (frame: CanFrame)
    ensures Carries(frame, addr, ConfigValuePlan(code, value))
  {
    hide Holds, FieldBits, Fits, Pow2, Carries;
    var buf := NewBuffer(4);
    var e;
    ghost var fields;
    FieldMasks();
    e, fields := PutConfigHead(buf, 6, code.Wire());
    e, fields := Put(buf, fields, 16, 16, value);
    assert fields == ConfigValuePlan(code, value).fields;
    frame := Finish(buf, addr, fields);
  }

  method MakeConfigRange(addr: Address, code: SetCode, min: U16, max: U16) returns (frame: CanFrame)
    ensures Carries(frame, addr, ConfigRangePlan(code, min, max))
  {
    hide Holds, FieldBits, Fits, Pow2, Carries;
    var buf := NewBuffer(6);
    var e;
    ghost var fields;
    FieldMasks();
    e, fields := PutConfigHead(buf, 6, code.Wire());
    e, fields := Put(buf, fields, 16, 16, min);
    e, fields := Put(buf, fields, 32, 16, max);
    assert fields == ConfigRangePlan(code, min, max).fields;
    frame := Finish(buf, addr, fields);
  }

  method EncodeConfigValue(addr: Address, code: SetCode, value: SetValue) returns (r: Result<CanFrame>)
    ensures r.Failure? <==> ConfigPlan(code, value).Failure?
    ensures r.Failure? ==> r.error == InvalidArgument
    ensures r.Success? ==> Carries(r.value, addr, ConfigPlan(code, value).value)
  {
    hide Carries, Holds, FieldBits, Fits, Pow2;
    match value
    case OfByte(mode) =>
      if code != CommMode { return Failure(InvalidArgument); }
      var buf := NewBuffer(3);
      var e;
      ghost var fields;
      FieldMasks();
      e, fields := PutConfigHead(buf, 6, code.Wire());
      e, fields := Put(buf, fields, 16, 8, mode);
      assert fields == ConfigPlan(code, value).value.fields;
      var frame := Finish(buf, addr, fields);
      r := Success(frame);
    case OfDouble(ratio) =>
      if code != TorqueRatio { return Failure(InvalidArgument); }
      r := EncodeValue(addr, code, CheckedU16Scaled(ratio, 100.0, 0xFFFF));
    case OfFloat(acceleration) =>
      if code != Accel { return Failure(InvalidArgument); }
      r := EncodeValue(addr, code, CheckedU16Scaled(acceleration, 100.0, 0xFFFF));
    case OfU16Range(min, max) =>
      if code != PvtKp && code != PvtKd { return Failure(InvalidArgument); }
      r := EncodeRange(addr, code, Success(min), Success(max));
    case OfRange(min, max) =>
      r := EncodeRange(addr, code, RangeEnd(code, min), RangeEnd(code, max));
    case OfMillis(count) =>
      if code != CanTimeout { return Failure(InvalidArgument); }
      if count < 0 || count > 0xFFFF { return Failure(InvalidArgument); }
      r := EncodeValue(addr, code, Success(count));
    case OfGains(kp, kd, ki) =>
      if code == CurrentLoopPi {
        r := EncodeRange(addr, code, CheckedU16Scaled(kp, 10000.0, 0xFFFF), CheckedU16Scaled(ki, 10.0, 0xFFFF));
      } else if code == VelocityLoopPi {
        r := EncodeRange(addr, code, CheckedU16Scaled(kp, 100000.0, 0xFFFF), CheckedU16Scaled(ki, 100000.0, 0xFFFF));
      } else if code == PositionLoopPd {
        r := EncodeRange(addr, code, CheckedU16Scaled(kp, 100000.0, 0xFFFF), CheckedU16Scaled(kd, 100000.0, 0xFFFF));
      } else {
        r := Failure(InvalidArgument);
      }
  }

  method EncodeValue(addr: Address, code: SetCode, raw: Result<nat>) returns (r: Result<CanFrame>)
    requires if raw.Failure? then raw.error == InvalidArgument else raw.value < 0x1_0000
    ensures r.Failure? <==> Valued(code, raw).Failure?
    ensures r.Failure? ==> r.error == InvalidArgument
    ensures r.Success? ==> Carries(r.value, addr, Valued(code, raw).value)
  {
    if raw.Failure? { return Failure(raw.error); }
    var frame := MakeConfigValue(addr, code, raw.value);
    r := Success(frame);
  }

  method EncodeRange(addr: Address, code: SetCode, min: Result<nat>, max: Result<nat>) returns (r: Result<CanFrame>)
    requires if min.Failure? then min.error == InvalidArgument else min.value < 0x1_0000
    requires if max.Failure? then max.error == InvalidArgument else max.value < 0x1_0000
    ensures r.Failure? <==> Ranged(code, min, max).Failure?
    ensures r.Failure? ==> r.error == InvalidArgument
    ensures r.Success? ==> Carries(r.value, addr, Ranged(code, min, max).value)
  {
    if min.Failure? { return Failure(min.error); }
    if max.Failure? { return Failure(max.error); }
    var frame := MakeConfigRange(addr, code, min.value, max.value);
    r := Success(frame);
  }

  method EncodeConfigPayload(addr: Address, code: SetCode, value: SetValue) returns (r: Result<CanFrame>)
    ensures r.Failure? <==> ConfigPlan(code, value).Failure?
    ensures r.Failure? ==> r.error == InvalidArgument
    ensures r.Success? ==> Carries(r.value, addr, ConfigPlan(code, value).value)
    ensures r.Success? <==> AcceptableValue(code, value)
    ensures r.Success? ==> Means(r.value, addr, ConfigSet(code, value))
  {
    hide AcceptableValue, ConfigPlan, Carries, Means;
    ConfigAccepts(code, value);
    r := EncodeConfigValue(addr, code, value);
    if r.Success? {
      PlanMeaning(r.value, addr, ConfigSet(code, value));
    }
  }

  method MakeConfigQuery(addr: Address, key: Byte) returns (frame: CanFrame)
    ensures Carries(frame, addr, PlanOf(ConfigQuery(key)).value) && Means(frame, addr, ConfigQuery(key))
  {
    hide Carries, Holds, FieldBits, Fits, Pow2, Means;
    var buf := NewBuffer(2);
    var e;
    ghost var fields;
    e, fields := PutConfigHead(buf, 7, key);
    frame := Finish(buf, addr, fields);
    PlanMeaning(frame, addr, ConfigQuery(key));
  }

  /** Encodes any command. It fails exactly when a quantiser rejects an argument or a configuration value
      does not belong to its code; no field write fails after that. */
  method Encode(addr: Address, c: Command) returns (r: Result<CanFrame>)
    ensures r.Failure? <==> PlanOf(c).Failure?
    ensures r.Failure? ==> r.error == InvalidArgument
    ensures r.Success? ==> Carries(r.value, addr, PlanOf(c).value)
    ensures r.Success? <==> Acceptable(c)
    ensures r.Success? ==> Means(r.value, addr, c)
  {
    hide Acceptable, Means, Carries, PvtPlan, PositionPlan, VelocityPlan, TorquePlan, BrakePlan, ConfigPlan;
    match c {
    case Pvt(_, _, _, _, _) => r := MakePvt(addr, c);
    case Position(_, _, _, _) => r := MakePosition(addr, c);
    case Velocity(_, _, _) => r := MakeVelocity(addr, c);
    case Torque(nm, reply) => r := EncodeTorqueControl(addr, 1, nm, reply);
    case Current(amps, reply) => r := EncodeTorqueControl(addr, 0, amps, reply);
    case BrakeCmd(control, reply) => r := MakeBrake(addr, control, reply);
    case ConfigSet(code, value) => r := EncodeConfigPayload(addr, code, value);
    case ConfigQuery(key) =>
      var frame := MakeConfigQuery(addr, key);
      r := Success(frame);
    }
    Accepts(c);
    if r.Success? {
      PlanMeaning(r.value, addr, c);
    }
  }

  /** Commands of one kind; an energy brake counts as a regenerative one. */
  predicate SameKind(c: Command, d: Command) {
    match c
    case Pvt(_, _, _, _, _) => d.Pvt?
    case Position(_, _, _, _) => d.Position?
    case Velocity(_, _, _) => d.Velocity?
    case Torque(_, _) => d.Torque?
    case Current(_, _) => d.Current?
    case BrakeCmd(Damping, _) => d.BrakeCmd? && d.control.Damping?
    case BrakeCmd(Engage(_), _) => d.BrakeCmd? && d.control.Engage?
    case BrakeCmd(_, _) => d.BrakeCmd? && (d.control.Energy? || d.control.Regen?)
    case ConfigSet(code, _) => d.ConfigSet? && d.code == code
    case ConfigQuery(_) => d.ConfigQuery?
  }

  /** A frame tells what kind of command it is, but for the two brakes that return energy. */
  lemma FrameTellsKind(f: CanFrame, addr: Address, c: Command, d: Command)
    requires Means(f, addr, c) && Means(f, addr, d)
    ensures SameKind(c, d)
  {
    hide At, Nearest, MeansValue;
  }

  /** Those two are the same frame: the state of the energy brake, 3, is never sent. */
  lemma EnergyBrakeIsRegen(a: CanFrame, b: CanFrame, addr: Address, threshold: Float, reply: Reply)
    requires PlanOf(BrakeCmd(Energy(threshold), reply)).Success?
    requires Carries(a, addr, PlanOf(BrakeCmd(Energy(threshold), reply)).value)
    requires Carries(b, addr, PlanOf(BrakeCmd(Regen(threshold), reply)).value)
    ensures a == b && At(a, 0, 3) == 3 && At(a, 3, 3) == 4
  {
    hide Carries, At, Nearest, TorquePlan, Codable16;
    TorqueMeaning(a, addr, 4, threshold, reply);
    PlanDeterminesFrame(a, b, addr, TorquePlan(4, threshold, reply).value);
  }

  /** The fields fill the frame's active bits exactly, and every value fits its field. */
  ghost predicate Tiles(p: Plan) {
    2 <= p.len <= 8 && OffsetOf(p.fields, |p.fields|) == 8 * p.len && Fits(p.fields)
  }

  /** Every command that can be encoded fills its frame to the last active bit, with values that fit. */
  lemma PlansTile(c: Command)
    requires PlanOf(c).Success?
    ensures Tiles(PlanOf(c).value)
  {
    hide PvtPlan, PositionPlan, VelocityPlan, TorquePlan, BrakePlan, ConfigPlan, Tiles;
    match c
    case Pvt(_, _, _, _, _) => PvtTiles(c);
    case Position(_, _, _, _) => PositionTiles(c);
    case Velocity(_, _, _) => VelocityTiles(c);
    case Torque(nm, reply) => TorqueTiles(1, nm, reply);
    case Current(amps, reply) => TorqueTiles(0, amps, reply);
    case BrakeCmd(control, reply) => BrakeTiles(control, reply);
    case ConfigSet(code, value) => ConfigTiles(code, value);
    case ConfigQuery(key) => QueryTiles(key);
  }

  lemma PvtTiles(c: Command)
    requires c.Pvt? && PvtPlan(c).Success?
    ensures Tiles(PvtPlan(c).value)
  {
    hide CheckedPvtGain, CheckedSymmetric, Pow2, OffsetOf;
    FieldMasks();
    Offsets(PvtPlan(c).value.fields);
  }

  lemma PositionTiles(c: Command)
    requires c.Position? && PositionPlan(c).Success?
    ensures Tiles(PositionPlan(c).value)
  {
    hide CheckedU16Scaled, Pow2, OffsetOf;
    FieldMasks();
    Offsets(PositionPlan(c).value.fields);
  }

  lemma VelocityTiles(c: Command)
    requires c.Velocity? && VelocityPlan(c).Success?
    ensures Tiles(VelocityPlan(c).value)
  {
    hide CheckedU16Scaled, Pow2, OffsetOf;
    FieldMasks();
    Offsets(VelocityPlan(c).value.fields);
  }

  lemma TorqueTiles(mode: nat, value: Float, reply: Reply)
    requires mode < 8 && TorquePlan(mode, value, reply).Success?
    ensures Tiles(TorquePlan(mode, value, reply).value)
  {
    hide CheckedI16Scaled, Pow2, OffsetOf;
    FieldMasks();
    Offsets(TorquePlan(mode, value, reply).value.fields);
  }

  lemma BrakeTiles(control: Brake, reply: Reply)
    requires BrakePlan(control, reply).Success?
    ensures Tiles(BrakePlan(control, reply).value)
  {
    hide TorquePlan, Pow2, OffsetOf;
    match control
    case Damping => TorqueTiles(2, Finite(0.0), reply);
    case Energy(i) => TorqueTiles(4, i, reply);
    case Regen(i) => TorqueTiles(4, i, reply);
    case Engage(open) =>
      FieldMasks();
      Offsets(BrakePlan(control, reply).value.fields);
  }

  lemma ConfigTiles(code: SetCode, value: SetValue)
    requires ConfigPlan(code, value).Success?
    ensures Tiles(ConfigPlan(code, value).value)
  {
    hide CheckedU16Scaled, CheckedI16Scaled, Pow2, OffsetOf;
    FieldMasks();
    Offsets(ConfigPlan(code, value).value.fields);
  }

  lemma QueryTiles(key: Byte)
    ensures Tiles(PlanOf(ConfigQuery(key)).value)
  {
    hide Pow2, OffsetOf;
    FieldMasks();
    Offsets(PlanOf(ConfigQuery(key)).value.fields);
  }

  /** A field starts where the lengths before it add up to. */
  lemma Offsets(f: seq<Field>)
    ensures OffsetOf(f, 0) == 0
    ensures |f| >= 1 ==> OffsetOf(f, 1) == f[0].len
    ensures |f| >= 2 ==> OffsetOf(f, 2) == f[0].len + f[1].len
    ensures |f| >= 3 ==> OffsetOf(f, 3) == f[0].len + f[1].len + f[2].len
    ensures |f| >= 4 ==> OffsetOf(f, 4) == f[0].len + f[1].len + f[2].len + f[3].len
    ensures |f| >= 5 ==> OffsetOf(f, 5) == f[0].len + f[1].len + f[2].len + f[3].len + f[4].len
    ensures |f| >= 6 ==> OffsetOf(f, 6) == f[0].len + f[1].len + f[2].len + f[3].len + f[4].len + f[5].len
  {
    if |f| >= 1 { assert OffsetOf(f, 1) == OffsetOf(f, 0) + f[0].len; }
    if |f| >= 2 { assert OffsetOf(f, 2) == OffsetOf(f, 1) + f[1].len; }
    if |f| >= 3 { assert OffsetOf(f, 3) == OffsetOf(f, 2) + f[2].len; }
    if |f| >= 4 { assert OffsetOf(f, 4) == OffsetOf(f, 3) + f[3].len; }
    if |f| >= 5 { assert OffsetOf(f, 5) == OffsetOf(f, 4) + f[4].len; }
  }
}
