/** The sampled state of one motor, updated by decoded feedback. */
module DeviceMotor {
  import opened Bits
  import opened Fleet
  import opened CodecMotor
  import opened CommandFrames
  import opened Feedback

  const PI: real := 3.14159265358979323846
  const RAD_TO_DEG: real := 180.0 / PI
  const RADPS_TO_RPM: real := 60.0 / (2.0 * PI)

  /** One sampled field; sequence number 0 means it was never received. */
  datatype Sample<T> = Sample(time: int, seqNo: nat, value: T) {
    predicate Received() { seqNo != 0 }

    predicate Fresh(now: int, maxAge: int) { Received() && now - time <= maxAge }
  }

  type UuidBytes = b: seq<Byte> | |b| == 12 witness [0, 0, 0, 0, 0, 0, 0, 0, 0, 0, 0, 0]

  /** A unique id assembled from three fragments; `mask` holds the numbers of the bits that are set. */
  datatype Uuid = Uuid(bytes: UuidBytes, mask: set<nat>) {
    predicate Complete() { {0, 1, 2} <= mask }
  }

  /** Codes whose answers have a field that nothing else fills in. */
  predicate KeptApart(code: QueryCode) {
    code != QPosition && code != QVelocity && code != QCurrent && code != QBrakeStatus && code != QMcuUuid
  }

  const UNANSWERED: Reading := Sample(0, 0, Scalar(Exact(0.0)))

  type Reading = Sample<QueryValue>

  /** The fields that only answers to queries fill in. */
  datatype ConfigState = ConfigState(
    power: Reading, acceleration: Reading, fluxObserverGain: Reading,
    disturbanceCompensation: Reading, feedbackCompensation: Reading, damping: Reading,
    torqueRatio: Reading, kpRange: Reading, kdRange: Reading,
    positionLimit: Reading, velocityLimit: Reading, torqueLimit: Reading,
    currentLimit: Reading, version: Reading, canTimeout: Reading,
    currentLoopPi: Reading, velocityLoopPi: Reading, positionLoopPd: Reading
  ) {
    /** The field that belongs to a code. */
    function Field(code: QueryCode): Reading
      requires KeptApart(code)
    {
      match code
      case QPower => power
      case QAcceleration => acceleration
      case QFluxObserverGain => fluxObserverGain
      case QDisturbance => disturbanceCompensation
      case QFeedbackCompensation => feedbackCompensation
      case QDamping => damping
      case QTorqueRatio => torqueRatio
      case QKpRange => kpRange
      case QKdRange => kdRange
      case QPositionLimit => positionLimit
      case QVelocityLimit => velocityLimit
      case QTorqueLimit => torqueLimit
      case QCurrentLimit => currentLimit
      case QVersion => version
      case QCanTimeout => canTimeout
      case QCurrentLoopPi => currentLoopPi
      case QVelocityLoopPi => velocityLoopPi
      case QPositionLoopPd => positionLoopPd
    }
  }

  /** Everything sampled. */
  datatype Readings = Readings(
    error: Sample<MotorErr>,
    position: Sample<Quantity>, // degrees
    velocity: Sample<Quantity>, // revolutions per minute
    current: Sample<Quantity>,
    motorTemp: Sample<real>,
    mosfetTemp: Sample<real>,
    brake: Sample<bool>,
    uuid: Sample<Uuid>,
    config: ConfigState,
    updatedAt: int
  )

  datatype Snapshot = Snapshot(
    error: Sample<MotorErr>, position: Sample<Quantity>, velocity: Sample<Quantity>, current: Sample<Quantity>
  ) {
    predicate Received() {
      error.Received() && position.Received() && velocity.Received() && current.Received()
    }

    predicate Coherent() {
      && Received()
      && error.seqNo == position.seqNo && error.seqNo == velocity.seqNo && error.seqNo == current.seqNo
      && error.time == position.time && error.time == velocity.time && error.time == current.time
    }

    predicate Fresh(now: int, maxAge: int) { Coherent() && error.Fresh(now, maxAge) }
  }

  const ZERO_UUID: UuidBytes := [0, 0, 0, 0, 0, 0, 0, 0, 0, 0, 0, 0]

  const NO_ANSWERS: ConfigState :=
    ConfigState(
      UNANSWERED, UNANSWERED, UNANSWERED, UNANSWERED, UNANSWERED, UNANSWERED,
      UNANSWERED, UNANSWERED, UNANSWERED, UNANSWERED, UNANSWERED, UNANSWERED,
      UNANSWERED, UNANSWERED, UNANSWERED, UNANSWERED, UNANSWERED, UNANSWERED)

  function Blank(): Readings {
    Readings(Sample(0, 0, NoError), Sample(0, 0, Exact(0.0)), Sample(0, 0, Exact(0.0)), Sample(0, 0, Exact(0.0)),
             Sample(0, 0, 0.0), Sample(0, 0, 0.0), Sample(0, 0, false), Sample(0, 0, Uuid(ZERO_UUID, {})),
             NO_ANSWERS, 0)
  }

  function SnapshotOf(r: Readings): Snapshot { Snapshot(r.error, r.position, r.velocity, r.current) }

  /** Query answers have the type that their code calls for. */
  predicate Shaped(message: Feedback) {
    message.Query? ==>
      match message.code
      case QPosition | QVelocity | QCurrent => message.answer.Scalar?
      case QMcuUuid => message.answer.Fragment? && |message.answer.bytes| == 4
      case QBrakeStatus => message.answer.Flag?
      case _ => true
  }

  lemma ParsedIsShaped(frame: CanFrame, currentRange: Option<(real, real)>)
    requires ParseFeedback(frame, currentRange).Success?
    ensures Shaped(ParseFeedback(frame, currentRange).value)
  {
    hide FieldOf, ParseError, BroadcastResponse, Celsius, Hundredths, QueryCodeOf;
    BroadcastIsAck(frame);
  }

  lemma BroadcastIsAck(frame: CanFrame)
    ensures BroadcastResponse(frame).Some? ==> BroadcastResponse(frame).value.ConfigAck?
  {
  }

  function Converted(q: Quantity, factor: real): Quantity {
    match q
    case Exact(value) => Exact(value * factor)
    case Raw(_) => q
  }

  /** One locked update: a message with its receive time and its sequence ticket. */
  datatype Write = Write(message: Feedback, time: int, seqNo: nat) {
    function As<T>(value: T): Sample<T> { Sample(time, seqNo, value) }
  }

  function WithFragment(uuid: Uuid, index: Byte, bytes: seq<Byte>): Uuid
    requires 1 <= index <= 3 && |bytes| == 4
  {
    var at := (index - 1) * 4;
    Uuid(uuid.bytes[..at] + bytes + uuid.bytes[at + 4..], uuid.mask + {index - 1})
  }

  /** What a write does to the readings. */
  function Written(r: Readings, w: Write): (n: Readings)
    requires Shaped(w.message)
  {
    match w.message
    case ConfigAck(_, _, _) => r
    case Status(error, position, velocity, current, motorTemp, mosfetTemp) =>
      r.(error := w.As(error), position := w.As(Converted(position, RAD_TO_DEG)),
         velocity := w.As(Converted(velocity, RADPS_TO_RPM)), current := w.As(current),
         motorTemp := w.As(motorTemp), mosfetTemp := w.As(mosfetTemp), updatedAt := w.time)
    case PositionFeedback(error, position, current, motorTemp) =>
      r.(error := w.As(error), position := w.As(position), current := w.As(current),
         motorTemp := w.As(motorTemp), updatedAt := w.time)
    case VelocityFeedback(error, velocity, current, motorTemp) =>
      r.(error := w.As(error), velocity := w.As(velocity), current := w.As(current),
         motorTemp := w.As(motorTemp), updatedAt := w.time)
    case BrakeStatus(error, engaged) =>
      r.(error := w.As(error), brake := w.As(engaged), updatedAt := w.time)
    case Query(error, code, answer) =>
      Answered(r.(error := w.As(error), updatedAt := w.time), w, code, answer)
  }

  function WithAnswer(c: ConfigState, code: QueryCode, a: Reading): ConfigState
    requires KeptApart(code)
  {
    match code
    case QPower => c.(power := a)
    case QAcceleration => c.(acceleration := a)
    case QFluxObserverGain => c.(fluxObserverGain := a)
    case QDisturbance => c.(disturbanceCompensation := a)
    case QFeedbackCompensation => c.(feedbackCompensation := a)
    case QDamping => c.(damping := a)
    case QTorqueRatio => c.(torqueRatio := a)
    case QKpRange => c.(kpRange := a)
    case QKdRange => c.(kdRange := a)
    case QPositionLimit => c.(positionLimit := a)
    case QVelocityLimit => c.(velocityLimit := a)
    case QTorqueLimit => c.(torqueLimit := a)
    case QCurrentLimit => c.(currentLimit := a)
    case QVersion => c.(version := a)
    case QCanTimeout => c.(canTimeout := a)
    case QCurrentLoopPi => c.(currentLoopPi := a)
    case QVelocityLoopPi => c.(velocityLoopPi := a)
    case QPositionLoopPd => c.(positionLoopPd := a)
  }

  function Answered(r: Readings, w: Write, code: QueryCode, answer: QueryValue): (n: Readings)
    requires w.message.Query? && w.message.code == code && w.message.answer == answer
    requires Shaped(w.message)
  {
    match code
    case QPosition => r.(position := w.As(answer.q))
    case QVelocity => r.(velocity := w.As(answer.q))
    case QCurrent => r.(current := w.As(answer.q))
    case QBrakeStatus => r.(brake := w.As(answer.on))
    case QMcuUuid =>
      if 1 <= answer.index <= 3
      then r.(uuid := w.As(WithFragment(r.uuid.value, answer.index, answer.bytes)))
      else r
    case _ => r.(config := WithAnswer(r.config, code, w.As(answer)))
  }

  lemma AnsweredThenStamped(r: Readings, w: Write)
    requires w.message.Query? && Shaped(w.message)
    ensures Answered(r, w, w.message.code, w.message.answer).(updatedAt := w.time) ==
            Answered(r.(updatedAt := w.time), w, w.message.code, w.message.answer)
  {
    hide WithFragment, Shaped;
  }

  // ---------------------------------------------------------------------------------------------
  // What a message says of each field
  // ---------------------------------------------------------------------------------------------

  /** Radians as degrees, and radians per second as revolutions per minute. */
  function Degrees(q: Quantity): Quantity {
    if q.Exact? then Exact(q.value * 180.0 / 3.14159265358979323846) else q
  }

  function Rpm(q: Quantity): Quantity {
    if q.Exact? then Exact(q.value * 60.0 / 6.28318530717958647692) else q
  }

  /** The error that a message carries; acknowledgements carry none. */
  function ErrorIn(m: Feedback): Option<MotorErr> {
    if m.ConfigAck? then None else Some(m.error)
  }

  /** The position that a message carries, in degrees. */
  function PositionIn(m: Feedback): Option<Quantity> {
    match m
    case Status(_, position, _, _, _, _) => Some(Degrees(position))
    case PositionFeedback(_, position, _, _) => Some(position)
    case Query(_, QPosition, Scalar(q)) => Some(q)
    case _ => None
  }

  /** The velocity that a message carries, in revolutions per minute. */
  function VelocityIn(m: Feedback): Option<Quantity> {
    match m
    case Status(_, _, velocity, _, _, _) => Some(Rpm(velocity))
    case VelocityFeedback(_, velocity, _, _) => Some(velocity)
    case Query(_, QVelocity, Scalar(q)) => Some(q)
    case _ => None
  }

  function CurrentIn(m: Feedback): Option<Quantity> {
    match m
    case Status(_, _, _, current, _, _) => Some(current)
    case PositionFeedback(_, _, current, _) => Some(current)
    case VelocityFeedback(_, _, current, _) => Some(current)
    case Query(_, QCurrent, Scalar(q)) => Some(q)
    case _ => None
  }

  function MotorTempIn(m: Feedback): Option<real> {
    match m
    case Status(_, _, _, _, motorTemp, _) => Some(motorTemp)
    case PositionFeedback(_, _, _, motorTemp) => Some(motorTemp)
    case VelocityFeedback(_, _, _, motorTemp) => Some(motorTemp)
    case _ => None
  }

  function MosfetTempIn(m: Feedback): Option<real> {
    if m.Status? then Some(m.mosfetTemp) else None
  }

  function BrakeIn(m: Feedback): Option<bool> {
    match m
    case BrakeStatus(_, engaged) => Some(engaged)
    case Query(_, QBrakeStatus, Flag(on)) => Some(on)
    case _ => None
  }

  /** A fragment of the unique id with a legal index. */
  function FragmentIn(m: Feedback): Option<Byte> {
    match m
    case Query(_, QMcuUuid, Fragment(index, _)) => if 1 <= index <= 3 then Some(index) else None
    case _ => None
  }

  /** The value given, with the message's time and ticket; without one, what was there. */
  function Replaced<T>(given: Option<T>, w: Write, was: Sample<T>): Sample<T> {
    if given.Some? then w.As(given.value) else was
  }

  /** The answer to a query, if the message is one; otherwise what was there. */
  function AnswerOr(w: Write, code: QueryCode, was: Reading): Reading {
    if w.message.Query? && w.message.code == code then w.As(w.message.answer) else was
  }

  /** Each field that only answers fill in takes the answer to its own query. */
  predicate TakesAnswers(r: ConfigState, n: ConfigState, w: Write) {
    && n.power == AnswerOr(w, QPower, r.power)
    && n.acceleration == AnswerOr(w, QAcceleration, r.acceleration)
    && n.fluxObserverGain == AnswerOr(w, QFluxObserverGain, r.fluxObserverGain)
    && n.disturbanceCompensation == AnswerOr(w, QDisturbance, r.disturbanceCompensation)
    && n.feedbackCompensation == AnswerOr(w, QFeedbackCompensation, r.feedbackCompensation)
    && n.damping == AnswerOr(w, QDamping, r.damping)
    && n.torqueRatio == AnswerOr(w, QTorqueRatio, r.torqueRatio)
    && n.kpRange == AnswerOr(w, QKpRange, r.kpRange)
    && n.kdRange == AnswerOr(w, QKdRange, r.kdRange)
    && n.positionLimit == AnswerOr(w, QPositionLimit, r.positionLimit)
    && n.velocityLimit == AnswerOr(w, QVelocityLimit, r.velocityLimit)
    && n.torqueLimit == AnswerOr(w, QTorqueLimit, r.torqueLimit)
    && n.currentLimit == AnswerOr(w, QCurrentLimit, r.currentLimit)
    && n.version == AnswerOr(w, QVersion, r.version)
    && n.canTimeout == AnswerOr(w, QCanTimeout, r.canTimeout)
    && n.currentLoopPi == AnswerOr(w, QCurrentLoopPi, r.currentLoopPi)
    && n.velocityLoopPi == AnswerOr(w, QVelocityLoopPi, r.velocityLoopPi)
    && n.positionLoopPd == AnswerOr(w, QPositionLoopPd, r.positionLoopPd)
  }

  lemma AnswerPlaced(c: ConfigState, w: Write)
    requires w.message.Query? && KeptApart(w.message.code)
    ensures TakesAnswers(c, WithAnswer(c, w.message.code, w.As(w.message.answer)), w)
  {
  }

  lemma NoAnswer(c: ConfigState, w: Write)
    requires !w.message.Query? || !KeptApart(w.message.code)
    ensures TakesAnswers(c, c, w)
  {
  }

  lemma AnswersTaken(r: Readings, w: Write)
    requires Shaped(w.message)
    ensures TakesAnswers(r.config, Written(r, w).config, w)
  {
    hide Converted, WithFragment, WithAnswer, TakesAnswers;
    if w.message.Query? && KeptApart(w.message.code) {
      AnswerPlaced(r.config, w);
    } else {
      NoAnswer(r.config, w);
    }
  }

  /** Each field takes what the message carries for it, and keeps its sample if that is nothing. */
  ghost predicate Takes(r: Readings, n: Readings, w: Write) {
    var m := w.message;
    && n.error == Replaced(ErrorIn(m), w, r.error) && n.position == Replaced(PositionIn(m), w, r.position)
    && n.velocity == Replaced(VelocityIn(m), w, r.velocity) && n.current == Replaced(CurrentIn(m), w, r.current)
    && n.motorTemp == Replaced(MotorTempIn(m), w, r.motorTemp)
    && n.mosfetTemp == Replaced(MosfetTempIn(m), w, r.mosfetTemp) && n.brake == Replaced(BrakeIn(m), w, r.brake)
    && n.uuid.time == (if FragmentIn(m).Some? then w.time else r.uuid.time)
    && n.uuid.seqNo == (if FragmentIn(m).Some? then w.seqNo else r.uuid.seqNo)
    && n.updatedAt == (if m.ConfigAck? then r.updatedAt else w.time)
    && TakesAnswers(r.config, n.config, w)
  }

  lemma ConvertedUnits(q: Quantity)
    ensures Converted(q, RAD_TO_DEG) == Degrees(q) && Converted(q, RADPS_TO_RPM) == Rpm(q)
  {
  }

  lemma WrittenTakes(r: Readings, w: Write)
    requires Shaped(w.message)
    ensures Takes(r, Written(r, w), w)
  {
    hide Converted, Degrees, Rpm, WithFragment, WithAnswer, TakesAnswers;
    if w.message.Status? {
      ConvertedUnits(w.message.position);
      ConvertedUnits(w.message.velocity);
    }
    AnswersTaken(r, w);
  }

  class MotorDevice {
    const address: Address
    const currentRange: Option<(real, real)> // of the motor's model
    var sampleSeq: nat
    var error: Sample<MotorErr>
    var position: Sample<Quantity>
    var velocity: Sample<Quantity>
    var current: Sample<Quantity>
    var motorTemp: Sample<real>
    var mosfetTemp: Sample<real>
    var brake: Sample<bool>
    var uuid: Sample<Uuid>
    var config: ConfigState
    var updatedAt: int

    ghost function View(): Readings
      reads this
    {
      Readings(error, position, velocity, current, motorTemp, mosfetTemp, brake, uuid,
               config, updatedAt)
    }

    constructor (address: Address, currentRange: Option<(real, real)>)
      ensures View() == Blank() && sampleSeq == 0
      ensures this.address == address && this.currentRange == currentRange
    {
      this.address := address;
      this.currentRange := currentRange;
      sampleSeq := 0;
      error := Sample(0, 0, NoError);
      position := Sample(0, 0, Exact(0.0));
      velocity := Sample(0, 0, Exact(0.0));
      current := Sample(0, 0, Exact(0.0));
      motorTemp := Sample(0, 0, 0.0);
      mosfetTemp := Sample(0, 0, 0.0);
      brake := Sample(0, 0, false);
      uuid := Sample(0, 0, Uuid(ZERO_UUID, {}));
      config := NO_ANSWERS;
      updatedAt := 0;
    }

    /** The atomic increment: tickets are positive and never repeat. */
    method TakeTicket() returns (ticket: nat)
      modifies this`sampleSeq
      ensures ticket == sampleSeq == old(sampleSeq) + 1
    {
      sampleSeq := sampleSeq + 1;
      ticket := sampleSeq;
    }

    /** The field that a query's answer fills. */
    method StoreAnswer(w: Write, code: QueryCode, answer: QueryValue)
      requires Shaped(w.message)
      requires w.message.Query? && w.message.code == code && w.message.answer == answer
      modifies this
      ensures sampleSeq == old(sampleSeq)
      ensures View() == Answered(old(View()), w, code, answer)
    {
      hide WithFragment;
      match code
      case QPower => config := config.(power := w.As(answer));
      case QAcceleration => config := config.(acceleration := w.As(answer));
      case QFluxObserverGain => config := config.(fluxObserverGain := w.As(answer));
      case QDisturbance => config := config.(disturbanceCompensation := w.As(answer));
      case QFeedbackCompensation => config := config.(feedbackCompensation := w.As(answer));
      case QDamping => config := config.(damping := w.As(answer));
      case QTorqueRatio => config := config.(torqueRatio := w.As(answer));
      case QKpRange => config := config.(kpRange := w.As(answer));
      case QKdRange => config := config.(kdRange := w.As(answer));
      case QPositionLimit => config := config.(positionLimit := w.As(answer));
      case QVelocityLimit => config := config.(velocityLimit := w.As(answer));
      case QTorqueLimit => config := config.(torqueLimit := w.As(answer));
      case QCurrentLimit => config := config.(currentLimit := w.As(answer));
      case QVersion => config := config.(version := w.As(answer));
      case QCanTimeout => config := config.(canTimeout := w.As(answer));
      case QCurrentLoopPi => config := config.(currentLoopPi := w.As(answer));
      case QVelocityLoopPi => config := config.(velocityLoopPi := w.As(answer));
      case QPositionLoopPd => config := config.(positionLoopPd := w.As(answer));
      case QPosition => position := w.As(answer.q);
      case QVelocity => velocity := w.As(answer.q);
      case QCurrent => current := w.As(answer.q);
      case QBrakeStatus => brake := w.As(answer.on);
      case QMcuUuid =>
        if 1 <= answer.index <= 3 {
          uuid := w.As(WithFragment(uuid.value, answer.index, answer.bytes));
        }
    }

    /** The update under the lock. */
    method Store(w: Write)
      requires Shaped(w.message)
      modifies this
      ensures sampleSeq == old(sampleSeq)
      ensures View() == Written(old(View()), w) && Takes(old(View()), View(), w)
    {
      hide Converted, Answered, Shaped, Takes;
      WrittenTakes(View(), w);
      match w.message {
        case ConfigAck(_, _, _) => return;
        case Status(e, p, v, c, motor, mosfet) =>
          error, position := w.As(e), w.As(Converted(p, RAD_TO_DEG));
          velocity, current := w.As(Converted(v, RADPS_TO_RPM)), w.As(c);
          motorTemp, mosfetTemp := w.As(motor), w.As(mosfet);
        case PositionFeedback(e, p, c, motor) =>
          error, position, current, motorTemp := w.As(e), w.As(p), w.As(c), w.As(motor);
        case VelocityFeedback(e, v, c, motor) =>
          error, velocity, current, motorTemp := w.As(e), w.As(v), w.As(c), w.As(motor);
        case BrakeStatus(e, engaged) =>
          error, brake := w.As(e), w.As(engaged);
        case Query(e, code, answer) =>
          error := w.As(e);
          AnsweredThenStamped(View(), w);
          StoreAnswer(w, code, answer);
      }
      updatedAt := w.time;
    }

    /** Ticket and update in one call; true unless the message is a mere acknowledgement. */
    method Apply(message: Feedback, now: int) returns (updated: bool)
      requires Shaped(message)
      modifies this
      ensures sampleSeq == old(sampleSeq) + 1
      ensures View() == Written(old(View()), Write(message, now, sampleSeq))
      ensures updated <==> !message.ConfigAck?
    {
      var ticket := TakeTicket();
      Store(Write(message, now, ticket));
      updated := !message.ConfigAck?;
    }
  }

  // ---------------------------------------------------------------------------------------------
  // Histories: tickets are taken in one order, writes happen in any other
  // ---------------------------------------------------------------------------------------------

  ghost predicate History(ws: seq<Write>) {
    && (forall i :: 0 <= i < |ws| ==> Shaped(ws[i].message) && ws[i].seqNo > 0)
    && (forall i, j :: 0 <= i < j < |ws| ==> ws[i].seqNo != ws[j].seqNo)
  }

  /** A thread takes its ticket, and later makes its write. */
  datatype Act = Take(who: nat) | Make(who: nat, message: Feedback, time: int)

  datatype Shared = Shared(counter: nat, held: map<nat, nat>, ws: seq<Write>)

  function Acted(s: Shared, a: Act): Shared {
    match a
    case Take(who) => if who in s.held then s else s.(counter := s.counter + 1, held := s.held[who := s.counter + 1])
    case Make(who, message, time) =>
      if who in s.held && Shaped(message)
      then s.(held := s.held - {who}, ws := s.ws + [Write(message, time, s.held[who])])
      else s
  }

  function Schedule(acts: seq<Act>): Shared {
    if acts == [] then Shared(0, map[], []) else Acted(Schedule(acts[..|acts| - 1]), acts[|acts| - 1])
  }

  ghost predicate Ticketed(s: Shared) {
    && History(s.ws)
    && (forall i :: 0 <= i < |s.ws| ==> s.ws[i].seqNo <= s.counter)
    && (forall who :: who in s.held ==> 0 < s.held[who] <= s.counter)
    && (forall a, b :: a in s.held && b in s.held && a != b ==> s.held[a] != s.held[b])
    && (forall who, i :: who in s.held && 0 <= i < |s.ws| ==> s.held[who] != s.ws[i].seqNo)
  }

  /** Whatever the threads' interleaving, the writes form a history: positive tickets, none repeated. */
  lemma {:induction false} SchedulesAreHistories(acts: seq<Act>)
    ensures Ticketed(Schedule(acts)) && History(Schedule(acts).ws)
    decreases |acts|
  {
    hide Acted, Ticketed;
    if acts == [] {
      assert Ticketed(Shared(0, map[], [])) by { NothingTaken(); }
    } else {
      SchedulesAreHistories(acts[..|acts| - 1]);
      match acts[|acts| - 1]
      case Take(who) => Taken(Schedule(acts[..|acts| - 1]), who);
      case Make(who, message, time) => Made(Schedule(acts[..|acts| - 1]), who, message, time);
    }
    TicketedHistory(Schedule(acts));
  }

  lemma NothingTaken()
    ensures Ticketed(Shared(0, map[], []))
  {
  }

  lemma TicketedHistory(s: Shared)
    requires Ticketed(s)
    ensures History(s.ws)
  {
  }

  lemma Taken(s: Shared, who: nat)
    requires Ticketed(s)
    ensures Ticketed(Acted(s, Take(who)))
  {
    hide Shaped;
  }

  lemma Made(s: Shared, who: nat, message: Feedback, time: int)
    requires Ticketed(s)
    ensures Ticketed(Acted(s, Make(who, message, time)))
  {
    hide Shaped;
  }

  ghost function After(ws: seq<Write>): (r: Readings)
    requires forall i :: 0 <= i < |ws| ==> Shaped(ws[i].message)
  {
    if ws == [] then Blank() else Written(After(ws[..|ws| - 1]), ws[|ws| - 1])
  }

  /** The last write that was not a mere acknowledgement. */
  function LastReply(ws: seq<Write>): Option<Write> {
    if ws == [] then None
    else if !ws[|ws| - 1].message.ConfigAck? then Some(ws[|ws| - 1])
    else LastReply(ws[..|ws| - 1])
  }

  ghost predicate Issued(n: nat, ws: seq<Write>) {
    n == 0 || exists i :: 0 <= i < |ws| && ws[i].seqNo == n
  }

  lemma IssuedLater(n: nat, ws: seq<Write>, k: nat)
    requires k <= |ws| && Issued(n, ws[..k])
    ensures Issued(n, ws)
  {
    if n != 0 {
      var i :| 0 <= i < k && ws[..k][i].seqNo == n;
      assert ws[i].seqNo == n;
    }
  }

  lemma {:induction false} TicketsIssued(ws: seq<Write>)
    requires History(ws)
    ensures var r := After(ws);
      Issued(r.error.seqNo, ws) && Issued(r.position.seqNo, ws)
      && Issued(r.velocity.seqNo, ws) && Issued(r.current.seqNo, ws)
    decreases |ws|
  {
    hide Issued, Converted, WithFragment;
    if ws == [] {
      NoTicket();
    } else {
      var rest := ws[..|ws| - 1];
      TicketsIssued(rest);
      var r := After(rest);
      IssuedLater(r.error.seqNo, ws, |rest|);
      IssuedLater(r.position.seqNo, ws, |rest|);
      IssuedLater(r.velocity.seqNo, ws, |rest|);
      IssuedLater(r.current.seqNo, ws, |rest|);
      LastIssued(ws);
    }
  }

  lemma NoTicket()
    ensures Issued(0, [])
  {
  }

  lemma LastIssued(ws: seq<Write>)
    requires ws != []
    ensures Issued(ws[|ws| - 1].seqNo, ws)
  {
  }

  lemma NewTicket(ws: seq<Write>, n: nat)
    requires History(ws) && ws != [] && Issued(n, ws[..|ws| - 1])
    ensures n != ws[|ws| - 1].seqNo
  {
  }

  /** The snapshot that one status message alone produces. */
  function StatusSnapshot(w: Write): Snapshot
    requires w.message.Status?
  {
    Snapshot(w.As(w.message.error), w.As(Converted(w.message.position, RAD_TO_DEG)),
             w.As(Converted(w.message.velocity, RADPS_TO_RPM)), w.As(w.message.current))
  }

  /**
   Coherence is exact: whatever the order in which tickets were taken and writes made, the snapshot is
   coherent if and only if the last reply to be written was a status message, and then it is that message.
   */
  lemma {:induction false} CoherentExactly(ws: seq<Write>)
    requires History(ws)
    ensures SnapshotOf(After(ws)).Coherent() <==> LastReply(ws).Some? && LastReply(ws).value.message.Status?
    ensures SnapshotOf(After(ws)).Coherent() ==> SnapshotOf(After(ws)) == StatusSnapshot(LastReply(ws).value)
    decreases |ws|
  {
    hide Issued, Converted, WithFragment;
    if ws != [] {
      var rest := ws[..|ws| - 1];
      CoherentExactly(rest);
      TicketsIssued(rest);
      var r := After(rest);
      NewTicket(ws, r.position.seqNo);
      NewTicket(ws, r.velocity.seqNo);
      NewTicket(ws, r.current.seqNo);
    }
  }

  /** Freshness therefore measures the age of that one status message. */
  lemma FreshExactly(ws: seq<Write>, now: int, maxAge: int)
    requires History(ws)
    ensures SnapshotOf(After(ws)).Fresh(now, maxAge) <==>
            var last := LastReply(ws);
            last.Some? && last.value.message.Status? && now - last.value.time <= maxAge
  {
    hide After, LastReply;
    CoherentExactly(ws);
  }

  /** The last fragment with this index, if any arrived. */
  function LastFragment(ws: seq<Write>, index: Byte): Option<seq<Byte>> {
    if ws == [] then None
    else
      var m := ws[|ws| - 1].message;
      if m.Query? && m.code == QMcuUuid && m.answer.Fragment? && m.answer.index == index then Some(m.answer.bytes)
      else LastFragment(ws[..|ws| - 1], index)
  }

  /**
   The unique id, after any history: a part is marked received if and only if a fragment with its index
   arrived, and it then holds the last such fragment; other indices count for nothing.
   */
  lemma {:induction false} UuidExactly(ws: seq<Write>, index: Byte)
    requires History(ws) && 1 <= index <= 3
    ensures var u := After(ws).uuid.value;
      && (index - 1 in u.mask <==> LastFragment(ws, index).Some?)
      && u.bytes[(index - 1) * 4..(index - 1) * 4 + 4] ==
         (if LastFragment(ws, index).Some? then LastFragment(ws, index).value else [0, 0, 0, 0])
    decreases |ws|
  {
    hide Written, Shaped;
    if ws != [] {
      var rest := ws[..|ws| - 1];
      UuidExactly(rest, index);
      UuidWritten(After(rest), ws[|ws| - 1], index);
    }
  }

  lemma UuidWritten(r: Readings, w: Write, index: Byte)
    requires Shaped(w.message) && 1 <= index <= 3
    ensures var u, m := Written(r, w).uuid.value, w.message;
      && var stored := m.Query? && m.code == QMcuUuid && m.answer.Fragment? && m.answer.index == index;
         && (index - 1 in u.mask <==> stored || index - 1 in r.uuid.value.mask)
         && u.bytes[(index - 1) * 4..(index - 1) * 4 + 4] ==
            if stored then m.answer.bytes else r.uuid.value.bytes[(index - 1) * 4..(index - 1) * 4 + 4]
  {
    hide Converted, WithFragment;
    var m := w.message;
    if m.Query? && m.code == QMcuUuid && 1 <= m.answer.index <= 3 {
      FragmentStored(r.uuid.value, m.answer.index, m.answer.bytes, index);
    }
  }

  lemma FragmentStored(uuid: Uuid, index: Byte, bytes: seq<Byte>, other: Byte)
    requires 1 <= index <= 3 && 1 <= other <= 3 && |bytes| == 4
    ensures var u := WithFragment(uuid, index, bytes);
      && (other - 1 in u.mask <==> other == index || other - 1 in uuid.mask)
      && u.bytes[(other - 1) * 4..(other - 1) * 4 + 4] ==
         if other == index then bytes else uuid.bytes[(other - 1) * 4..(other - 1) * 4 + 4]
  {
  }

  lemma UuidCompleteExactly(ws: seq<Write>)
    requires History(ws)
    ensures After(ws).uuid.value.Complete() <==>
            LastFragment(ws, 1).Some? && LastFragment(ws, 2).Some? && LastFragment(ws, 3).Some?
    ensures After(ws).uuid.value.Complete() ==>
            After(ws).uuid.value.bytes ==
            LastFragment(ws, 1).value + LastFragment(ws, 2).value + LastFragment(ws, 3).value
  {
    hide After, LastFragment;
    UuidExactly(ws, 1);
    UuidExactly(ws, 2);
    UuidExactly(ws, 3);
    var b := After(ws).uuid.value.bytes;
    assert b == b[0..4] + b[4..8] + b[8..12];
  }

  /** The last answer to a query, with its time and ticket. */
  function LastAnswer(ws: seq<Write>, code: QueryCode): Option<Sample<QueryValue>> {
    if ws == [] then None
    else
      var w := ws[|ws| - 1];
      if w.message.Query? && w.message.code == code then Some(w.As(w.message.answer))
      else LastAnswer(ws[..|ws| - 1], code)
  }

  lemma AnswersWritten(r: Readings, w: Write, code: QueryCode)
    requires Shaped(w.message) && KeptApart(code)
    ensures Written(r, w).config.Field(code) ==
            if w.message.Query? && w.message.code == code then w.As(w.message.answer) else r.config.Field(code)
  {
    hide Converted, WithFragment, Shaped;
  }

  /** A configuration field holds the last answer to its own query, untouched by any other message. */
  lemma {:induction false} AnswersExactly(ws: seq<Write>, code: QueryCode)
    requires History(ws) && KeptApart(code)
    ensures var a, last := After(ws).config.Field(code), LastAnswer(ws, code);
      a == (if last.Some? then last.value else UNANSWERED) && (a.Received() <==> last.Some?)
    decreases |ws|
  {
    hide Written, Shaped;
    if ws != [] {
      AnswersExactly(ws[..|ws| - 1], code);
      AnswersWritten(After(ws[..|ws| - 1]), ws[|ws| - 1], code);
    }
  }

  // ---------------------------------------------------------------------------------------------
  // What each sampled field holds
  // ---------------------------------------------------------------------------------------------

  /** The last value that a message carried, with that message's time and ticket; `unset` if there is none. */
  function LastCarried<T>(ws: seq<Write>, carried: Feedback -> Option<T>, unset: Sample<T>): Sample<T> {
    if ws == [] then unset
    else
      var w := ws[|ws| - 1];
      match carried(w.message)
      case Some(value) => w.As(value)
      case None => LastCarried(ws[..|ws| - 1], carried, unset)
  }

  /** Every sampled field is what the messages last said of it. */
  ghost predicate HoldsLast(r: Readings, ws: seq<Write>) {
    && r.error == LastCarried(ws, ErrorIn, Sample(0, 0, NoError))
    && r.position == LastCarried(ws, PositionIn, Sample(0, 0, Exact(0.0)))
    && r.velocity == LastCarried(ws, VelocityIn, Sample(0, 0, Exact(0.0)))
    && r.current == LastCarried(ws, CurrentIn, Sample(0, 0, Exact(0.0)))
    && r.motorTemp == LastCarried(ws, MotorTempIn, Sample(0, 0, 0.0))
    && r.mosfetTemp == LastCarried(ws, MosfetTempIn, Sample(0, 0, 0.0))
    && r.brake == LastCarried(ws, BrakeIn, Sample(0, 0, false))
    && var last := LastCarried(ws, FragmentIn, Sample(0, 0, 0));
       r.uuid.time == last.time && r.uuid.seqNo == last.seqNo
  }

  /**
   After any history each of error, position, velocity, current, both temperatures and the brake state is
   the last value that some message carried for it, with the time and ticket of that message.
   */
  lemma {:induction false} FieldsExactly(ws: seq<Write>)
    requires History(ws)
    ensures HoldsLast(After(ws), ws)
    ensures After(ws).updatedAt == if LastReply(ws).Some? then LastReply(ws).value.time else 0
    decreases |ws|
  {
    hide Written, Shaped, Blank;
    if ws == [] {
      NothingHeld();
    } else {
      var rest := ws[..|ws| - 1];
      FieldsExactly(rest);
      WrittenTakes(After(rest), ws[|ws| - 1]);
    }
  }

  lemma NothingHeld()
    ensures HoldsLast(Blank(), []) && Blank().updatedAt == 0
  {
  }
}
