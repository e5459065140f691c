/** The periodic position-velocity-torque control loop. Times are in nanoseconds. */
module PvtLoop {
  import opened Quantise
  import opened CommandFrames
  import opened Feedback
  import opened DeviceMotor
  import opened Fleet

  const COMMAND_PERIOD: int := 2500000
  const FEEDBACK_MAX_AGE: int := 2000000
  const MAX_CONSECUTIVE_STALE_FEEDBACK: nat := 3
  const POSITION_LIMIT: real := 12.5
  const PVT_KP: Float := Finite(18.0)
  const PVT_KD: Float := Finite(0.4)
  const TORQUE_FF: Float := Finite(0.0)

  datatype Stats = Stats(
    cycles: nat, commandsSent: nat, staleFeedback: nat, rejectedFeedback: nat, commandErrors: nat,
    deadlineMisses: nat, maxLateness: int
  ) {
    /** Totals over several phases. */
    function Plus(s: Stats): Stats {
      Stats(cycles + s.cycles, commandsSent + s.commandsSent, staleFeedback + s.staleFeedback,
            rejectedFeedback + s.rejectedFeedback, commandErrors + s.commandErrors,
            deadlineMisses + s.deadlineMisses, if s.maxLateness > maxLateness then s.maxLateness else maxLateness)
    }
  }

  /** What the loop meets in one cycle: clock readings, the motor's snapshot, and the fate of a command. */
  datatype Cycle = Cycle(wokeAt: int, snapshot: Snapshot, accepts: bool, finishedAt: int)

  /** Where the motor should be, and how fast it should move there. */
  datatype Target = Target(position: Float, velocity: Float) {
    /** The command sent for this target, with the loop's fixed gains. */
    function AsCommand(): Command { Pvt(PVT_KP, PVT_KD, position, velocity, TORQUE_FF) }
  }

  /** A phase: when it starts, how long it lasts, where the motor should be, and its surroundings. */
  datatype Phase = Phase(start: int, duration: int, target: int -> Target, seedAccepted: bool, world: nat -> Cycle) {
    /** When cycle i is scheduled. */
    function Scheduled(i: nat): int { start + (i + 1) * COMMAND_PERIOD }

    function TargetOf(i: nat): Target { target(world(i).wokeAt - start) }

    /** How many cycles fit. */
    function Planned(): nat { if duration < COMMAND_PERIOD then 0 else duration / COMMAND_PERIOD }

    function Outcome(i: nat): Outcome {
      var c := world(i);
      if !c.snapshot.Fresh(c.wokeAt, FEEDBACK_MAX_AGE) then Stale
      else if c.snapshot.error.value != NoError then Rejected
      else if Sendable(TargetOf(i), c.accepts) then Commanded
      else Refused
    }

    /** Cycle i ends the phase early. */
    predicate Aborts(i: nat) {
      || Outcome(i) == Refused
      || (i >= 2 && Outcome(i - 2) == Stale && Outcome(i - 1) == Stale && Outcome(i) == Stale)
    }

    /** Cycle i counts as a missed deadline. A refused command ends the phase before it is counted. */
    predicate Late(i: nat) {
      && Outcome(i) != Refused
      && (world(i).wokeAt >= Scheduled(i) + COMMAND_PERIOD
          || (Outcome(i) == Commanded && world(i).finishedAt >= Scheduled(i) + COMMAND_PERIOD))
    }

    /** The worst lateness of waking up over the first n cycles. */
    function Lateness(n: nat): int {
      if n == 0 then 0
      else
        var late := world(n - 1).wokeAt - Scheduled(n - 1);
        if late > Lateness(n - 1) then late else Lateness(n - 1)
    }

    /** The commands of the first n cycles, after the seed. */
    function Commands(n: nat): seq<Command> {
      if n == 0 then []
      else Commands(n - 1) + (if Outcome(n - 1) == Commanded then [TargetOf(n - 1).AsCommand()] else [])
    }
  }

  datatype Outcome = Stale | Rejected | Commanded | Refused

  /** The position is within limits, the command can be encoded and the channel takes it. */
  predicate Sendable(t: Target, accepts: bool) {
    && t.position.Finite? && -POSITION_LIMIT <= t.position.value <= POSITION_LIMIT
    && PlanOf(t.AsCommand()).Success? && accepts
  }

  /** How many of the first n cycles have this outcome. */
  function Tally(p: Phase, n: nat, o: Outcome): nat {
    if n == 0 then 0 else Tally(p, n - 1, o) + (if p.Outcome(n - 1) == o then 1 else 0)
  }

  function LateTally(p: Phase, n: nat): nat {
    if n == 0 then 0 else LateTally(p, n - 1) + (if p.Late(n - 1) then 1 else 0)
  }

  function StatsAfter(p: Phase, n: nat): Stats {
    Stats(n, 1 + Tally(p, n, Commanded), Tally(p, n, Stale), Tally(p, n, Rejected), Tally(p, n, Refused),
          LateTally(p, n), p.Lateness(n))
  }

  /** How many stale cycles in a row end the first n cycles. */
  function StaleRun(p: Phase, n: nat): nat {
    if n == 0 || p.Outcome(n - 1) != Stale then 0 else StaleRun(p, n - 1) + 1
  }

  lemma {:induction false} ShortStaleRun(p: Phase, n: nat)
    requires forall i :: 0 <= i < n ==> !p.Aborts(i)
    ensures StaleRun(p, n) <= 2
    ensures StaleRun(p, n) == 2 <==> n >= 2 && p.Outcome(n - 1) == Stale && p.Outcome(n - 2) == Stale
  {
    if n > 0 {
      ShortStaleRun(p, n - 1);
      assert !p.Aborts(n - 1);
    }
  }

  /**
   The phase runs the planned number of cycles unless one aborts it, and stops at the first that does:
   a command that is not accepted, or the third stale snapshot in a row.
   */
  ghost predicate RanTo(p: Phase, n: nat, ok: bool) {
    && n <= p.Planned()
    && (forall i :: 0 <= i < n - 1 ==> !p.Aborts(i))
    && (ok ==> n == p.Planned() && (n > 0 ==> !p.Aborts(n - 1)))
    && (!ok ==> n > 0 && p.Aborts(n - 1))
  }

  /** The cycle saw a coherent snapshot, at most two milliseconds old and without error. */
  predicate Usable(c: Cycle) {
    c.snapshot.Fresh(c.wokeAt, 2000000) && c.snapshot.error.value == NoError
  }

  /** The usable ones of the first n cycles, in order. */
  function UsableCycles(p: Phase, n: nat): seq<nat> {
    if n == 0 then [] else UsableCycles(p, n - 1) + (if Usable(p.world(n - 1)) then [n - 1] else [])
  }

  /** The command asks for the point of the trajectory at time `t` of the phase, with the fixed gains. */
  predicate Asks(c: Command, p: Phase, t: int) {
    && c.Pvt? && c.kp == Finite(18.0) && c.kd == Finite(0.4) && c.torque == Finite(0.0)
    && c.position == p.target(t).position && c.velocity == p.target(t).velocity
  }

  /**
   After the seed, which asks for the start of the trajectory, one command for every usable cycle in order,
   asking for the point that the trajectory has reached at its wake-up; a refused one at the end is missing.
   */
  predicate FollowsTarget(p: Phase, n: nat, refused: nat, commands: seq<Command>) {
    var used := UsableCycles(p, n);
    && |commands| + refused == 1 + |used|
    && (commands != [] ==> Asks(commands[0], p, 0))
    && forall j :: 1 <= j < |commands| && j <= |used| ==> Asks(commands[j], p, p.world(used[j - 1]).wokeAt - p.start)
  }

  lemma {:induction false} CommandsAsk(p: Phase, n: nat)
    requires forall i :: 0 <= i < n ==> p.Outcome(i) != Refused
    ensures |p.Commands(n)| == |UsableCycles(p, n)|
    ensures forall j :: 0 <= j < |p.Commands(n)| ==>
              Asks(p.Commands(n)[j], p, p.world(UsableCycles(p, n)[j]).wokeAt - p.start)
  {
    hide Snapshot.Fresh, Sendable;
    if n > 0 {
      CommandsAsk(p, n - 1);
    }
  }

  lemma {:induction false} NoneRefused(p: Phase, n: nat)
    requires forall i :: 0 <= i < n ==> p.Outcome(i) != Refused
    ensures Tally(p, n, Refused) == 0
  {
    hide Phase.Outcome;
    if n > 0 {
      NoneRefused(p, n - 1);
    }
  }

  lemma SeedFirst(p: Phase, used: seq<nat>, later: seq<Command>)
    requires |later| <= |used|
    requires forall j :: 0 <= j < |later| ==> Asks(later[j], p, p.world(used[j]).wokeAt - p.start)
    ensures var commands := [p.target(0).AsCommand()] + later;
      && Asks(commands[0], p, 0)
      && forall j :: 1 <= j < |commands| ==> Asks(commands[j], p, p.world(used[j - 1]).wokeAt - p.start)
  {
  }

  /** However a phase ends, its commands follow the trajectory. */
  lemma TargetFollowed(p: Phase, n: nat, ok: bool)
    requires RanTo(p, n, ok)
    ensures FollowsTarget(p, n, StatsAfter(p, n).commandErrors, [p.target(0).AsCommand()] + p.Commands(n))
  {
    hide Snapshot.Fresh, Sendable, Phase.Planned, Asks;
    forall i | 0 <= i < n && (i < n - 1 || p.Outcome(i) != Refused)
      ensures p.Outcome(i) != Refused
    {
      assert i < n - 1 ==> !p.Aborts(i);
    }
    if n > 0 && p.Outcome(n - 1) == Refused {
      CommandsAsk(p, n - 1);
      NoneRefused(p, n - 1);
      assert UsableCycles(p, n) == UsableCycles(p, n - 1) + [n - 1] && p.Commands(n) == p.Commands(n - 1);
    } else {
      CommandsAsk(p, n);
      NoneRefused(p, n);
    }
    SeedFirst(p, UsableCycles(p, n), p.Commands(n));
  }

  /** How many of the first n cycles satisfy `q`. */
  ghost function Number(n: nat, q: nat -> bool): nat {
    |set i: nat | i < n && q(i)|
  }

  lemma NumberMore(n: nat, q: nat -> bool)
    ensures Number(0, q) == 0 && Number(n + 1, q) == Number(n, q) + (if q(n) then 1 else 0)
  {
    var before, after := set i: nat | i < n && q(i), set i: nat | i < n + 1 && q(i);
    assert (set i: nat | i < 0 && q(i)) == {};
    if q(n) {
      assert after == before + {n};
    } else {
      assert after == before;
    }
  }

  /** The cycle woke up, or was done with its command, a period or more after its time. */
  predicate Missed(p: Phase, i: nat) {
    var c, next := p.world(i), p.start + (i + 2) * 2500000;
    c.wokeAt >= next || (Usable(c) && c.finishedAt >= next)
  }

  /**
   The statistics, counted off the cycles: stale ones, those that reported an error, commands and refusals,
   missed deadlines (a refused cycle is not counted) and the worst lateness.
   */
  ghost predicate Counts(p: Phase, n: nat, s: Stats) {
    && s.cycles == n
    && s.staleFeedback == Number(n, (i: nat) => !p.world(i).snapshot.Fresh(p.world(i).wokeAt, 2000000))
    && s.rejectedFeedback ==
       Number(n, (i: nat) => p.world(i).snapshot.Fresh(p.world(i).wokeAt, 2000000) && !Usable(p.world(i)))
    && s.commandsSent + s.commandErrors == 1 + Number(n, (i: nat) => Usable(p.world(i))) && s.commandErrors <= 1
    && s.deadlineMisses == Number(n, (i: nat) => Missed(p, i) && !(s.commandErrors == 1 && i == n - 1))
    && (forall i :: 0 <= i < n ==> p.world(i).wokeAt - p.start - (i + 1) * 2500000 <= s.maxLateness)
    && (s.maxLateness == 0
        || exists i :: 0 <= i < n && s.maxLateness == p.world(i).wokeAt - p.start - (i + 1) * 2500000)
    && s.maxLateness >= 0
  }

  lemma {:induction false} TallyIsNumber(p: Phase, n: nat, o: Outcome, q: nat -> bool)
    requires forall i :: 0 <= i < n ==> (p.Outcome(i) == o <==> q(i))
    ensures Tally(p, n, o) == Number(n, q)
  {
    hide Phase.Outcome, Number;
    if n == 0 {
      NumberMore(0, q);
    } else {
      TallyIsNumber(p, n - 1, o, q);
      NumberMore(n - 1, q);
    }
  }

  lemma {:induction false} TalliesAreNumber(p: Phase, n: nat, q: nat -> bool)
    requires forall i :: 0 <= i < n ==> (p.Outcome(i) == Commanded || p.Outcome(i) == Refused <==> q(i))
    ensures Tally(p, n, Commanded) + Tally(p, n, Refused) == Number(n, q)
  {
    hide Phase.Outcome, Number;
    if n == 0 {
      NumberMore(0, q);
    } else {
      TalliesAreNumber(p, n - 1, q);
      NumberMore(n - 1, q);
    }
  }

  lemma {:induction false} LateIsNumber(p: Phase, n: nat, q: nat -> bool)
    requires forall i :: 0 <= i < n ==> (p.Late(i) <==> q(i))
    ensures LateTally(p, n) == Number(n, q)
  {
    hide Phase.Late, Number;
    if n == 0 {
      NumberMore(0, q);
    } else {
      LateIsNumber(p, n - 1, q);
      NumberMore(n - 1, q);
    }
  }

  lemma {:induction false} WorstLateness(p: Phase, n: nat)
    ensures var worst := p.Lateness(n);
      && worst >= 0
      && (forall i :: 0 <= i < n ==> p.world(i).wokeAt - p.start - (i + 1) * 2500000 <= worst)
      && (worst == 0 || exists i :: 0 <= i < n && worst == p.world(i).wokeAt - p.start - (i + 1) * 2500000)
  {
    if n > 0 {
      WorstLateness(p, n - 1);
    }
  }

  lemma OutcomeIs(p: Phase, i: nat)
    ensures var c, o := p.world(i), p.Outcome(i);
      && (o == Stale <==> !c.snapshot.Fresh(c.wokeAt, 2000000))
      && (o == Rejected <==> c.snapshot.Fresh(c.wokeAt, 2000000) && !Usable(c))
      && (o == Commanded || o == Refused <==> Usable(c))
      && (p.Late(i) <==> o != Refused && Missed(p, i))
  {
    hide Snapshot.Fresh, Sendable;
  }

  lemma StatsCount(p: Phase, n: nat, ok: bool)
    requires RanTo(p, n, ok)
    ensures Counts(p, n, StatsAfter(p, n))
  {
    hide Phase.Outcome, Phase.Late, Phase.Planned, Phase.Lateness, Snapshot.Fresh, Usable, Missed, Number;
    forall i: nat | i < n
      ensures var c, o := p.world(i), p.Outcome(i);
        && (o == Stale <==> !c.snapshot.Fresh(c.wokeAt, 2000000))
        && (o == Rejected <==> c.snapshot.Fresh(c.wokeAt, 2000000) && !Usable(c))
        && (o == Commanded || o == Refused <==> Usable(c))
        && (p.Late(i) <==> o != Refused && Missed(p, i))
    {
      OutcomeIs(p, i);
    }
    OnlyLastRefused(p, n, ok);
    TallyIsNumber(p, n, Stale, (i: nat) => !p.world(i).snapshot.Fresh(p.world(i).wokeAt, 2000000));
    TallyIsNumber(p, n, Rejected,
                  (i: nat) => p.world(i).snapshot.Fresh(p.world(i).wokeAt, 2000000) && !Usable(p.world(i)));
    TalliesAreNumber(p, n, (i: nat) => Usable(p.world(i)));
    var refused := Tally(p, n, Refused);
    LateIsNumber(p, n, (i: nat) => Missed(p, i) && !(refused == 1 && i == n - 1));
    WorstLateness(p, n);
  }

  lemma OnlyLastRefused(p: Phase, n: nat, ok: bool)
    requires RanTo(p, n, ok)
    ensures Tally(p, n, Refused) <= 1
    ensures forall i :: 0 <= i < n ==> (p.Outcome(i) == Refused <==> Tally(p, n, Refused) == 1 && i == n - 1)
  {
    hide Phase.Outcome, Phase.Planned;
    forall i | 0 <= i < n - 1
      ensures p.Outcome(i) != Refused
    {
      assert !p.Aborts(i);
    }
    if n > 0 {
      NoneRefused(p, n - 1);
    }
  }

  lemma Ended(p: Phase, n: nat, ok: bool)
    requires RanTo(p, n, ok)
    ensures Counts(p, n, StatsAfter(p, n))
    ensures FollowsTarget(p, n, StatsAfter(p, n).commandErrors, [p.target(0).AsCommand()] + p.Commands(n))
  {
    hide Counts, FollowsTarget, StatsAfter, RanTo;
    StatsCount(p, n, ok);
    TargetFollowed(p, n, ok);
  }

  method RunStablePvtLoop(p: Phase, total: Stats)
    returns (ok: bool, stats: Stats, sum: Stats, commands: seq<Command>)
    ensures !Sendable(p.target(0), p.seedAccepted) ==> !ok && stats == Stats(0, 0, 0, 0, 1, 0, 0) && commands == []
    ensures Sendable(p.target(0), p.seedAccepted) ==>
              && RanTo(p, stats.cycles, ok) && Counts(p, stats.cycles, stats)
              && stats == StatsAfter(p, stats.cycles)
              && commands == [p.target(0).AsCommand()] + p.Commands(stats.cycles)
    ensures Sendable(p.target(0), p.seedAccepted) ==> FollowsTarget(p, stats.cycles, stats.commandErrors, commands)
    ensures sum == total.Plus(stats)
  {
    hide Phase.Planned, Phase.Aborts, Phase.Lateness, Phase.Commands, Snapshot.Fresh, Sendable, StatsAfter, StaleRun,
      FollowsTarget, Counts;
    NoneYet(p);
    stats := Stats(0, 0, 0, 0, 0, 0, 0);
    commands := [];
    if !Sendable(p.target(0), p.seedAccepted) {
      stats := stats.(commandErrors := 1);
      return false, stats, total.Plus(stats), [];
    }
    stats := stats.(commandsSent := 1);
    commands := [p.target(0).AsCommand()];
    var nextTime := p.start;
    var consecutiveStale := 0;
    while nextTime + COMMAND_PERIOD <= p.start + p.duration
      invariant nextTime == p.start + stats.cycles * COMMAND_PERIOD
      invariant stats.cycles <= p.Planned()
      invariant stats == StatsAfter(p, stats.cycles)
      invariant forall i :: 0 <= i < stats.cycles ==> !p.Aborts(i)
      invariant consecutiveStale == StaleRun(p, stats.cycles)
      invariant commands == [p.target(0).AsCommand()] + p.Commands(stats.cycles)
      decreases p.start + p.duration - nextTime
    {
      ghost var n := stats.cycles;
      MoreFit(p, n);
      OneCycleMore(p, n);
      var cycle := p.world(stats.cycles);
      nextTime := nextTime + COMMAND_PERIOD;
      stats := stats.(cycles := stats.cycles + 1);
      var deadlineMissed := cycle.wokeAt >= nextTime + COMMAND_PERIOD;
      if cycle.wokeAt > nextTime && cycle.wokeAt - nextTime > stats.maxLateness {
        stats := stats.(maxLateness := cycle.wokeAt - nextTime);
      }
      if !cycle.snapshot.Fresh(cycle.wokeAt, FEEDBACK_MAX_AGE) {
        stats := stats.(staleFeedback := stats.staleFeedback + 1);
        consecutiveStale := consecutiveStale + 1;
        if deadlineMissed {
          stats := stats.(deadlineMisses := stats.deadlineMisses + 1);
        }
        if consecutiveStale >= MAX_CONSECUTIVE_STALE_FEEDBACK {
          Ended(p, stats.cycles, false);
          return false, stats, total.Plus(stats), commands;
        }
        continue;
      }
      consecutiveStale := 0;
      if cycle.snapshot.error.value != NoError {
        stats := stats.(rejectedFeedback := stats.rejectedFeedback + 1);
        if deadlineMissed {
          stats := stats.(deadlineMisses := stats.deadlineMisses + 1);
        }
        continue;
      }
      var target := p.target(cycle.wokeAt - p.start);
      if !Sendable(target, cycle.accepts) {
        stats := stats.(commandErrors := stats.commandErrors + 1);
        Ended(p, stats.cycles, false);
        return false, stats, total.Plus(stats), commands;
      }
      stats := stats.(commandsSent := stats.commandsSent + 1);
      commands := commands + [target.AsCommand()];
      if cycle.finishedAt >= nextTime + COMMAND_PERIOD {
        deadlineMissed := true;
      }
      if deadlineMissed {
        stats := stats.(deadlineMisses := stats.deadlineMisses + 1);
      }
    }
    AllFit(p, stats.cycles);
    Ended(p, stats.cycles, true);
    ok := true;
    sum := total.Plus(stats);
  }

  lemma NoneYet(p: Phase)
    ensures StatsAfter(p, 0) == Stats(0, 1, 0, 0, 0, 0, 0) && StaleRun(p, 0) == 0 && p.Commands(0) == []
  {
  }

  /** What one more cycle adds. */
  lemma OneCycleMore(p: Phase, n: nat)
    requires forall i :: 0 <= i < n ==> !p.Aborts(i)
    ensures var o := p.Outcome(n);
      var s, t := StatsAfter(p, n), StatsAfter(p, n + 1);
      && t.cycles == n + 1
      && t.commandsSent == s.commandsSent + (if o == Commanded then 1 else 0)
      && t.staleFeedback == s.staleFeedback + (if o == Stale then 1 else 0)
      && t.rejectedFeedback == s.rejectedFeedback + (if o == Rejected then 1 else 0)
      && t.commandErrors == s.commandErrors + (if o == Refused then 1 else 0)
      && t.deadlineMisses == s.deadlineMisses + (if p.Late(n) then 1 else 0)
      && (var late := p.world(n).wokeAt - p.Scheduled(n);
          t.maxLateness == if late > s.maxLateness then late else s.maxLateness)
      && s.maxLateness >= 0
    ensures StaleRun(p, n + 1) == if p.Outcome(n) == Stale then StaleRun(p, n) + 1 else 0
    ensures p.Commands(n + 1) ==
            p.Commands(n) + (if p.Outcome(n) == Commanded then [p.TargetOf(n).AsCommand()] else [])
    ensures p.Aborts(n) <==> p.Outcome(n) == Refused || StaleRun(p, n + 1) >= MAX_CONSECUTIVE_STALE_FEEDBACK
    ensures StaleRun(p, n) < MAX_CONSECUTIVE_STALE_FEEDBACK
  {
    hide Phase.Outcome, Phase.Late;
    ShortStaleRun(p, n);
    LatenessSign(p, n);
  }

  lemma MoreFit(p: Phase, n: nat)
    requires (n + 1) * COMMAND_PERIOD <= p.duration
    ensures n + 1 <= p.Planned()
  {
  }

  lemma AllFit(p: Phase, n: nat)
    requires n <= p.Planned() && (n + 1) * COMMAND_PERIOD > p.duration
    ensures n == p.Planned()
  {
  }

  lemma {:induction false} LatenessSign(p: Phase, n: nat)
    ensures p.Lateness(n) >= 0
  {
    if n > 0 {
      LatenessSign(p, n - 1);
    }
  }

  // ---------------------------------------------------------------------------------------------
  // What every run satisfies
  // ---------------------------------------------------------------------------------------------

  /** The surroundings leave no choice of how far a phase runs. */
  lemma RanToOne(p: Phase, n: nat, a: bool, m: nat, b: bool)
    requires RanTo(p, n, a) && RanTo(p, m, b)
    ensures n == m && a == b
  {
    hide Phase.Aborts, Phase.Planned;
  }

  /** Every cycle, and the seed, is accounted for once. */
  lemma {:induction false} Accounting(p: Phase, n: nat)
    ensures var s := StatsAfter(p, n);
      && s.cycles + 1 == s.staleFeedback + s.rejectedFeedback + s.commandsSent + s.commandErrors
      && s.deadlineMisses <= s.cycles
  {
    hide Phase.Outcome, Phase.Late;
    if n > 0 {
      Accounting(p, n - 1);
    }
  }

  lemma {:induction false} StaleCycles(p: Phase, n: nat)
    requires forall i :: 0 <= i < n ==> !p.Aborts(i)
    ensures var s := StatsAfter(p, n);
      s.staleFeedback <= 2 * (s.rejectedFeedback + s.commandsSent - 1) + StaleRun(p, n)
    ensures Tally(p, n, Refused) == 0
  {
    hide Phase.Late, Phase.Lateness, Snapshot.Fresh, Sendable;
    if n > 0 {
      StaleCycles(p, n - 1);
      ShortStaleRun(p, n - 1);
      assert !p.Aborts(n - 1);
    }
  }

  /** Between two usable snapshots at most two are stale; a phase that fails may end with a third. */
  lemma StaleBounded(p: Phase, n: nat, ok: bool)
    requires RanTo(p, n, ok)
    ensures var s := StatsAfter(p, n);
      && s.staleFeedback <= 2 * (s.rejectedFeedback + s.commandsSent) + (if ok then 0 else 1)
      && s.commandErrors <= (if ok then 0 else 1)
  {
    hide Phase.Late, Phase.Lateness, Phase.Planned, Snapshot.Fresh, Sendable;
    if ok || n == 0 {
      StaleCycles(p, n);
      ShortStaleRun(p, n);
    } else {
      StaleCycles(p, n - 1);
      ShortStaleRun(p, n - 1);
    }
  }

  /**
   Safety: when the snapshots are those of a motor's history, every cycle that commands a position has
   seen a status message as the last reply, at most two milliseconds old and reporting no error, and
   the position commanded is within limits.
   */
  lemma CommandsFollowStatus(p: Phase, i: nat, ws: seq<Write>)
    requires History(ws) && p.world(i).snapshot == SnapshotOf(After(ws)) && p.Outcome(i) == Commanded
    ensures LastReply(ws).Some?
    ensures var last := LastReply(ws).value;
      && last.message.Status? && last.message.error == NoError
      && p.world(i).wokeAt - last.time <= 2000000
    ensures var position := p.TargetOf(i).position;
      position.Finite? && -12.5 <= position.value <= 12.5
    ensures PlanOf(p.TargetOf(i).AsCommand()).Success?
  {
    hide PlanOf, After, LastReply;
    CoherentExactly(ws);
  }

  // ---------------------------------------------------------------------------------------------
  // A motor that answers every command
  // ---------------------------------------------------------------------------------------------

  /** When the last command before cycle i was sent; the seed goes out at the start. */
  function LastCommandTime(p: Phase, i: nat): int {
    if i == 0 then p.start
    else if p.Outcome(i - 1) == Commanded then p.world(i - 1).wokeAt
    else LastCommandTime(p, i - 1)
  }

  /** How long after the previous wake-up, or after the start, cycle i wakes up. */
  function Gap(p: Phase, i: nat): int {
    p.world(i).wokeAt - (if i == 0 then p.start else p.world(i - 1).wokeAt)
  }

  /**
   In the first n cycles the motor has answered the last command after the delay d, without error and
   before the cycle looked, and has sent nothing else.
   */
  ghost predicate Answers(p: Phase, n: nat, d: int) {
    forall i :: 0 <= i < n ==>
      var c := p.world(i);
      && c.snapshot.Coherent() && c.snapshot.error.value == NoError
      && c.snapshot.error.time == LastCommandTime(p, i) + d <= c.wokeAt
  }

  /** The clock does not go back, and every target can be sent. */
  ghost predicate Smooth(p: Phase, n: nat) {
    && (forall i :: 0 < i < n ==> p.world(i - 1).wokeAt <= p.world(i).wokeAt)
    && (forall i :: 0 <= i < n ==> Sendable(p.TargetOf(i), p.world(i).accepts))
  }

  /** A cycle is stale exactly when the answer to the last command is too old; otherwise it commands. */
  lemma AnsweredCycle(p: Phase, n: nat, d: int, i: nat)
    requires Answers(p, n, d) && Smooth(p, n) && i < n
    ensures p.Outcome(i) ==
            if p.world(i).wokeAt - LastCommandTime(p, i) <= FEEDBACK_MAX_AGE + d then Commanded else Stale
  {
    hide Sendable;
  }

  /** As long as no gap is too long, every cycle commands. */
  lemma {:induction false} CommandsSoFar(p: Phase, n: nat, d: int, i: nat)
    requires Answers(p, n, d) && Smooth(p, n) && i <= n
    requires forall j :: 0 <= j < i ==> Gap(p, j) <= FEEDBACK_MAX_AGE + d
    ensures forall j :: 0 <= j < i ==> p.Outcome(j) == Commanded
    ensures LastCommandTime(p, i) == if i == 0 then p.start else p.world(i - 1).wokeAt
  {
    hide Phase.Outcome, Answers, Smooth;
    if i > 0 {
      CommandsSoFar(p, n, d, i - 1);
      AnsweredCycle(p, n, d, i - 1);
      assert Gap(p, i - 1) <= FEEDBACK_MAX_AGE + d;
    }
  }

  /** After a stale cycle nothing is commanded, so the answer only grows older. */
  lemma StaysStale(p: Phase, n: nat, d: int, i: nat)
    requires Answers(p, n, d) && Smooth(p, n) && i + 1 < n && p.Outcome(i) == Stale
    ensures p.Outcome(i + 1) == Stale
  {
    hide Phase.Outcome, Answers, Sendable;
    AnsweredCycle(p, n, d, i);
    AnsweredCycle(p, n, d, i + 1);
    assert p.world(i + 1 - 1).wokeAt <= p.world(i + 1).wokeAt;
  }

  /** The first gap that is too long starts three stale cycles in a row, if the phase lasts that long. */
  lemma LongGapAborts(p: Phase, n: nat, d: int, i: nat)
    requires Answers(p, n, d) && Smooth(p, n) && i + 2 < n && Gap(p, i) > FEEDBACK_MAX_AGE + d
    requires forall j :: 0 <= j < i ==> Gap(p, j) <= FEEDBACK_MAX_AGE + d
    ensures p.Aborts(i + 2)
  {
    hide Phase.Outcome, Answers, Smooth;
    CommandsSoFar(p, n, d, i);
    AnsweredCycle(p, n, d, i);
    StaysStale(p, n, d, i);
    StaysStale(p, n, d, i + 1);
  }

  /** The first of the first n cycles with too long a gap; n if there is none. */
  function FirstLongGap(p: Phase, n: nat, d: int): (i: nat)
    ensures i <= n && (i < n ==> Gap(p, i) > FEEDBACK_MAX_AGE + d)
    ensures forall j :: 0 <= j < i ==> Gap(p, j) <= FEEDBACK_MAX_AGE + d
  {
    if n == 0 then 0
    else if FirstLongGap(p, n - 1, d) < n - 1 then FirstLongGap(p, n - 1, d)
    else if Gap(p, n - 1) > FEEDBACK_MAX_AGE + d then n - 1
    else n
  }

  /**
   When a motor answers every command after the delay d, the phase succeeds if and only if no gap between
   wake-ups exceeds the age limit by more than d, the last two cycles aside. A stale cycle sends nothing,
   so nothing new arrives: the first gap that is too long is followed by three stale cycles and the end.
   */
  lemma AnsweredPhase(p: Phase, n: nat, ok: bool, d: int)
    requires RanTo(p, n, ok) && Answers(p, n, d) && Smooth(p, n)
    ensures ok <==> forall i :: 0 <= i < p.Planned() - 2 ==> Gap(p, i) <= 2000000 + d
    ensures !ok ==> n == FirstLongGap(p, n, d) + 3
  {
    hide Phase.Outcome, Phase.Planned, Phase.Aborts, Answers, Smooth, Gap;
    var i := FirstLongGap(p, n, d);
    if i + 2 < n {
      LongGapAborts(p, n, d, i);
    } else if n > 0 {
      LateGapGoesOn(p, n, d, i);
    }
  }

  /** A first long gap in one of the last two cycles does not end the phase. */
  lemma LateGapGoesOn(p: Phase, n: nat, d: int, i: nat)
    requires Answers(p, n, d) && Smooth(p, n) && i <= n && n > 0 && i + 2 >= n
    requires forall j :: 0 <= j < i ==> Gap(p, j) <= FEEDBACK_MAX_AGE + d
    ensures !p.Aborts(n - 1)
  {
    hide Phase.Outcome, Answers, Smooth, Gap;
    CommandsSoFar(p, n, d, i);
    if i < n {
      AnsweredCycle(p, n, d, n - 1);
    }
  }

  /**
   In particular, if all wake-ups are late by the same amount and at least three cycles are planned, the
   phase succeeds if and only if the motor takes at least half a millisecond, and that lateness, to
   answer. A quicker motor makes it fail after three cycles with the seed as its only command.
   */
  lemma AnsweredOnSchedule(p: Phase, n: nat, ok: bool, d: int, lateness: int)
    requires RanTo(p, n, ok) && Answers(p, n, d) && Smooth(p, n) && p.Planned() >= 3 && lateness >= 0
    requires forall i :: 0 <= i < p.Planned() ==> p.world(i).wokeAt == p.Scheduled(i) + lateness
    ensures ok <==> d >= 500000 + lateness
    ensures !ok ==> n == 3 && StatsAfter(p, n).commandsSent == 1 && StatsAfter(p, n).staleFeedback == 3
  {
    hide Phase.Outcome, Phase.Planned, Phase.Aborts, Answers, Smooth;
    AnsweredPhase(p, n, ok, d);
    assert Gap(p, 0) == COMMAND_PERIOD + lateness;
    assert forall i :: 0 < i < p.Planned() ==> Gap(p, i) == COMMAND_PERIOD;
    if !ok {
      assert FirstLongGap(p, n, d) == 0;
      AbortedAtThree(p, d);
    }
  }

  lemma AbortedAtThree(p: Phase, d: int)
    requires Answers(p, 3, d) && Smooth(p, 3) && Gap(p, 0) > FEEDBACK_MAX_AGE + d
    ensures StatsAfter(p, 3).commandsSent == 1 && StatsAfter(p, 3).staleFeedback == 3
  {
    hide Phase.Outcome, Phase.Late, Phase.Lateness, Answers, Smooth;
    AnsweredCycle(p, 3, d, 0);
    StaysStale(p, 3, d, 0);
    StaysStale(p, 3, d, 1);
    assert Tally(p, 2, Stale) == 2 && Tally(p, 1, Stale) == 1;
    assert Tally(p, 2, Commanded) == 0 && Tally(p, 1, Commanded) == 0;
  }

  // ---------------------------------------------------------------------------------------------
  // Answers that may take longer than a cycle
  // ---------------------------------------------------------------------------------------------

  /** Of the seed and the commands before cycle k, the newest whose answer, d later, has arrived by time t. */
  function NewestAnswered(p: Phase, k: nat, t: int, d: int): Option<int> {
    if k == 0 then (if p.start + d <= t then Some(p.start) else None)
    else if p.Outcome(k - 1) == Commanded && p.world(k - 1).wokeAt + d <= t then Some(p.world(k - 1).wokeAt)
    else NewestAnswered(p, k - 1, t, d)
  }

  /** What a cycle sees is that answer, without error; as long as there is none it sees nothing coherent. */
  predicate Shows(c: Cycle, command: Option<int>, d: int) {
    match command
    case None => !c.snapshot.Coherent()
    case Some(at) =>
      c.snapshot.Coherent() && c.snapshot.error.value == NoError && c.snapshot.error.time == at + d
  }

  /** Every command is answered after d, however long that is, and the motor sends nothing else. */
  ghost predicate AnswersArrive(p: Phase, n: nat, d: int) {
    forall i :: 0 <= i < n ==> Shows(p.world(i), NewestAnswered(p, i, p.world(i).wokeAt, d), d)
  }

  ghost predicate OnTime(p: Phase, n: nat) {
    && (forall i :: 0 <= i < n ==> p.world(i).wokeAt == p.Scheduled(i))
    && (forall i :: 0 <= i < n ==> Sendable(p.TargetOf(i), p.world(i).accepts))
  }

  /** A cycle commands exactly when there is an answer and it is not too old; otherwise it is stale. */
  lemma ShownOutcome(p: Phase, i: nat, command: Option<int>, d: int)
    requires Shows(p.world(i), command, d) && Sendable(p.TargetOf(i), p.world(i).accepts)
    ensures p.Outcome(i) ==
            if command.Some? && p.world(i).wokeAt - command.value - d <= FEEDBACK_MAX_AGE then Commanded else Stale
  {
    hide Sendable;
  }

  /** The answer arrives in time for the m-th look after its command, and is still fresh then. */
  predicate InWindow(d: int, m: nat) {
    m * 2500000 - 2000000 <= d <= m * 2500000
  }

  /** Does cycle i command when only every m-th does? */
  predicate OnBeat(i: nat, m: nat)
    requires m > 0
  {
    (i + 1) % m == 0
  }

  /** The first k cycles command exactly on every m-th beat. */
  ghost predicate Rhythm(p: Phase, k: nat, m: nat)
    requires m > 0
  {
    forall i :: 0 <= i < k ==> p.Outcome(i) == if OnBeat(i, m) then Commanded else Stale
  }

  lemma {:induction false} NothingNewer(p: Phase, low: nat, k: nat, t: int, d: int)
    requires low <= k
    requires forall i :: low <= i < k ==> p.Outcome(i) == Commanded ==> p.world(i).wokeAt + d > t
    ensures NewestAnswered(p, k, t, d) == NewestAnswered(p, low, t, d)
    decreases k
  {
    hide Phase.Outcome;
    if low < k {
      NothingNewer(p, low, k - 1, t, d);
    }
  }

  /** Of the beats up to and including cycle j the last but one, counted in cycles from the start; 0 is the seed. */
  function BeatBefore(j: nat, m: nat): int
    requires m > 0
  {
    j + 1 - m - (j + 1) % m
  }

  /** It is a beat, m to 2 * m - 1 cycles back. */
  lemma BeatFacts(j: nat, m: nat)
    requires 1 <= m <= 3
    ensures j + 1 - 2 * m < BeatBefore(j, m) <= j + 1 - m
    ensures BeatBefore(j, m) > 0 ==> OnBeat(BeatBefore(j, m) - 1, m)
    ensures BeatBefore(j, m) < 0 ==> j + 1 < m
  {
    if m == 1 {
    } else if m == 2 {
    } else {
    }
  }

  /** Only the last beat comes after it. */
  lemma OneBeatSince(i: nat, j: nat, m: nat)
    requires 1 <= m <= 3 && OnBeat(i, m) && BeatBefore(j, m) <= i < j
    ensures j - i < m
  {
    if m == 1 {
    } else if m == 2 {
    } else {
    }
  }

  /** No later command has been answered when cycle j looks. */
  lemma NothingSinceBeat(p: Phase, n: nat, d: int, m: nat, j: nat, low: nat)
    requires 1 <= m <= 3 && InWindow(d, m) && OnTime(p, n) && j < n && Rhythm(p, j, m)
    requires BeatBefore(j, m) <= low <= j
    ensures NewestAnswered(p, j, p.Scheduled(j), d) == NewestAnswered(p, low, p.Scheduled(j), d)
  {
    hide Phase.Outcome, Sendable, OnBeat, BeatBefore, NewestAnswered;
    forall i | low <= i < j && p.Outcome(i) == Commanded
      ensures p.world(i).wokeAt + d > p.Scheduled(j)
    {
      OneBeatSince(i, j, m);
      assert p.world(i).wokeAt == p.Scheduled(i);
    }
    NothingNewer(p, low, j, p.Scheduled(j), d);
  }

  /** When cycle j looks, the newest answer is that to the last beat but one. */
  lemma NewestOnBeat(p: Phase, n: nat, d: int, m: nat, j: nat)
    requires 1 <= m <= 3 && InWindow(d, m) && OnTime(p, n) && j < n && Rhythm(p, j, m)
    ensures NewestAnswered(p, j, p.Scheduled(j), d) ==
            if BeatBefore(j, m) < 0 then None else Some(p.start + BeatBefore(j, m) * COMMAND_PERIOD)
  {
    hide Phase.Outcome, Sendable, OnBeat, BeatBefore;
    var beat := BeatBefore(j, m);
    BeatFacts(j, m);
    NothingSinceBeat(p, n, d, m, j, if beat <= 0 then 0 else beat);
    if beat > 0 {
      assert p.Outcome(beat - 1) == Commanded && p.world(beat - 1).wokeAt == p.Scheduled(beat - 1);
    }
  }

  /** Seen on a beat the answer to the beat before is fresh, seen later it is not. */
  lemma BeatAge(j: nat, d: int, m: nat)
    requires 1 <= m <= 3 && InWindow(d, m)
    ensures var beat := BeatBefore(j, m);
      OnBeat(j, m) <==> beat >= 0 && (j + 1 - beat) * COMMAND_PERIOD - d <= FEEDBACK_MAX_AGE
  {
    if m == 1 {
    } else if m == 2 {
    } else {
    }
  }

  /** A delay in the m-th window makes every m-th cycle command, and the others stale. */
  lemma {:induction false} KeepsRhythm(p: Phase, n: nat, d: int, m: nat, k: nat)
    requires 1 <= m <= 3 && InWindow(d, m) && OnTime(p, n) && AnswersArrive(p, n, d) && k <= n
    ensures Rhythm(p, k, m)
  {
    hide Phase.Outcome, Sendable, Shows, NewestAnswered, OnBeat, BeatBefore;
    if k > 0 {
      KeepsRhythm(p, n, d, m, k - 1);
      NewestOnBeat(p, n, d, m, k - 1);
      ShownOutcome(p, k - 1, NewestAnswered(p, k - 1, p.world(k - 1).wokeAt, d), d);
      BeatAge(k - 1, d, m);
    }
  }

  /** With the rhythm kept no cycle ends the phase, and one command in m cycles is sent. */
  lemma {:induction false} RhythmGoesOn(p: Phase, n: nat, m: nat)
    requires 1 <= m <= 3 && Rhythm(p, n, m)
    ensures forall i :: 0 <= i < n ==> !p.Aborts(i)
    ensures Tally(p, n, Commanded) == n / m
  {
    hide Phase.Outcome;
    if n > 0 {
      RhythmGoesOn(p, n - 1, m);
      if m == 1 {
      } else if m == 2 {
      } else {
      }
    }
  }

  /** A delay in none of the windows makes the first three cycles stale. */
  lemma NoWindowNoCommand(p: Phase, n: nat, d: int, i: nat)
    requires OnTime(p, n) && AnswersArrive(p, n, d) && i < n && i < 3
    requires d >= 0 && !InWindow(d, 1) && !InWindow(d, 2) && !InWindow(d, 3)
    ensures forall j :: 0 <= j <= i ==> p.Outcome(j) == Stale
  {
    hide Phase.Outcome, Sendable, Shows;
    if i > 0 {
      NoWindowNoCommand(p, n, d, i - 1);
    }
    NothingNewer(p, 0, i, p.world(i).wokeAt, d);
    ShownOutcome(p, i, NewestAnswered(p, i, p.world(i).wokeAt, d), d);
  }

  lemma OutsideFails(p: Phase, n: nat, ok: bool, d: int)
    requires RanTo(p, n, ok) && OnTime(p, n) && AnswersArrive(p, n, d) && p.Planned() >= 3 && d >= 0
    requires !InWindow(d, 1) && !InWindow(d, 2) && !InWindow(d, 3)
    ensures !ok && n == 3 && StatsAfter(p, n).commandsSent == 1
  {
    hide Phase.Outcome, Phase.Planned, Phase.Late, OnTime, AnswersArrive;
    if n > 0 {
      NoWindowNoCommand(p, n, d, if n < 3 then n - 1 else 2);
    }
    assert n >= 3 && p.Aborts(2);
    assert n == 3 && !ok;
    assert Tally(p, 2, Commanded) == Tally(p, 1, Commanded) == 0;
  }

  /**
   The exact condition on the delay. If all cycles wake on time, at least three are planned and the motor
   answers every command after the delay d and says nothing else, the phase succeeds if and only if the
   answer comes at most two milliseconds before the first, second or third look after its command. It
   then commands in every, every second or every third cycle; otherwise it fails after three cycles.
   */
  lemma AnsweredOnTime(p: Phase, n: nat, ok: bool, d: int)
    requires RanTo(p, n, ok) && OnTime(p, n) && AnswersArrive(p, n, d) && p.Planned() >= 3 && d >= 0
    ensures ok <==> InWindow(d, 1) || InWindow(d, 2) || InWindow(d, 3)
    ensures forall m :: 1 <= m <= 3 && InWindow(d, m) ==> StatsAfter(p, n).commandsSent == 1 + n / m
    ensures !ok ==> n == 3 && StatsAfter(p, n).commandsSent == 1
  {
    hide Phase.Outcome, Phase.Planned, Phase.Late, OnTime, AnswersArrive;
    forall m | 1 <= m <= 3 && InWindow(d, m)
      ensures ok && StatsAfter(p, n).commandsSent == 1 + n / m
    {
      KeepsRhythm(p, n, d, m, n);
      RhythmGoesOn(p, n, m);
    }
    if !InWindow(d, 1) && !InWindow(d, 2) && !InWindow(d, 3) {
      OutsideFails(p, n, ok, d);
    }
  }

  /** A phase whose cycles wake on time, with a motor that answers each command after d. */
  function AnsweringPhase(d: int, cycles: nat): Phase {
    Phase(0, cycles * COMMAND_PERIOD, _ => Target(Finite(0.0), Finite(0.0)), true, (i: nat) => AnsweringCycle(d, i))
  }

  function AnsweringCycle(d: int, i: nat): Cycle {
    var seen := AnsweredCommand(d, i);
    var (ticket, at) := if seen.None? then (0, 0) else (i + 1, seen.value + d);
    var zero := Sample(at, ticket, Exact(0.0));
    Cycle((i + 1) * COMMAND_PERIOD, Snapshot(Sample(at, ticket, NoError), zero, zero, zero), true, 0)
  }

  /** Whose answer cycle i sees: that of the beat before, or of the seed if there are no beats. */
  function AnsweredCommand(d: int, i: nat): Option<int> {
    var m := if InWindow(d, 1) then 1 else if InWindow(d, 2) then 2 else if InWindow(d, 3) then 3 else 0;
    if m == 0 then (if d <= (i + 1) * COMMAND_PERIOD then Some(0) else None)
    else
      var beat := BeatBefore(i, m);
      if beat < 0 then None else Some(beat * COMMAND_PERIOD)
  }

  /** Such a motor exists for every delay and every number of cycles, on either side of the limits. */
  lemma AnsweringPhaseRuns(d: int, cycles: nat)
    requires d >= 0 && cycles >= 3
    ensures var p, ok := AnsweringPhase(d, cycles), InWindow(d, 1) || InWindow(d, 2) || InWindow(d, 3);
      var n := if ok then cycles else 3;
      && p.Planned() == cycles && RanTo(p, n, ok) && OnTime(p, n) && AnswersArrive(p, n, d)
      && (d <= COMMAND_PERIOD ==> Answers(p, n, d) && Smooth(p, n))
  {
    hide Phase.Outcome, Sendable, AnswersArrive, Answers, AnsweredCommand;
    var p := AnsweringPhase(d, cycles);
    if InWindow(d, 1) {
      PhaseOnBeat(d, 1, cycles, cycles);
      RhythmGoesOn(p, cycles, 1);
    } else if InWindow(d, 2) {
      PhaseOnBeat(d, 2, cycles, cycles);
      RhythmGoesOn(p, cycles, 2);
    } else if InWindow(d, 3) {
      PhaseOnBeat(d, 3, cycles, cycles);
      RhythmGoesOn(p, cycles, 3);
    } else {
      PhaseOffBeat(d, cycles);
    }
    if d <= COMMAND_PERIOD {
      AnsweredSoon(d, cycles, if InWindow(d, 1) then cycles else 3);
    }
  }

  lemma PhaseOnTime(d: int, cycles: nat, n: nat)
    ensures var p := AnsweringPhase(d, cycles); OnTime(p, n) && Smooth(p, n)
  {
    hide PlanOf, AnsweredCommand;
    StillIsEncodable();
  }

  /** In a window the motor's answers are those of the beats, and the phase keeps the rhythm. */
  lemma {:induction false} PhaseOnBeat(d: int, m: nat, cycles: nat, n: nat)
    requires 1 <= m <= 3 && InWindow(d, m)
    ensures var p := AnsweringPhase(d, cycles); OnTime(p, n) && AnswersArrive(p, n, d) && Rhythm(p, n, m)
  {
    hide Phase.Outcome, OnTime, Sendable, Smooth, NewestAnswered, OnBeat, BeatBefore;
    var p := AnsweringPhase(d, cycles);
    PhaseOnTime(d, cycles, n);
    if n > 0 {
      PhaseOnBeat(d, m, cycles, n - 1);
      NewestOnBeat(p, n, d, m, n - 1);
      KeepsRhythm(p, n, d, m, n);
    }
  }

  /** In no window only the seed is answered, and the first three cycles are stale. */
  lemma PhaseOffBeat(d: int, cycles: nat)
    requires d >= 0 && !InWindow(d, 1) && !InWindow(d, 2) && !InWindow(d, 3)
    ensures var p := AnsweringPhase(d, cycles);
      && OnTime(p, 3) && AnswersArrive(p, 3, d) && (forall i :: 0 <= i < 3 ==> p.Outcome(i) == Stale)
  {
    hide OnTime, Sendable, Smooth;
    var p := AnsweringPhase(d, cycles);
    PhaseOnTime(d, cycles, 3);
    assert p.Outcome(0) == Stale && p.Outcome(1) == Stale && p.Outcome(2) == Stale;
    forall i: nat | i < 3
      ensures NewestAnswered(p, i, p.world(i).wokeAt, d) == AnsweredCommand(d, i)
    {
      NothingNewer(p, 0, i, p.world(i).wokeAt, d);
    }
  }

  /** A delay within a period is also one before the next look. */
  lemma AnsweredSoon(d: int, cycles: nat, n: nat)
    requires 0 <= d <= COMMAND_PERIOD && (n <= 3 || InWindow(d, 1))
    ensures Answers(AnsweringPhase(d, cycles), n, d)
  {
    hide Phase.Outcome, Sendable;
    var p := AnsweringPhase(d, cycles);
    forall i: nat | i < n
      ensures InWindow(d, 1) ==> LastCommandTime(p, i) == i * COMMAND_PERIOD
      ensures !InWindow(d, 1) ==> LastCommandTime(p, i) == 0
    {
      if InWindow(d, 1) {
        PhaseOnBeat(d, 1, cycles, i);
        assert i > 0 ==> p.Outcome(i - 1) == Commanded;
      } else {
        PhaseOffBeat(d, cycles);
        assert LastCommandTime(p, 1) == 0;
      }
    }
  }

  lemma StillIsEncodable()
    ensures PlanOf(Target(Finite(0.0), Finite(0.0)).AsCommand()).Success?
  {
    SymmetricTotal(0.0, 12.5, 32767, 0xFFFF);
    SymmetricTotal(0.0, 18.0, 2047, 0x0FFF);
    SymmetricTotal(0.0, 30.0, 2047, 0x0FFF);
  }

  /**
   A motor need not answer properly for this: if everything seen in the first three cycles is stamped
   earlier than half a millisecond after the start, all three are stale.
   */
  lemma PromptAnswerAborts(p: Phase, n: nat, ok: bool)
    requires RanTo(p, n, ok) && p.Planned() >= 3
    requires forall i :: 0 <= i < 3 ==> p.world(i).wokeAt >= p.Scheduled(i)
    requires forall i :: 0 <= i < 3 ==>
               p.world(i).snapshot.error.time < p.start + 500000
    ensures !ok && n == 3 && StatsAfter(p, n).commandsSent == 1 && StatsAfter(p, n).staleFeedback == 3
  {
    hide Phase.Planned, Phase.Late;
    forall i: nat | i < 3
      ensures p.Outcome(i) == Stale
    {
      assert p.world(i).wokeAt >= p.Scheduled(i);
    }
    assert p.Outcome(0) == Stale && p.Outcome(1) == Stale && p.Outcome(2) == Stale;
    assert p.Aborts(2) && !p.Aborts(0) && !p.Aborts(1);
    RanToOne(p, n, ok, 3, false);
    assert Tally(p, 2, Stale) == 2 && Tally(p, 1, Stale) == 1;
    assert Tally(p, 2, Commanded) == 0 && Tally(p, 1, Commanded) == 0;
  }
}
