/** The transmit rate limiter. Amounts are exact reals; time is counted in whole clock ticks. */
module TokenBucket {
  import opened Fleet

  const TICKS_PER_SEC: real := 1000000000.0

  /** A limiter as a value: `rate` in bytes per second. */
  datatype Bucket = Bucket(rate: real, burst: nat, available: real, lastRefill: int) {
    ghost predicate Valid() {
      rate >= 0.0 && 0.0 <= available <= burst as real
    }

    predicate Usable() {
      rate >= 0.000000000001 && burst > 0
    }
  }

  /** Bytes earned in `ticks`. */
  function Earned(rate: real, ticks: int): real {
    ticks as real / TICKS_PER_SEC * rate
  }

  function Min(a: real, b: real): real { if a < b then a else b }

  function Refilled(b: Bucket, now: int): (r: Bucket)
    ensures r.rate == b.rate && r.burst == b.burst
  {
    if now <= b.lastRefill then b
    else b.(available := Min(b.burst as real, b.available + Earned(b.rate, now - b.lastRefill)), lastRefill := now)
  }

  function Spent(b: Bucket, bytes: nat): (r: Bucket)
    ensures r.rate == b.rate && r.burst == b.burst && r.lastRefill == b.lastRefill
  {
    b.(available := if b.available < bytes as real then 0.0 else b.available - bytes as real)
  }

  /** How long the source sleeps for `missing` bytes: truncated to whole ticks, and at least one. */
  function WaitTicks(rate: real, missing: real): (ticks: int)
    requires rate > 0.0 && missing >= 0.0
    ensures var exact := missing / rate * 1000000000.0;
      if exact < 1.0 then ticks == 1 else ticks as real <= exact < ticks as real + 1.0
  {
    var whole := ToTicks(missing, rate).Floor;
    if whole <= 0 then 1 else whole
  }

  function ToTicks(missing: real, rate: real): real
    requires rate > 0.0
  {
    missing / rate * TICKS_PER_SEC
  }

  /** What one turn of the waiting loop sees: a stop request, or the clock. */
  datatype Poll = Stop | At(now: int)

  datatype Outcome = Outcome(error: Err, bucket: Bucket, turns: nat)

  /** The waiting loop, fed with what each of its turns sees. Every script ends with a stop. */
  function Waited(b: Bucket, bytes: nat, polls: seq<Poll>): (o: Outcome)
    requires polls != [] && polls[|polls| - 1].Stop?
    ensures o.turns < |polls|
    ensures o.bucket.rate == b.rate && o.bucket.burst == b.burst
    decreases |polls|
  {
    match polls[0]
    case Stop => Outcome(Cancelled, b, 0)
    case At(now) =>
      var r := Refilled(b, now);
      if r.available >= bytes as real then Outcome(Ok, Spent(r, bytes), 1)
      else
        var rest := Waited(r, bytes, polls[1..]);
        rest.(turns := rest.turns + 1)
  }

  class Limiter {
    const rate: real
    const burst: nat
    var available: real
    var lastRefill: int

    ghost function View(): Bucket
      reads this
    {
      Bucket(rate, burst, available, lastRefill)
    }

    ghost predicate Valid()
      reads this
    {
      View().Valid()
    }

    constructor (maxBandwidthBps: nat, burst: nat, now: int)
      ensures Valid() && View() == Bucket(maxBandwidthBps as real / 8.0, burst, burst as real, now)
    {
      this.rate := maxBandwidthBps as real / 8.0;
      this.burst := burst;
      available := burst as real;
      lastRefill := now;
    }

    method Refill(now: int)
      requires Valid()
      modifies this
      ensures Valid() && View() == Refilled(old(View()), now)
      ensures now <= old(lastRefill) ==> available == old(available) && lastRefill == old(lastRefill)
      ensures now > old(lastRefill) ==>
                var earned := (now - old(lastRefill)) as real / 1000000000.0 * rate;
                && available == (if old(available) + earned > burst as real then burst as real
                                 else old(available) + earned)
                && lastRefill == now
    {
      var secs := (now - lastRefill) as real / TICKS_PER_SEC;
      if secs <= 0.0 {
        return;
      }
      EarnedSign(rate, now - lastRefill);
      available := Min(burst as real, available + secs * rate);
      lastRefill := now;
    }

    /** Waits until `bytes` are granted or a stop is seen. `turns` counts the loop turns taken. */
    method Wait(bytes: nat, polls: seq<Poll>) returns (e: Err, turns: nat)
      requires Valid() && polls != [] && polls[|polls| - 1].Stop?
      modifies this
      ensures Valid()
      ensures bytes == 0 ==> e == Ok && turns == 0 && View() == old(View())
      ensures bytes > 0 && !old(View()).Usable() ==> e == InvalidArgument && turns == 0 && View() == old(View())
      ensures e == InvalidArgument <==> bytes > 0 && (rate < 0.000000000001 || burst == 0)
      ensures bytes > burst && e != InvalidArgument ==> e == Cancelled
      ensures e == Ok && bytes > 0 ==> available + bytes as real <= burst as real
      ensures bytes > 0 && old(View()).Usable() ==>
                Outcome(e, View(), turns) == Waited(old(View()), bytes, polls)
    {
      hide Refilled, Earned;
      turns := 0;
      if bytes == 0 {
        return Ok, 0;
      }
      if rate < 0.000000000001 || burst == 0 {
        return InvalidArgument, 0;
      }
      while polls[turns].At?
        invariant Valid() && turns < |polls|
        invariant Waited(old(View()), bytes, polls) == Later(Waited(View(), bytes, polls[turns..]), turns)
        decreases |polls| - turns
      {
        Refill(polls[turns].now);
        assert polls[turns..][1..] == polls[turns + 1..];
        turns := turns + 1;
        if available >= bytes as real {
          available := if available < bytes as real then 0.0 else available - bytes as real;
          return Ok, turns;
        }
        // The source sleeps here for WaitTicks(rate, bytes - available).
      }
      e := Cancelled;
    }
  }

  function Later(o: Outcome, turns: nat): Outcome { o.(turns := o.turns + turns) }

  // ---------------------------------------------------------------------------------------------
  // Arithmetic of earning
  // ---------------------------------------------------------------------------------------------

  lemma EarnedSign(rate: real, ticks: int)
    requires rate >= 0.0 && ticks >= 0
    ensures Earned(rate, ticks) >= 0.0
  {
    assert ticks as real / TICKS_PER_SEC >= 0.0;
  }

  lemma EarnedSum(rate: real, a: int, b: int)
    ensures Earned(rate, a) + Earned(rate, b) == Earned(rate, a + b)
  {
    var x, y := a as real / TICKS_PER_SEC, b as real / TICKS_PER_SEC;
    assert (a + b) as real / TICKS_PER_SEC == x + y;
    assert (x + y) * rate == x * rate + y * rate;
  }

  lemma EarnedMonotone(rate: real, a: int, b: int)
    requires rate >= 0.0 && a <= b
    ensures Earned(rate, a) <= Earned(rate, b)
  {
    EarnedSum(rate, a, b - a);
    EarnedSign(rate, b - a);
  }

  /** Refilling keeps the content between nothing and a full burst. */
  lemma RefillKeepsValid(b: Bucket, now: int)
    requires b.Valid()
    ensures Refilled(b, now).Valid() && Refilled(b, now).available >= b.available
  {
    if now > b.lastRefill {
      EarnedSign(b.rate, now - b.lastRefill);
    }
  }

  lemma {:induction false} WaitKeepsValid(b: Bucket, bytes: nat, polls: seq<Poll>)
    requires b.Valid() && polls != [] && polls[|polls| - 1].Stop?
    ensures Waited(b, bytes, polls).bucket.Valid()
    decreases |polls|
  {
    if polls[0].At? {
      var r := Refilled(b, polls[0].now);
      RefillKeepsValid(b, polls[0].now);
      if r.available < bytes as real {
        WaitKeepsValid(r, bytes, polls[1..]);
      }
    }
  }

  // ---------------------------------------------------------------------------------------------
  // Progress
  // ---------------------------------------------------------------------------------------------

  /** Sleeping `ticks` earns what `ticks` is worth. */
  lemma EarnedOfTicks(rate: real, missing: real, ticks: int)
    requires rate > 0.0
    ensures Earned(rate, ticks) >= missing <==> ticks as real >= ToTicks(missing, rate)
  {
    var x := missing / rate;
    var y := ticks as real / TICKS_PER_SEC;
    assert x * rate == missing;
    if y >= x {
      assert y * rate >= x * rate;
    } else {
      assert y * rate < x * rate;
    }
  }

  /** A bucket refilled at `now` and found short at `turn` is asked to sleep this long. */
  ghost predicate Slept(b: Bucket, bytes: nat, from: int, to: int)
    requires b.rate > 0.0 && b.available <= bytes as real
  {
    to >= from + WaitTicks(b.rate, bytes as real - b.available)
  }

  /** One sleep leaves less than one tick's worth missing. */
  lemma OneSleep(b: Bucket, bytes: nat, now: int)
    requires b.Valid() && b.rate > 0.0 && b.available < bytes as real && bytes <= b.burst
    requires Slept(b, bytes, b.lastRefill, now)
    ensures Refilled(b, now).available > bytes as real - Earned(b.rate, 1)
    ensures bytes as real - b.available <= Earned(b.rate, 1) ==> Refilled(b, now).available >= bytes as real
    ensures Refilled(b, now).lastRefill == now
  {
    hide Earned, ToTicks;
    var missing := bytes as real - b.available;
    var ticks := WaitTicks(b.rate, missing);
    var elapsed := now - b.lastRefill;
    EarnedMonotone(b.rate, ticks, elapsed);
    EarnedSum(b.rate, ticks, 1);
    EarnedOfTicks(b.rate, missing, ticks + 1);
    EarnedOfTicks(b.rate, missing, 1);
    OneTick(b.rate);
    StrictlyMore(b.rate, missing, ticks + 1);
  }

  lemma OneTick(rate: real)
    requires rate > 0.0
    ensures Earned(rate, 1) > 0.0
  {
    assert 1.0 / TICKS_PER_SEC > 0.0;
  }

  lemma StrictlyMore(rate: real, missing: real, ticks: int)
    requires rate > 0.0 && ticks as real > ToTicks(missing, rate)
    ensures Earned(rate, ticks) > missing
  {
    var x := missing / rate;
    var y := ticks as real / TICKS_PER_SEC;
    assert x * rate == missing;
    assert y > x;
    assert y * rate > x * rate;
  }

  /**
   Progress: with a positive rate, at most a burst requested, a clock that never goes back and sleeps
   no shorter than asked for, the third look at the clock grants at the latest (two sleeps).
   */
  lemma GrantedAfterTwoWaits(b: Bucket, bytes: nat, polls: seq<Poll>)
    requires b.Valid() && b.Usable() && bytes <= b.burst
    requires |polls| >= 4 && polls[|polls| - 1].Stop?
    requires polls[0].At? && polls[1].At? && polls[2].At?
    requires b.lastRefill <= polls[0].now
    requires var first := Refilled(b, polls[0].now);
             first.available < bytes as real ==> Slept(first, bytes, polls[0].now, polls[1].now)
    requires var second := Refilled(Refilled(b, polls[0].now), polls[1].now);
             second.available < bytes as real ==> Slept(second, bytes, polls[1].now, polls[2].now)
    ensures var o := Waited(b, bytes, polls); o.error == Ok && o.turns <= 3
  {
    hide Earned, ToTicks, WaitTicks;
    var first := Refilled(b, polls[0].now);
    RefillKeepsValid(b, polls[0].now);
    if first.available < bytes as real {
      var second := Refilled(first, polls[1].now);
      RefillKeepsValid(first, polls[1].now);
      OneSleep(first, bytes, polls[1].now);
      assert polls[1..][0] == polls[1] && polls[1..][1..] == polls[2..] && polls[2..][0] == polls[2];
      if second.available < bytes as real {
        OneSleep(second, bytes, polls[2].now);
        assert Waited(second, bytes, polls[2..]).turns == 1;
      }
      assert Waited(first, bytes, polls[1..]).turns <= 2;
    }
  }

  /**
   The second sleep is due to the truncation alone: after a sleep of exactly the requested length the
   request is met if and only if the time asked for was a whole number of ticks, or under one tick.
   */
  lemma OneWaitSuffices(b: Bucket, bytes: nat)
    requires b.Valid() && b.rate > 0.0 && b.available < bytes as real && bytes <= b.burst
    ensures var missing := bytes as real - b.available;
      var exact := missing / b.rate * 1000000000.0;
      Refilled(b, b.lastRefill + WaitTicks(b.rate, missing)).available >= bytes as real
      <==> exact < 1.0 || exact == exact.Floor as real
  {
    hide Earned;
    var missing := bytes as real - b.available;
    EarnedOfTicks(b.rate, missing, WaitTicks(b.rate, missing));
  }

  /** A request beyond the burst is never granted, however long it waits. */
  lemma {:induction false} BeyondBurstNeverGranted(b: Bucket, bytes: nat, polls: seq<Poll>)
    requires b.Valid() && bytes > b.burst && polls != [] && polls[|polls| - 1].Stop?
    ensures Waited(b, bytes, polls).error == Cancelled
    decreases |polls|
  {
    if polls[0].At? {
      RefillKeepsValid(b, polls[0].now);
      BeyondBurstNeverGranted(Refilled(b, polls[0].now), bytes, polls[1..]);
    }
  }
}
