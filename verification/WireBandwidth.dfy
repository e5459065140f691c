/**
 How many bytes can reach the wire in any stretch of time. What is granted between two times is limited by
 the burst and by what the rate earns in between. A packet is sent after its own grant and before the next
 one, so the wire can exceed that by one packet.
 */
module WireBandwidth {
  import opened Fleet
  import opened TokenBucket
  import opened SendPipeline
  import opened SendOrder

  function Sizes(log: seq<Grant>): (q: seq<nat>)
    ensures |q| == |log|
    ensures forall i :: 0 <= i < |log| ==> q[i] == log[i].size
  {
    seq(|log|, i requires 0 <= i < |log| => log[i].size)
  }

  function Sum(q: seq<nat>): nat {
    if q == [] then 0 else Sum(q[..|q| - 1]) + q[|q| - 1]
  }

  /** Grants and sends alternate in time, and nothing lies in the future. */
  predicate Timed(log: seq<Grant>, now: int) {
    && (forall i :: 0 <= i < |log| ==> log[i].at <= now)
    && (forall i :: 0 <= i < |log| && log[i].sent.Some? ==> log[i].at <= log[i].sent.value.at <= now)
    && (forall i, j :: 0 <= i < j < |log| ==> log[i].at <= log[j].at)
    && (forall i, j :: 0 <= i < j < |log| && log[i].sent.Some? ==> log[i].sent.value.at <= log[j].at)
  }

  /** Bytes granted from position i up to j, against what the limiter allows in that time. */
  ghost predicate Within(log: seq<Grant>, rate: real, i: nat, j: nat)
    requires i < j <= |log|
  {
    Sum(Sizes(log)[i..j]) as real <= BURST as real + Earned(rate, log[j - 1].at - log[i].at)
  }

  /** What has been granted since position i, together with what could be granted at once. */
  ghost predicate Open(log: seq<Grant>, b: Bucket, i: nat)
    requires i < |log|
  {
    if b.lastRefill >= log[i].at then
      Sum(Sizes(log)[i..]) as real + b.available <= BURST as real + Earned(b.rate, b.lastRefill - log[i].at)
    else
      Sum(Sizes(log)[i..]) == 0
  }

  ghost predicate Limited(log: seq<Grant>, b: Bucket) {
    && (forall i, j :: 0 <= i < j <= |log| ==> Within(log, b.rate, i, j))
    && (forall i :: 0 <= i < |log| ==> Open(log, b, i))
  }

  ghost predicate Paced(s: State) {
    && s.bucket.Valid() && s.bucket.burst == BURST && s.bucket.lastRefill <= s.now
    && Timed(s.log, s.now) && Limited(s.log, s.bucket)
    && (s.tx.Ready? ==> s.log != [] && s.log[|s.log| - 1].sent.None?)
  }

  // ---------------------------------------------------------------------------------------------
  // The limiter keeps its promise
  // ---------------------------------------------------------------------------------------------

  lemma SumMore(q: seq<nat>, x: nat)
    ensures Sum(q + [x]) == Sum(q) + x
  {
    assert (q + [x])[..|q|] == q;
  }

  lemma OneMoreGrant(log: seq<Grant>, g: Grant, i: nat)
    requires i <= |log|
    ensures Sum(Sizes(log + [g])[i..]) == Sum(Sizes(log)[i..]) + g.size
  {
    assert Sizes(log + [g])[i..] == Sizes(log)[i..] + [g.size];
    SumMore(Sizes(log)[i..], g.size);
  }

  /** After a refill at `t`, what was granted since i and what is left respect the rate. */
  lemma RefillOpen(log: seq<Grant>, b: Bucket, i: nat, t: int)
    requires b.Valid() && b.burst == BURST && b.lastRefill <= t
    requires i < |log| && log[i].at <= t && Open(log, b, i)
    ensures Sum(Sizes(log)[i..]) as real + Refilled(b, t).available <= BURST as real + Earned(b.rate, t - log[i].at)
  {
    hide Sum, Sizes, Earned;
    EarnedSign(b.rate, t - log[i].at);
    RefillKeepsValid(b, t);
    if b.lastRefill >= log[i].at {
      EarnedSum(b.rate, b.lastRefill - log[i].at, t - b.lastRefill);
    }
  }

  lemma EarnedNothing(rate: real)
    ensures Earned(rate, 0) == 0.0
  {
  }

  lemma RefillLimited(log: seq<Grant>, b: Bucket, now: int, t: int)
    requires b.Valid() && b.burst == BURST && b.lastRefill <= now <= t
    requires Timed(log, now) && Limited(log, b)
    ensures Limited(log, Refilled(b, t))
  {
    hide Sum, Sizes, Earned, Refilled;
    RefilledTime(b, t);
    forall i | 0 <= i < |log|
      ensures Open(log, Refilled(b, t), i)
    {
      RefillOpen(log, b, i, t);
    }
  }

  lemma RefilledTime(b: Bucket, t: int)
    requires b.lastRefill <= t
    ensures Refilled(b, t).lastRefill == t
  {
  }

  lemma GrantAfter(log: seq<Grant>, b: Bucket, g: Grant, i: nat)
    requires b.Valid() && i < |log| && Open(log, b, i) && log[i].at <= g.at
    requires b.lastRefill <= g.at && g.size as real <= b.available
    requires g.size > 0 ==> b.lastRefill == g.at
    ensures Open(log + [g], Spent(b, g.size), i) && Within(log + [g], b.rate, i, |log| + 1)
  {
    hide Sum, Sizes, Earned;
    OneMoreGrant(log, g, i);
    EarnedSign(b.rate, g.at - log[i].at);
    if b.lastRefill >= log[i].at {
      EarnedMonotone(b.rate, b.lastRefill - log[i].at, g.at - log[i].at);
    }
    assert Sizes(log + [g])[i..|log| + 1] == Sizes(log + [g])[i..];
  }

  lemma GrantItself(log: seq<Grant>, b: Bucket, g: Grant)
    requires b.Valid() && b.burst == BURST
    requires b.lastRefill <= g.at && g.size as real <= b.available
    requires g.size > 0 ==> b.lastRefill == g.at
    ensures Open(log + [g], Spent(b, g.size), |log|) && Within(log + [g], b.rate, |log|, |log| + 1)
  {
    hide Sum, Sizes, Earned;
    OneMoreGrant(log, g, |log|);
    NoneLeft(log);
    EarnedNothing(b.rate);
    assert Sizes(log + [g])[|log|..|log| + 1] == Sizes(log + [g])[|log|..];
  }

  /** Granting `size` bytes out of a bucket that holds them. */
  lemma GrantLimited(log: seq<Grant>, b: Bucket, g: Grant)
    requires b.Valid() && b.burst == BURST && Limited(log, b) && Timed(log, g.at)
    requires b.lastRefill <= g.at && g.size as real <= b.available
    requires g.size > 0 ==> b.lastRefill == g.at
    ensures Limited(log + [g], Spent(b, g.size))
  {
    hide Sum, Sizes, Earned;
    var more := log + [g];
    var after := Spent(b, g.size);
    forall i | 0 <= i < |more|
      ensures Open(more, after, i) && Within(more, after.rate, i, |more|)
    {
      if i < |log| {
        GrantAfter(log, b, g, i);
      } else {
        GrantItself(log, b, g);
      }
    }
    forall i, j | 0 <= i < j <= |log|
      ensures Within(more, after.rate, i, j)
    {
      assert Within(log, b.rate, i, j);
      SizesPrefix(log, g, i, j);
    }
  }

  lemma NoneLeft(log: seq<Grant>)
    ensures Sum(Sizes(log)[|log|..]) == 0
  {
  }

  lemma SizesPrefix(log: seq<Grant>, g: Grant, i: nat, j: nat)
    requires i < j <= |log|
    ensures Sizes(log + [g])[i..j] == Sizes(log)[i..j]
  {
  }

  lemma PollPaced(s: State, t: int)
    requires Paced(s) && s.tx.Waiting? && t >= s.now
    ensures Paced(Polled(s, t))
  {
    hide Limited, Earned;
    var r := Refilled(s.bucket, t);
    RefillKeepsValid(s.bucket, t);
    RefillLimited(s.log, s.bucket, s.now, t);
    var g := Grant(s.tx.id, s.tx.size, t, None);
    if s.tx.size == 0 {
      GrantLimited(s.log, s.bucket, g);
    } else if r.available >= s.tx.size as real {
      GrantLimited(s.log, r, g);
    }
  }

  lemma AttemptPaced(s: State, t: int, result: SendResult)
    requires Paced(s) && s.tx.Ready? && t >= s.now
    requires InPool(s, s.tx.slot) && s.tx.size <= |s.pool.regions[s.tx.slot]|
    ensures Paced(Attempted(s, t, result))
  {
    hide Earned, Sum;
    var after := Attempted(s, t, result);
    assert Sizes(after.log) == Sizes(s.log);
    assert Limited(after.log, after.bucket) by {
      forall i, j | 0 <= i < j <= |s.log|
        ensures Within(after.log, after.bucket.rate, i, j)
      {
        assert Within(s.log, s.bucket.rate, i, j);
      }
      forall i | 0 <= i < |s.log|
        ensures Open(after.log, after.bucket, i)
      {
        assert Open(s.log, s.bucket, i);
      }
    }
  }

  lemma StepPaced(s: State, e: Event)
    requires Paced(s)
    ensures Paced(Step(s, e))
  {
    hide Limited, Timed, Polled, Attempted;
    match e
    case TxPoll(t) => if s.tx.Waiting? && t >= s.now { PollPaced(s, t); }
    case TxSend(t, result) =>
      if s.tx.Ready? && t >= s.now && InPool(s, s.tx.slot) && s.tx.size <= |s.pool.regions[s.tx.slot]| {
        AttemptPaced(s, t, result);
      }
    case _ =>
  }

  lemma {:induction false} RunPaced(s: State, events: seq<Event>)
    requires Initial(s)
    ensures Paced(Run(s, events)) && Run(s, events).bucket.rate == s.bucket.rate
    decreases |events|
  {
    hide Paced, Step;
    if events == [] {
      InitialPaced(s);
    } else {
      RunPaced(s, events[..|events| - 1]);
      StepPaced(Run(s, events[..|events| - 1]), events[|events| - 1]);
      SameRate(Run(s, events[..|events| - 1]), events[|events| - 1]);
    }
  }

  lemma InitialPaced(s: State)
    requires Initial(s)
    ensures Paced(s)
  {
  }

  lemma SameRate(s: State, e: Event)
    ensures Step(s, e).bucket.rate == s.bucket.rate
  {
  }

  // ---------------------------------------------------------------------------------------------
  // Windows of time
  // ---------------------------------------------------------------------------------------------

  predicate SentIn(g: Grant, a: int, b: int) {
    g.sent.Some? && a <= g.sent.value.at <= b
  }

  /** Payload bytes the socket accepted between times `a` and `b`, both included. */
  function SentBytes(log: seq<Grant>, a: int, b: int): nat {
    if log == [] then 0
    else
      var last := log[|log| - 1];
      SentBytes(log[..|log| - 1], a, b) + (if SentIn(last, a, b) then |last.sent.value.bytes| else 0)
  }

  lemma {:induction false} SentSince(log: seq<Grant>, a: int, b: int, i: nat)
    requires i <= |log|
    requires forall k :: 0 <= k < |log| && log[k].sent.Some? ==> |log[k].sent.value.bytes| == log[k].size
    requires forall k :: 0 <= k < i ==> !SentIn(log[k], a, b)
    ensures SentBytes(log, a, b) <= Sum(Sizes(log)[i..])
    decreases |log|
  {
    if |log| > i {
      var rest := log[..|log| - 1];
      SentSince(rest, a, b, i);
      assert log == rest + [log[|log| - 1]];
      OneMoreGrant(rest, log[|log| - 1], i);
    } else if log != [] {
      SentSince(log[..|log| - 1], a, b, |log| - 1);
      NoneLeft(log[..|log| - 1]);
    }
  }

  lemma {:induction false} SumSplit(q: seq<nat>)
    requires q != []
    ensures Sum(q) == q[0] + Sum(q[1..])
    decreases |q|
  {
    if |q| > 1 {
      SumSplit(q[..|q| - 1]);
      assert q[..|q| - 1][1..] == q[1..][..|q| - 2];
    }
  }

  lemma {:induction false} WindowBound(log: seq<Grant>, bucket: Bucket, now: int, a: int, b: int)
    requires bucket.rate >= 0.0 && a <= b && Timed(log, now)
    requires forall i, j :: 0 <= i < j <= |log| ==> Within(log, bucket.rate, i, j)
    requires forall k :: 0 <= k < |log| ==> log[k].size <= PACKET_CAP
    requires forall k :: 0 <= k < |log| && log[k].sent.Some? ==> |log[k].sent.value.bytes| == log[k].size
    ensures SentBytes(log, a, b) as real <= (BURST + PACKET_CAP) as real + Earned(bucket.rate, b - a)
    decreases |log|
  {
    hide Earned, Sum;
    EarnedSign(bucket.rate, b - a);
    if log != [] {
      var last := |log| - 1;
      if SentIn(log[last], a, b) {
        EndsInWindow(log, bucket, now, a, b);
      } else {
        var rest := log[..last];
        forall i, j | 0 <= i < j <= |rest|
          ensures Within(rest, bucket.rate, i, j)
        {
          assert Within(log, bucket.rate, i, j);
          assert Sizes(rest)[i..j] == Sizes(log)[i..j];
        }
        WindowBound(rest, bucket, now, a, b);
      }
    }
  }

  /** The first packet sent in the window may have been granted long before it; the others were not. */
  lemma EndsInWindow(log: seq<Grant>, bucket: Bucket, now: int, a: int, b: int)
    requires bucket.rate >= 0.0 && a <= b && Timed(log, now)
    requires forall i, j :: 0 <= i < j <= |log| ==> Within(log, bucket.rate, i, j)
    requires forall k :: 0 <= k < |log| ==> log[k].size <= PACKET_CAP
    requires forall k :: 0 <= k < |log| && log[k].sent.Some? ==> |log[k].sent.value.bytes| == log[k].size
    requires log != [] && SentIn(log[|log| - 1], a, b)
    ensures SentBytes(log, a, b) as real <= (BURST + PACKET_CAP) as real + Earned(bucket.rate, b - a)
  {
    hide Earned, Sum, Within;
    var i := 0;
    while !SentIn(log[i], a, b)
      invariant i < |log| && forall k :: 0 <= k < i ==> !SentIn(log[k], a, b)
      decreases |log| - i
    {
      i := i + 1;
    }
    SentSince(log, a, b, i);
    SumSplit(Sizes(log)[i..]);
    assert Sizes(log)[i..][1..] == Sizes(log)[i + 1..];
    EarnedSign(bucket.rate, b - a);
    if i + 1 < |log| {
      assert Within(log, bucket.rate, i + 1, |log|);
      WithinWindow(log, bucket.rate, i + 1, b - a);
    } else {
      NoneLeft(log);
    }
  }

  lemma WithinWindow(log: seq<Grant>, rate: real, i: nat, span: int)
    requires i < |log| && Within(log, rate, i, |log|) && rate >= 0.0
    requires log[|log| - 1].at - log[i].at <= span
    ensures Sum(Sizes(log)[i..]) as real <= BURST as real + Earned(rate, span)
  {
    hide Earned, Sum;
    EarnedMonotone(rate, log[|log| - 1].at - log[i].at, span);
    assert Sizes(log)[i..|log|] == Sizes(log)[i..];
  }

  /**
   The limiter, over every run: from any grant to any later grant, no more than a burst plus the rate
   times the time between them is granted.
   */
  lemma GrantsLimited(s: State, events: seq<Event>, i: nat, j: nat)
    requires Initial(s) && i < j <= |Run(s, events).log|
    ensures var log := Run(s, events).log;
      Sum(Sizes(log)[i..j]) as real
      <= 1024.0 + (log[j - 1].at - log[i].at) as real / 1000000000.0 * s.bucket.rate
  {
    hide Run, Sum, Initial;
    RunPaced(s, events);
    assert Within(Run(s, events).log, s.bucket.rate, i, j);
  }

  /**
   The wire, over every run: in any window of time the socket accepts at most a burst, one packet and
   the rate times the window's length.
   */
  lemma WireLimited(s: State, events: seq<Event>, a: int, b: int)
    requires Initial(s) && a <= b
    ensures SentBytes(Run(s, events).log, a, b) as real
            <= 1536.0 + (b - a) as real / 1000000000.0 * s.bucket.rate
  {
    hide Run, Sum, Initial, Conserved, Packed, SentBytes, Within;
    var t := Run(s, events);
    RunPaced(s, events);
    RunKeeps(s, events);
    WindowBound(t.log, t.bucket, t.now, a, b);
  }
}
