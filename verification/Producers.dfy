/**
 Producers that send encoded batches: each takes a slot, stores the bytes of its packet one by one, records
 the size and queues it, while any other threads run in between. Such a run is a run of the pipeline.
 */
module Producers {
  import opened Bits
  import opened Fleet
  import opened CodecMotor
  import opened DriverMotor
  import opened SendPipeline
  import opened SendOrder

  /** A batch being sent through a handle; `done` counts the stores, and then the recorded size. */
  datatype Job = Job(batch: seq<CanFrame>, done: nat)

  datatype Crew = Crew(s: State, jobs: map<nat, Job>, batches: seq<seq<CanFrame>>)

  datatype Deed =
    | Begin(h: nat, batch: seq<CanFrame>)
    | Advance(h: nat)
    | GiveUp(h: nat)
    | HandOver(from: nat, to: nat)
    | Other(e: Event)

  function Packet(batch: seq<CanFrame>): (p: seq<Byte>)
    requires Encodable(batch)
    ensures |p| <= PACKET_CAP
  {
    Encoding(TYPE_UDP2CAN, batch)
  }

  /** Discarders and the transmit thread; they leave the handles of jobs alone. */
  predicate ByOthers(c: Crew, e: Event) {
    match e
    case Discard(h) => h !in c.jobs
    case Erase(h) => h !in c.jobs
    case Free(h) => h !in c.jobs
    case TxFetch | TxRead | TxPoll(_) | TxStop | TxSend(_, _) | TxErase | TxFree => true
    case _ => false
  }

  /** The step that a deed takes, if it can be taken. */
  function EventOf(c: Crew, a: Deed): Option<Event> {
    match a
    case Begin(h, batch) =>
      if Encodable(batch) && h !in c.jobs && Exists(c.s, h) && c.s.handles[h].Empty? && c.s.pool.free != []
      then Some(Acquire(h)) else None
    case Advance(h) =>
      if h in c.jobs && Encodable(c.jobs[h].batch) then
        var p, done := Packet(c.jobs[h].batch), c.jobs[h].done;
        if done < |p| then Some(Store(h, done, p[done]))
        else if done == |p| then Some(Record(h, |p|))
        else Some(Queue(h))
      else None
    case GiveUp(h) =>
      if h in c.jobs && Exists(c.s, h) && c.s.handles[h].Held? then Some(Erase(h)) else None
    case HandOver(from, to) =>
      if from in c.jobs && to !in c.jobs && Exists(c.s, from) && Exists(c.s, to)
         && c.s.handles[from].Held? && c.s.handles[to].Empty?
      then Some(Move(from, to)) else None
    case Other(e) => if ByOthers(c, e) then Some(e) else None
  }

  function Done(c: Crew, a: Deed): Crew {
    var e := EventOf(c, a);
    if e.None? then c
    else
      var t := Step(c.s, e.value);
      match a
      case Begin(h, batch) => Crew(t, c.jobs[h := Job(batch, 0)], c.batches)
      case Advance(h) =>
        var job := c.jobs[h];
        if e.value.Queue? then Crew(t, c.jobs - {h}, c.batches + [job.batch])
        else Crew(t, c.jobs[h := job.(done := job.done + 1)], c.batches)
      case GiveUp(h) => Crew(t, c.jobs - {h}, c.batches)
      case HandOver(from, to) => Crew(t, (c.jobs - {from})[to := c.jobs[from]], c.batches)
      case Other(_) => c.(s := t)
  }

  function Worked(s: State, deeds: seq<Deed>): Crew
    decreases |deeds|
  {
    if deeds == [] then Crew(s, map[], []) else Done(Worked(s, deeds[..|deeds| - 1]), deeds[|deeds| - 1])
  }

  /** The steps of a crew's work. */
  function Trace(s: State, deeds: seq<Deed>): seq<Event>
    decreases |deeds|
  {
    if deeds == [] then []
    else
      var e := EventOf(Worked(s, deeds[..|deeds| - 1]), deeds[|deeds| - 1]);
      Trace(s, deeds[..|deeds| - 1]) + (if e.Some? then [e.value] else [])
  }

  /** A crew's work is a run of the pipeline. */
  lemma {:induction false} WorkIsRun(s: State, deeds: seq<Deed>)
    ensures Worked(s, deeds).s == Run(s, Trace(s, deeds))
    decreases |deeds|
  {
    hide Step, EventOf, Done, Run;
    RunMore(s, [], TxFetch);
    if deeds != [] {
      var rest, a := deeds[..|deeds| - 1], deeds[|deeds| - 1];
      WorkIsRun(s, rest);
      DeedIsStep(Worked(s, rest), a);
      var e := EventOf(Worked(s, rest), a);
      if e.Some? {
        RunMore(s, Trace(s, rest), e.value);
      }
      assert Trace(s, rest) + [] == Trace(s, rest);
    }
  }

  lemma DeedIsStep(c: Crew, a: Deed)
    ensures var e := EventOf(c, a); Done(c, a).s == if e.Some? then Step(c.s, e.value) else c.s
  {
    hide Step, EventOf;
  }

  lemma RunMore(s: State, events: seq<Event>, e: Event)
    ensures Run(s, []) == s && Run(s, events + [e]) == Step(Run(s, events), e)
  {
    hide Step;
    assert (events + [e])[..|events|] == events;
  }

  // ---------------------------------------------------------------------------------------------
  // What a job's handle holds
  // ---------------------------------------------------------------------------------------------

  /** The slot of a job's handle holds what has been stored so far. */
  ghost predicate JobSound(s: State, h: nat, job: Job) {
    && Encodable(job.batch) && Exists(s, h)
    && var p := Packet(job.batch);
       var handle := s.handles[h];
       && job.done <= |p| + 1
       && (if job.done <= |p| then handle.Held? else handle.Recorded? && handle.size == |p|)
       && InPool(s, handle.slot)
       && var n := if job.done <= |p| then job.done else |p|;
          n <= |s.pool.regions[handle.slot]| && s.pool.regions[handle.slot][..n] == p[..n]
  }

  ghost predicate JobsSound(c: Crew) {
    forall h :: h in c.jobs ==> JobSound(c.s, h, c.jobs[h])
  }

  /** Every commit is the encoding of the batch that was sent. */
  ghost predicate CommitsEncode(commits: seq<seq<Byte>>, batches: seq<seq<CanFrame>>) {
    && |commits| == |batches|
    && forall i :: 0 <= i < |batches| ==> Encodable(batches[i]) && commits[i] == Packet(batches[i])
  }

  lemma JobKept(s: State, t: State, h: nat, job: Job)
    requires JobSound(s, h, job) && Exists(t, h) && t.handles[h] == s.handles[h]
    requires |t.pool.regions| == |s.pool.regions| && t.pool.Slots() == s.pool.Slots()
    requires t.pool.regions[s.handles[h].slot] == s.pool.regions[s.handles[h].slot]
    ensures JobSound(t, h, job)
  {
    hide Packet, Encodable;
  }

  /** A step through one handle leaves the jobs of all other handles as they are. */
  lemma OtherJobKept(s: State, e: Event, g: nat, job: Job)
    requires Conserved(s) && JobSound(s, g, job)
    requires e.Acquire? || e.Store? || e.Record? || e.Queue? || e.Discard? || e.Erase? || e.Free?
    requires e.h != g
    ensures JobSound(HandleStepOr(s, e), g, job)
  {
    hide Packet, Encodable, Conserved;
    if Exists(s, e.h) && !s.handles[e.h].Empty? {
      HandlesApart(s, g, e.h);
    }
    JobKept(s, HandleStepOr(s, e), g, job);
  }

  function HandleStepOr(s: State, e: Event): State
    requires e.Acquire? || e.Store? || e.Record? || e.Queue? || e.Discard? || e.Erase? || e.Free?
  {
    if Exists(s, e.h) then HandleStep(s, e) else s
  }

  lemma JobKeptByTx(s: State, e: Event, g: nat, job: Job)
    requires e.TxFetch? || e.TxRead? || e.TxPoll? || e.TxStop? || e.TxSend? || e.TxErase? || e.TxFree?
    requires JobSound(s, g, job)
    ensures JobSound(TxStep(s, e), g, job) && TxStep(s, e).commits == s.commits
  {
    hide Packet, Encodable, TokenBucket.Refilled, TokenBucket.Spent;
    JobKept(s, TxStep(s, e), g, job);
  }

  lemma TxCommitsNothing(s: State, e: Event)
    requires e.TxFetch? || e.TxRead? || e.TxPoll? || e.TxStop? || e.TxSend? || e.TxErase? || e.TxFree?
    ensures TxStep(s, e).commits == s.commits
  {
    hide TokenBucket.Refilled, TokenBucket.Spent;
  }

  // ---------------------------------------------------------------------------------------------
  // Each deed keeps the jobs sound and the commits encoded
  // ---------------------------------------------------------------------------------------------

  ghost predicate Sound(c: Crew) {
    Conserved(c.s) && JobsSound(c) && CommitsEncode(c.s.commits, c.batches)
  }

  lemma Begun(c: Crew, h: nat, batch: seq<CanFrame>)
    requires Sound(c) && EventOf(c, Begin(h, batch)).Some?
    ensures Sound(Done(c, Begin(h, batch)))
  {
    hide JobSound, CommitsEncode, Conserved, Encodable;
    var t := Step(c.s, Acquire(h));
    StepConserves(c.s, Acquire(h));
    HandleApart(t, h);
    forall g | g in c.jobs
      ensures JobSound(t, g, c.jobs[g])
    {
      OtherJobKept(c.s, Acquire(h), g, c.jobs[g]);
    }
    FreshJob(t, h, batch);
  }

  lemma FreshJob(t: State, h: nat, batch: seq<CanFrame>)
    requires Encodable(batch) && Exists(t, h) && t.handles[h].Held? && InPool(t, t.handles[h].slot)
    ensures JobSound(t, h, Job(batch, 0))
  {
    hide Encodable, Packet;
  }

  lemma Advanced(c: Crew, h: nat)
    requires Sound(c) && EventOf(c, Advance(h)).Some?
    ensures Sound(Done(c, Advance(h)))
  {
    hide JobSound, Conserved, Encodable, Packet, CommitsEncode, HandleStep;
    var e := EventOf(c, Advance(h)).value;
    var t := Step(c.s, e);
    StepConserves(c.s, e);
    forall g | g in c.jobs && g != h
      ensures JobSound(t, g, c.jobs[g])
    {
      OtherJobKept(c.s, e, g, c.jobs[g]);
    }
    JobExists(c.s, h, c.jobs[h]);
    HandleApart(c.s, h);
    RegionSize(c.s, c.s.handles[h].slot);
    OwnJobStep(c.s, h, c.jobs[h], e);
    if e.Queue? {
      MoreEncoded(c.s.commits, c.batches, c.jobs[h].batch);
    }
  }

  lemma JobExists(s: State, h: nat, job: Job)
    requires JobSound(s, h, job)
    ensures Exists(s, h) && Encodable(job.batch) && !s.handles[h].Empty?
  {
    hide Encodable, Packet;
  }

  /** A job's own step stores its next byte, records its size, or commits exactly its packet. */
  lemma OwnJobStep(s: State, h: nat, job: Job, e: Event)
    requires JobSound(s, h, job) && |s.pool.regions[s.handles[h].slot]| == PACKET_CAP
    requires |s.pool.pending| < s.pool.Slots()
    requires var p := Packet(job.batch);
      e == if job.done < |p| then Store(h, job.done, p[job.done])
           else if job.done == |p| then Record(h, |p|) else Queue(h)
    ensures var t := HandleStep(s, e);
      if e.Queue? then t.commits == s.commits + [Packet(job.batch)]
      else t.commits == s.commits && JobSound(t, h, job.(done := job.done + 1))
  {
    hide Encodable, Packet;
    var p := Packet(job.batch);
    var region := s.pool.regions[s.handles[h].slot];
    assert p[..|p|] == p;
    if job.done < |p| {
      assert region[job.done := p[job.done]][..job.done + 1] == p[..job.done + 1];
    }
  }

  lemma MoreEncoded(commits: seq<seq<Byte>>, batches: seq<seq<CanFrame>>, batch: seq<CanFrame>)
    requires CommitsEncode(commits, batches) && Encodable(batch)
    ensures CommitsEncode(commits + [Packet(batch)], batches + [batch])
  {
    hide Encodable, Packet;
  }

  lemma GivenUp(c: Crew, h: nat)
    requires Sound(c) && EventOf(c, GiveUp(h)).Some?
    ensures Sound(Done(c, GiveUp(h)))
  {
    hide JobSound, CommitsEncode, Conserved, Encodable;
    StepConserves(c.s, Erase(h));
    forall g | g in c.jobs && g != h
      ensures JobSound(Step(c.s, Erase(h)), g, c.jobs[g])
    {
      OtherJobKept(c.s, Erase(h), g, c.jobs[g]);
    }
  }

  lemma HandedOver(c: Crew, from: nat, to: nat)
    requires Sound(c) && EventOf(c, HandOver(from, to)).Some?
    ensures Sound(Done(c, HandOver(from, to)))
  {
    hide JobSound, CommitsEncode, Conserved, Encodable;
    var t := Step(c.s, Move(from, to));
    StepConserves(c.s, Move(from, to));
    forall g | g in c.jobs && g != from
      ensures JobSound(t, g, c.jobs[g])
    {
      JobExists(c.s, g, c.jobs[g]);
      JobInPool(c.s, g, c.jobs[g]);
      JobKept(c.s, t, g, c.jobs[g]);
    }
    JobMoved(c.s, t, from, to, c.jobs[from]);
  }

  lemma JobInPool(s: State, h: nat, job: Job)
    requires JobSound(s, h, job)
    ensures Exists(s, h) && !s.handles[h].Empty? && InPool(s, s.handles[h].slot)
  {
    hide Encodable, Packet;
  }

  lemma JobMoved(s: State, t: State, from: nat, to: nat, job: Job)
    requires JobSound(s, from, job) && Exists(t, to) && t.handles[to] == s.handles[from] && t.pool == s.pool
    ensures JobSound(t, to, job)
  {
    hide Encodable, Packet;
  }

  lemma OthersDone(c: Crew, e: Event)
    requires Sound(c) && ByOthers(c, e)
    ensures Sound(Done(c, Other(e)))
  {
    hide JobSound, CommitsEncode, Conserved, Encodable, TxStep;
    StepConserves(c.s, e);
    forall g | g in c.jobs
      ensures JobSound(Step(c.s, e), g, c.jobs[g])
    {
      if e.Discard? || e.Erase? || e.Free? {
        OtherJobKept(c.s, e, g, c.jobs[g]);
      } else {
        JobKeptByTx(c.s, e, g, c.jobs[g]);
      }
    }
    if !(e.Discard? || e.Erase? || e.Free?) {
      TxCommitsNothing(c.s, e);
    }
  }

  lemma DeedSound(c: Crew, a: Deed)
    requires Sound(c)
    ensures Sound(Done(c, a))
  {
    hide Sound, EventOf;
    if EventOf(c, a).Some? {
      match a
      case Begin(h, batch) => Begun(c, h, batch);
      case Advance(h) => Advanced(c, h);
      case GiveUp(h) => GivenUp(c, h);
      case HandOver(from, to) => HandedOver(c, from, to);
      case Other(e) => OtherSound(c, e);
    }
  }

  lemma OtherSound(c: Crew, e: Event)
    requires Sound(c) && EventOf(c, Other(e)).Some?
    ensures Sound(Done(c, Other(e)))
  {
    hide Sound;
    OthersDone(c, e);
  }

  /**
   Under any interleaving of any number of such producers with each other, with discarders and with the
   transmit thread, every commit is the encoding of the batch its producer sent, byte for byte.
   */
  lemma {:induction false} CommitsAreEncodings(s: State, deeds: seq<Deed>)
    requires Initial(s)
    ensures CommitsEncode(Worked(s, deeds).s.commits, Worked(s, deeds).batches)
    ensures Sound(Worked(s, deeds))
    decreases |deeds|
  {
    hide Done;
    if deeds == [] {
      InitialConserved(s);
    } else {
      CommitsAreEncodings(s, deeds[..|deeds| - 1]);
      DeedSound(Worked(s, deeds[..|deeds| - 1]), deeds[|deeds| - 1]);
    }
  }

  /** A producer that has stored its packet and recorded the size commits exactly that packet next. */
  lemma LastAdvanceCommits(s: State, deeds: seq<Deed>, h: nat)
    requires Initial(s)
    requires var c := Worked(s, deeds);
      h in c.jobs && Encodable(c.jobs[h].batch) && c.jobs[h].done == |Packet(c.jobs[h].batch)| + 1
    ensures var c := Worked(s, deeds);
      var n := Done(c, Advance(h));
      && n.s.commits == c.s.commits + [Packet(c.jobs[h].batch)]
      && n.batches == c.batches + [c.jobs[h].batch] && h !in n.jobs
  {
    hide JobSound, Conserved, Encodable, Packet, CommitsEncode, HandleStep, Worked;
    var c := Worked(s, deeds);
    CommitsAreEncodings(s, deeds);
    JobExists(c.s, h, c.jobs[h]);
    HandleApart(c.s, h);
    RegionSize(c.s, c.s.handles[h].slot);
    OwnJobStep(c.s, h, c.jobs[h], Queue(h));
  }
}
