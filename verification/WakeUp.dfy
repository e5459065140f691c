/** How the transmit thread waits for packets, and when it is left waiting over one. */
module WakeUp {
  import opened SendPipeline
  import opened SendOrder

  // The thread tries the pending ring, then checks once more and parks on the condition variable. Queueing
  // a packet and notifying are two steps, and neither takes the mutex that the thread holds from its check
  // until it is parked.

  /** Where the transmit thread is when it has no packet; it is at `Trying` while it serves one. */
  datatype Waiter = Trying | Checking | Checked | Parked | Stopped

  /**
   The pipeline and its waiting thread. `due` holds the commit positions whose notification is still to
   come. For the gap between the last check and parking, `pushed` and `notified` record what was queued in
   it and whose notification came in it; no step depends on these two.
   */
  datatype Wake = Wake(s: State, waiter: Waiter, due: set<nat>, pushed: set<nat>, notified: set<nat>)

  datatype Act = Pipe(e: Event) | Notify(id: nat) | Try | Check | Park | Spurious | Stop

  /** A step of the pipeline other than fetching; a packet queued by it has its notification due. */
  function Piped(w: Wake, e: Event): Wake {
    var t := Step(w.s, e);
    var id := |w.s.commits|;
    if |t.commits| == id then w.(s := t)
    else
      w.(s := t, due := w.due + {id}, pushed := if w.waiter.Checked? then w.pushed + {id} else w.pushed)
  }

  /** A notification wakes a parked thread, and is lost on any other. */
  function Notified(w: Wake, id: nat): Wake {
    var rest := w.(due := w.due - {id});
    match w.waiter
    case Parked => rest.(waiter := Checking)
    case Checked => rest.(notified := w.notified + {id})
    case _ => rest
  }

  /** An act that is not enabled changes nothing. */
  function Acted(w: Wake, a: Act): Wake {
    match a
    case Pipe(e) => if e.TxFetch? then w else Piped(w, e)
    case Notify(id) => if id in w.due then Notified(w, id) else w
    case Try =>
      if w.waiter.Trying? && w.s.tx.Idle? then
        if w.s.pool.pending != [] then w.(s := Step(w.s, TxFetch)) else w.(waiter := Checking)
      else w
    case Check =>
      if w.waiter.Checking? then
        if w.s.pool.pending != [] then w.(waiter := Trying) else w.(waiter := Checked, pushed := {}, notified := {})
      else w
    case Park => if w.waiter.Checked? then w.(waiter := Parked) else w
    case Spurious => if w.waiter.Parked? then w.(waiter := Checking) else w
    case Stop => w.(waiter := Stopped)
  }

  function Awake(s: State): Wake {
    Wake(s, Trying, {}, {}, {})
  }

  function After(w: Wake, acts: seq<Act>): Wake
    decreases |acts|
  {
    if acts == [] then w else Acted(After(w, acts[..|acts| - 1]), acts[|acts| - 1])
  }

  /** The step of the pipeline that an act takes, if any. */
  function EventsOf(w: Wake, a: Act): seq<Event> {
    match a
    case Pipe(e) => if e.TxFetch? then [] else [e]
    case Try => if w.waiter.Trying? && w.s.tx.Idle? && w.s.pool.pending != [] then [TxFetch] else []
    case _ => []
  }

  function Events(w: Wake, acts: seq<Act>): seq<Event>
    decreases |acts|
  {
    if acts == [] then []
    else Events(w, acts[..|acts| - 1]) + EventsOf(After(w, acts[..|acts| - 1]), acts[|acts| - 1])
  }

  /** Waiting restricts when packets are fetched and does nothing else: what it does is a run of the pipeline. */
  lemma {:induction false} WaitingIsRun(w: Wake, acts: seq<Act>)
    ensures After(w, acts).s == Run(w.s, Events(w, acts))
    decreases |acts|
  {
    hide Step;
    if acts != [] {
      var before, a := acts[..|acts| - 1], acts[|acts| - 1];
      WaitingIsRun(w, before);
      var events, last := Events(w, before), EventsOf(After(w, before), a);
      if last == [] {
        assert events + last == events;
      } else {
        assert (events + last)[..|events|] == events;
      }
    }
  }

  // ---------------------------------------------------------------------------------------------
  // When a packet is left behind
  // ---------------------------------------------------------------------------------------------

  /** A step other than fetching takes the oldest pending packet away, adds the one it commits, or neither. */
  lemma StepQueues(s: State, e: Event)
    requires !e.TxFetch?
    ensures var t := Step(s, e);
      && (|t.commits| == |s.commits| || (|t.commits| == |s.commits| + 1 && t.ids == s.ids + [|s.commits|]))
      && (|t.commits| == |s.commits| ==> t.ids == s.ids || (s.ids != [] && t.ids == s.ids[1..]))
      && (s.tx.Idle? ==> t.tx.Idle? && t.log == s.log)
  {
  }

  /**
   In the gap everything pending was queued in it, and its notification is due or was sent in the gap too;
   once the thread is parked, the notification of every other pending packet is due.
   */
  predicate Watched(w: Wake) {
    && (w.waiter.Checking? || w.waiter.Checked? || w.waiter.Parked? ==> w.s.tx.Idle?)
    && (w.waiter.Checked? ==>
          forall k :: 0 <= k < |w.s.ids| ==>
            w.s.ids[k] in w.pushed && (w.s.ids[k] in w.due || w.s.ids[k] in w.notified))
    && (w.waiter.Parked? ==>
          forall k :: 0 <= k < |w.s.ids| ==>
            w.s.ids[k] in w.due || (w.s.ids[k] in w.pushed && w.s.ids[k] in w.notified))
  }

  lemma PipedWatched(w: Wake, e: Event)
    requires Watched(w) && !e.TxFetch?
    ensures Watched(Piped(w, e))
  {
    hide Step;
    StepQueues(w.s, e);
  }

  lemma PipedStep(w: Wake, e: Event)
    ensures Piped(w, e).s == Step(w.s, e)
  {
    hide Step;
  }

  lemma ActWatched(w: Wake, a: Act)
    requires Watched(w) && Conserved(w.s) && Content(w.s)
    ensures Watched(Acted(w, a)) && Conserved(Acted(w, a).s) && Content(Acted(w, a).s)
  {
    hide Step, Conserved, Piped;
    assert |w.s.ids| == |w.s.pool.pending|;
    match a
    case Pipe(e) =>
      StepKeeps(w.s, e);
      if !e.TxFetch? {
        PipedWatched(w, e);
        assert Piped(w, e).s == Step(w.s, e) by { PipedStep(w, e); }
      }
    case Try => StepKeeps(w.s, TxFetch);
    case _ =>
  }

  lemma {:induction false} WatchedThroughout(s: State, acts: seq<Act>)
    requires Initial(s)
    ensures var w := After(Awake(s), acts); Watched(w) && Conserved(w.s) && Content(w.s)
    decreases |acts|
  {
    hide Conserved, Content, Acted, Watched;
    if acts == [] {
      RunKeeps(s, []);
      AwakeWatched(s);
    } else {
      WatchedThroughout(s, acts[..|acts| - 1]);
      ActWatched(After(Awake(s), acts[..|acts| - 1]), acts[|acts| - 1]);
    }
  }

  lemma AwakeWatched(s: State)
    ensures Watched(Awake(s))
  {
  }

  /** The thread is parked over a packet, and no notification is on its way. */
  predicate Stranded(w: Wake) {
    w.waiter.Parked? && w.s.pool.pending != [] && w.due == {}
  }

  /** The packet was queued, and its notification sent, in the gap between the last check and parking. */
  predicate InGap(w: Wake, id: nat) {
    id in w.pushed && id in w.notified
  }

  /**
   When a thread is parked with no notification on its way, in any run, a packet is left behind if and only
   if one that was both queued and notified in the gap is still pending; then all pending packets are such.
   */
  lemma StrandedExactly(s: State, acts: seq<Act>)
    requires Initial(s)
    ensures var w := After(Awake(s), acts);
      && (Stranded(w) <==> w.waiter.Parked? && w.due == {} && exists k :: 0 <= k < |w.s.ids| && InGap(w, w.s.ids[k]))
      && (Stranded(w) ==> forall k :: 0 <= k < |w.s.ids| ==> InGap(w, w.s.ids[k]))
  {
    hide Conserved, Acted, After;
    var w := After(Awake(s), acts);
    WatchedThroughout(s, acts);
    assert |w.s.ids| == |w.s.pool.pending|;
    if Stranded(w) {
      assert InGap(w, w.s.ids[0]);
    }
  }

  /** No notification comes in the gap, as if enqueueing notified with the mutex held. */
  ghost predicate GapFree(w: Wake, acts: seq<Act>) {
    forall i :: 0 <= i < |acts| && acts[i].Notify? ==> !After(w, acts[..i]).waiter.Checked?
  }

  /** Then no packet is ever left behind. */
  lemma NeverStranded(s: State, acts: seq<Act>)
    requires Initial(s) && GapFree(Awake(s), acts)
    ensures !Stranded(After(Awake(s), acts))
  {
    hide Acted, After, GapFree;
    StrandedExactly(s, acts);
    NothingNotified(s, acts);
  }

  lemma {:induction false} NothingNotified(s: State, acts: seq<Act>)
    requires GapFree(Awake(s), acts)
    ensures After(Awake(s), acts).notified == {}
    decreases |acts|
  {
    hide Step;
    if acts != [] {
      var before := acts[..|acts| - 1];
      forall i | 0 <= i < |before| && before[i].Notify?
        ensures !After(Awake(s), before[..i]).waiter.Checked?
      {
        assert before[..i] == acts[..i] && acts[i].Notify?;
      }
      NothingNotified(s, before);
    }
  }

  /** It can happen from the very start, with one producer and a packet of any size. */
  function StrandingActs(size: nat): seq<Act> {
    [Try, Check, Pipe(Acquire(0)), Pipe(Record(0, size)), Pipe(Queue(0)), Notify(0), Park]
  }

  lemma Nothing(w: Wake)
    ensures After(w, []) == w
  {
  }

  lemma Upto(w: Wake, acts: seq<Act>, i: nat)
    requires i < |acts|
    ensures After(w, acts[..i + 1]) == Acted(After(w, acts[..i]), acts[i])
  {
    hide Acted;
    assert acts[..i + 1][..i] == acts[..i];
  }

  lemma StepByStep(w: Wake, size: nat)
    ensures After(w, StrandingActs(size)) ==
            var checked := Acted(Acted(w, Try), Check);
            var packed := Acted(Acted(checked, Pipe(Acquire(0))), Pipe(Record(0, size)));
            Acted(Acted(Acted(packed, Pipe(Queue(0))), Notify(0)), Park)
  {
    hide Acted, After;
    var acts := StrandingActs(size);
    Nothing(w);
    assert acts[..0] == [] && acts[..7] == acts;
    Upto(w, acts, 0);
    Upto(w, acts, 1);
    Upto(w, acts, 2);
    Upto(w, acts, 3);
    Upto(w, acts, 4);
    Upto(w, acts, 5);
    Upto(w, acts, 6);
  }

  /** From the start, one producer takes a slot, records a size and queues its packet. */
  lemma PackedIn(s: State, size: nat)
    requires Initial(s) && s.pool.Slots() > 0 && Exists(s, 0) && size <= PACKET_CAP
    ensures var t := Step(s, Acquire(0));
      var u := Step(t, Record(0, size));
      var v := Step(u, Queue(0));
      && t.commits == s.commits && u.commits == s.commits && |v.commits| == 1
      && v.pool.pending != []
  {
    hide Copies, Total;
    InitialConserved(s);
    var t := Step(s, Acquire(0));
    assert s.pool.free != [];
    StepConserves(s, Acquire(0));
    HandleApart(t, 0);
    StepConserves(t, Record(0, size));
    HandleApart(Step(t, Record(0, size)), 0);
  }

  /** Such a run leaves a packet behind, with no notification on its way. */
  lemma StrandingHappens(s: State, size: nat)
    requires Initial(s) && s.pool.Slots() > 0 && Exists(s, 0) && size <= PACKET_CAP
    ensures Stranded(After(Awake(s), StrandingActs(size)))
  {
    hide Step, After, StrandingActs;
    PackedIn(s, size);
    StepByStep(Awake(s), size);
  }

  /** Acts that neither queue a packet nor end the wait. */
  predicate Idling(a: Act) {
    match a
    case Pipe(e) => !e.Queue?
    case Spurious | Stop => false
    case _ => true
  }

  /** A packet left behind stays there, and nothing reaches the wire, until one more is queued or the wait ends. */
  lemma {:induction false} StrandedStays(w: Wake, acts: seq<Act>)
    requires w.waiter.Parked? && w.due == {} && w.s.tx.Idle?
    requires forall i :: 0 <= i < |acts| ==> Idling(acts[i])
    ensures var t := After(w, acts); t.waiter.Parked? && t.due == {} && t.s.tx.Idle? && t.s.log == w.s.log
    decreases |acts|
  {
    hide Step;
    if acts != [] {
      StrandedStays(w, acts[..|acts| - 1]);
      var t := After(w, acts[..|acts| - 1]);
      if acts[|acts| - 1].Pipe? && !acts[|acts| - 1].e.TxFetch? {
        StepQueues(t.s, acts[|acts| - 1].e);
        OnlyQueueCommits(t.s, acts[|acts| - 1].e);
      }
    }
  }

  lemma OnlyQueueCommits(s: State, e: Event)
    requires !e.Queue?
    ensures Step(s, e).commits == s.commits
  {
  }

  /** The notification of any packet makes a parked thread fetch the oldest pending one. */
  lemma NotificationServes(w: Wake, id: nat)
    requires Watched(w) && Conserved(w.s) && Content(w.s)
    requires w.waiter.Parked? && w.s.pool.pending != [] && id in w.due
    ensures var t := After(w, [Notify(id), Check, Try]);
      t.waiter.Trying? && t.s.tx == Fetched(w.s.pool.pending[0], w.s.ids[0])
  {
    hide Conserved, After;
    var acts := [Notify(id), Check, Try];
    Nothing(w);
    assert acts[..0] == [] && acts[..3] == acts;
    Upto(w, acts, 0);
    Upto(w, acts, 1);
    Upto(w, acts, 2);
  }
}
