/**
 * The audit writer's queue: a write with a cache key is looked up first; the
 * others, and those not found, are accepted if there is room. Accepted writes
 * wait in order, one processing loop hands them to a counting semaphore's slots,
 * each dispatched write is retried on its own, and a write that fails for good
 * goes to the dead-letter queue.
 *
 * Code between two awaits is one step. This module holds the steps and the
 * queue object; AuditQueueRuns interleaves them.
 */
module AuditQueue {
  import opened DeadLetters

  /** An accepted write, numbered in order of acceptance. */
  datatype Job = Job(id: nat, write: Write, maxRetries: int)

  /** An enqueue call that awaits the result cache. */
  datatype Lookup = Lookup(write: Write, maxRetries: int)

  /** The semaphore: granted slots, current limit, callers waiting for a slot. */
  datatype Slots = Slots(active: int, limit: int, waiters: nat)

  /** Where the processing loop is suspended. */
  datatype Loop =
    | Idle
    | Waiting             // for a slot
    | Granted             // a slot was claimed for it
    | Awaiting(id: nat)   // the dispatch of one write

  datatype Phase = Ready | InCall | Backoff

  /** A dispatched write that has not ended yet. */
  datatype Progress = Progress(job: Job, attempts: nat, phase: Phase)

  /** A write that has ended but still holds its slot. */
  datatype Closing = Storing | Settled

  datatype Counts = Counts(cached: nat, enqueued: nat, dropped: nat, success: nat, failure: nat)

  datatype Queue = Queue(
    lookups: seq<Lookup>, queue: seq<Job>, processing: bool, loop: Loop, slots: Slots,
    inflight: map<nat, Progress>, closing: map<nat, Closing>,
    dlq: seq<DeadLetter>, counts: Counts)

  datatype Limits = Limits(maxQueueSize: nat, maxDlqSize: nat, recoveryInterval: int)

  function Initial(limit: int): Queue
  {
    Queue([], [], false, Idle, Slots(0, limit, 0), map[], map[], [], Counts(0, 0, 0, 0, 0))
  }

  // ---- the semaphore --------------------------------------------------------------

  /** Grants slots to waiters, oldest first, as far as the limit allows. */
  function Drain(s: Slots): Slots
    decreases s.waiters
  {
    if s.waiters > 0 && s.active < s.limit then Drain(Slots(s.active + 1, s.limit, s.waiters - 1)) else s
  }

  /** Either everyone is served or the limit is reached, and nobody is lost. */
  lemma {:induction false} DrainServes(s: Slots)
    ensures var d := Drain(s);
      && d.limit == s.limit && d.active + d.waiters == s.active + s.waiters && d.waiters <= s.waiters
      && (d.waiters == 0 || d.active >= d.limit)
      && (d.waiters < s.waiters ==> d.active <= d.limit)
    decreases s.waiters
  {
    if s.waiters > 0 && s.active < s.limit {
      DrainServes(Slots(s.active + 1, s.limit, s.waiters - 1));
    }
  }

  /** New slot counts; a waiter that was granted a slot is the loop. */
  function WithSlots(q: Queue, s: Slots): Queue
  {
    q.(slots := s, loop := if q.loop.Waiting? && s.waiters < q.slots.waiters then Granted else q.loop)
  }

  function ReleaseSlot(q: Queue): Queue
  {
    var active := if q.slots.active - 1 < 0 then 0 else q.slots.active - 1;
    WithSlots(q, Drain(q.slots.(active := active)))
  }

  function SetMaxConcurrency(q: Queue, n: int): (Queue, bool)
  {
    if n < 1 then (q, false) else (WithSlots(q, Drain(q.slots.(limit := n))), true)
  }

  function AcquireSlot(q: Queue): Queue
  {
    if q.slots.active < q.slots.limit then q.(slots := q.slots.(active := q.slots.active + 1), loop := Granted)
    else q.(slots := q.slots.(waiters := q.slots.waiters + 1), loop := Waiting)
  }

  // ---- the processing loop ----------------------------------------------------------

  /** The loop test, and the request for a slot if there is work. */
  function LoopHead(q: Queue): Queue
  {
    if q.queue == [] then q.(loop := Idle, processing := false) else AcquireSlot(q)
  }

  function ProcessQueue(q: Queue): Queue
  {
    if q.processing then q else LoopHead(q.(processing := true))
  }

  /** enqueue() past the cache. */
  function Enqueue(q: Queue, lim: Limits, write: Write, maxRetries: int): (Queue, bool)
  {
    if |q.queue| >= lim.maxQueueSize then (q.(counts := q.counts.(dropped := q.counts.dropped + 1)), false)
    else
      var job := Job(q.counts.enqueued, write, maxRetries);
      (ProcessQueue(q.(queue := q.queue + [job], counts := q.counts.(enqueued := q.counts.enqueued + 1))), true)
  }

  /** An enqueue() call up to its first await, or to its end if there is no key to look up. */
  function Submit(q: Queue, lim: Limits, write: Write, maxRetries: int, skipCache: bool): Queue
  {
    if write.keyed && !skipCache then q.(lookups := q.lookups + [Lookup(write, maxRetries)])
    else Enqueue(q, lim, write, maxRetries).0
  }

  /** The cache answers the i-th call that awaits it. */
  function LookupDone(q: Queue, lim: Limits, i: nat, hit: bool): (Queue, bool)
    requires i < |q.lookups|
  {
    var call := q.lookups[i];
    var q := q.(lookups := q.lookups[..i] + q.lookups[i + 1..]);
    if hit then (q.(counts := q.counts.(cached := q.counts.cached + 1)), false)
    else Enqueue(q, lim, call.write, call.maxRetries)
  }

  /** The loop runs on with its slot. */
  function Resume(q: Queue): Queue
    requires q.loop.Granted?
  {
    if q.queue == [] then LoopHead(ReleaseSlot(q))
    else
      var job := q.queue[0];
      var q := q.(queue := q.queue[1..], inflight := q.inflight[job.id := Progress(job, 0, Ready)]);
      if q.slots.limit == 1 then q.(loop := Awaiting(job.id)) else LoopHead(q)
  }

  // ---- one dispatched write -----------------------------------------------------------

  /** The write failed for good. */
  function Fail(q: Queue, lim: Limits, id: nat, now: int): Queue
    requires id in q.inflight
  {
    var entry := DeadLetter(q.inflight[id].job.write, now, now + lim.recoveryInterval);
    q.(inflight := q.inflight - {id}, closing := q.closing[id := Settled],
       dlq := Add(q.dlq, lim.maxDlqSize, entry), counts := q.counts.(failure := q.counts.failure + 1))
  }

  /** The retry loop's test, before the first call or after a backoff. */
  function Attempt(q: Queue, lim: Limits, id: nat, now: int): Queue
    requires id in q.inflight
  {
    var p := q.inflight[id];
    if p.attempts <= p.job.maxRetries then q.(inflight := q.inflight[id := Progress(p.job, p.attempts + 1, InCall)])
    else Fail(q, lim, id, now)
  }

  function CallFailed(q: Queue, lim: Limits, id: nat, now: int): Queue
    requires id in q.inflight
  {
    var p := q.inflight[id];
    if p.attempts <= p.job.maxRetries then q.(inflight := q.inflight[id := p.(phase := Backoff)])
    else Fail(q, lim, id, now)
  }

  function CallSucceeded(q: Queue, id: nat): Queue
    requires id in q.inflight
  {
    q.(inflight := q.inflight - {id}, closing := q.closing[id := Storing],
       counts := q.counts.(success := q.counts.success + 1))
  }

  /** The result is cached and the caller answered. */
  function Stored(q: Queue, id: nat): Queue { q.(closing := q.closing[id := Settled]) }

  function Close(q: Queue, id: nat): Queue { ReleaseSlot(q.(closing := q.closing - {id})) }

  // ---- dead-letter recovery ---------------------------------------------------------

  function SubmitAll(q: Queue, lim: Limits, entries: seq<DeadLetter>): Queue
    decreases |entries|
  {
    if entries == [] then q else SubmitAll(Submit(q, lim, entries[0].write, 0, false), lim, entries[1..])
  }

  /** The taken entries come back last first, each with a single attempt. */
  function Recover(q: Queue, lim: Limits, maxBatch: int, forceAll: bool, now: int): (Queue, nat)
  {
    var n := if maxBatch < 0 then 0 else maxBatch;
    var taken := Reversed(Taken(q.dlq, n, forceAll, now));
    (SubmitAll(q.(dlq := Kept(q.dlq, n, forceAll, now)), lim, taken), |taken|)
  }

  function DirectOne(e: DeadLetter): seq<DeadLetter> { if e.write.keyed then [] else [e] }

  function LookupOne(e: DeadLetter): seq<Lookup> { if e.write.keyed then [Lookup(e.write, 0)] else [] }

  /** The entries that do not go through the cache. */
  function Direct(entries: seq<DeadLetter>): (direct: seq<DeadLetter>)
    ensures |direct| <= |entries|
  {
    if entries == [] then [] else DirectOne(entries[0]) + Direct(entries[1..])
  }

  /** The calls of the others, awaiting the cache. */
  function LookupsOf(entries: seq<DeadLetter>): (calls: seq<Lookup>)
    ensures |calls| + |Direct(entries)| == |entries|
  {
    if entries == [] then [] else LookupOne(entries[0]) + LookupsOf(entries[1..])
  }

  /** The writes of a list of entries as jobs accepted from `first` on. */
  function JobsOf(entries: seq<DeadLetter>, first: nat): seq<Job>
  {
    seq(|entries|, k requires 0 <= k < |entries| => Job(first + k, entries[k].write, 0))
  }

  /** One more write is queued last, if there is room. */
  lemma EnqueueEffect(q: Queue, lim: Limits, write: Write, maxRetries: int)
    ensures var q' := Enqueue(q, lim, write, maxRetries).0;
      && q'.dlq == q.dlq && q'.inflight == q.inflight && q'.closing == q.closing && q'.lookups == q.lookups
      && (|q.queue| >= lim.maxQueueSize ==>
            q'.queue == q.queue && q'.counts == q.counts.(dropped := q.counts.dropped + 1))
      && (|q.queue| < lim.maxQueueSize ==>
            && q'.queue == q.queue + [Job(q.counts.enqueued, write, maxRetries)]
            && q'.counts == q.counts.(enqueued := q.counts.enqueued + 1))
  {
  }

  function Room(q: Queue, lim: Limits): nat
  {
    if |q.queue| >= lim.maxQueueSize then 0 else lim.maxQueueSize - |q.queue|
  }

  /** As many entries as there is room for. */
  function Fitting(direct: seq<DeadLetter>, room: nat): (fit: seq<DeadLetter>)
    ensures |fit| == Min(room, |direct|)
  {
    direct[..Min(room, |direct|)]
  }

  /**
   * From q to q', `fit` was queued, `calls` went to the cache, and
   * the rest of so many direct entries was dropped.
   */
  ghost predicate Filled(q: Queue, q': Queue, fit: seq<DeadLetter>, calls: seq<Lookup>, direct: nat)
  {
    && |fit| <= direct
    && q'.queue == q.queue + JobsOf(fit, q.counts.enqueued)
    && q'.lookups == q.lookups + calls
    && q'.counts == q.counts.(enqueued := q.counts.enqueued + |fit|, dropped := q.counts.dropped + direct - |fit|)
    && q'.dlq == q.dlq && q'.inflight == q.inflight && q'.closing == q.closing
  }

  /** What went where: the parts of a list of entries. */
  datatype Parts = Parts(fit: seq<DeadLetter>, calls: seq<Lookup>, direct: nat)

  ghost predicate FilledWith(q: Queue, q': Queue, p: Parts) { Filled(q, q', p.fit, p.calls, p.direct) }

  lemma FilledInTurn(q: Queue, m: Queue, q': Queue, p: Parts, r: Parts)
    requires FilledWith(q, m, p) && FilledWith(m, q', r)
    ensures Filled(q, q', p.fit + r.fit, p.calls + r.calls, p.direct + r.direct)
  {
    var first := q.counts.enqueued;
    assert JobsOf(p.fit + r.fit, first) == JobsOf(p.fit, first) + JobsOf(r.fit, first + |p.fit|);
  }

  lemma FilledOne(q: Queue, lim: Limits, e: DeadLetter)
    ensures Filled(q, Submit(q, lim, e.write, 0, false), Fitting(DirectOne(e), Room(q, lim)), LookupOne(e), |DirectOne(e)|)
  {
    EnqueueEffect(q, lim, e.write, 0);
  }

  /** What the first entry leaves of the room. */
  lemma RoomLeft(q: Queue, lim: Limits, e: DeadLetter)
    ensures Room(Submit(q, lim, e.write, 0, false), lim) == Room(q, lim) - |Fitting(DirectOne(e), Room(q, lim))|
  {
    EnqueueEffect(q, lim, e.write, 0);
  }

  lemma FittingInTurn(a: seq<DeadLetter>, b: seq<DeadLetter>, room: nat)
    ensures Fitting(a + b, room) == Fitting(a, room) + Fitting(b, room - |Fitting(a, room)|)
  {
  }

  /**
   * Of a list of entries, those with a key go to the cache; of the others as
   * many as fit are queued in order, and the rest is dropped.
   */
  lemma {:induction false} SubmitAllFills(q: Queue, lim: Limits, entries: seq<DeadLetter>)
    ensures Filled(q, SubmitAll(q, lim, entries), Fitting(Direct(entries), Room(q, lim)), LookupsOf(entries), |Direct(entries)|)
    decreases |entries|
  {
    if entries == [] {
    } else {
      var e, rest, room := entries[0], entries[1..], Room(q, lim);
      var next := Submit(q, lim, e.write, 0, false);
      SubmitAllFills(next, lim, rest);
      FilledOne(q, lim, e);
      RoomLeft(q, lim, e);
      FittingInTurn(DirectOne(e), Direct(rest), room);
      FilledInTurn(q, next, SubmitAll(q, lim, entries), Parts(Fitting(DirectOne(e), room), LookupOne(e), |DirectOne(e)|),
        Parts(Fitting(Direct(rest), Room(next, lim)), LookupsOf(rest), |Direct(rest)|));
    }
  }

  /**
   * Recovery reports every taken entry as recovered. It drops some of them on the
   * spot if and only if those without a key do not all fit; the others await the
   * cache and may still be dropped later (AuditRecoveryRuns).
   */
  lemma RecoveryDropsAtOnce(q: Queue, lim: Limits, maxBatch: int, forceAll: bool, now: int)
    ensures var (q', recovered) := Recover(q, lim, maxBatch, forceAll, now);
      var n := if maxBatch < 0 then 0 else maxBatch;
      var taken := Reversed(Taken(q.dlq, n, forceAll, now));
      && recovered == |taken| == Min(n, CountEligible(q.dlq, forceAll, now))
      && (|q'.queue| + |q'.lookups| + |q'.dlq| < |q.queue| + |q.lookups| + |q.dlq| <==>
            Direct(taken) != [] && |q.queue| + |Direct(taken)| > lim.maxQueueSize)
      && (|q.queue| + |Direct(taken)| <= lim.maxQueueSize ==>
            && q'.queue == q.queue + JobsOf(Direct(taken), q.counts.enqueued)
            && q'.lookups == q.lookups + LookupsOf(taken)
            && q'.dlq == Kept(q.dlq, n, forceAll, now))
  {
    var n := if maxBatch < 0 then 0 else maxBatch;
    var taken, kept := Taken(q.dlq, n, forceAll, now), Kept(q.dlq, n, forceAll, now);
    TakenAndKept(q.dlq, n, forceAll, now);
    assert |multiset(taken) + multiset(kept)| == |q.dlq|;
    ReversedLength(taken);
    SubmitAllFills(q.(dlq := kept), lim, Reversed(taken));
    assert |q.queue| + |Direct(Reversed(taken))| <= lim.maxQueueSize ==>
      Fitting(Direct(Reversed(taken)), Room(q, lim)) == Direct(Reversed(taken));
  }

  lemma {:induction false} ReversedLength(s: seq<DeadLetter>)
    ensures |Reversed(s)| == |s|
  {
    if s == [] {
    } else {
      ReversedLength(s[..|s| - 1]);
    }
  }

  // ---- the program's object -----------------------------------------------------------

  class AuditWriterQueue {
    const lim: Limits
    var lookups: seq<Lookup>
    var queue: seq<Job>
    var processing: bool
    var loop: Loop
    var activeCount: int
    var maxConcurrency: int
    var waiters: nat
    var inflight: map<nat, Progress>
    var closing: map<nat, Closing>
    var dlq: seq<DeadLetter>
    var counts: Counts

    ghost function View(): Queue
      reads this
    {
      Queue(lookups, queue, processing, loop, Slots(activeCount, maxConcurrency, waiters), inflight, closing, dlq, counts)
    }

    constructor (lim: Limits, maxConcurrency: int)
      ensures View() == Initial(maxConcurrency) && this.lim == lim
    {
      this.lim, this.maxConcurrency := lim, maxConcurrency;
      lookups, queue, processing, loop, activeCount, waiters := [], [], false, Idle, 0, 0;
      inflight, closing, dlq, counts := map[], map[], [], Counts(0, 0, 0, 0, 0);
    }

    method DrainSemaphoreWaiters()
      modifies this`activeCount, this`waiters, this`loop
      ensures View() == WithSlots(old(View()), Drain(old(View()).slots))
    {
      while waiters > 0 && activeCount < maxConcurrency
        invariant waiters <= old(waiters)
        invariant Drain(View().slots) == Drain(old(View()).slots)
        invariant loop == if old(loop).Waiting? && waiters < old(waiters) then Granted else old(loop)
        decreases waiters
      {
        activeCount, waiters := activeCount + 1, waiters - 1;
        if loop.Waiting? {
          loop := Granted;
        }
      }
    }

    method ReleaseHeldSlot()
      modifies this`activeCount, this`waiters, this`loop
      ensures View() == ReleaseSlot(old(View()))
    {
      activeCount := if activeCount - 1 < 0 then 0 else activeCount - 1;
      DrainSemaphoreWaiters();
    }

    method SetLimit(n: int) returns (ok: bool)
      modifies this`activeCount, this`waiters, this`loop, this`maxConcurrency
      ensures (View(), ok) == SetMaxConcurrency(old(View()), n)
    {
      if n < 1 {
        return false;
      }
      maxConcurrency := n;
      DrainSemaphoreWaiters();
      ok := true;
    }

    /** Runs the loop from its test to its next await. */
    method RunLoopHead()
      modifies this`activeCount, this`waiters, this`loop, this`processing
      ensures View() == LoopHead(old(View()))
    {
      if queue == [] {
        loop, processing := Idle, false;
      } else if activeCount < maxConcurrency {
        activeCount, loop := activeCount + 1, Granted;
      } else {
        waiters, loop := waiters + 1, Waiting;
      }
    }

    /** enqueue() past the cache. */
    method Accept(write: Write, maxRetries: int) returns (ok: bool)
      modifies this`queue, this`counts, this`activeCount, this`waiters, this`loop, this`processing
      ensures (View(), ok) == Enqueue(old(View()), lim, write, maxRetries)
    {
      if |queue| >= lim.maxQueueSize {
        counts := counts.(dropped := counts.dropped + 1);
        return false;
      }
      queue := queue + [Job(counts.enqueued, write, maxRetries)];
      counts := counts.(enqueued := counts.enqueued + 1);
      if !processing {
        processing := true;
        RunLoopHead();
      }
      ok := true;
    }

    method EnqueueWrite(write: Write, maxRetries: int, skipCache: bool)
      modifies this`lookups, this`queue, this`counts, this`activeCount, this`waiters, this`loop, this`processing
      ensures View() == Submit(old(View()), lim, write, maxRetries, skipCache)
    {
      if write.keyed && !skipCache {
        lookups := lookups + [Lookup(write, maxRetries)];
      } else {
        var _ := Accept(write, maxRetries);
      }
    }

    method OnLookup(i: nat, hit: bool) returns (ok: bool)
      requires i < |lookups|
      modifies this`lookups, this`queue, this`counts, this`activeCount, this`waiters, this`loop, this`processing
      ensures (View(), ok) == LookupDone(old(View()), lim, i, hit)
    {
      var call := lookups[i];
      lookups := lookups[..i] + lookups[i + 1..];
      if hit {
        counts := counts.(cached := counts.cached + 1);
        return false;
      }
      ok := Accept(call.write, call.maxRetries);
    }

    method ResumeLoop()
      requires loop.Granted?
      modifies this
      ensures View() == Resume(old(View()))
    {
      if queue == [] {
        ReleaseHeldSlot();
        RunLoopHead();
        return;
      }
      var job := queue[0];
      queue := queue[1..];
      inflight := inflight[job.id := Progress(job, 0, Ready)];
      if maxConcurrency == 1 {
        loop := Awaiting(job.id);
      } else {
        RunLoopHead();
      }
    }

    method AddToDlq(write: Write, now: int)
      modifies this`dlq
      ensures dlq == Add(old(dlq), lim.maxDlqSize, DeadLetter(write, now, now + lim.recoveryInterval))
    {
      if |dlq| >= lim.maxDlqSize && dlq != [] {
        dlq := dlq[1..];
      }
      dlq := dlq + [DeadLetter(write, now, now + lim.recoveryInterval)];
    }

    method OnFinalFailure(id: nat, now: int)
      requires id in inflight
      modifies this`inflight, this`closing, this`dlq, this`counts
      ensures View() == Fail(old(View()), lim, id, now)
    {
      counts := counts.(failure := counts.failure + 1);
      AddToDlq(inflight[id].job.write, now);
      inflight, closing := inflight - {id}, closing[id := Settled];
    }

    method TryAgain(id: nat, now: int)
      requires id in inflight
      modifies this`inflight, this`closing, this`dlq, this`counts
      ensures View() == Attempt(old(View()), lim, id, now)
    {
      var p := inflight[id];
      if p.attempts <= p.job.maxRetries {
        inflight := inflight[id := Progress(p.job, p.attempts + 1, InCall)];
      } else {
        OnFinalFailure(id, now);
      }
    }

    method OnCallError(id: nat, now: int)
      requires id in inflight
      modifies this`inflight, this`closing, this`dlq, this`counts
      ensures View() == CallFailed(old(View()), lim, id, now)
    {
      var p := inflight[id];
      if p.attempts <= p.job.maxRetries {
        inflight := inflight[id := p.(phase := Backoff)];
      } else {
        OnFinalFailure(id, now);
      }
    }

    method OnCallResult(id: nat)
      requires id in inflight
      modifies this`inflight, this`closing, this`counts
      ensures View() == CallSucceeded(old(View()), id)
    {
      counts := counts.(success := counts.success + 1);
      inflight, closing := inflight - {id}, closing[id := Storing];
    }

    method OnStored(id: nat)
      modifies this`closing
      ensures View() == Stored(old(View()), id)
    {
      closing := closing[id := Settled];
    }

    method OnSettled(id: nat)
      modifies this`closing, this`activeCount, this`waiters, this`loop
      ensures View() == Close(old(View()), id)
    {
      closing := closing - {id};
      ReleaseHeldSlot();
    }

    method RecoverDeadLetterQueue(maxBatch: int, forceAll: bool, now: int) returns (recovered: nat)
      modifies this
      ensures (View(), recovered) == Recover(old(View()), lim, maxBatch, forceAll, now)
    {
      var rest, toRecover := Extract(dlq, maxBatch, forceAll, now);
      dlq := rest;
      ghost var start := View();
      var i := 0;
      while i < |toRecover|
        invariant 0 <= i <= |toRecover|
        invariant SubmitAll(View(), lim, toRecover[i..]) == SubmitAll(start, lim, toRecover)
      {
        assert toRecover[i..][1..] == toRecover[i + 1..];
        EnqueueWrite(toRecover[i].write, 0, false);
        i := i + 1;
      }
      recovered := |toRecover|;
    }
  }
}
