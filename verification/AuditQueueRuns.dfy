/**
 * Every interleaving of enqueues, the processing loop,
 * dispatched writes, resizing and dead-letter recovery.
 */
module AuditQueueRuns {
  import opened DeadLetters
  import opened AuditQueue

  /**
   * The queue and its history: enqueue calls so far, writes in acceptance order
   * and in start order, calls made to write functions, outcomes.
   */
  datatype State = State(
    q: Queue, submitted: nat, accepted: seq<Job>, started: seq<Job>,
    calls: map<nat, nat>, succeeded: set<nat>, failed: set<nat>)

  datatype Action =
    | EnqueueAct(write: Write, maxRetries: int, skipCache: bool)
    | LookupAct(i: nat, hit: bool)     // the result cache answers
    | ResumeAct                        // the loop has its slot
    | AwaitDone                        // the dispatch the loop awaits has ended
    | AttemptAct(id: nat, now: int)    // the retry loop's test, and the call
    | CallError(id: nat, now: int)
    | CallResult(id: nat)
    | StoredAct(id: nat)
    | CloseAct(id: nat)
    | Resize(n: int)
    | RecoverAct(maxBatch: int, forceAll: bool, now: int)

  predicate Enabled(s: State, a: Action)
  {
    match a
    case LookupAct(i, _) => i < |s.q.lookups|
    case ResumeAct => s.q.loop.Granted?
    case AwaitDone => s.q.loop.Awaiting? && s.q.loop.id !in s.q.inflight && s.q.loop.id !in s.q.closing
    case AttemptAct(id, _) => id in s.q.inflight && !s.q.inflight[id].phase.InCall?
    case CallError(id, _) => id in s.q.inflight && s.q.inflight[id].phase.InCall?
    case CallResult(id) => id in s.q.inflight && s.q.inflight[id].phase.InCall?
    case StoredAct(id) => id in s.q.closing && s.q.closing[id].Storing?
    case CloseAct(id) => id in s.q.closing && s.q.closing[id].Settled?
    case _ => true
  }

  function Calls(s: State, id: nat): nat { if id in s.calls then s.calls[id] else 0 }

  function Next(s: State, a: Action, lim: Limits): State
    requires Enabled(s, a)
  {
    match a
    case EnqueueAct(write, maxRetries, skipCache) => Submitted(s, lim, write, maxRetries, skipCache)
    case LookupAct(i, hit) =>
      var (q, ok) := LookupDone(s.q, lim, i, hit);
      s.(q := q, accepted := if ok then s.accepted + [JobOf(s.q, s.q.lookups[i].write, s.q.lookups[i].maxRetries)] else s.accepted)
    case ResumeAct =>
      s.(q := Resume(s.q), started := if s.q.queue == [] then s.started else s.started + [s.q.queue[0]])
    case AwaitDone => s.(q := LoopHead(s.q))
    case AttemptAct(id, now) =>
      var q := Attempt(s.q, lim, id, now);
      if id in q.inflight then s.(q := q, calls := s.calls[id := Calls(s, id) + 1])
      else s.(q := q, failed := s.failed + {id})
    case CallError(id, now) =>
      var q := CallFailed(s.q, lim, id, now);
      s.(q := q, failed := if id in q.inflight then s.failed else s.failed + {id})
    case CallResult(id) => s.(q := CallSucceeded(s.q, id), succeeded := s.succeeded + {id})
    case StoredAct(id) => s.(q := Stored(s.q, id))
    case CloseAct(id) => s.(q := Close(s.q, id))
    case Resize(n) => s.(q := SetMaxConcurrency(s.q, n).0)
    case RecoverAct(maxBatch, forceAll, now) =>
      var n := if maxBatch < 0 then 0 else maxBatch;
      AllSubmitted(s.(q := s.q.(dlq := Kept(s.q.dlq, n, forceAll, now))), lim, Reversed(Taken(s.q.dlq, n, forceAll, now)))
  }

  /** The job the next accepted write becomes. */
  function JobOf(q: Queue, write: Write, maxRetries: int): Job { Job(q.counts.enqueued, write, maxRetries) }

  /** An enqueue call: accepted at once, dropped, or awaiting the cache. */
  function Submitted(s: State, lim: Limits, write: Write, maxRetries: int, skipCache: bool): State
  {
    var accepted := !(write.keyed && !skipCache) && Enqueue(s.q, lim, write, maxRetries).1;
    s.(q := Submit(s.q, lim, write, maxRetries, skipCache), submitted := s.submitted + 1,
       accepted := if accepted then s.accepted + [JobOf(s.q, write, maxRetries)] else s.accepted)
  }

  function AllSubmitted(s: State, lim: Limits, entries: seq<DeadLetter>): State
    decreases |entries|
  {
    if entries == [] then s else AllSubmitted(Submitted(s, lim, entries[0].write, 0, false), lim, entries[1..])
  }

  predicate Init(s: State, limit: int) { s == State(Initial(limit), 0, [], [], map[], {}, {}) }

  // ---- the invariant ------------------------------------------------------------------

  /** What the loop's point of control says about the semaphore and the queue. */
  ghost predicate SlotsOk(q: Queue)
  {
    && q.slots.limit >= 1
    && q.slots.waiters == (if q.loop.Waiting? then 1 else 0)
    && (q.loop.Waiting? ==> q.slots.active >= q.slots.limit)
    && q.slots.active == |q.inflight| + |q.closing| + (if q.loop.Granted? then 1 else 0)
  }

  ghost predicate LoopOk(q: Queue)
  {
    && (q.processing <==> !q.loop.Idle?)
    && (q.loop.Waiting? || q.loop.Granted? ==> q.queue != [])
    && (q.queue != [] ==> q.processing)
  }

  /** An enqueue call awaits the cache, was answered from it, was dropped or was accepted. */
  ghost predicate CallsOk(s: State)
  {
    s.submitted == |s.q.lookups| + s.q.counts.cached + s.q.counts.dropped + s.q.counts.enqueued
  }

  /** Accepted is started, then queued; jobs are numbered in order; the counters add up. */
  ghost predicate HistoryOk(s: State)
  {
    && s.accepted == s.started + s.q.queue
    && (forall i :: 0 <= i < |s.accepted| ==> s.accepted[i].id == i)
    && s.q.counts.enqueued == |s.accepted|
    && s.q.counts.success == |s.succeeded| && s.q.counts.failure == |s.failed|
    && |s.started| == |s.q.inflight| + |s.succeeded| + |s.failed|
  }

  /** The number of calls a write is allowed: none at all if its retry limit is negative. */
  function Allowed(job: Job): nat { if job.maxRetries < 0 then 0 else job.maxRetries + 1 }

  ghost predicate StartedOk(s: State, id: nat)
    requires id < |s.started|
  {
    var job := s.started[id];
    && (id in s.q.inflight ==>
          && id !in s.succeeded && id !in s.failed
          && s.q.inflight[id].job == job && s.q.inflight[id].attempts == Calls(s, id) <= Allowed(job)
          && (!s.q.inflight[id].phase.Ready? ==> Calls(s, id) > 0)
          && (s.q.inflight[id].phase.Ready? ==> Calls(s, id) == 0))
    && (id !in s.q.inflight ==> (id in s.succeeded <==> id !in s.failed))
    && (id in s.succeeded ==> 1 <= Calls(s, id) <= Allowed(job))
    && (id in s.failed ==> Calls(s, id) == Allowed(job))
  }

  ghost predicate IdsOk(s: State)
  {
    && (forall id :: id in s.q.inflight || id in s.succeeded || id in s.failed || id in s.calls ==> id < |s.started|)
    && (forall id :: id in s.q.closing ==> id in s.succeeded || id in s.failed)
    && (forall id :: 0 <= id < |s.started| ==> StartedOk(s, id))
  }

  ghost predicate Inv(s: State)
  {
    SlotsOk(s.q) && LoopOk(s.q) && CallsOk(s) && HistoryOk(s) && IdsOk(s)
  }

  lemma InitInv(s: State, limit: int)
    requires Init(s, limit) && limit >= 1
    ensures Inv(s)
  {
  }

  // ---- the steps keep it --------------------------------------------------------------

  /** Everything but the semaphore and the loop is the same. */
  ghost predicate SameWork(q: Queue, q': Queue)
  {
    && q'.queue == q.queue && q'.inflight == q.inflight && q'.closing == q.closing
    && q'.dlq == q.dlq && q'.counts == q.counts && q'.lookups == q.lookups
  }

  lemma LoopHeadOk(q: Queue)
    requires q.slots.limit >= 1 && q.slots.waiters == 0 && q.processing
    requires q.slots.active == |q.inflight| + |q.closing|
    ensures SlotsOk(LoopHead(q)) && LoopOk(LoopHead(q)) && SameWork(q, LoopHead(q))
  {
  }

  /** Draining serves the waiting loop exactly when the limit allows it. */
  lemma DrainOk(q: Queue, slots: Slots)
    requires LoopOk(q) && slots.limit >= 1 && slots.waiters == q.slots.waiters == (if q.loop.Waiting? then 1 else 0)
    requires slots.active == |q.inflight| + |q.closing| + (if q.loop.Granted? then 1 else 0)
    ensures var q' := WithSlots(q, Drain(slots));
      SlotsOk(q') && LoopOk(q') && SameWork(q, q') && q'.slots.limit == slots.limit
  {
    DrainServes(slots);
  }

  /** The released slot is one that was held, so the count is never clamped. */
  lemma ReleaseOk(q: Queue)
    requires LoopOk(q) && q.slots.limit >= 1 && q.slots.waiters == (if q.loop.Waiting? then 1 else 0)
    requires q.slots.active - 1 == |q.inflight| + |q.closing| + (if q.loop.Granted? then 1 else 0)
    ensures SlotsOk(ReleaseSlot(q)) && LoopOk(ReleaseSlot(q)) && SameWork(q, ReleaseSlot(q))
  {
    DrainOk(q, q.slots.(active := q.slots.active - 1));
  }

  /** Started writes are judged by their own entries only. */
  lemma IdsKept(s: State, s': State)
    requires IdsOk(s) && s'.started == s.started && s'.calls == s.calls && s'.succeeded == s.succeeded && s'.failed == s.failed
    requires s'.q.inflight == s.q.inflight && forall id :: id in s'.q.closing ==> id in s.q.closing
    ensures IdsOk(s')
  {
    forall id | 0 <= id < |s'.started| ensures StartedOk(s', id) {
      assert StartedOk(s, id);
    }
  }

  /** A write is accepted or dropped: it joins the end of the queue, and an idle loop starts. */
  lemma EnqueueOk(s: State, s': State, lim: Limits, write: Write, maxRetries: int)
    requires SlotsOk(s.q) && LoopOk(s.q) && HistoryOk(s)
    requires s'.q == Enqueue(s.q, lim, write, maxRetries).0
    requires s' == s.(q := s'.q, submitted := s'.submitted, accepted := s'.accepted)
    requires s'.accepted == if Enqueue(s.q, lim, write, maxRetries).1 then s.accepted + [JobOf(s.q, write, maxRetries)] else s.accepted
    ensures SlotsOk(s'.q) && LoopOk(s'.q) && HistoryOk(s')
  {
    EnqueueEffect(s.q, lim, write, maxRetries);
    if |s.q.queue| < lim.maxQueueSize && !s.q.processing {
      LoopHeadOk(s.q.(processing := true, queue := s.q.queue + [JobOf(s.q, write, maxRetries)],
        counts := s.q.counts.(enqueued := s.q.counts.enqueued + 1)));
    }
  }

  lemma SubmittedOk(s: State, lim: Limits, write: Write, maxRetries: int, skipCache: bool)
    requires Inv(s)
    ensures Inv(Submitted(s, lim, write, maxRetries, skipCache))
  {
    var s' := Submitted(s, lim, write, maxRetries, skipCache);
    if !(write.keyed && !skipCache) {
      EnqueueOk(s, s', lim, write, maxRetries);
      EnqueueEffect(s.q, lim, write, maxRetries);
    }
    IdsKept(s, s');
  }

  lemma LookupOk(s: State, lim: Limits, i: nat, hit: bool)
    requires Inv(s) && Enabled(s, LookupAct(i, hit))
    ensures Inv(Next(s, LookupAct(i, hit), lim))
  {
    var s', call := Next(s, LookupAct(i, hit), lim), s.q.lookups[i];
    var removed := s.(q := s.q.(lookups := s.q.lookups[..i] + s.q.lookups[i + 1..]));
    if !hit {
      EnqueueOk(removed, s', lim, call.write, call.maxRetries);
      EnqueueEffect(removed.q, lim, call.write, call.maxRetries);
    }
    IdsKept(s, s');
  }

  lemma {:induction false} AllSubmittedOk(s: State, lim: Limits, entries: seq<DeadLetter>)
    requires Inv(s)
    ensures Inv(AllSubmitted(s, lim, entries))
    decreases |entries|
  {
    if entries == [] {
    } else {
      SubmittedOk(s, lim, entries[0].write, 0, false);
      AllSubmittedOk(Submitted(s, lim, entries[0].write, 0, false), lim, entries[1..]);
    }
  }

  lemma {:induction false} AllSubmittedIs(s: State, lim: Limits, entries: seq<DeadLetter>)
    ensures var s' := AllSubmitted(s, lim, entries);
      s' == s.(q := SubmitAll(s.q, lim, entries), submitted := s'.submitted, accepted := s'.accepted)
    decreases |entries|
  {
    if entries == [] {
    } else {
      AllSubmittedIs(Submitted(s, lim, entries[0].write, 0, false), lim, entries[1..]);
    }
  }

  /** A recovery run does to the queue what recoverDeadLetterQueue does. */
  lemma RecoverIs(s: State, lim: Limits, maxBatch: int, forceAll: bool, now: int)
    ensures var s' := Next(s, RecoverAct(maxBatch, forceAll, now), lim);
      s' == s.(q := Recover(s.q, lim, maxBatch, forceAll, now).0, submitted := s'.submitted, accepted := s'.accepted)
  {
    var n := if maxBatch < 0 then 0 else maxBatch;
    AllSubmittedIs(s.(q := s.q.(dlq := Kept(s.q.dlq, n, forceAll, now))), lim, Reversed(Taken(s.q.dlq, n, forceAll, now)));
  }

  lemma RecoverOk(s: State, lim: Limits, maxBatch: int, forceAll: bool, now: int)
    requires Inv(s)
    ensures Inv(Next(s, RecoverAct(maxBatch, forceAll, now), lim))
  {
    var n := if maxBatch < 0 then 0 else maxBatch;
    var s' := s.(q := s.q.(dlq := Kept(s.q.dlq, n, forceAll, now)));
    IdsKept(s, s');
    AllSubmittedOk(s', lim, Reversed(Taken(s.q.dlq, n, forceAll, now)));
  }

  lemma ResumeOk(s: State, lim: Limits)
    requires Inv(s) && s.q.loop.Granted?
    ensures Inv(Next(s, ResumeAct, lim))
  {
    var s', job := Next(s, ResumeAct, lim), s.q.queue[0];
    assert s.accepted[|s.started|] == job;
    var q := s.q.(queue := s.q.queue[1..], inflight := s.q.inflight[job.id := Progress(job, 0, Ready)]);
    assert |q.inflight| == |s.q.inflight| + 1;
    if q.slots.limit != 1 {
      LoopHeadOk(q);
    }
    DispatchedOk(s, s');
  }

  lemma DispatchedOk(s: State, s': State)
    requires IdsOk(s) && s' == s.(q := s'.q, started := s'.started) && s'.q.closing == s.q.closing
    requires |s'.started| == |s.started| + 1 && s'.started == s.started + [s'.started[|s.started|]]
    requires s'.q.inflight == s.q.inflight[|s.started| := Progress(s'.started[|s.started|], 0, Ready)]
    ensures IdsOk(s')
  {
    forall id | 0 <= id < |s'.started| ensures StartedOk(s', id) {
      assert id < |s.started| ==> StartedOk(s, id);
    }
  }

  /** A started write moves on without ending. */
  lemma ProgressOk(s: State, s': State, id: nat, p: Progress)
    requires Inv(s) && id in s.q.inflight
    requires s' == s.(q := s.q.(inflight := s.q.inflight[id := p]), calls := s'.calls)
    requires forall k :: k != id ==> Calls(s', k) == Calls(s, k)
    requires s'.calls.Keys <= s.calls.Keys + {id}
    requires p.job == s.q.inflight[id].job && p.attempts == Calls(s', id) <= Allowed(p.job)
    requires if p.phase.Ready? then Calls(s', id) == 0 else Calls(s', id) > 0
    ensures Inv(s')
  {
    assert |s'.q.inflight| == |s.q.inflight|;
    assert StartedOk(s, id);
    forall k | 0 <= k < |s'.started| ensures StartedOk(s', k) {
      assert StartedOk(s, k);
    }
  }

  /** A write ends: its slot passes from inflight to closing. */
  lemma EndOk(s: State, s': State, id: nat, ok: bool, closing: Closing)
    requires Inv(s) && id in s.q.inflight
    requires s' == s.(succeeded := if ok then s.succeeded + {id} else s.succeeded,
                      failed := if ok then s.failed else s.failed + {id}, q := s'.q)
    requires s'.q == s.q.(inflight := s.q.inflight - {id}, closing := s.q.closing[id := closing], dlq := s'.q.dlq,
                counts := if ok then s.q.counts.(success := s.q.counts.success + 1)
                          else s.q.counts.(failure := s.q.counts.failure + 1))
    requires if ok then Calls(s, id) > 0 else Calls(s, id) == Allowed(s.q.inflight[id].job)
    ensures Inv(s')
  {
    assert StartedOk(s, id);
    assert (s.q.inflight - {id}).Keys == s.q.inflight.Keys - {id};
    assert |s'.q.inflight| == |s.q.inflight| - 1;
    assert id !in s.q.closing;
    forall k | 0 <= k < |s'.started| ensures StartedOk(s', k) {
      assert StartedOk(s, k);
    }
  }

  lemma CloseOk(s: State, id: nat, lim: Limits)
    requires Inv(s) && Enabled(s, CloseAct(id))
    ensures Inv(Next(s, CloseAct(id), lim))
  {
    var q := s.q.(closing := s.q.closing - {id});
    assert q.closing.Keys == s.q.closing.Keys - {id};
    ReleaseOk(q);
    var s' := Next(s, CloseAct(id), lim);
    forall k | 0 <= k < |s'.started| ensures StartedOk(s', k) {
      assert StartedOk(s, k);
    }
  }

  lemma SameWorkOk(s: State, s': State)
    requires Inv(s) && s' == s.(q := s'.q) && SameWork(s.q, s'.q) && SlotsOk(s'.q) && LoopOk(s'.q)
    ensures Inv(s')
  {
    forall k | 0 <= k < |s'.started| ensures StartedOk(s', k) {
      assert StartedOk(s, k);
    }
  }

  lemma CallOk(s: State, a: Action, lim: Limits)
    requires Inv(s) && Enabled(s, a) && (a.AttemptAct? || a.CallError? || a.CallResult?)
    ensures Inv(Next(s, a, lim))
  {
    match a
    case AttemptAct(id, now) => AttemptOk(s, id, now, lim);
    case CallError(id, now) => ErrorOk(s, id, now, lim);
    case CallResult(id) => ResultOk(s, id, lim);
  }

  lemma AttemptOk(s: State, id: nat, now: int, lim: Limits)
    requires Inv(s) && Enabled(s, AttemptAct(id, now))
    ensures Inv(Next(s, AttemptAct(id, now), lim))
  {
    var s' := Next(s, AttemptAct(id, now), lim);
    assert StartedOk(s, id);
    if id in s'.q.inflight {
      ProgressOk(s, s', id, s'.q.inflight[id]);
    } else {
      EndOk(s, s', id, false, Settled);
    }
  }

  lemma ErrorOk(s: State, id: nat, now: int, lim: Limits)
    requires Inv(s) && Enabled(s, CallError(id, now))
    ensures Inv(Next(s, CallError(id, now), lim))
  {
    var s' := Next(s, CallError(id, now), lim);
    assert StartedOk(s, id);
    if id in s'.q.inflight {
      ProgressOk(s, s', id, s'.q.inflight[id]);
    } else {
      EndOk(s, s', id, false, Settled);
    }
  }

  lemma ResultOk(s: State, id: nat, lim: Limits)
    requires Inv(s) && Enabled(s, CallResult(id))
    ensures Inv(Next(s, CallResult(id), lim))
  {
    assert StartedOk(s, id);
    EndOk(s, Next(s, CallResult(id), lim), id, true, Storing);
  }

  lemma StoredOk(s: State, id: nat, lim: Limits)
    requires Inv(s) && Enabled(s, StoredAct(id))
    ensures Inv(Next(s, StoredAct(id), lim))
  {
    var s' := Next(s, StoredAct(id), lim);
    assert |s'.q.closing| == |s.q.closing|;
    forall k | 0 <= k < |s'.started| ensures StartedOk(s', k) {
      assert StartedOk(s, k);
    }
  }

  lemma NextInv(s: State, a: Action, lim: Limits)
    requires Inv(s) && Enabled(s, a)
    ensures Inv(Next(s, a, lim))
  {
    match a
    case EnqueueAct(write, maxRetries, skipCache) => SubmittedOk(s, lim, write, maxRetries, skipCache);
    case LookupAct(i, hit) => LookupOk(s, lim, i, hit);
    case ResumeAct => ResumeOk(s, lim);
    case AwaitDone =>
      LoopHeadOk(s.q);
      SameWorkOk(s, Next(s, a, lim));
    case AttemptAct(_, _) => CallOk(s, a, lim);
    case CallError(_, _) => CallOk(s, a, lim);
    case CallResult(_) => CallOk(s, a, lim);
    case StoredAct(id) => StoredOk(s, id, lim);
    case CloseAct(id) => CloseOk(s, id, lim);
    case Resize(n) =>
      if n >= 1 {
        DrainOk(s.q, s.q.slots.(limit := n));
        SameWorkOk(s, Next(s, a, lim));
      }
    case RecoverAct(maxBatch, forceAll, now) => RecoverOk(s, lim, maxBatch, forceAll, now);
  }

  // ---- whole runs -----------------------------------------------------------------------

  ghost predicate Possible(s: State, run: seq<Action>, lim: Limits)
    decreases |run|
  {
    run != [] ==> Enabled(s, run[0]) && Possible(Next(s, run[0], lim), run[1..], lim)
  }

  function After(s: State, run: seq<Action>, lim: Limits): State
    requires Possible(s, run, lim)
    decreases |run|
  {
    if run == [] then s else After(Next(s, run[0], lim), run[1..], lim)
  }

  lemma {:induction false} RunInv(s: State, run: seq<Action>, lim: Limits)
    requires Inv(s) && Possible(s, run, lim)
    ensures Inv(After(s, run, lim))
    decreases |run|
  {
    if run == [] {
    } else {
      NextInv(s, run[0], lim);
      RunInv(Next(s, run[0], lim), run[1..], lim);
    }
  }

  /** Where an accepted write can be. */
  datatype Place = InQueue | InFlight | Success | Failure

  predicate Queued(s: State, id: nat) { exists i :: 0 <= i < |s.q.queue| && s.q.queue[i].id == id }

  predicate IsAt(s: State, id: nat, place: Place)
  {
    match place
    case InQueue => Queued(s, id)
    case InFlight => id in s.q.inflight
    case Success => id in s.succeeded
    case Failure => id in s.failed
  }

  ghost predicate InOnePlace(s: State, id: nat)
  {
    exists p :: IsAt(s, id, p) && forall p' :: IsAt(s, id, p') ==> p' == p
  }

  /** Every accepted write is in exactly one place, nothing else is anywhere, and the counters add up. */
  lemma Conservation(s: State, limit: int, run: seq<Action>, lim: Limits)
    requires Init(s, limit) && limit >= 1 && Possible(s, run, lim)
    ensures var t := After(s, run, lim);
      && (forall id :: 0 <= id < t.q.counts.enqueued ==> InOnePlace(t, id))
      && (forall id: nat, p :: id >= t.q.counts.enqueued ==> !IsAt(t, id, p))
      && t.q.counts.enqueued == |t.q.queue| + |t.q.inflight| + t.q.counts.success + t.q.counts.failure
      && t.q.counts.success == |t.succeeded| && t.q.counts.failure == |t.failed|
      && t.submitted == |t.q.lookups| + t.q.counts.cached + t.q.counts.dropped + t.q.counts.enqueued
  {
    InitInv(s, limit);
    RunInv(s, run, lim);
    var t := After(s, run, lim);
    forall id | 0 <= id < t.q.counts.enqueued ensures InOnePlace(t, id) {
      var p := OnlyPlace(t, id);
    }
    forall id: nat, p | id >= t.q.counts.enqueued ensures !IsAt(t, id, p) {
      QueuedIffNotStarted(t, id);
    }
  }

  lemma OnlyPlace(s: State, id: nat) returns (p: Place)
    requires Inv(s) && id < s.q.counts.enqueued
    ensures IsAt(s, id, p) && forall p' :: IsAt(s, id, p') ==> p' == p
  {
    QueuedIffNotStarted(s, id);
    if id < |s.started| {
      assert StartedOk(s, id);
    }
    p := if Queued(s, id) then InQueue else if id in s.q.inflight then InFlight else if id in s.succeeded then Success else Failure;
  }

  lemma QueuedIffNotStarted(s: State, id: nat)
    requires Inv(s)
    ensures Queued(s, id) <==> |s.started| <= id < |s.accepted|
  {
    forall i | 0 <= i < |s.q.queue| ensures s.q.queue[i].id == |s.started| + i {
      assert s.accepted[|s.started| + i] == s.q.queue[i];
    }
    if |s.started| <= id < |s.accepted| {
      assert s.q.queue[id - |s.started|].id == id;
    }
  }

  /** Writes start in the order in which they were accepted. */
  lemma StartOrder(s: State, limit: int, run: seq<Action>, lim: Limits)
    requires Init(s, limit) && limit >= 1 && Possible(s, run, lim)
    ensures var t := After(s, run, lim);
      |t.started| <= |t.accepted| && t.started == t.accepted[..|t.started|] && t.q.queue == t.accepted[|t.started|..]
  {
    InitInv(s, limit);
    RunInv(s, run, lim);
  }

  /**
   * A write function is called at most once more than its retry
   * limit, and fails for good only after all its calls.
   */
  lemma CallsAreBounded(s: State, limit: int, run: seq<Action>, lim: Limits, id: nat)
    requires Init(s, limit) && limit >= 1 && Possible(s, run, lim)
    ensures var t := After(s, run, lim);
      && (Calls(t, id) > 0 ==> id < |t.accepted| && Calls(t, id) <= t.accepted[id].maxRetries + 1)
      && (id in t.failed ==> id < |t.accepted| && Calls(t, id) == Allowed(t.accepted[id]))
      && (id in t.succeeded ==> Calls(t, id) >= 1)
  {
    InitInv(s, limit);
    RunInv(s, run, lim);
    var t := After(s, run, lim);
    if id < |t.started| {
      assert StartedOk(t, id);
      assert t.accepted[id] == t.started[id];
    }
  }

  /** An outcome is final: no later call, no second outcome. */
  lemma OutcomeIsFinal(s: State, a: Action, lim: Limits, id: nat)
    requires Inv(s) && Enabled(s, a) && (id in s.succeeded || id in s.failed)
    ensures var t := Next(s, a, lim);
      Calls(t, id) == Calls(s, id) && (id in t.succeeded <==> id in s.succeeded) && (id in t.failed <==> id in s.failed)
  {
    assert StartedOk(s, id);
    if a.RecoverAct? {
      RecoverIs(s, lim, a.maxBatch, a.forceAll, a.now);
    }
  }

  // ---- the semaphore ----------------------------------------------------------------------

  /** The count is that of the slots held; a released slot was held; a loop waits only while there is none. */
  lemma SlotsAreCounted(s: State, limit: int, run: seq<Action>, lim: Limits)
    requires Init(s, limit) && limit >= 1 && Possible(s, run, lim)
    ensures var q := After(s, run, lim).q;
      && q.slots.active == |q.inflight| + |q.closing| + (if q.loop.Granted? then 1 else 0)
      && (q.closing != map[] ==> q.slots.active - 1 >= 0)
      && q.slots.waiters == (if q.loop.Waiting? then 1 else 0)
      && (q.slots.waiters > 0 ==> q.slots.active >= q.slots.limit)
  {
    InitInv(s, limit);
    RunInv(s, run, lim);
  }

  /** Slots are claimed within the limit, and the limit is the same. */
  ghost predicate GrantsWithin(q: Queue, q': Queue)
  {
    q'.slots.limit == q.slots.limit && (q'.slots.active > q.slots.active ==> q'.slots.active <= q'.slots.limit)
  }

  lemma EnqueueGrants(q: Queue, lim: Limits, write: Write, maxRetries: int)
    ensures GrantsWithin(q, Enqueue(q, lim, write, maxRetries).0)
  {
  }

  lemma {:induction false} SubmitAllGrants(q: Queue, lim: Limits, entries: seq<DeadLetter>)
    ensures var q' := SubmitAll(q, lim, entries); GrantsWithin(q, q') && q'.slots.active >= q.slots.active
    decreases |entries|
  {
    if entries == [] {
    } else {
      EnqueueGrants(q, lim, entries[0].write, 0);
      SubmitAllGrants(Submit(q, lim, entries[0].write, 0, false), lim, entries[1..]);
    }
  }

  lemma ReleaseGrants(q: Queue)
    requires q.slots.active >= 1
    ensures GrantsWithin(q, ReleaseSlot(q))
  {
    DrainServes(q.slots.(active := q.slots.active - 1));
  }

  lemma StepGrants(s: State, a: Action, lim: Limits)
    requires Inv(s) && Enabled(s, a) && !a.Resize?
    ensures GrantsWithin(s.q, Next(s, a, lim).q)
  {
    match a
    case EnqueueAct(write, maxRetries, _) => EnqueueGrants(s.q, lim, write, maxRetries);
    case LookupAct(i, hit) =>
      EnqueueGrants(s.q.(lookups := s.q.lookups[..i] + s.q.lookups[i + 1..]), lim, s.q.lookups[i].write, s.q.lookups[i].maxRetries);
    case CloseAct(id) => ReleaseGrants(s.q.(closing := s.q.closing - {id}));
    case RecoverAct(maxBatch, forceAll, now) =>
      var n := if maxBatch < 0 then 0 else maxBatch;
      RecoverIs(s, lim, maxBatch, forceAll, now);
      SubmitAllGrants(s.q.(dlq := Kept(s.q.dlq, n, forceAll, now)), lim, Reversed(Taken(s.q.dlq, n, forceAll, now)));
    case _ =>
  }

  /** A step that raises the number of held slots leaves it within the limit of that moment. */
  lemma GrantsStayWithinLimit(s: State, a: Action, lim: Limits)
    requires Inv(s) && Enabled(s, a)
    ensures var q := Next(s, a, lim).q;
      q.slots.active > s.q.slots.active ==> q.slots.active <= q.slots.limit
  {
    if a.Resize? {
      DrainServes(s.q.slots.(limit := a.n));
    } else {
      StepGrants(s, a, lim);
    }
  }

  /** No run raises the limit above n. */
  predicate LimitStays(run: seq<Action>, n: int) { forall i :: 0 <= i < |run| && run[i].Resize? ==> run[i].n <= n }

  lemma {:induction false} HeldWithinLimit(s: State, run: seq<Action>, lim: Limits, n: int)
    requires Inv(s) && Possible(s, run, lim) && LimitStays(run, n)
    requires s.q.slots.limit <= n && s.q.slots.active <= n
    ensures var q := After(s, run, lim).q; q.slots.limit <= n && q.slots.active <= n
    decreases |run|
  {
    if run == [] {
    } else {
      NextInv(s, run[0], lim);
      GrantsStayWithinLimit(s, run[0], lim);
      LimitAfter(s, run[0], lim, n);
      HeldWithinLimit(Next(s, run[0], lim), run[1..], lim, n);
    }
  }

  lemma LimitAfter(s: State, a: Action, lim: Limits, n: int)
    requires Inv(s) && Enabled(s, a) && s.q.slots.limit <= n && (a.Resize? ==> a.n <= n)
    ensures Next(s, a, lim).q.slots.limit <= n
  {
    if a.Resize? {
      DrainServes(s.q.slots.(limit := a.n));
    } else {
      StepGrants(s, a, lim);
    }
  }

  /**
   * While the limit stays 1, a write starts only after every
   * earlier one has ended and given back its slot.
   */
  lemma OneAtATime(s: State, run: seq<Action>, lim: Limits)
    requires Init(s, 1) && Possible(s, run, lim) && LimitStays(run, 1)
    ensures var t := After(s, run, lim);
      && |t.q.inflight| + |t.q.closing| <= 1
      && (Enabled(t, ResumeAct) ==>
            && t.q.inflight == map[] && t.q.closing == map[]
            && forall id :: 0 <= id < |t.started| ==> id in t.succeeded || id in t.failed)
  {
    InitInv(s, 1);
    RunInv(s, run, lim);
    HeldWithinLimit(s, run, lim, 1);
    var t := After(s, run, lim);
    if t.q.loop.Granted? {
      assert |t.q.inflight| == 0 && |t.q.closing| == 0;
      assert t.q.inflight == map[];
      forall id | 0 <= id < |t.started| ensures id in t.succeeded || id in t.failed {
        assert StartedOk(t, id);
      }
    }
  }

  // ---- progress -----------------------------------------------------------------------------

  /** A step of the queue itself, not of its users or of the result cache. */
  predicate Internal(a: Action)
  {
    !a.EnqueueAct? && !a.LookupAct? && !a.Resize? && !a.RecoverAct?
  }

  /** A write that holds a slot can always take its next step. */
  lemma HolderCanStep(s: State, id: nat) returns (a: Action)
    requires id in s.q.inflight || id in s.q.closing
    ensures Internal(a) && Enabled(s, a)
  {
    if id in s.q.inflight {
      a := if s.q.inflight[id].phase.InCall? then CallResult(id) else AttemptAct(id, 0);
    } else {
      a := if s.q.closing[id].Storing? then StoredAct(id) else CloseAct(id);
    }
  }

  /** A queue with work in it is never stuck: its loop runs, or waits for a write that can still step. */
  lemma WorkCanStep(s: State) returns (a: Action)
    requires Inv(s) && (s.q.queue != [] || s.q.processing || s.q.inflight != map[] || s.q.closing != map[])
    ensures Internal(a) && Enabled(s, a)
  {
    if id :| id in s.q.inflight {
      a := HolderCanStep(s, id);
    } else if id :| id in s.q.closing {
      a := HolderCanStep(s, id);
    } else {
      assert |s.q.inflight| == 0 && |s.q.closing| == 0;
      a := if s.q.loop.Granted? then ResumeAct else AwaitDone;
    }
  }

  /**
   * When nothing of the queue's own is left to do, every
   * accepted write has its outcome and every slot is free.
   */
  lemma QuietMeansDone(s: State, limit: int, run: seq<Action>, lim: Limits)
    requires Init(s, limit) && limit >= 1 && Possible(s, run, lim)
    requires forall a :: Internal(a) ==> !Enabled(After(s, run, lim), a)
    ensures var t := After(s, run, lim);
      && t.q.queue == [] && !t.q.processing && t.q.slots.active == 0 && t.started == t.accepted
      && (forall id :: 0 <= id < |t.accepted| ==> id in t.succeeded || id in t.failed)
      && t.q.counts.enqueued == t.q.counts.success + t.q.counts.failure
  {
    InitInv(s, limit);
    RunInv(s, run, lim);
    var t := After(s, run, lim);
    if t.q.queue != [] || t.q.processing || t.q.inflight != map[] || t.q.closing != map[] {
      var a := WorkCanStep(t);
      assert false;
    }
    forall id | 0 <= id < |t.accepted| ensures id in t.succeeded || id in t.failed {
      assert StartedOk(t, id);
    }
  }

  // ---- termination ----------------------------------------------------------------------------

  /** An upper bound of the steps one accepted write still needs. */
  function Weight(s: State, id: nat): nat
    requires id < |s.accepted|
  {
    var calls := 2 * Allowed(s.accepted[id]);
    if id >= |s.started| then calls + 6
    else if id in s.q.inflight then
      match s.q.inflight[id].phase
      case Ready => calls + 4
      case InCall => (if calls >= 2 * Calls(s, id) then calls - 2 * Calls(s, id) else 0) + 3
      case Backoff => (if calls >= 2 * Calls(s, id) then calls - 2 * Calls(s, id) else 0) + 2
    else if id in s.q.closing then (if s.q.closing[id].Storing? then 2 else 1)
    else 0
  }

  function LoopWeight(loop: Loop): nat
  {
    match loop
    case Idle => 0
    case Waiting => 1
    case Granted => 1
    case Awaiting(_) => 2
  }

  function SumWeights(s: State, n: nat): nat
    requires n <= |s.accepted|
  {
    if n == 0 then 0 else SumWeights(s, n - 1) + Weight(s, n - 1)
  }

  function Work(s: State): nat { SumWeights(s, |s.accepted|) + LoopWeight(s.q.loop) }

  lemma {:induction false} SumDrops(s: State, s': State, id: nat, drop: nat, n: nat)
    requires n <= |s.accepted| == |s'.accepted| && id < |s.accepted|
    requires forall k :: 0 <= k < |s.accepted| && k != id ==> Weight(s', k) == Weight(s, k)
    requires Weight(s', id) + drop <= Weight(s, id)
    ensures SumWeights(s', n) + (if id < n then drop else 0) <= SumWeights(s, n)
  {
    if n == 0 {
    } else {
      SumDrops(s, s', id, drop, n - 1);
    }
  }

  predicate CallStep(a: Action) { a.AttemptAct? || a.CallError? || a.CallResult? || a.StoredAct? }

  lemma CallLowersWeight(s: State, a: Action, lim: Limits)
    requires Inv(s) && Enabled(s, a) && CallStep(a)
    ensures a.id < |s.accepted| && Weight(Next(s, a, lim), a.id) < Weight(s, a.id)
  {
    assert StartedOk(s, a.id);
    assert s.accepted[a.id] == s.started[a.id];
  }

  /** Nothing about write k is different. */
  ghost predicate Untouched(s: State, s': State, k: nat)
  {
    && s'.accepted == s.accepted && s'.started == s.started && Calls(s', k) == Calls(s, k)
    && (k in s'.q.inflight <==> k in s.q.inflight) && (k in s.q.inflight ==> s'.q.inflight[k] == s.q.inflight[k])
    && (k in s'.q.closing <==> k in s.q.closing) && (k in s.q.closing ==> s'.q.closing[k] == s.q.closing[k])
  }

  lemma UntouchedWeighsTheSame(s: State, s': State, k: nat)
    requires Untouched(s, s', k) && k < |s.accepted|
    ensures Weight(s', k) == Weight(s, k)
  {
  }

  /** A call step of one write is not seen by the others, nor by the loop. */
  lemma CallTouchesOne(s: State, a: Action, lim: Limits, k: nat)
    requires Enabled(s, a) && CallStep(a) && k != a.id
    ensures Untouched(s, Next(s, a, lim), k)
  {
  }

  lemma CallKeepsLoop(s: State, a: Action, lim: Limits)
    requires Enabled(s, a) && CallStep(a)
    ensures Next(s, a, lim).accepted == s.accepted && Next(s, a, lim).q.loop == s.q.loop
  {
  }

  lemma CallUsesWork(s: State, a: Action, lim: Limits)
    requires Inv(s) && Enabled(s, a) && CallStep(a)
    ensures Work(Next(s, a, lim)) < Work(s)
  {
    CallLowersWeight(s, a, lim);
    CallKeepsLoop(s, a, lim);
    forall k | 0 <= k < |s.accepted| && k != a.id ensures Weight(Next(s, a, lim), k) == Weight(s, k) {
      CallTouchesOne(s, a, lim, k);
      UntouchedWeighsTheSame(s, Next(s, a, lim), k);
    }
    SumDrops(s, Next(s, a, lim), a.id, 1, |s.accepted|);
  }

  lemma ResumeUsesWork(s: State, lim: Limits)
    requires Inv(s) && Enabled(s, ResumeAct)
    ensures Work(Next(s, ResumeAct, lim)) < Work(s)
  {
    assert s.accepted[|s.started|] == s.q.queue[0];
    SumDrops(s, Next(s, ResumeAct, lim), |s.started|, 2, |s.accepted|);
  }

  lemma CloseUsesWork(s: State, id: nat, lim: Limits)
    requires Inv(s) && Enabled(s, CloseAct(id))
    ensures Work(Next(s, CloseAct(id), lim)) < Work(s)
  {
    assert StartedOk(s, id);
    SumDrops(s, Next(s, CloseAct(id), lim), id, 1, |s.accepted|);
  }

  /** Every step of the queue's own uses up work. */
  lemma InternalStepUsesWork(s: State, a: Action, lim: Limits)
    requires Inv(s) && Enabled(s, a) && Internal(a)
    ensures Work(Next(s, a, lim)) < Work(s)
  {
    match a
    case AwaitDone => SumSame(s, Next(s, a, lim), |s.accepted|);
    case ResumeAct => ResumeUsesWork(s, lim);
    case CloseAct(id) => CloseUsesWork(s, id, lim);
    case _ => CallUsesWork(s, a, lim);
  }

  lemma {:induction false} SumSame(s: State, s': State, n: nat)
    requires n <= |s.accepted| == |s'.accepted|
    requires forall k :: 0 <= k < |s.accepted| ==> Weight(s', k) == Weight(s, k)
    ensures SumWeights(s', n) == SumWeights(s, n)
  {
    if n == 0 {
    } else {
      SumSame(s, s', n - 1);
    }
  }

  /**
   * Left alone, the queue finishes: however its steps are scheduled, at most
   * Work(s) of them are possible, and when none is left every accepted write has
   * its outcome (QuietMeansDone).
   */
  lemma {:induction false} QueueFinishes(s: State, run: seq<Action>, lim: Limits)
    requires Inv(s) && Possible(s, run, lim) && forall i :: 0 <= i < |run| ==> Internal(run[i])
    ensures |run| <= Work(s)
    ensures |run| == Work(s) ==> forall a :: Internal(a) ==> !Enabled(After(s, run, lim), a)
    decreases |run|
  {
    if run != [] {
      assert Internal(run[0]);
      InternalStepUsesWork(s, run[0], lim);
      NextInv(s, run[0], lim);
      QueueFinishes(Next(s, run[0], lim), run[1..], lim);
    } else if Work(s) == 0 {
      forall a | Internal(a) ensures !Enabled(s, a) {
        if Enabled(s, a) {
          InternalStepUsesWork(s, a, lim);
          assert false;
        }
      }
    }
  }

  // ---- the bounds ---------------------------------------------------------------------------

  /** Neither queue outgrows its limit, for a dead-letter limit of at least one. */
  lemma {:induction false} QueuesAreBounded(s: State, run: seq<Action>, lim: Limits)
    requires Possible(s, run, lim) && lim.maxDlqSize >= 1
    requires |s.q.queue| <= lim.maxQueueSize && |s.q.dlq| <= lim.maxDlqSize
    ensures var q := After(s, run, lim).q; |q.queue| <= lim.maxQueueSize && |q.dlq| <= lim.maxDlqSize
    decreases |run|
  {
    if run == [] {
    } else {
      StepIsBounded(s, run[0], lim);
      QueuesAreBounded(Next(s, run[0], lim), run[1..], lim);
    }
  }

  lemma StepIsBounded(s: State, a: Action, lim: Limits)
    requires Enabled(s, a) && lim.maxDlqSize >= 1
    requires |s.q.queue| <= lim.maxQueueSize && |s.q.dlq| <= lim.maxDlqSize
    ensures var q := Next(s, a, lim).q; |q.queue| <= lim.maxQueueSize && |q.dlq| <= lim.maxDlqSize
  {
    if a.RecoverAct? {
      RecoverIs(s, lim, a.maxBatch, a.forceAll, a.now);
      RecoverIsBounded(s.q, lim, a.maxBatch, a.forceAll, a.now);
    }
  }

  lemma RecoverIsBounded(q: Queue, lim: Limits, maxBatch: int, forceAll: bool, now: int)
    requires |q.queue| <= lim.maxQueueSize && |q.dlq| <= lim.maxDlqSize
    ensures var q' := Recover(q, lim, maxBatch, forceAll, now).0; |q'.queue| <= lim.maxQueueSize && |q'.dlq| <= lim.maxDlqSize
  {
    var n := if maxBatch < 0 then 0 else maxBatch;
    TakenAndKept(q.dlq, n, forceAll, now);
    var taken, kept := Taken(q.dlq, n, forceAll, now), Kept(q.dlq, n, forceAll, now);
    assert |multiset(taken) + multiset(kept)| == |q.dlq|;
    SubmitAllFills(q.(dlq := kept), lim, Reversed(taken));
  }
}
