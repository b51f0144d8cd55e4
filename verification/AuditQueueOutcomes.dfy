/**
 * What becomes of each call and each write over whole runs: when a write is
 * accepted, where a failed one goes and how long it stays there, and when the
 * loop goes on.
 */
module AuditQueueOutcomes {
  import opened DeadLetters
  import opened AuditQueue
  import opened AuditQueueRuns

  // ---- accepting --------------------------------------------------------------------------

  /**
   * A call awaits the cache if it has a key to look up; any other is
   * accepted last in line, or dropped when the queue is full.
   */
  lemma EnqueueDecides(s: State, lim: Limits, write: Write, maxRetries: int, skipCache: bool)
    requires Inv(s)
    ensures var t := Next(s, EnqueueAct(write, maxRetries, skipCache), lim);
      && t.submitted == s.submitted + 1 && t.q.dlq == s.q.dlq && t.q.inflight == s.q.inflight
      && if write.keyed && !skipCache then t == s.(submitted := s.submitted + 1, q := s.q.(lookups := s.q.lookups + [Lookup(write, maxRetries)]))
         else if |s.q.queue| >= lim.maxQueueSize then
           t == s.(submitted := s.submitted + 1, q := s.q.(counts := s.q.counts.(dropped := s.q.counts.dropped + 1)))
         else
           && t.accepted == s.accepted + [Job(|s.accepted|, write, maxRetries)]
           && t.q.queue == s.q.queue + [Job(|s.accepted|, write, maxRetries)]
           && t.q.lookups == s.q.lookups && t.q.processing
  {
  }

  // ---- dead letters ------------------------------------------------------------------------

  /**
   * A write that fails for good becomes the last dead letter, due
   * for recovery after the interval; the oldest makes room.
   */
  lemma FailureIsDeadLettered(s: State, a: Action, lim: Limits, id: nat)
    requires Inv(s) && Enabled(s, a) && id in Next(s, a, lim).failed && id !in s.failed
    ensures id < |s.accepted| && (a.AttemptAct? || a.CallError?)
    ensures Next(s, a, lim).failed == s.failed + {id}
    ensures Next(s, a, lim).q.dlq ==
      (if |s.q.dlq| >= lim.maxDlqSize && s.q.dlq != [] then s.q.dlq[1..] else s.q.dlq)
      + [DeadLetter(s.accepted[id].write, a.now, a.now + lim.recoveryInterval)]
  {
    if a.RecoverAct? {
      RecoverIs(s, lim, a.maxBatch, a.forceAll, a.now);
    } else if a.AttemptAct? || a.CallError? {
      CallFails(s, a, lim);
    }
  }

  /** A retry loop's step either leaves the outcomes and the dead letters alone or fails its own write. */
  lemma CallFails(s: State, a: Action, lim: Limits)
    requires Inv(s) && Enabled(s, a) && (a.AttemptAct? || a.CallError?)
    ensures a.id < |s.accepted|
    ensures FailsOnly(s, Next(s, a, lim), a.id, lim, DeadLetter(s.accepted[a.id].write, a.now, a.now + lim.recoveryInterval))
  {
    JobOfCall(s, a.id);
    CallFailsJob(s, a, lim);
  }

  ghost predicate FailsOnly(s: State, t: State, id: nat, lim: Limits, e: DeadLetter)
  {
    || (t.failed == s.failed && t.q.dlq == s.q.dlq)
    || (t.failed == s.failed + {id} && t.q.dlq == Lettered(s.q.dlq, lim, e))
  }

  lemma JobOfCall(s: State, id: nat)
    requires Inv(s) && id in s.q.inflight
    ensures id < |s.accepted| && s.q.inflight[id].job == s.accepted[id]
  {
    assert StartedOk(s, id);
    assert s.accepted[id] == s.started[id];
  }

  lemma CallFailsJob(s: State, a: Action, lim: Limits)
    requires Enabled(s, a) && (a.AttemptAct? || a.CallError?)
    ensures var write := s.q.inflight[a.id].job.write;
      FailsOnly(s, Next(s, a, lim), a.id, lim, DeadLetter(write, a.now, a.now + lim.recoveryInterval))
  {
  }

  function Lettered(dlq: seq<DeadLetter>, lim: Limits, e: DeadLetter): seq<DeadLetter>
  {
    (if |dlq| >= lim.maxDlqSize && dlq != [] then dlq[1..] else dlq) + [e]
  }

  /** Nothing else but a recovery changes the dead letters. */
  lemma OnlyFailuresAreDeadLettered(s: State, a: Action, lim: Limits)
    requires Inv(s) && Enabled(s, a) && !a.RecoverAct?
    ensures Next(s, a, lim).q.dlq != s.q.dlq ==> exists id :: id in Next(s, a, lim).failed && id !in s.failed
    ensures Next(s, a, lim).failed == s.failed ==> Next(s, a, lim).q.dlq == s.q.dlq
    ensures s.failed <= Next(s, a, lim).failed
  {
    if a.AttemptAct? || a.CallError? {
      assert StartedOk(s, a.id);
      CallFails(s, a, lim);
    }
  }

  /**
   * A dead letter stays, over any run without recovery, as long as those from it
   * on and the failures since do not exceed the limit.
   */
  lemma {:induction false} DeadLetterStays(s: State, run: seq<Action>, lim: Limits, i: nat)
    requires Inv(s) && Possible(s, run, lim) && forall k :: 0 <= k < |run| ==> !run[k].RecoverAct?
    requires i < |s.q.dlq| <= lim.maxDlqSize
    requires |s.q.dlq| - i + |After(s, run, lim).failed| - |s.failed| <= lim.maxDlqSize
    ensures s.q.dlq[i] in After(s, run, lim).q.dlq
    decreases |run|
  {
    if run != [] {
      var a, t := run[0], Next(s, run[0], lim);
      NextInv(s, a, lim);
      FailuresGrow(t, run[1..], lim);
      OnlyFailuresAreDeadLettered(s, a, lim);
      var j := i;
      if t.failed != s.failed {
        j := LetterMoves(s, a, lim, i);
      }
      DeadLetterStays(t, run[1..], lim, j);
    }
  }

  lemma LetterMoves(s: State, a: Action, lim: Limits, i: nat) returns (j: nat)
    requires Inv(s) && Enabled(s, a) && !a.RecoverAct? && Next(s, a, lim).failed != s.failed
    requires i < |s.q.dlq| <= lim.maxDlqSize && (|s.q.dlq| - i < lim.maxDlqSize || |Next(s, a, lim).failed| <= |s.failed|)
    ensures var t := Next(s, a, lim);
      && j < |t.q.dlq| <= lim.maxDlqSize && t.q.dlq[j] == s.q.dlq[i]
      && |t.failed| == |s.failed| + 1 && |t.q.dlq| - j == |s.q.dlq| - i + 1
  {
    var t := Next(s, a, lim);
    OnlyFailuresAreDeadLettered(s, a, lim);
    var id :| id in t.failed && id !in s.failed;
    FailureIsDeadLettered(s, a, lim, id);
    assert |t.failed| == |s.failed| + 1;
    j := if |s.q.dlq| >= lim.maxDlqSize then i - 1 else i;
  }

  lemma {:induction false} FailuresGrow(s: State, run: seq<Action>, lim: Limits)
    requires Inv(s) && Possible(s, run, lim) && forall k :: 0 <= k < |run| ==> !run[k].RecoverAct?
    ensures |s.failed| <= |After(s, run, lim).failed|
    decreases |run|
  {
    if run != [] {
      NextInv(s, run[0], lim);
      OnlyFailuresAreDeadLettered(s, run[0], lim);
      MoreFailures(s.failed, Next(s, run[0], lim).failed);
      FailuresGrow(Next(s, run[0], lim), run[1..], lim);
    }
  }

  lemma MoreFailures(a: set<nat>, b: set<nat>)
    requires a <= b
    ensures |a| <= |b|
  {
    assert b == a + (b - a);
  }

  /** Every dead letter is due one interval after its failure. */
  ghost predicate Dated(dlq: seq<DeadLetter>, lim: Limits)
  {
    forall e :: e in dlq ==> e.nextRetryAt == e.failedAt + lim.recoveryInterval
  }

  lemma {:induction false} LettersAreDated(s: State, run: seq<Action>, lim: Limits)
    requires Inv(s) && Possible(s, run, lim) && Dated(s.q.dlq, lim)
    ensures Dated(After(s, run, lim).q.dlq, lim)
    decreases |run|
  {
    if run == [] {
    } else {
      NextInv(s, run[0], lim);
      StepIsDated(s, run[0], lim);
      LettersAreDated(Next(s, run[0], lim), run[1..], lim);
    }
  }

  lemma StepIsDated(s: State, a: Action, lim: Limits)
    requires Inv(s) && Enabled(s, a) && Dated(s.q.dlq, lim)
    ensures Dated(Next(s, a, lim).q.dlq, lim)
  {
    if a.RecoverAct? {
      RecoveryIsDated(s, a, lim);
    } else {
      OnlyFailuresAreDeadLettered(s, a, lim);
      if id :| id in Next(s, a, lim).failed && id !in s.failed {
        FailureIsDeadLettered(s, a, lim, id);
      }
    }
  }

  lemma RecoveryIsDated(s: State, a: Action, lim: Limits)
    requires a.RecoverAct? && Dated(s.q.dlq, lim)
    ensures Dated(Next(s, a, lim).q.dlq, lim)
  {
    var n := if a.maxBatch < 0 then 0 else a.maxBatch;
    RecoveryKeeps(s, a, lim, n);
    forall e | e in Kept(s.q.dlq, n, a.forceAll, a.now) ensures e in s.q.dlq {
      TakenOrKept(s.q.dlq, n, a.forceAll, a.now, e);
    }
  }

  lemma RecoveryKeeps(s: State, a: Action, lim: Limits, n: nat)
    requires a.RecoverAct? && n == if a.maxBatch < 0 then 0 else a.maxBatch
    ensures Next(s, a, lim).q.dlq == Kept(s.q.dlq, n, a.forceAll, a.now)
  {
    RecoverIs(s, lim, a.maxBatch, a.forceAll, a.now);
    SubmitAllFills(s.q.(dlq := Kept(s.q.dlq, n, a.forceAll, a.now)), lim, Reversed(Taken(s.q.dlq, n, a.forceAll, a.now)));
  }

  lemma TakenOrKept(dlq: seq<DeadLetter>, n: nat, forceAll: bool, now: int, e: DeadLetter)
    requires e in Taken(dlq, n, forceAll, now) || e in Kept(dlq, n, forceAll, now)
    ensures e in dlq
  {
    TakenAndKept(dlq, n, forceAll, now);
    assert e in multiset(Taken(dlq, n, forceAll, now)) + multiset(Kept(dlq, n, forceAll, now));
    assert e in multiset(dlq);
  }

  /** A recovery that is not forced takes no write before one interval after its failure. */
  lemma NoEarlyRecovery(s: State, limit: int, run: seq<Action>, lim: Limits, n: nat, now: int, e: DeadLetter)
    requires Init(s, limit) && limit >= 1 && Possible(s, run, lim) && e in Taken(After(s, run, lim).q.dlq, n, false, now)
    ensures now >= e.failedAt + lim.recoveryInterval
  {
    var t := After(s, run, lim);
    InitInv(s, limit);
    LettersAreDated(s, run, lim);
    TakenAndKept(t.q.dlq, n, false, now);
    TakenOrKept(t.q.dlq, n, false, now, e);
  }

  // ---- the loop ------------------------------------------------------------------------------

  /**
   * The loop dispatches the oldest write; it awaits its end exactly at
   * limit one, and else asks for the next slot at once.
   */
  lemma ResumeDecides(s: State, lim: Limits)
    requires Inv(s) && s.q.loop.Granted?
    ensures var q, job := Next(s, ResumeAct, lim).q, s.q.queue[0];
      && q.queue == s.q.queue[1..] && q.inflight == s.q.inflight[job.id := Progress(job, 0, Ready)]
      && if s.q.slots.limit == 1 then q.loop == Awaiting(job.id) && q.slots == s.q.slots
         else if |s.q.queue| == 1 then q.loop.Idle? && q.slots == s.q.slots
         else if s.q.slots.active < s.q.slots.limit then q.loop.Granted? && q.slots.active == s.q.slots.active + 1
         else q.loop.Waiting? && q.slots.active == s.q.slots.active
  {
  }

  /** The dispatch the loop awaits has not ended. */
  predicate Busy(s: State, id: nat) { id in s.q.inflight || id in s.q.closing }

  ghost predicate BusyBefore(s: State, run: seq<Action>, id: nat, lim: Limits)
    requires Possible(s, run, lim)
    decreases |run|
  {
    Busy(s, id) && (run != [] ==> BusyBefore(Next(s, run[0], lim), run[1..], id, lim))
  }

  lemma AwaitsStep(s: State, a: Action, lim: Limits, id: nat)
    requires Inv(s) && Enabled(s, a) && s.q.loop == Awaiting(id) && Busy(s, id)
    ensures Next(s, a, lim).q.loop == Awaiting(id)
  {
    if a.RecoverAct? {
      var n := if a.maxBatch < 0 then 0 else a.maxBatch;
      RecoverIs(s, lim, a.maxBatch, a.forceAll, a.now);
      SubmitAllAwaits(s.q.(dlq := Kept(s.q.dlq, n, a.forceAll, a.now)), lim, Reversed(Taken(s.q.dlq, n, a.forceAll, a.now)));
    }
  }

  lemma {:induction false} SubmitAllAwaits(q: Queue, lim: Limits, entries: seq<DeadLetter>)
    requires q.processing
    ensures SubmitAll(q, lim, entries).loop == q.loop
    decreases |entries|
  {
    if entries == [] {
    } else {
      SubmitAllAwaits(Submit(q, lim, entries[0].write, 0, false), lim, entries[1..]);
    }
  }

  /**
   * A write dispatched at limit one is awaited to its end: whatever happens
   * meanwhile, and even if the limit is raised, no other write starts before.
   */
  lemma {:induction false} DispatchIsAwaited(s: State, run: seq<Action>, lim: Limits, id: nat)
    requires Inv(s) && Possible(s, run, lim) && s.q.loop == Awaiting(id) && BusyBefore(s, run, id, lim)
    ensures After(s, run, lim).q.loop == Awaiting(id) && After(s, run, lim).started == s.started
    ensures !Enabled(After(s, run, lim), ResumeAct) && !Enabled(After(s, run, lim), AwaitDone)
    decreases |run|
  {
    if run != [] {
      NextInv(s, run[0], lim);
      AwaitsStep(s, run[0], lim, id);
      StartsOnlyByResume(s, run[0], lim);
      DispatchIsAwaited(Next(s, run[0], lim), run[1..], lim, id);
    }
  }

  lemma StartsOnlyByResume(s: State, a: Action, lim: Limits)
    requires Enabled(s, a) && !a.ResumeAct?
    ensures Next(s, a, lim).started == s.started
  {
    if a.RecoverAct? {
      RecoverIs(s, lim, a.maxBatch, a.forceAll, a.now);
    }
  }

  /**
   * A limit below one is refused; any other holds from now on, and
   * lets a waiting loop go on exactly if it leaves a slot.
   */
  lemma ResizeDecides(s: State, n: int, lim: Limits)
    requires Inv(s)
    ensures var q := Next(s, Resize(n), lim).q;
      if n < 1 then q == s.q
      else
        && q.slots.limit == n
        && q.loop == (if s.q.loop.Waiting? && s.q.slots.active < n then Granted else s.q.loop)
        && q.slots.active == s.q.slots.active + (if s.q.loop.Waiting? && s.q.slots.active < n then 1 else 0)
  {
    DrainServes(s.q.slots.(limit := n));
  }

  /** An ended write gives its slot to a waiting loop exactly if the limit then leaves one. */
  lemma CloseDecides(s: State, id: nat, lim: Limits)
    requires Inv(s) && Enabled(s, CloseAct(id))
    ensures var q := Next(s, CloseAct(id), lim).q;
      && q.loop == (if s.q.loop.Waiting? && s.q.slots.active - 1 < s.q.slots.limit then Granted else s.q.loop)
      && q.slots.active == s.q.slots.active - (if s.q.loop.Waiting? && s.q.slots.active - 1 < s.q.slots.limit then 0 else 1)
  {
    assert s.q.closing.Keys != {};
    ReleaseDecides(s.q.(closing := s.q.closing - {id}));
  }

  lemma ReleaseDecides(q: Queue)
    requires q.slots.active >= 1 && q.slots.waiters == (if q.loop.Waiting? then 1 else 0)
    ensures var r := ReleaseSlot(q);
      && r.loop == (if q.loop.Waiting? && q.slots.active - 1 < q.slots.limit then Granted else q.loop)
      && r.slots.active == q.slots.active - (if q.loop.Waiting? && q.slots.active - 1 < q.slots.limit then 0 else 1)
  {
    DrainServes(q.slots.(active := q.slots.active - 1));
  }
}
