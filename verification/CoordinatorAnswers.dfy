/**
 * What load() gives its caller and the shared store, over whole runs: the data
 * its loader gave or a usable shared quote, and when it runs the loader without
 * the lock.
 */
module CoordinatorAnswers {
  import opened Prelude
  import opened Quotes
  import opened Coordinator
  import opened CoordinatorRuns

  /** The quote that readers of the key get at this moment. */
  function UsableQuote(s: State, key: string): Option<Json>
  {
    if key in s.db.quotes && s.db.now < s.db.quotes[key].expiresAt && s.db.quotes[key].raw.Shared?
       && s.db.quotes[key].raw.version == 1 && s.cfg.validate(s.db.quotes[key].raw.data)
    then s.cfg.sanitize(s.db.quotes[key].raw.data)
    else None
  }

  predicate LockedNow(s: State, key: string) { key in s.db.locks && s.db.now < s.db.locks[key].expiresAt }

  // ---- single steps ---------------------------------------------------------------------

  /**
   * A call looks at the shared store before and after taking the
   * lock, and loads only if it finds nothing usable.
   */
  lemma ReadDecides(s: State, a: Action)
    requires Enabled(s, a) && (a.Read? || a.DoubleCheck?)
    ensures var ld, t, quote := s.loads[a.r], Next(s, a), UsableQuote(s, s.loads[a.r].key);
      && t.db == s.db
      && t.loads[a.r] ==
           if quote.Some? then ld.(pc := if a.Read? then Done else Releasing, result := Got(quote.value, FromShared))
           else ld.(pc := if a.Read? then Acquiring else Leading)
  {
  }

  /**
   * A lock is taken exactly if none lives; a call that meets
   * one waits until its deadline and then falls back.
   */
  lemma AcquireDecides(s: State, r: nat, token: string)
    requires Enabled(s, TryAcquire(r, token))
    ensures var ld, t := s.loads[r], Next(s, TryAcquire(r, token));
      if LockedNow(s, ld.key) then
        t.db == s.db && t.loads[r] == ld.(pc := if s.db.now >= ld.deadline then FallingBack else Sleeping)
      else
        && t.db == s.db.(locks := s.db.locks[ld.key := Lock(token, s.db.now + s.cfg.lockTtl)])
        && t.loads[r] == ld.(token := Some(token), lease := s.db.now + s.cfg.lockTtl, pc := DoubleChecking)
  {
  }

  /** After a Redis error the loader runs without the lock; a lock taken before is given back first. */
  lemma ErrorFallsBack(s: State, r: nat)
    requires Inv(s) && Enabled(s, RedisError(r))
    ensures var t := Next(s, RedisError(r));
      && t.db == s.db
      && t.loads[r] == s.loads[r].(pc := if s.loads[r].pc.DoubleChecking? then Recovering else FallingBack)
      && (Enabled(t, ReleaseLock(r)) ==> Next(t, ReleaseLock(r)).loads[r].pc.FallingBack?)
  {
    assert LoadOk(s, r);
  }

  /** A leader ends with the release of its lock. */
  lemma ReleaseEnds(s: State, a: Action)
    requires Enabled(s, a) && (a.ReleaseLock? || a.ReleaseError?) && s.loads[a.r].pc.Releasing?
    ensures Next(s, a).loads[a.r] == s.loads[a.r].(pc := Done)
  {
  }

  // ---- what a call returns ----------------------------------------------------------------

  /** The result that a step settles its call on. */
  function SettledBy(s: State, a: Action): Option<Result>
    requires Enabled(s, a)
  {
    if a.Loaded? then Some(Got(a.data, if s.loads[a.r].pc.Leading? then FromLeader else FromFallback))
    else if a.LoaderError? then Some(Failed)
    else if (a.Read? || a.DoubleCheck?) && UsableQuote(s, s.loads[a.r].key).Some? then
      Some(Got(UsableQuote(s, s.loads[a.r].key).value, FromShared))
    else None
  }

  /** A call that ends with this result, and publishes its data before if a leader loaded it. */
  ghost predicate Settled(ld: Load, result: Result)
  {
    || ((ld.pc.Releasing? || ld.pc.Done?) && ld.result == result)
    || (result.Got? && result.source.FromLeader? && ld.pc == Publishing(result.data))
  }

  predicate Survives(run: seq<Action>, r: nat) { forall i :: 0 <= i < |run| ==> run[i] != Crash(r) }

  lemma {:induction false} StaysSettled(s: State, run: seq<Action>, r: nat, result: Result)
    requires Possible(s, run) && Survives(run, r) && r in s.loads && Settled(s.loads[r], result)
    ensures var t := After(s, run);
      r in t.loads && Settled(t.loads[r], result) && t.loads[r].key == s.loads[r].key && t.cfg == s.cfg
    decreases |run|
  {
    if run == [] {
    } else {
      SettledStep(s, run[0], r, result);
      StaysSettled(Next(s, run[0]), run[1..], r, result);
    }
  }

  lemma SettledStep(s: State, a: Action, r: nat, result: Result)
    requires Enabled(s, a) && a != Crash(r) && r in s.loads && Settled(s.loads[r], result)
    ensures var t := Next(s, a);
      r in t.loads && Settled(t.loads[r], result) && t.loads[r].key == s.loads[r].key && t.cfg == s.cfg
  {
  }

  /**
   * What load() returns: over any run in which the call does not crash, once it is
   * done it has the very data its loader gave, as the leader's or the fallback's,
   * or the usable quote it found, or it fails as its loader did. Until then the
   * only thing it can publish is that data, for the whole shared TTL and whether
   * or not readers will accept it.
   */
  lemma LoadReturns(s: State, a: Action, run: seq<Action>)
    requires Enabled(s, a) && SettledBy(s, a).Some? && Possible(Next(s, a), run) && Survives(run, a.r)
    ensures var t, r, result := After(Next(s, a), run), a.r, SettledBy(s, a).value;
      && r in t.loads && (t.loads[r].pc.Done? ==> t.loads[r].result == result)
      && (Enabled(t, Publish(r)) ==>
            && a.Loaded? && result == Got(a.data, FromLeader)
            && Next(t, Publish(r)).db == t.db.(quotes :=
                 t.db.quotes[s.loads[r].key := QuoteEntry(Shared(1, a.data), t.db.now + s.cfg.sharedTtl)]))
  {
    FirstSettled(s, a);
    StaysSettled(Next(s, a), run, a.r, SettledBy(s, a).value);
  }

  lemma FirstSettled(s: State, a: Action)
    requires Enabled(s, a) && SettledBy(s, a).Some?
    ensures var t := Next(s, a);
      && a.r in t.loads && Settled(t.loads[a.r], SettledBy(s, a).value) && t.loads[a.r].key == s.loads[a.r].key && t.cfg == s.cfg
      && (a.Loaded? && s.loads[a.r].pc.Leading? <==> t.loads[a.r].pc.Publishing?)
  {
    if a.Read? || a.DoubleCheck? {
      ReadDecides(s, a);
    }
  }

  predicate Unreleased(run: seq<Action>, r: nat)
  {
    forall i :: 0 <= i < |run| ==> run[i] != ReleaseLock(r) && run[i] != ReleaseError(r) && run[i] != Crash(r)
  }

  lemma HolderStep(s: State, a: Action, r: nat)
    requires Enabled(s, a) && r in s.loads && Holding(s.loads[r])
    requires a != ReleaseLock(r) && a != ReleaseError(r) && a != Crash(r) && (s.loads[r].token.Some? || a != RedisError(r))
    ensures Holding(Next(s, a).loads[r]) && Next(s, a).loads[r].token == s.loads[r].token
  {
  }

  /**
   * A call that took the lock goes on holding it until it tries to release it,
   * whether its loader failed, the publication failed, or it found a quote
   * meanwhile: it neither ends nor falls back before.
   */
  lemma {:induction false} HoldsUntilRelease(s: State, run: seq<Action>, r: nat)
    requires Inv(s) && Possible(s, run) && Unreleased(run, r) && r in s.loads && Holding(s.loads[r])
    ensures var t := After(s, run); r in t.loads && Holding(t.loads[r]) && !t.loads[r].pc.Done? && !t.loads[r].pc.FallingBack?
    decreases |run|
  {
    if run == [] {
    } else {
      assert LoadOk(s, r);
      HolderStep(s, run[0], r);
      NextInv(s, run[0]);
      HoldsUntilRelease(Next(s, run[0]), run[1..], r);
    }
  }

  // ---- waiting and falling back -----------------------------------------------------------

  /** The key and the deadline a call was started with. */
  ghost predicate StartedWith(s: State, r: nat, key: string, deadline: nat)
  {
    r in s.loads && s.loads[r].key == key && s.loads[r].deadline == deadline
  }

  lemma {:induction false} KeepsDeadline(s: State, run: seq<Action>, r: nat, key: string, deadline: nat)
    requires Possible(s, run) && StartedWith(s, r, key, deadline)
    ensures StartedWith(After(s, run), r, key, deadline) && After(s, run).cfg == s.cfg
    decreases |run|
  {
    if run == [] {
    } else {
      KeepsDeadline(Next(s, run[0]), run[1..], r, key, deadline);
    }
  }

  /**
   * A step that sends call r to its loader without the lock: an
   * error, or a lock that lives past the deadline.
   */
  ghost predicate GivesUp(s: State, a: Action, r: nat, key: string, deadline: nat)
  {
    || a == RedisError(r) || (a.AcquireUnacked? && a.r == r)
    || (a.TryAcquire? && a.r == r && LockedNow(s, key) && s.db.now >= deadline)
  }

  ghost predicate GivesUpAt(s: State, run: seq<Action>, i: nat, r: nat, key: string, deadline: nat)
  {
    i < |run| && Possible(s, run[..i]) && GivesUp(After(s, run[..i]), run[i], r, key, deadline)
  }

  predicate WithoutLock(ld: Load) { ld.pc.FallingBack? || ld.pc.Recovering? }

  lemma FallbackStep(s: State, a: Action, r: nat)
    requires Enabled(s, a) && r in s.loads && !WithoutLock(s.loads[r]) && WithoutLock(Next(s, a).loads[r])
    ensures GivesUp(s, a, r, s.loads[r].key, s.loads[r].deadline)
  {
  }

  lemma {:induction false} FallbackIn(s: State, run: seq<Action>, r: nat, key: string, deadline: nat) returns (i: nat)
    requires Possible(s, run) && StartedWith(s, r, key, deadline) && !WithoutLock(s.loads[r])
    requires r in After(s, run).loads && WithoutLock(After(s, run).loads[r])
    ensures GivesUpAt(s, run, i, r, key, deadline)
    decreases |run|
  {
    var t := Next(s, run[0]);
    assert run[..0] == [];
    if WithoutLock(t.loads[r]) {
      FallbackStep(s, run[0], r);
      i := 0;
    } else {
      i := FallbackIn(t, run[1..], r, key, deadline);
      assert run[..i + 1][1..] == run[1..][..i] && run[i + 1] == run[1..][i];
      i := i + 1;
    }
  }

  /**
   * A call that found Redis available loads without the lock only after a Redis
   * error, or after it met somebody's lock when its waiting time was over.
   */
  lemma FallbackHasReason(s: State, r: nat, key: string, run: seq<Action>) returns (i: nat)
    requires Enabled(s, Start(r, key, true)) && Possible(Next(s, Start(r, key, true)), run)
    requires r in After(Next(s, Start(r, key, true)), run).loads
    requires WithoutLock(After(Next(s, Start(r, key, true)), run).loads[r])
    ensures GivesUpAt(Next(s, Start(r, key, true)), run, i, r, key, s.db.now + s.cfg.waitTimeout)
  {
    i := FallbackIn(Next(s, Start(r, key, true)), run, r, key, s.db.now + s.cfg.waitTimeout);
  }

  /**
   * A call that meets a lock goes on waiting until the waiting time since its
   * start is over, and then falls back; without Redis it falls back at once.
   */
  lemma WaitsUntilDeadline(s: State, r: nat, key: string, run: seq<Action>, token: string)
    requires Enabled(s, Start(r, key, true)) && Possible(Next(s, Start(r, key, true)), run)
    requires Enabled(After(Next(s, Start(r, key, true)), run), TryAcquire(r, token))
    ensures Next(s, Start(r, key, false)).loads[r].pc.FallingBack? && Next(s, Start(r, key, true)).loads[r].pc.Reading?
    ensures var t := After(Next(s, Start(r, key, true)), run);
      var pc := Next(t, TryAcquire(r, token)).loads[r].pc;
      && (pc.DoubleChecking? <==> !LockedNow(t, key))
      && (pc.Sleeping? <==> LockedNow(t, key) && t.db.now < s.db.now + s.cfg.waitTimeout)
      && (pc.FallingBack? <==> LockedNow(t, key) && t.db.now >= s.db.now + s.cfg.waitTimeout)
  {
    KeepsDeadline(Next(s, Start(r, key, true)), run, r, key, s.db.now + s.cfg.waitTimeout);
    AcquireDecides(After(Next(s, Start(r, key, true)), run), r, token);
  }
}
