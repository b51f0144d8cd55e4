/** Any number of load() calls in any number of instances, with the clock, failures and foreign writes. */
module CoordinatorRuns {
  import opened Prelude
  import opened Quotes
  import opened Coordinator

  datatype State = State(cfg: Config, db: Store, loads: map<nat, Load>, tokens: set<string>)

  datatype Action =
    | Tick(ms: nat)
    | Start(r: nat, key: string, available: bool)
    | Read(r: nat)
    | TryAcquire(r: nat, token: string)
    | AcquireUnacked(r: nat, token: string)            // SET executed, reply lost
    | Wake(r: nat)
    | DoubleCheck(r: nat)
    | RedisError(r: nat)
    | Loaded(r: nat, data: Json)
    | LoaderError(r: nat)
    | Publish(r: nat)
    | PublishError(r: nat)
    | ReleaseLock(r: nat)
    | ReleaseError(r: nat)
    | Crash(r: nat)
    | Invalidate(key: string)
    | Foreign(key: string, raw: SharedRaw, ttl: nat)   // somebody else writes the quote key

  predicate Init(s: State)
  {
    s.loads == map[] && forall k :: k in s.db.locks ==> s.db.locks[k].token in s.tokens
  }

  predicate Enabled(s: State, a: Action)
  {
    match a
    case Tick(_) => true
    case Start(r, _, _) => r !in s.loads
    case Read(r) => r in s.loads && s.loads[r].pc.Reading?
    case TryAcquire(r, token) => r in s.loads && s.loads[r].pc.Acquiring? && token !in s.tokens
    case AcquireUnacked(r, token) => r in s.loads && s.loads[r].pc.Acquiring? && token !in s.tokens
    case Wake(r) => r in s.loads && s.loads[r].pc.Sleeping?
    case DoubleCheck(r) => r in s.loads && s.loads[r].pc.DoubleChecking?
    case RedisError(r) => r in s.loads && (s.loads[r].pc.Reading? || s.loads[r].pc.Acquiring? || s.loads[r].pc.DoubleChecking?)
    case Loaded(r, _) => r in s.loads && (s.loads[r].pc.Leading? || s.loads[r].pc.FallingBack?)
    case LoaderError(r) => r in s.loads && (s.loads[r].pc.Leading? || s.loads[r].pc.FallingBack?)
    case Publish(r) => r in s.loads && s.loads[r].pc.Publishing?
    case PublishError(r) => r in s.loads && s.loads[r].pc.Publishing?
    case ReleaseLock(r) => r in s.loads && (s.loads[r].pc.Releasing? || s.loads[r].pc.Recovering?) && s.loads[r].token.Some?
    case ReleaseError(r) => r in s.loads && (s.loads[r].pc.Releasing? || s.loads[r].pc.Recovering?)
    case Crash(r) => r in s.loads && !s.loads[r].pc.Done?
    case Invalidate(_) => true
    case Foreign(_, _, _) => true
  }

  function With(s: State, r: nat, db: Store, ld: Load): State
  {
    s.(db := db, loads := s.loads[r := ld])
  }

  function Next(s: State, a: Action): State
    requires Enabled(s, a)
  {
    match a
    case Tick(ms) => s.(db := s.db.(now := s.db.now + ms))
    case Start(r, key, available) => With(s, r, s.db, NewLoad(s.cfg, s.db.now, key, available))
    case Read(r) => With(s, r, s.db, ReadStep(s.cfg, s.db, s.loads[r]))
    case TryAcquire(r, token) =>
      var (db, ld) := AcquireStep(s.cfg, s.db, s.loads[r], token);
      With(s, r, db, ld).(tokens := s.tokens + {token})
    case AcquireUnacked(r, token) =>
      With(s, r, Acquire(s.db, s.loads[r].key, token, s.cfg.lockTtl).0, ErrorStep(s.loads[r])).(tokens := s.tokens + {token})
    case Wake(r) => With(s, r, s.db, s.loads[r].(pc := Reading))
    case DoubleCheck(r) => With(s, r, s.db, DoubleCheckStep(s.cfg, s.db, s.loads[r]))
    case RedisError(r) => With(s, r, s.db, ErrorStep(s.loads[r]))
    case Loaded(r, data) => With(s, r, s.db, LoadedStep(s.loads[r], data))
    case LoaderError(r) => With(s, r, s.db, LoadFailedStep(s.loads[r]))
    case Publish(r) => var (db, ld) := PublishStep(s.cfg, s.db, s.loads[r]); With(s, r, db, ld)
    case PublishError(r) => With(s, r, s.db, PublishFailedStep(s.loads[r]))
    case ReleaseLock(r) => var (db, ld) := ReleaseStep(s.db, s.loads[r]); With(s, r, db, ld)
    case ReleaseError(r) =>
      With(s, r, s.db, if s.loads[r].pc.Recovering? then s.loads[r].(token := None, pc := FallingBack)
                       else s.loads[r].(pc := Done))
    case Crash(r) => With(s, r, s.db, s.loads[r].(pc := Done))
    case Invalidate(key) => s.(db := s.db.(quotes := s.db.quotes - {key}))
    case Foreign(key, raw, ttl) => s.(db := PutQuote(s.db, key, raw, ttl))
  }

  // ---- the invariant --------------------------------------------------------------

  /** Until the lease ends, the lock is this call's. */
  ghost predicate LeaseHolds(s: State, ld: Load)
    requires ld.token.Some?
  {
    s.db.now < ld.lease ==> ld.key in s.db.locks && s.db.locks[ld.key] == Lock(ld.token.value, ld.lease)
  }

  /** What the shared store gave out passed validation and the rebuild. */
  ghost predicate SharedResultOk(s: State, ld: Load)
  {
    ld.result.Got? && ld.result.source.FromShared? ==>
      exists raw :: Accept(s.cfg, raw) == Some(ld.result.data)
  }

  ghost predicate LoadOk(s: State, r: nat)
    requires r in s.loads
  {
    var ld := s.loads[r];
    && (ld.token.Some? ==> ld.token.value in s.tokens)
    && (Holding(ld) ==> ld.token.Some? && LeaseHolds(s, ld))
    && (ld.token.Some? ==> Holding(ld) || ld.pc.Done?)
    && SharedResultOk(s, ld)
  }

  /** A lock carrying the call's token is the one it took, unchanged. */
  ghost predicate LockIntact(s: State, r: nat, k: string)
    requires r in s.loads && k in s.db.locks
  {
    var ld := s.loads[r];
    ld.token == Some(s.db.locks[k].token) ==> k == ld.key && s.db.locks[k].expiresAt == ld.lease
  }

  ghost predicate TokensUnique(s: State)
  {
    forall r1, r2 :: r1 in s.loads && r2 in s.loads && r1 != r2 && s.loads[r1].token.Some? ==>
      s.loads[r1].token != s.loads[r2].token
  }

  ghost predicate Inv(s: State)
  {
    && (forall k :: k in s.db.locks ==> s.db.locks[k].token in s.tokens)
    && (forall r, k :: r in s.loads && k in s.db.locks ==> LockIntact(s, r, k))
    && (forall r :: r in s.loads ==> LoadOk(s, r))
    && TokensUnique(s)
  }

  lemma InitInv(s: State)
    requires Init(s)
    ensures Inv(s)
  {
  }

  lemma TokensStayUnique(s: State, s': State, r: nat)
    requires Inv(s) && r in s'.loads && s'.loads == s.loads[r := s'.loads[r]]
    requires s'.loads[r].token.Some? ==>
      s'.loads[r].token.value !in s.tokens || (r in s.loads && s'.loads[r].token == s.loads[r].token)
    ensures TokensUnique(s')
  {
    forall r1, r2 | r1 in s'.loads && r2 in s'.loads && r1 != r2 && s'.loads[r1].token.Some?
      ensures s'.loads[r1].token != s'.loads[r2].token
    {
      if r1 != r { assert LoadOk(s, r1); }
      if r2 != r { assert LoadOk(s, r2); }
    }
  }

  /** A step of r that leaves the locks alone. */
  lemma LocalInv(s: State, s': State, r: nat)
    requires Inv(s) && s'.cfg == s.cfg && s'.db.now == s.db.now && s'.db.locks == s.db.locks && s.tokens <= s'.tokens
    requires r in s'.loads && s'.loads == s.loads[r := s'.loads[r]]
    requires s'.loads[r].token.Some? ==>
      r in s.loads && s'.loads[r].token == s.loads[r].token && s'.loads[r].lease == s.loads[r].lease && s'.loads[r].key == s.loads[r].key
    requires LoadOk(s', r)
    ensures Inv(s')
  {
    TokensStayUnique(s, s', r);
    forall q, k | q in s'.loads && k in s'.db.locks
      ensures LockIntact(s', q, k)
    {
      if q in s.loads { assert LockIntact(s, q, k); }
    }
    forall q | q in s'.loads
      ensures LoadOk(s', q)
    {
      if q != r { assert LoadOk(s, q); }
    }
  }

  /** A step of r that takes or drops the lock of its key, when that lock is free or its own. */
  lemma LockInv(s: State, s': State, r: nat)
    requires Inv(s) && r in s.loads && r in s'.loads && s'.loads == s.loads[r := s'.loads[r]]
    requires s'.cfg == s.cfg && s'.db.now == s.db.now && s.tokens <= s'.tokens
    requires var k := s.loads[r].key; s'.db.locks - {k} == s.db.locks - {k}
    requires var k := s.loads[r].key; !Locked(s.db, k) || (s.loads[r].token.Some? && Owns(s.db, k, s.loads[r].token.value))
    requires s'.loads[r].key == s.loads[r].key
    requires s'.loads[r].token.Some? ==>
      s'.loads[r].token.value !in s.tokens
      || (s'.loads[r].token == s.loads[r].token && s'.loads[r].lease == s.loads[r].lease)
    requires LoadOk(s', r)
    requires var k := s.loads[r].key; k in s'.db.locks && (k in s.db.locks ==> s'.db.locks[k] != s.db.locks[k]) ==>
      s'.db.locks[k].token in s'.tokens - s.tokens && LockIntact(s', r, k)
    ensures Inv(s')
  {
    var key := s.loads[r].key;
    TokensStayUnique(s, s', r);
    forall k | k in s'.db.locks
      ensures s'.db.locks[k].token in s'.tokens
    {
      if k != key { SameElsewhere(s.db.locks, s'.db.locks, key, k); }
    }
    forall q, k | q in s'.loads && k in s'.db.locks
      ensures LockIntact(s', q, k)
    {
      if k != key { SameElsewhere(s.db.locks, s'.db.locks, key, k); }
      assert LoadOk(s, q);
      if k in s.db.locks { assert LockIntact(s, q, k); }
    }
    forall q | q in s'.loads
      ensures LoadOk(s', q)
    {
      if q != r {
        assert LoadOk(s, q);
        if s.loads[q].key != key { SameElsewhere(s.db.locks, s'.db.locks, key, s.loads[q].key); }
      }
    }
  }

  lemma SameElsewhere(m: map<string, Lock>, m': map<string, Lock>, key: string, k: string)
    requires m' - {key} == m - {key} && k != key
    ensures k in m <==> k in m'
    ensures k in m ==> m[k] == m'[k]
  {
    assert k in m <==> k in m - {key};
    assert k in m' <==> k in m' - {key};
    assert k in m ==> (m - {key})[k] == m[k] && (m' - {key})[k] == m'[k];
  }

  lemma ClockOrQuotesInv(s: State, s': State)
    requires Inv(s) && s' == s.(db := s'.db) && s'.db.locks == s.db.locks && s.db.now <= s'.db.now
    ensures Inv(s')
  {
    forall r, k | r in s'.loads && k in s'.db.locks
      ensures LockIntact(s', r, k)
    {
      assert LockIntact(s, r, k);
    }
    forall r | r in s'.loads
      ensures LoadOk(s', r)
    {
      assert LoadOk(s, r);
    }
  }

  lemma ReadInv(s: State, a: Action)
    requires Inv(s) && Enabled(s, a) && (a.Read? || a.DoubleCheck?)
    ensures Inv(Next(s, a))
  {
    var ld := s.loads[a.r];
    assert LoadOk(s, a.r);
    if ReadShared(s.cfg, s.db, ld.key).Some? {
      assert Accept(s.cfg, s.db.quotes[ld.key].raw.data) == ReadShared(s.cfg, s.db, ld.key);
    }
    LocalInv(s, Next(s, a), a.r);
  }

  lemma AcquireInv(s: State, a: Action)
    requires Inv(s) && Enabled(s, a) && (a.TryAcquire? || a.AcquireUnacked?)
    ensures Inv(Next(s, a))
  {
    var key, s' := s.loads[a.r].key, Next(s, a);
    assert LoadOk(s, a.r);
    if Locked(s.db, key) {
      LocalInv(s, s', a.r);
    } else {
      assert s'.db.locks - {key} == s.db.locks - {key};
      LockInv(s, s', a.r);
    }
  }

  lemma ReleaseInv(s: State, r: nat)
    requires Inv(s) && Enabled(s, ReleaseLock(r))
    ensures Inv(Next(s, ReleaseLock(r)))
  {
    var ld, s' := s.loads[r], Next(s, ReleaseLock(r));
    assert LoadOk(s, r);
    if Owns(s.db, ld.key, ld.token.value) {
      assert s'.db.locks - {ld.key} == s.db.locks - {ld.key};
      LockInv(s, s', r);
    } else {
      LocalInv(s, s', r);
    }
  }

  /** Every step keeps the invariant. */
  lemma NextInv(s: State, a: Action)
    requires Inv(s) && Enabled(s, a)
    ensures Inv(Next(s, a))
  {
    match a
    case Tick(_) => ClockOrQuotesInv(s, Next(s, a));
    case Invalidate(_) => ClockOrQuotesInv(s, Next(s, a));
    case Foreign(_, _, _) => ClockOrQuotesInv(s, Next(s, a));
    case Start(r, _, _) => LocalInv(s, Next(s, a), r);
    case Read(_) => ReadInv(s, a);
    case DoubleCheck(_) => ReadInv(s, a);
    case TryAcquire(_, _) => AcquireInv(s, a);
    case AcquireUnacked(_, _) => AcquireInv(s, a);
    case ReleaseLock(r) => ReleaseInv(s, r);
    case _ => OwnStepInv(s, a);
  }

  /** A call that moves on by itself. */
  predicate OwnStep(a: Action)
  {
    a.Wake? || a.RedisError? || a.Loaded? || a.LoaderError? || a.Publish? || a.PublishError? || a.ReleaseError? || a.Crash?
  }

  lemma OwnStepInv(s: State, a: Action)
    requires Inv(s) && Enabled(s, a) && OwnStep(a)
    ensures Inv(Next(s, a))
  {
    assert LoadOk(s, a.r);
    LocalInv(s, Next(s, a), a.r);
  }

  // ---- runs -----------------------------------------------------------------------

  ghost predicate Possible(s: State, run: seq<Action>)
    decreases |run|
  {
    run == [] || (Enabled(s, run[0]) && Possible(Next(s, run[0]), run[1..]))
  }

  ghost function After(s: State, run: seq<Action>): State
    requires Possible(s, run)
    decreases |run|
  {
    if run == [] then s else After(Next(s, run[0]), run[1..])
  }

  lemma {:induction false} RunInv(s: State, run: seq<Action>)
    requires Inv(s) && Possible(s, run)
    ensures Inv(After(s, run))
    decreases |run|
  {
    if run == [] {
    } else {
      NextInv(s, run[0]);
      RunInv(Next(s, run[0]), run[1..]);
    }
  }

  /** A state that some run reaches. */
  ghost predicate Reachable(s: State)
  {
    exists s0, run :: Init(s0) && Possible(s0, run) && s == After(s0, run)
  }

  lemma ReachableInv(s: State)
    requires Reachable(s)
    ensures Inv(s)
  {
    var s0, run :| Init(s0) && Possible(s0, run) && s == After(s0, run);
    InitInv(s0);
    RunInv(s0, run);
  }

  /** Two leaders for one key at once: one of the leases has run out. */
  lemma OneLeader(s: State, r1: nat, r2: nat)
    requires Reachable(s) && r1 in s.loads && r2 in s.loads && r1 != r2
    requires s.loads[r1].key == s.loads[r2].key
    requires Holding(s.loads[r1]) && Holding(s.loads[r2])
    ensures s.db.now >= s.loads[r1].lease || s.db.now >= s.loads[r2].lease
  {
    ReachableInv(s);
    assert LoadOk(s, r1) && LoadOk(s, r2);
  }

  /** A release removes the caller's own lock, exactly while its lease lasts, and nothing else. */
  lemma ReleaseIsOwn(s: State, r: nat, k: string)
    requires Reachable(s) && Enabled(s, ReleaseLock(r)) && k in s.db.locks
    ensures k !in Next(s, ReleaseLock(r)).db.locks <==> k == s.loads[r].key && s.db.now < s.loads[r].lease
    ensures k !in Next(s, ReleaseLock(r)).db.locks ==> s.loads[r].token == Some(s.db.locks[k].token)
    ensures k in Next(s, ReleaseLock(r)).db.locks ==> Next(s, ReleaseLock(r)).db.locks[k] == s.db.locks[k]
  {
    ReachableInv(s);
    assert LoadOk(s, r) && LockIntact(s, r, k);
  }

  /** A quote for k that readers accept, good until at least `until`. */
  ghost predicate Fresh(s: State, k: string, until: nat)
  {
    && ReadShared(s.cfg, s.db, k).Some?
    && until <= s.db.quotes[k].expiresAt && until <= s.db.now + s.cfg.sharedTtl
  }

  /** Steps that can take a fresh quote away before its time. */
  ghost predicate Spoils(s: State, a: Action, k: string)
    requires Enabled(s, a)
  {
    || (a.Invalidate? && a.key == k)
    || (a.Foreign? && a.key == k)
    || (a.Publish? && s.loads[a.r].key == k && Accept(s.cfg, s.loads[a.r].pc.data).None?)
  }

  /** Publishing an acceptable quote makes it fresh for its whole TTL. */
  lemma PublishMakesFresh(s: State, r: nat)
    requires Enabled(s, Publish(r)) && s.cfg.sharedTtl > 0
    requires Accept(s.cfg, s.loads[r].pc.data).Some?
    ensures Fresh(Next(s, Publish(r)), s.loads[r].key, s.db.now + s.cfg.sharedTtl)
  {
  }

  lemma FreshStep(s: State, a: Action, k: string, until: nat)
    requires Enabled(s, a) && Fresh(s, k, until) && !Spoils(s, a, k)
    requires Next(s, a).db.now < until
    ensures Fresh(Next(s, a), k, until)
    ensures a.DoubleCheck? && s.loads[a.r].key == k ==> !Next(s, a).loads[a.r].pc.Leading?
  {
  }

  lemma {:induction false} ClockMonotone(s: State, run: seq<Action>)
    requires Possible(s, run)
    ensures s.db.now <= After(s, run).db.now
    decreases |run|
  {
    if run == [] {
    } else {
      ClockMonotone(Next(s, run[0]), run[1..]);
    }
  }

  /** The step by which a call for k starts its loader as leader. */
  ghost predicate Leads(s: State, a: Action, k: string)
    requires Enabled(s, a)
  {
    a.DoubleCheck? && s.loads[a.r].key == k && Next(s, a).loads[a.r].pc.Leading?
  }

  ghost predicate LeadsAt(s: State, run: seq<Action>, i: nat, k: string)
  {
    i < |run| && Possible(s, run[..i]) && Enabled(After(s, run[..i]), run[i]) && Leads(After(s, run[..i]), run[i], k)
  }

  ghost predicate SpoilsAt(s: State, run: seq<Action>, j: nat, k: string)
  {
    j < |run| && Possible(s, run[..j]) && Enabled(After(s, run[..j]), run[j]) && Spoils(After(s, run[..j]), run[j], k)
  }

  lemma ShiftRun(s: State, run: seq<Action>, i: nat, k: string)
    requires Possible(s, run) && 0 < i < |run|
    ensures LeadsAt(s, run, i, k) <==> LeadsAt(Next(s, run[0]), run[1..], i - 1, k)
    ensures SpoilsAt(s, run, i, k) <==> SpoilsAt(Next(s, run[0]), run[1..], i - 1, k)
  {
    assert run[..i][1..] == run[1..][..i - 1];
  }

  /**
   * After a fresh quote for k, a call becomes leader for k before the quote's
   * time is up only if it was invalidated, overwritten by somebody else, or
   * replaced by a quote that fails validation.
   */
  lemma {:induction false} SecondLeaderNeedsSpoiling(s: State, run: seq<Action>, k: string, until: nat, i: nat)
    requires Possible(s, run) && Fresh(s, k, until) && After(s, run).db.now < until
    requires LeadsAt(s, run, i, k)
    ensures exists j :: 0 <= j < i && SpoilsAt(s, run, j, k)
    decreases i
  {
    var a, s1 := run[0], Next(s, run[0]);
    ClockMonotone(s1, run[1..]);
    assert run[..0] == [];
    if Spoils(s, a, k) {
      assert SpoilsAt(s, run, 0, k);
    } else {
      FreshStep(s, a, k, until);
      ShiftRun(s, run, i, k);
      SecondLeaderNeedsSpoiling(s1, run[1..], k, until, i - 1);
      var j :| 0 <= j < i - 1 && SpoilsAt(s1, run[1..], j, k);
      ShiftRun(s, run, j + 1, k);
    }
  }

  /**
   * Once a leader has published an acceptable quote, another call leads for the
   * same key within the quote's TTL only if in between the quote was
   * invalidated, overwritten by somebody else, or replaced by one that fails
   * validation.
   */
  lemma SecondLeaderAfterPublish(s: State, run: seq<Action>, r: nat, i: nat)
    requires Possible(s, run) && 0 < i < |run| && run[0] == Publish(r)
    requires Accept(s.cfg, s.loads[r].pc.data).Some? && LeadsAt(s, run, i, s.loads[r].key)
    requires After(s, run).db.now < s.db.now + s.cfg.sharedTtl
    ensures exists j :: 0 < j < i && SpoilsAt(s, run, j, s.loads[r].key)
  {
    var s1, k := Next(s, run[0]), s.loads[r].key;
    ClockMonotone(s1, run[1..]);
    PublishMakesFresh(s, r);
    ShiftRun(s, run, i, k);
    SecondLeaderNeedsSpoiling(s1, run[1..], k, s.db.now + s.cfg.sharedTtl, i - 1);
    var j :| 0 <= j < i - 1 && SpoilsAt(s1, run[1..], j, k);
    ShiftRun(s, run, j + 1, k);
  }

  // ---- two leaders ------------------------------------------------------------------

  lemma {:induction false} SplitRun(s: State, run: seq<Action>, m: nat)
    requires Possible(s, run) && m <= |run|
    ensures Possible(s, run[..m]) && Possible(After(s, run[..m]), run[m..])
    ensures After(s, run) == After(After(s, run[..m]), run[m..])
    decreases m
  {
    if m == 0 {
      assert run[..0] == [] && run[0..] == run;
    } else {
      SplitRun(Next(s, run[0]), run[1..], m - 1);
      assert run[..m][1..] == run[1..][..m - 1] && run[m..] == run[1..][m - 1..];
    }
  }

  /** What happens in a run happens in its rest, so much earlier. */
  lemma {:induction false} ShiftBy(s: State, run: seq<Action>, m: nat, n: nat, k: string)
    requires Possible(s, run) && m + n < |run|
    ensures Possible(s, run[..m])
    ensures LeadsAt(s, run, m + n, k) <==> LeadsAt(After(s, run[..m]), run[m..], n, k)
    ensures SpoilsAt(s, run, m + n, k) <==> SpoilsAt(After(s, run[..m]), run[m..], n, k)
    decreases m
  {
    if m == 0 {
      assert run[..0] == [] && run[0..] == run;
    } else {
      ShiftRun(s, run, m + n, k);
      ShiftBy(Next(s, run[0]), run[1..], m - 1, n, k);
      assert run[..m][1..] == run[1..][..m - 1] && run[m..] == run[1..][m - 1..];
    }
  }

  predicate Leader(ld: Load) { ld.pc.Leading? || ld.pc.Publishing? }

  /** The step by which a leader is done with its loader and with publishing. */
  predicate EndsLead(a: Action, r: nat) { a == LoaderError(r) || a == Crash(r) || a == PublishError(r) || a == Publish(r) }

  /** A call that leads no more has ended its lead somewhere in between. */
  lemma {:induction false} LeadEnds(s: State, run: seq<Action>, r: nat) returns (m: nat)
    requires Possible(s, run) && r in s.loads && Leader(s.loads[r])
    requires r in After(s, run).loads ==> !Leader(After(s, run).loads[r])
    ensures m < |run| && EndsLead(run[m], r) && Possible(s, run[..m]) && Enabled(After(s, run[..m]), run[m])
    ensures After(s, run[..m]).loads[r].key == s.loads[r].key && After(s, run[..m]).cfg == s.cfg
    decreases |run|
  {
    if EndsLead(run[0], r) {
      m := 0;
      assert run[..0] == [];
    } else {
      LeadGoesOn(s, run[0], r);
      var n := LeadEnds(Next(s, run[0]), run[1..], r);
      m := n + 1;
      assert run[..m][1..] == run[1..][..n];
    }
  }

  lemma LeadGoesOn(s: State, a: Action, r: nat)
    requires Enabled(s, a) && r in s.loads && Leader(s.loads[r]) && !EndsLead(a, r)
    ensures r in Next(s, a).loads && Leader(Next(s, a).loads[r]) && Next(s, a).loads[r].key == s.loads[r].key
    ensures Next(s, a).cfg == s.cfg
  {
  }

  /** No call that holds a lock has outlived its lease. */
  ghost predicate NoLeaseExpired(s: State) { forall r :: r in s.loads && Holding(s.loads[r]) ==> s.db.now < s.loads[r].lease }

  /**
   * Why leader r1 left nothing for a later leader at step j: its loader failed,
   * it crashed, publishing failed; or what it published was not acceptable, has
   * expired, or was spoiled before j.
   */
  ghost predicate Reason(s: State, run: seq<Action>, m: nat, j: nat, r1: nat, k: string)
  {
    && m < j <= |run| && EndsLead(run[m], r1)
    && (run[m].Publish? ==>
          && Possible(s, run[..m]) && Possible(s, run[..j]) && Enabled(After(s, run[..m]), run[m])
          && var before := After(s, run[..m]);
          || Accept(before.cfg, before.loads[r1].pc.data).None?
          || After(s, run[..j]).db.now >= before.db.now + before.cfg.sharedTtl
          || exists n :: m < n < j && SpoilsAt(s, run, n, k))
  }

  /**
   * If no lease expires before its holder releases, the leaders of a key do not
   * overlap, and a second one has a reason: something kept the first from
   * publishing a quote that is still there.
   */
  lemma SecondLeaderHasReason(s: State, run: seq<Action>, k: string, i: nat, j: nat)
    requires Reachable(s) && Possible(s, run) && i < j && LeadsAt(s, run, i, k) && LeadsAt(s, run, j, k)
    requires NoLeaseExpired(After(s, run[..j]))
    ensures exists m :: i < m < j && Reason(s, run, m, j, run[i].r, k)
  {
    var m := LeadEndsBetween(s, run, k, i, j);
    if run[m].Publish? {
      PublishedReason(s, run, m, j, k);
    }
    assert Reason(s, run, m, j, run[i].r, k);
  }

  /** The first leader ends its lead before the second begins. */
  lemma LeadEndsBetween(s: State, run: seq<Action>, k: string, i: nat, j: nat) returns (m: nat)
    requires Reachable(s) && Possible(s, run) && i < j && LeadsAt(s, run, i, k) && LeadsAt(s, run, j, k)
    requires NoLeaseExpired(After(s, run[..j]))
    ensures i < m < j && EndsLead(run[m], run[i].r) && Possible(s, run[..m]) && Enabled(After(s, run[..m]), run[m])
    ensures After(s, run[..m]).loads[run[i].r].key == k
  {
    AfterLeads(s, run, i, k);
    ReachesBefore(s, run, i + 1, j);
    FirstIsDone(s, run, k, i, j);
    var between := run[i + 1..j];
    var n := LeadEnds(After(s, run[..i + 1]), between, run[i].r);
    m := i + 1 + n;
    ReachesBefore(s, run, i + 1, m);
    assert between[..n] == run[i + 1..m];
  }

  lemma FirstIsDone(s: State, run: seq<Action>, k: string, i: nat, j: nat)
    requires Reachable(s) && Possible(s, run) && i < j && LeadsAt(s, run, i, k) && LeadsAt(s, run, j, k)
    requires NoLeaseExpired(After(s, run[..j]))
    ensures run[i].r in After(s, run[..j]).loads && !Leader(After(s, run[..j]).loads[run[i].r])
  {
    AfterLeads(s, run, i, k);
    ReachesBefore(s, run, i + 1, j);
    CallKeepsKey(After(s, run[..i + 1]), run[i + 1..j], run[i].r);
    ReachableInv(s);
    RunInv(s, run[..j]);
    NotLeaderAt(After(s, run[..j]), run[i].r, run[j].r, k);
  }

  /** A call stays with its key. */
  lemma {:induction false} CallKeepsKey(s: State, run: seq<Action>, r: nat)
    requires Possible(s, run) && r in s.loads
    ensures r in After(s, run).loads && After(s, run).loads[r].key == s.loads[r].key
    decreases |run|
  {
    if run == [] {
    } else {
      CallKeepsKey(Next(s, run[0]), run[1..], r);
    }
  }

  lemma AfterLeads(s: State, run: seq<Action>, i: nat, k: string)
    requires Possible(s, run) && LeadsAt(s, run, i, k)
    ensures Possible(s, run[..i + 1])
    ensures var s1, r := After(s, run[..i + 1]), run[i].r; r in s1.loads && s1.loads[r].pc.Leading? && s1.loads[r].key == k
    ensures After(s, run[..i + 1]) == Next(After(s, run[..i]), run[i])
  {
    SplitRun(s, run, i + 1);
    SplitRun(s, run[..i + 1], i);
    assert run[..i + 1][..i] == run[..i] && run[..i + 1][i..] == [run[i]];
  }

  lemma ReachesBefore(s: State, run: seq<Action>, i: nat, j: nat)
    requires Possible(s, run) && i <= j <= |run|
    ensures Possible(s, run[..i]) && Possible(s, run[..j]) && Possible(After(s, run[..i]), run[i..j])
    ensures After(s, run[..j]) == After(After(s, run[..i]), run[i..j])
  {
    SplitRun(s, run, j);
    SplitRun(s, run[..j], i);
    assert run[..j][..i] == run[..i] && run[..j][i..] == run[i..j];
  }

  lemma NotLeaderAt(s: State, r1: nat, r2: nat, k: string)
    requires Inv(s) && NoLeaseExpired(s) && r2 in s.loads && s.loads[r2].pc.DoubleChecking? && s.loads[r2].key == k
    ensures r1 in s.loads && s.loads[r1].key == k ==> !Leader(s.loads[r1])
  {
    assert (r1 in s.loads ==> LoadOk(s, r1)) && LoadOk(s, r2);
  }

  /** A leader after an acceptable publication. */
  lemma PublishedReason(s: State, run: seq<Action>, m: nat, j: nat, k: string)
    requires Possible(s, run) && m < j < |run| && LeadsAt(s, run, j, k) && run[m].Publish?
    requires Possible(s, run[..m]) && Enabled(After(s, run[..m]), run[m]) && After(s, run[..m]).loads[run[m].r].key == k
    requires Possible(s, run[..j])
    ensures var before := After(s, run[..m]);
      || Accept(before.cfg, before.loads[run[m].r].pc.data).None?
      || After(s, run[..j]).db.now >= before.db.now + before.cfg.sharedTtl
      || exists n :: m < n < j && SpoilsAt(s, run, n, k)
  {
    var before := After(s, run[..m]);
    LastIsLead(s, run, j, k);
    assert run[..j + 1][..m] == run[..m];
    if Accept(before.cfg, before.loads[run[m].r].pc.data).Some? && After(s, run[..j]).db.now < before.db.now + before.cfg.sharedTtl {
      var n := SpoiledBetween(s, run[..j + 1], m, k);
      assert run[..j + 1][..n] == run[..n];
      assert SpoilsAt(s, run, n, k);
    }
  }

  lemma LastIsLead(s: State, run: seq<Action>, j: nat, k: string)
    requires Possible(s, run) && LeadsAt(s, run, j, k)
    ensures Possible(s, run[..j + 1]) && LeadsAt(s, run[..j + 1], j, k)
    ensures After(s, run[..j + 1]).db.now == After(s, run[..j]).db.now
  {
    AfterLeads(s, run, j, k);
    assert run[..j + 1][..j] == run[..j];
  }

  lemma SpoiledBetween(s: State, run: seq<Action>, m: nat, k: string) returns (n: nat)
    requires Possible(s, run) && m + 1 < |run| && LeadsAt(s, run, |run| - 1, k) && run[m].Publish?
    requires Possible(s, run[..m]) && Enabled(After(s, run[..m]), run[m]) && After(s, run[..m]).loads[run[m].r].key == k
    requires var before := After(s, run[..m]);
      && Accept(before.cfg, before.loads[run[m].r].pc.data).Some?
      && After(s, run).db.now < before.db.now + before.cfg.sharedTtl
    ensures m < n < |run| - 1 && SpoilsAt(s, run, n, k)
  {
    var before, rest := After(s, run[..m]), run[m..];
    SplitRun(s, run, m);
    ShiftBy(s, run, m, |run| - 1 - m, k);
    SecondLeaderAfterPublish(before, rest, run[m].r, |run| - 1 - m);
    var d :| 0 < d < |run| - 1 - m && SpoilsAt(before, rest, d, k);
    ShiftBy(s, run, m, d, k);
    n := m + d;
  }

  /** A result taken from the shared store is a good quote, whoever wrote the store. */
  lemma SharedResultIsGood(s: State, r: nat, env: Env)
    requires Reachable(s) && ServiceConfig(s.cfg, env)
    requires r in s.loads && s.loads[r].result.Got? && s.loads[r].result.source.FromShared?
    ensures exists q :: GoodQuote(env, q) && s.loads[r].result.data == QuoteJson(q)
  {
    ReachableInv(s);
    assert LoadOk(s, r);
    var raw :| Accept(s.cfg, raw) == Some(s.loads[r].result.data);
    assert SanitizeJson(env, raw) == Some(s.loads[r].result.data);
    SanitizedQuoteIsGood(env, raw);
  }
}
