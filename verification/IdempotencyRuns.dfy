/** Any number of requests, interleaved with the clock and with lost or failed commands. */
module IdempotencyRuns {
  import opened Prelude
  import opened Idempotency

  /** A response stored under a key, and the request that stored it. */
  datatype Completion = Completion(key: string, hash: string, status: int, body: Option<string>, writer: nat)

  datatype State = State(
    db: Db,
    requests: map<nat, Request>,
    tokens: set<string>,              // every token ever drawn or found in the store
    initial: map<string, Entry>,      // the store at the start
    completions: set<Completion>,
    lockTtl: nat,
    ttl: nat)

  datatype Action =
    | Tick(ms: nat)
    | Arrive(r: nat, key: string, hash: string)
    | Lookup(r: nat)
    | Delete(r: nat)
    | Claim(r: nat, token: string)
    | ClaimUnacked(r: nat, token: string)              // SET executed, reply lost: fail open
    | ReadWinner(r: nat)
    | Fail(r: nat)                                     // command not executed: fail open
    | Respond(r: nat, status: int, body: Option<string>)
    | Close(r: nat)
    | Complete(r: nat)
    | Release(r: nat)
    | SettleFail(r: nat)                               // completion or release never reaches the store

  function TokenOf(raw: Raw): Option<string>
  {
    if raw.Object? then raw.token else None
  }

  predicate Init(s: State)
  {
    && s.requests == map[] && s.completions == {} && s.initial == s.db.entries
    && (forall k :: k in s.db.entries ==> ParseRecord(s.db.entries[k].raw).Some?)
    && (forall k :: k in s.db.entries && TokenOf(s.db.entries[k].raw).Some? ==>
          TokenOf(s.db.entries[k].raw).value in s.tokens)
  }

  predicate Enabled(s: State, a: Action)
  {
    match a
    case Tick(_) => true
    case Arrive(r, _, hash) => r !in s.requests && hash != ""
    case Lookup(r) => r in s.requests && s.requests[r].pc.Start?
    case Delete(r) => r in s.requests && s.requests[r].pc.Deleting?
    case Claim(r, token) => r in s.requests && s.requests[r].pc.Claiming? && token !in s.tokens
    case ClaimUnacked(r, token) => r in s.requests && s.requests[r].pc.Claiming? && token !in s.tokens
    case ReadWinner(r) => r in s.requests && s.requests[r].pc.Contended?
    case Fail(r) =>
      r in s.requests && (s.requests[r].pc.Start? || s.requests[r].pc.Deleting? || s.requests[r].pc.Claiming? || s.requests[r].pc.Contended?)
    case Respond(r, _, _) => r in s.requests && s.requests[r].pc.Running?
    case Close(r) => r in s.requests && s.requests[r].pc.Running?
    case Complete(r) => r in s.requests && s.requests[r].pc.Completing? && s.requests[r].token.Some?
    case Release(r) => r in s.requests && s.requests[r].pc.Releasing? && s.requests[r].token.Some?
    case SettleFail(r) => r in s.requests && (s.requests[r].pc.Completing? || s.requests[r].pc.Releasing?)
  }

  function With(s: State, r: nat, db: Db, rq: Request): State
  {
    s.(db := db, requests := s.requests[r := rq])
  }

  function Next(s: State, a: Action): State
    requires Enabled(s, a)
  {
    match a
    case Tick(ms) => s.(db := s.db.(now := s.db.now + ms))
    case Arrive(r, key, hash) => With(s, r, s.db, NewRequest(key, hash))
    case Lookup(r) => With(s, r, s.db, LookupStep(s.db, s.requests[r]))
    case Delete(r) => var (db, rq) := DeleteStep(s.db, s.requests[r]); With(s, r, db, rq)
    case Claim(r, token) =>
      var (db, rq) := ClaimStep(s.db, s.requests[r], token, s.lockTtl);
      With(s, r, db, rq).(tokens := s.tokens + {token})
    case ClaimUnacked(r, token) =>
      var (db, rq) := ClaimStep(s.db, s.requests[r], token, s.lockTtl);
      With(s, r, db, rq.(lockAcquired := false, pc := Finished, answer := Unprotected)).(tokens := s.tokens + {token})
    case ReadWinner(r) => With(s, r, s.db, ReadWinnerStep(s.db, s.requests[r]))
    case Fail(r) => With(s, r, s.db, s.requests[r].(pc := Finished, answer := Unprotected))
    case Respond(r, status, body) => With(s, r, s.db, RespondStep(s.requests[r], status, body))
    case Close(r) => With(s, r, s.db, CloseStep(s.requests[r]))
    case Complete(r) =>
      var rq := s.requests[r];
      var (db, rq') := CompleteStep(s.db, rq, s.ttl);
      var s' := With(s, r, db, rq');
      if Owns(s.db, rq.key, rq.token.value) then
        s'.(completions := s.completions + {Completion(rq.key, rq.hash, rq.pc.status, rq.pc.body, r)})
      else s'
    case Release(r) => var (db, rq) := ReleaseStep(s.db, s.requests[r]); With(s, r, db, rq)
    case SettleFail(r) => With(s, r, s.db, s.requests[r].(pc := Finished))
  }

  // ---- the invariant --------------------------------------------------------------

  ghost predicate EntryOk(s: State, k: string)
    requires k in s.db.entries
  {
    var e := s.db.entries[k];
    && ParseRecord(e.raw).Some?
    && (TokenOf(e.raw).Some? ==> TokenOf(e.raw).value in s.tokens)
    && (ParseRecord(e.raw).value.completed ==> Provenance(s, k, e))
  }

  /** A completed record was there from the start or stored by a request of this run. */
  ghost predicate Provenance(s: State, k: string, e: Entry)
  {
    (k in s.initial && s.initial[k] == e) || exists c :: c in s.completions && c.key == k && e.raw == StoredBy(c)
  }

  function StoredBy(c: Completion): Raw { CompletedRaw(c.hash, c.status, c.body) }

  /** An entry carrying the request's token is the claim that request wrote, unchanged. */
  ghost predicate ClaimIntact(s: State, r: nat, k: string)
    requires r in s.requests && k in s.db.entries
  {
    var rq, e := s.requests[r], s.db.entries[k];
    rq.token.Some? && TokenOf(e.raw) == rq.token ==>
      k == rq.key && e == Entry(InflightRaw(rq.hash, rq.token.value), rq.lease)
  }

  ghost predicate RequestOk(s: State, r: nat)
    requires r in s.requests
  {
    var rq := s.requests[r];
    && !rq.pc.Deleting? && rq.hash != ""
    && (rq.token.Some? ==> rq.token.value in s.tokens)
    && (rq.pc.Start? || rq.pc.Claiming? || rq.pc.Contended? || rq.pc.Running? ==> rq.answer.Unanswered? && !rq.settled)
    && (Holding(rq) ==> rq.token.Some? && LeaseHolds(s, rq))
    && (rq.pc.Completing? || rq.pc.Releasing? ==> rq.settled)
    && (rq.pc.Completing? ==> 200 <= rq.pc.status < 300 && rq.answer == Own(rq.pc.status, rq.pc.body))
    && (rq.answer.Replay? ==> ReplayOk(s, rq))
  }

  /** Until the lease ends, the store holds the claim. */
  ghost predicate LeaseHolds(s: State, rq: Request)
    requires rq.token.Some?
  {
    s.db.now < rq.lease ==>
      rq.key in s.db.entries && s.db.entries[rq.key] == Entry(InflightRaw(rq.hash, rq.token.value), rq.lease)
  }

  ghost predicate ReplayOk(s: State, rq: Request)
  {
    || (rq.key in s.initial && ParseRecord(s.initial[rq.key].raw).Some?
        && rq.answer == Resolve(rq, ParseRecord(s.initial[rq.key].raw).value).answer)
    || exists c :: c in s.completions && c.key == rq.key && c.hash == rq.hash && rq.answer == Replay(c.status, c.body)
  }

  /** A stored response is the one its request sent. */
  ghost predicate CompletionOk(s: State, c: Completion)
  {
    && c.writer in s.requests
    && s.requests[c.writer].key == c.key && s.requests[c.writer].hash == c.hash
    && s.requests[c.writer].answer == Own(c.status, c.body)
    && s.requests[c.writer].pc.Finished? && 200 <= c.status < 300
  }

  ghost predicate TokensUnique(s: State)
  {
    forall r1, r2 :: r1 in s.requests && r2 in s.requests && r1 != r2 && s.requests[r1].token.Some? ==>
      s.requests[r1].token != s.requests[r2].token
  }

  ghost predicate Inv(s: State)
  {
    && (forall k :: k in s.db.entries ==> EntryOk(s, k))
    && (forall r, k :: r in s.requests && k in s.db.entries ==> ClaimIntact(s, r, k))
    && (forall r :: r in s.requests ==> RequestOk(s, r))
    && (forall c :: c in s.completions ==> CompletionOk(s, c))
    && TokensUnique(s)
  }

  lemma InitInv(s: State)
    requires Init(s)
    ensures Inv(s)
  {
  }

  /** A step of r that leaves the store alone. */
  lemma LocalInv(s: State, r: nat, rq: Request, tokens: set<string>)
    requires Inv(s) && s.tokens <= tokens
    requires r in s.requests ==> !s.requests[r].pc.Finished? && rq.key == s.requests[r].key && rq.hash == s.requests[r].hash
    requires rq.token.Some? ==>
      rq.token.value !in s.tokens || (r in s.requests && rq.token == s.requests[r].token && rq.lease == s.requests[r].lease)
    requires RequestOk(With(s, r, s.db, rq).(tokens := tokens), r)
    ensures Inv(With(s, r, s.db, rq).(tokens := tokens))
  {
    var s' := With(s, r, s.db, rq).(tokens := tokens);
    forall k | k in s'.db.entries
      ensures EntryOk(s', k)
    {
      assert EntryOk(s, k);
    }
    forall q, k | q in s'.requests && k in s'.db.entries
      ensures ClaimIntact(s', q, k)
    {
      assert EntryOk(s, k);
      if q != r || r in s.requests { assert ClaimIntact(s, q, k); }
    }
    forall q | q in s'.requests
      ensures RequestOk(s', q)
    {
      if q != r { assert RequestOk(s, q); }
    }
    forall c | c in s'.completions
      ensures CompletionOk(s', c)
    {
      assert CompletionOk(s, c);
    }
    TokensStayUnique(s, s', r);
  }

  lemma TokensStayUnique(s: State, s': State, r: nat)
    requires Inv(s) && r in s'.requests && s'.requests == s.requests[r := s'.requests[r]]
    requires s'.requests[r].token.Some? ==>
      s'.requests[r].token.value !in s.tokens || (r in s.requests && s'.requests[r].token == s.requests[r].token)
    ensures TokensUnique(s')
  {
    forall r1, r2 | r1 in s'.requests && r2 in s'.requests && r1 != r2 && s'.requests[r1].token.Some?
      ensures s'.requests[r1].token != s'.requests[r2].token
    {
      if r1 != r { assert RequestOk(s, r1); }
      if r2 != r { assert RequestOk(s, r2); }
    }
  }

  /** A step of r that writes or deletes the entry of its key, when that entry is dead or its own. */
  lemma StoreInv(s: State, s': State, r: nat)
    requires Inv(s) && r in s.requests && !s.requests[r].pc.Finished?
    requires r in s'.requests && s'.requests == s.requests[r := s'.requests[r]]
    requires s.tokens <= s'.tokens && s.completions <= s'.completions && s.initial == s'.initial && s.db.now == s'.db.now
    requires s'.requests[r].key == s.requests[r].key && s'.requests[r].hash == s.requests[r].hash
    requires var k := s.requests[r].key; s'.db.entries - {k} == s.db.entries - {k}
    requires var k := s.requests[r].key; !Live(s.db, k) || (s.requests[r].token.Some? && Owns(s.db, k, s.requests[r].token.value))
    requires s'.requests[r].token.Some? ==>
      s'.requests[r].token.value !in s.tokens
      || (s'.requests[r].token == s.requests[r].token && s'.requests[r].lease == s.requests[r].lease)
    requires RequestOk(s', r)
    requires var k := s.requests[r].key; k in s'.db.entries ==>
      EntryOk(s', k) && ClaimIntact(s', r, k) && TokenOf(s'.db.entries[k].raw) in {None, s'.requests[r].token}
    requires forall c :: c in s'.completions - s.completions ==> CompletionOk(s', c)
    ensures Inv(s')
  {
    var key := s.requests[r].key;
    TokensStayUnique(s, s', r);
    forall k | k in s'.db.entries
      ensures EntryOk(s', k)
    {
      if k != key {
        SameElsewhere(s.db.entries, s'.db.entries, key, k);
        assert EntryOk(s, k);
      }
    }
    forall q, k | q in s'.requests && k in s'.db.entries
      ensures ClaimIntact(s', q, k)
    {
      if k != key {
        SameElsewhere(s.db.entries, s'.db.entries, key, k);
        assert EntryOk(s, k);
        assert ClaimIntact(s, q, k);
      }
    }
    forall q | q in s'.requests
      ensures RequestOk(s', q)
    {
      if q != r {
        assert RequestOk(s, q);
        LeaseKept(s, s', r, q);
      }
    }
    forall c | c in s'.completions
      ensures CompletionOk(s', c)
    {
      if c in s.completions { assert CompletionOk(s, c); }
    }
  }

  lemma SameElsewhere(m: map<string, Entry>, m': map<string, Entry>, key: string, k: string)
    requires m' - {key} == m - {key} && k != key
    ensures k in m <==> k in m'
    ensures k in m ==> m[k] == m'[k]
  {
    assert k in m <==> k in m - {key};
    assert k in m' <==> k in m' - {key};
    assert k in m ==> (m - {key})[k] == m[k] && (m' - {key})[k] == m'[k];
  }

  /** The store step of r touches no lease of another request. */
  lemma LeaseKept(s: State, s': State, r: nat, q: nat)
    requires Inv(s) && r in s.requests && q in s.requests && q != r && s.db.now == s'.db.now
    requires var k := s.requests[r].key; s'.db.entries - {k} == s.db.entries - {k}
    requires var k := s.requests[r].key; !Live(s.db, k) || (s.requests[r].token.Some? && Owns(s.db, k, s.requests[r].token.value))
    ensures Holding(s.requests[q]) ==> s.requests[q].token.Some? && LeaseHolds(s', s.requests[q])
  {
    var rq, key := s.requests[q], s.requests[r].key;
    assert RequestOk(s, q);
    if Holding(rq) && rq.key != key {
      SameElsewhere(s.db.entries, s'.db.entries, key, rq.key);
    }
  }

  lemma TickInv(s: State, ms: nat)
    requires Inv(s)
    ensures Inv(Next(s, Tick(ms)))
  {
    var s' := Next(s, Tick(ms));
    forall k | k in s'.db.entries
      ensures EntryOk(s', k)
    {
      assert EntryOk(s, k);
    }
    forall q, k | q in s'.requests && k in s'.db.entries
      ensures ClaimIntact(s', q, k)
    {
      assert ClaimIntact(s, q, k);
    }
    forall q | q in s'.requests
      ensures RequestOk(s', q)
    {
      assert RequestOk(s, q);
    }
    forall c | c in s'.completions
      ensures CompletionOk(s', c)
    {
      assert CompletionOk(s, c);
    }
  }

  /** Answering from the record found under the key. */
  lemma ResolveOk(s: State, r: nat)
    requires Inv(s) && r in s.requests && (s.requests[r].pc.Start? || s.requests[r].pc.Contended?)
    requires Live(s.db, s.requests[r].key)
    ensures ParseRecord(s.db.entries[s.requests[r].key].raw).Some?
    ensures var rq := Resolve(s.requests[r], ParseRecord(s.db.entries[s.requests[r].key].raw).value);
      RequestOk(With(s, r, s.db, rq), r)
  {
    var key := s.requests[r].key;
    assert RequestOk(s, r) && EntryOk(s, key);
  }

  lemma LookupInv(s: State, r: nat)
    requires Inv(s) && Enabled(s, Lookup(r))
    ensures Inv(Next(s, Lookup(r)))
  {
    var rq := s.requests[r];
    assert RequestOk(s, r);
    if Live(s.db, rq.key) {
      ResolveOk(s, r);
    }
    LocalInv(s, r, LookupStep(s.db, rq), s.tokens);
  }

  lemma ReadWinnerInv(s: State, r: nat)
    requires Inv(s) && Enabled(s, ReadWinner(r))
    ensures Inv(Next(s, ReadWinner(r)))
  {
    var rq := s.requests[r];
    assert RequestOk(s, r);
    if Live(s.db, rq.key) {
      ResolveOk(s, r);
    }
    LocalInv(s, r, ReadWinnerStep(s.db, rq), s.tokens);
  }

  lemma ClaimInv(s: State, a: Action)
    requires Inv(s) && Enabled(s, a) && (a.Claim? || a.ClaimUnacked?)
    ensures Inv(Next(s, a))
  {
    var rq, s' := s.requests[a.r], Next(s, a);
    assert RequestOk(s, a.r);
    if Live(s.db, rq.key) {
      LocalInv(s, a.r, s'.requests[a.r], s'.tokens);
    } else {
      assert s'.db.entries - {rq.key} == s.db.entries - {rq.key};
      StoreInv(s, s', a.r);
    }
  }

  lemma CompleteInv(s: State, r: nat)
    requires Inv(s) && Enabled(s, Complete(r))
    ensures Inv(Next(s, Complete(r)))
  {
    var rq, s' := s.requests[r], Next(s, Complete(r));
    assert RequestOk(s, r);
    if Owns(s.db, rq.key, rq.token.value) {
      var c := Completion(rq.key, rq.hash, rq.pc.status, rq.pc.body, r);
      assert s'.db.entries - {rq.key} == s.db.entries - {rq.key};
      assert c in s'.completions && s'.db.entries[rq.key].raw == StoredBy(c);
      StoreInv(s, s', r);
    } else {
      LocalInv(s, r, s'.requests[r], s'.tokens);
    }
  }

  lemma ReleaseInv(s: State, r: nat)
    requires Inv(s) && Enabled(s, Release(r))
    ensures Inv(Next(s, Release(r)))
  {
    var rq, s' := s.requests[r], Next(s, Release(r));
    assert RequestOk(s, r);
    if Owns(s.db, rq.key, rq.token.value) {
      assert s'.db.entries - {rq.key} == s.db.entries - {rq.key};
      StoreInv(s, s', r);
    } else {
      LocalInv(s, r, s'.requests[r], s'.tokens);
    }
  }

  /** The unguarded DEL is never reached. */
  lemma NeverDeletes(s: State, r: nat)
    requires Inv(s)
    ensures !Enabled(s, Delete(r))
  {
    if r in s.requests {
      assert RequestOk(s, r);
    }
  }

  /** Every step keeps the invariant. */
  lemma NextInv(s: State, a: Action)
    requires Inv(s) && Enabled(s, a)
    ensures Inv(Next(s, a))
  {
    match a
    case Tick(ms) => TickInv(s, ms);
    case Arrive(r, key, hash) => LocalInv(s, r, NewRequest(key, hash), s.tokens);
    case Lookup(r) => LookupInv(s, r);
    case Delete(r) => NeverDeletes(s, r);
    case Claim(r, token) => ClaimInv(s, a);
    case ClaimUnacked(r, token) => ClaimInv(s, a);
    case ReadWinner(r) => ReadWinnerInv(s, r);
    case Complete(r) => CompleteInv(s, r);
    case Release(r) => ReleaseInv(s, r);
    case _ =>
      assert RequestOk(s, a.r);
      LocalInv(s, a.r, Next(s, a).requests[a.r], s.tokens);
  }

  // ---- runs -----------------------------------------------------------------------

  ghost predicate Possible(s: State, run: seq<Action>)
    decreases |run|
  {
    run == [] || (Enabled(s, run[0]) && Possible(Next(s, run[0]), run[1..]))
  }

  ghost function After(s: State, run: seq<Action>): State
    requires Possible(s, run)
    decreases |run|
  {
    if run == [] then s else After(Next(s, run[0]), run[1..])
  }

  /** Every state of every run satisfies the invariant. */
  lemma {:induction false} RunInv(s: State, run: seq<Action>)
    requires Inv(s) && Possible(s, run)
    ensures Inv(After(s, run))
    decreases |run|
  {
    if run == [] {
    } else {
      NextInv(s, run[0]);
      RunInv(Next(s, run[0]), run[1..]);
    }
  }

  /** A state that some run reaches. */
  ghost predicate Reachable(s: State)
  {
    exists s0, run :: Init(s0) && Possible(s0, run) && s == After(s0, run)
  }

  lemma ReachableInv(s: State)
    requires Reachable(s)
    ensures Inv(s)
  {
    var s0, run :| Init(s0) && Possible(s0, run) && s == After(s0, run);
    InitInv(s0);
    RunInv(s0, run);
  }

  /** A live completed record under k. */
  ghost predicate Stored(s: State, k: string, e: Entry)
  {
    Live(s.db, k) && s.db.entries[k] == e && ParseRecord(e.raw).Some? && ParseRecord(e.raw).value.completed
  }

  lemma ClockStep(s: State, a: Action)
    requires Enabled(s, a)
    ensures Next(s, a).db.now >= s.db.now
  {
  }

  /** A claim is SET NX: it does not touch what lives. */
  lemma ClaimLeavesLive(db: Db, rq: Request, token: string, ttl: nat, k: string)
    requires Live(db, k) && rq.pc.Claiming?
    ensures var db' := ClaimStep(db, rq, token, ttl).0; db'.now == db.now && Live(db', k) && db'.entries[k] == db.entries[k]
  {
  }

  /** Nobody owns a completed record. */
  lemma NobodyOwnsStored(s: State, r: nat, k: string, e: Entry)
    requires Inv(s) && Stored(s, k, e) && r in s.requests && s.requests[r].token.Some?
    ensures !Owns(s.db, k, s.requests[r].token.value)
  {
    assert ClaimIntact(s, r, k);
  }

  /** Completed records outlive every step until their own expiry. */
  lemma StoredStep(s: State, a: Action, k: string, e: Entry)
    requires Inv(s) && Enabled(s, a) && Stored(s, k, e)
    ensures Next(s, a).db.now < e.expiresAt ==> Stored(Next(s, a), k, e)
  {
    match a
    case Claim(r, token) => ClaimLeavesLive(s.db, s.requests[r], token, s.lockTtl, k);
    case ClaimUnacked(r, token) => ClaimLeavesLive(s.db, s.requests[r], token, s.lockTtl, k);
    case Complete(r) => NobodyOwnsStored(s, r, k, e);
    case Release(r) => NobodyOwnsStored(s, r, k, e);
    case Delete(r) => NeverDeletes(s, r);
    case _ =>
  }

  lemma ClaimMeetsStored(s: State, r: nat, a: Action, k: string, e: Entry)
    requires Inv(s) && Enabled(s, a) && Stored(s, k, e) && a.Claim? && a.r == r && s.requests[r].key == k
    ensures !Next(s, a).requests[r].pc.Running?
  {
  }

  lemma {:induction false} ClockMonotone(s: State, run: seq<Action>)
    requires Possible(s, run)
    ensures s.db.now <= After(s, run).db.now
    decreases |run|
  {
    if run == [] {
    } else {
      ClockStep(s, run[0]);
      ClockMonotone(Next(s, run[0]), run[1..]);
    }
  }

  /** A completed record never changes until its own TTL ends, whatever the requests do. */
  lemma {:induction false} CompletedRecordIsStable(s: State, run: seq<Action>, k: string, e: Entry)
    requires Inv(s) && Possible(s, run) && Stored(s, k, e)
    requires After(s, run).db.now < e.expiresAt
    ensures Stored(After(s, run), k, e)
    decreases |run|
  {
    if run == [] {
    } else {
      var s' := Next(s, run[0]);
      ClockMonotone(s', run[1..]);
      NextInv(s, run[0]);
      StoredStep(s, run[0], k, e);
      CompletedRecordIsStable(s', run[1..], k, e);
    }
  }

  /** No handler starts under the lock of a key while a completed record for it lives. */
  lemma {:induction false} NoSecondRun(s: State, run: seq<Action>, k: string, e: Entry, i: nat)
    requires Inv(s) && Possible(s, run) && Stored(s, k, e)
    requires i < |run| && After(s, run).db.now < e.expiresAt
    requires run[i].Claim?
    ensures Possible(s, run[..i + 1])
    ensures var s' := After(s, run[..i + 1]);
      run[i].r in s'.requests && (s'.requests[run[i].r].key == k ==> !s'.requests[run[i].r].pc.Running?)
    decreases |run|
  {
    var s1, a := Next(s, run[0]), run[0];
    ClockMonotone(s1, run[1..]);
    assert run[..i + 1][1..] == run[1..][..i];
    if i == 0 {
      if s.requests[a.r].key == k {
        ClaimMeetsStored(s, a.r, a, k, e);
      }
    } else {
      StoredStep(s, a, k, e);
      NextInv(s, a);
      NoSecondRun(s1, run[1..], k, e, i - 1);
    }
  }

  /** Two requests hold the same key only if one of the leases has run out. */
  lemma ExclusiveLease(s: State, r1: nat, r2: nat)
    requires Reachable(s) && r1 in s.requests && r2 in s.requests && r1 != r2
    requires s.requests[r1].key == s.requests[r2].key
    requires Holding(s.requests[r1]) && Holding(s.requests[r2])
    ensures s.db.now >= s.requests[r1].lease || s.db.now >= s.requests[r2].lease
  {
    ReachableInv(s);
    assert RequestOk(s, r1) && RequestOk(s, r2);
  }

  /** The handler runs, or may still run for a caller that is gone: an abort does not stop it. */
  predicate HandlerRuns(rq: Request) { rq.pc.Running? || rq.answer.Aborted? }

  /**
   * Within their leases two requests of one key run their handlers at
   * once only after one was aborted and gave up its lock.
   */
  lemma OverlapNeedsAbort(s: State, r1: nat, r2: nat)
    requires Reachable(s) && r1 in s.requests && r2 in s.requests && r1 != r2
    requires s.requests[r1].key == s.requests[r2].key && HandlerRuns(s.requests[r1]) && HandlerRuns(s.requests[r2])
    requires s.db.now < s.requests[r1].lease && s.db.now < s.requests[r2].lease
    ensures exists r :: r in {r1, r2} && s.requests[r].answer.Aborted? && s.requests[r].pc.Finished?
  {
    ReachableInv(s);
    assert RequestOk(s, r1) && RequestOk(s, r2);
    if Holding(s.requests[r1]) && Holding(s.requests[r2]) {
      ExclusiveLease(s, r1, r2);
      assert false;
    }
    var r := if Holding(s.requests[r1]) then r2 else r1;
    assert s.requests[r].answer.Aborted? && s.requests[r].pc.Finished?;
  }

  /** It does happen: a retry runs the handler again while that of the aborted request goes on. */
  lemma AbortAllowsOverlap(key: string, hash: string, lockTtl: nat) returns (s: State)
    requires hash != "" && lockTtl > 0
    ensures Reachable(s) && 0 in s.requests && 1 in s.requests
    ensures s.requests[0].key == s.requests[1].key == key && s.requests[0].hash == s.requests[1].hash == hash
    ensures HandlerRuns(s.requests[0]) && HandlerRuns(s.requests[1])
    ensures s.db.now < s.requests[0].lease && s.db.now < s.requests[1].lease
  {
    var s0 := State(Db(0, map[]), map[], {}, map[], {}, lockTtl, 0);
    assert After(s0, []) == s0;
    var a := ClaimedState(s0, 0, key, hash, "a");
    Extend(a, Close(0));
    var b := Next(a, Close(0));
    Extend(b, Release(0));
    s := ClaimedState(Next(b, Release(0)), 1, key, hash, "b");
  }

  lemma Extend(s: State, a: Action)
    requires Reachable(s) && Enabled(s, a)
    ensures Reachable(Next(s, a))
  {
    var s0, run :| Init(s0) && Possible(s0, run) && s == After(s0, run);
    AfterOneMore(s0, run, a);
    assert Next(s, a) == After(s0, run + [a]);
  }

  lemma {:induction false} AfterOneMore(s: State, run: seq<Action>, a: Action)
    requires Possible(s, run) && Enabled(After(s, run), a)
    ensures Possible(s, run + [a]) && After(s, run + [a]) == Next(After(s, run), a)
    decreases |run|
  {
    if run == [] {
      assert (run + [a])[1..] == [];
    } else {
      assert (run + [a])[1..] == run[1..] + [a];
      AfterOneMore(Next(s, run[0]), run[1..], a);
    }
  }

  /** A request of a free key gets to run its handler. */
  lemma ClaimedState(s: State, r: nat, key: string, hash: string, token: string) returns (t: State)
    requires Reachable(s) && r !in s.requests && hash != "" && token !in s.tokens && !Live(s.db, key) && s.lockTtl > 0
    ensures Reachable(t) && t.lockTtl == s.lockTtl && t.tokens == s.tokens + {token} && t.db.now == s.db.now
    ensures r in t.requests && t.requests == s.requests[r := t.requests[r]]
    ensures t.requests[r] == Request(key, hash, Some(token), s.db.now + s.lockTtl, true, false, Running, Unanswered)
    ensures t.db == Put(s.db, key, InflightRaw(hash, token), s.lockTtl)
  {
    Extend(s, Arrive(r, key, hash));
    var a := Next(s, Arrive(r, key, hash));
    Extend(a, Lookup(r));
    var b := Next(a, Lookup(r));
    Extend(b, Claim(r, token));
    t := Next(b, Claim(r, token));
  }

  /** The scripts act exactly while the lease lasts; a request that lost it changes nothing. */
  lemma ScriptsActWithinLease(s: State, r: nat)
    requires Reachable(s) && r in s.requests && Holding(s.requests[r])
    ensures s.requests[r].token.Some?
    ensures Owns(s.db, s.requests[r].key, s.requests[r].token.value) <==> s.db.now < s.requests[r].lease
    ensures s.db.now >= s.requests[r].lease && Enabled(s, Complete(r)) ==> Next(s, Complete(r)).db == s.db
    ensures s.db.now >= s.requests[r].lease && Enabled(s, Release(r)) ==> Next(s, Release(r)).db == s.db
    ensures s.db.now < s.requests[r].lease && Enabled(s, Complete(r)) && s.ttl > 0 ==>
      Stored(Next(s, Complete(r)), s.requests[r].key, Next(s, Complete(r)).db.entries[s.requests[r].key])
  {
    ReachableInv(s);
    assert RequestOk(s, r);
    var k := s.requests[r].key;
    if Owns(s.db, k, s.requests[r].token.value) {
      assert ClaimIntact(s, r, k);
    }
  }

  /**
   * A step that puts a new completed record under k is the
   * completion of the request whose token was stored.
   */
  lemma CompletedByOwner(s: State, a: Action, k: string)
    requires Reachable(s) && Enabled(s, a)
    requires k in Next(s, a).db.entries && ParseRecord(Next(s, a).db.entries[k].raw).Some?
    requires ParseRecord(Next(s, a).db.entries[k].raw).value.completed
    requires k in s.db.entries ==> Next(s, a).db.entries[k] != s.db.entries[k]
    ensures a.Complete? && s.requests[a.r].key == k && s.requests[a.r].token.Some?
    ensures Live(s.db, k) && s.db.entries[k].raw == InflightRaw(s.requests[a.r].hash, s.requests[a.r].token.value)
    ensures s.requests[a.r].answer.Own?
    ensures Next(s, a).db.entries[k].raw
            == CompletedRaw(s.requests[a.r].hash, s.requests[a.r].answer.status, s.requests[a.r].answer.body)
  {
    ReachableInv(s);
    if a.Complete? || a.Release? {
      assert RequestOk(s, a.r);
      if k in s.db.entries {
        assert ClaimIntact(s, a.r, k);
      }
    }
  }

  /**
   * A replayed answer is, to the status and body, the answer of the request
   * that completed the key with the same payload, or a record that was in the
   * store before the run.
   */
  lemma ReplayIsTheOriginalAnswer(s: State, r: nat)
    requires Reachable(s) && r in s.requests && s.requests[r].answer.Replay?
    ensures
      var rq := s.requests[r];
      || (rq.key in s.initial && ParseRecord(s.initial[rq.key].raw).Some?
          && rq.answer == Resolve(rq, ParseRecord(s.initial[rq.key].raw).value).answer)
      || exists q :: q in s.requests && s.requests[q].key == rq.key && s.requests[q].hash == rq.hash
                     && s.requests[q].answer == Own(rq.answer.status, rq.answer.body) && 200 <= rq.answer.status < 300
  {
    ReachableInv(s);
    assert RequestOk(s, r);
    var rq := s.requests[r];
    if c :| c in s.completions && c.key == rq.key && c.hash == rq.hash && rq.answer == Replay(c.status, c.body) {
      assert CompletionOk(s, c);
      assert c.writer in s.requests;
    }
  }

  /**
   * Reading a live completed record, by the first GET or after a lost race: same
   * payload, same answer; other payload, refusal.
   */
  lemma ReadOfCompleted(s: State, a: Action, c: Completion, e: Entry)
    requires Reachable(s) && Enabled(s, a) && (a.Lookup? || a.ReadWinner?)
    requires c in s.completions && c.key == s.requests[a.r].key && Stored(s, c.key, e) && e.raw == StoredBy(c)
    ensures var rq := Next(s, a).requests[a.r];
      rq.pc.Finished? && rq.answer == if c.hash == rq.hash then Replay(c.status, c.body) else Mismatch
  {
    ReachableInv(s);
    assert CompletionOk(s, c);
    assert RequestOk(s, c.writer);
  }
}
