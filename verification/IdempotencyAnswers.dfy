/**
 * What callers are promised over whole runs: how long claims and completed
 * answers last, what every other request of the key is told meanwhile, and
 * which answers keep the key and which give it up.
 */
module IdempotencyAnswers {
  import opened Prelude
  import opened Idempotency
  import opened IdempotencyRuns

  // ---- what a reader is told ----------------------------------------------------------

  /** A value that counts as a record: an object with a known state, or an old one with a response only. */
  predicate IsRecord(raw: Raw)
  {
    raw.Object? && (raw.state == Some("inflight") || raw.state == Some("completed") || raw.response.Some?)
  }

  /** What a request with this payload hash is told about a record. */
  function Told(raw: Raw, hash: string): Answer
    requires IsRecord(raw)
  {
    if raw.hash != None && raw.hash != Some("") && raw.hash != Some(hash) then Mismatch
    else if raw.state == Some("inflight") then Conflict
    else if raw.state == Some("completed") && raw.statusCode.Some? then Replay(raw.statusCode.value, raw.response)
    else Replay(201, raw.response)
  }

  /** A request that reads the key is answered exactly if it finds a live record there. */
  lemma ReadAnswers(s: State, a: Action)
    requires Enabled(s, a) && (a.Lookup? || a.ReadWinner?)
    ensures var rq, t := s.requests[a.r], Next(s, a);
      var live := rq.key in s.db.entries && s.db.now < s.db.entries[rq.key].expiresAt;
      && t.db == s.db
      && t.requests[a.r] ==
           if live && IsRecord(s.db.entries[rq.key].raw) then
             rq.(pc := Finished, answer := Told(s.db.entries[rq.key].raw, rq.hash))
           else if a.ReadWinner? then rq.(pc := Finished, answer := Unprotected)
           else if live && !s.db.entries[rq.key].raw.Empty? then rq.(pc := Deleting)
           else rq.(pc := Claiming)
  {
  }

  /** Deleting an unreadable value frees the key and leads on to the claim. */
  lemma DeletionFrees(s: State, r: nat)
    requires Enabled(s, Delete(r))
    ensures var t := Next(s, Delete(r));
      t.requests[r] == s.requests[r].(pc := Claiming) && t.db.entries == s.db.entries - {s.requests[r].key}
  {
  }

  // ---- the claim ------------------------------------------------------------------------

  /** The claim of request r, in the store under its key until `until`. */
  ghost predicate ClaimHolds(s: State, r: nat, key: string, hash: string, token: string, until: nat)
  {
    && r in s.requests && s.requests[r].key == key && s.requests[r].token == Some(token)
    && (Holding(s.requests[r]) || s.requests[r].pc.Finished?)
    && s.db.now < until && key in s.db.entries
    && s.db.entries[key] == Entry(Object(Some("inflight"), Some(hash), Some(token), None, None), until)
  }

  /** A claim succeeds exactly if the key is free, and then lasts for the lock's time. */
  lemma ClaimTakesKey(s: State, r: nat, token: string)
    requires Inv(s) && Enabled(s, Claim(r, token)) && s.lockTtl > 0
    ensures var rq, t := s.requests[r], Next(s, Claim(r, token));
      var free := rq.key !in s.db.entries || s.db.now >= s.db.entries[rq.key].expiresAt;
      && t.requests[r].pc == (if free then Running else Contended)
      && (free ==> ClaimHolds(t, r, rq.key, rq.hash, token, s.db.now + s.lockTtl) && t.requests[r].lease == s.db.now + s.lockTtl)
      && (!free ==> t.db == s.db)
  {
  }

  /** The request has not sent its script. */
  predicate Unsent(run: seq<Action>, r: nat)
  {
    forall i :: 0 <= i < |run| ==> run[i] != Complete(r) && run[i] != Release(r)
  }

  /** The scripts of other requests carry other tokens. */
  lemma NotItsToken(s: State, r: nat, q: nat)
    requires Inv(s) && r in s.requests && q in s.requests && q != r && s.requests[r].token.Some? && s.requests[q].token.Some?
    ensures s.requests[q].token.value != s.requests[r].token.value
  {
  }

  lemma OtherScripts(s: State, a: Action, r: nat, key: string, hash: string, token: string, until: nat)
    requires Inv(s) && Enabled(s, a) && ClaimHolds(s, r, key, hash, token, until) && (a.Complete? || a.Release?) && a.r != r
    ensures ClaimHolds(Next(s, a), r, key, hash, token, until)
  {
    NotItsToken(s, r, a.r);
  }

  lemma ClaimStaysStep(s: State, a: Action, r: nat, key: string, hash: string, token: string, until: nat)
    requires Inv(s) && Enabled(s, a) && ClaimHolds(s, r, key, hash, token, until) && a != Complete(r) && a != Release(r)
    requires Next(s, a).db.now < until
    ensures ClaimHolds(Next(s, a), r, key, hash, token, until)
  {
    match a
    case Claim(q, t) => ClaimLeavesLive(s.db, s.requests[q], t, s.lockTtl, key);
    case ClaimUnacked(q, t) => ClaimLeavesLive(s.db, s.requests[q], t, s.lockTtl, key);
    case Delete(q) => NeverDeletes(s, q);
    case Complete(_) => OtherScripts(s, a, r, key, hash, token, until);
    case Release(_) => OtherScripts(s, a, r, key, hash, token, until);
    case _ =>
  }

  lemma {:induction false} ClaimStays(s: State, run: seq<Action>, r: nat, key: string, hash: string, token: string, until: nat)
    requires Inv(s) && Possible(s, run) && ClaimHolds(s, r, key, hash, token, until) && Unsent(run, r)
    requires After(s, run).db.now < until
    ensures ClaimHolds(After(s, run), r, key, hash, token, until)
    decreases |run|
  {
    if run == [] {
    } else {
      ClockMonotone(Next(s, run[0]), run[1..]);
      ClaimStaysStep(s, run[0], r, key, hash, token, until);
      NextInv(s, run[0]);
      ClaimStays(Next(s, run[0]), run[1..], r, key, hash, token, until);
    }
  }

  /** What request q, about to read or claim the key, is told: it does not get to run. */
  ghost predicate Refused(s: State, q: nat, told: Answer)
    requires q in s.requests
  {
    && (Enabled(s, Lookup(q)) ==> Next(s, Lookup(q)).requests[q].answer == told)
    && (Enabled(s, ReadWinner(q)) ==> Next(s, ReadWinner(q)).requests[q].answer == told)
    && forall token :: Enabled(s, Claim(q, token)) ==> Next(s, Claim(q, token)).requests[q].pc.Contended?
  }

  /** A live record refuses everybody, each with what it tells. */
  lemma RecordRefuses(s: State, q: nat)
    requires q in s.requests && s.requests[q].key in s.db.entries && s.db.now < s.db.entries[s.requests[q].key].expiresAt
    requires IsRecord(s.db.entries[s.requests[q].key].raw)
    ensures Refused(s, q, Told(s.db.entries[s.requests[q].key].raw, s.requests[q].hash))
  {
    if Enabled(s, Lookup(q)) {
      ReadAnswers(s, Lookup(q));
    }
    if Enabled(s, ReadWinner(q)) {
      ReadAnswers(s, ReadWinner(q));
    }
  }

  /**
   * While a claim lasts and its request has not sent its script, over any run,
   * every other request of the key is told that one is in flight, or that its
   * payload differs, and none gets to run.
   */
  lemma DuplicatesConflict(s: State, r: nat, token: string, run: seq<Action>, q: nat)
    requires Inv(s) && Enabled(s, Claim(r, token)) && Next(s, Claim(r, token)).requests[r].pc.Running?
    requires Possible(Next(s, Claim(r, token)), run) && Unsent(run, r)
    requires var t := After(Next(s, Claim(r, token)), run);
      t.db.now < s.db.now + s.lockTtl && q in t.requests && t.requests[q].key == s.requests[r].key
    ensures var t := After(Next(s, Claim(r, token)), run);
      Refused(t, q, if t.requests[q].hash == s.requests[r].hash then Conflict else Mismatch)
  {
    var s1, rq := Next(s, Claim(r, token)), s.requests[r];
    ClockMonotone(s1, run);
    ClaimTakesKey(s, r, token);
    NextInv(s, Claim(r, token));
    ClaimStays(s1, run, r, rq.key, rq.hash, token, s.db.now + s.lockTtl);
    assert RequestOk(s, r);
    RecordRefuses(After(s1, run), q);
  }

  // ---- the answer -----------------------------------------------------------------------

  /** A completion within the lease stores the request's own answer for the whole long TTL. */
  lemma CompletionIsStored(s: State, r: nat)
    requires Inv(s) && Enabled(s, Complete(r)) && s.db.now < s.requests[r].lease
    ensures var rq, t := s.requests[r], Next(s, Complete(r));
      && rq.answer.Own? && t.requests[r].pc.Finished? && t.db.now == s.db.now
      && t.db.entries == s.db.entries[rq.key :=
           Entry(Object(Some("completed"), Some(rq.hash), None, Some(rq.answer.status), rq.answer.body), s.db.now + s.ttl)]
  {
    assert RequestOk(s, r);
  }

  /**
   * From a completion within the lease on, for the whole long TTL and over any
   * run, every request of the key gets that very answer if its payload is the
   * same, is refused if not, and none gets to run.
   */
  lemma AnswerIsReplayed(s: State, r: nat, run: seq<Action>, q: nat)
    requires Inv(s) && Enabled(s, Complete(r)) && s.db.now < s.requests[r].lease && Possible(Next(s, Complete(r)), run)
    requires var t := After(Next(s, Complete(r)), run);
      t.db.now < s.db.now + s.ttl && q in t.requests && t.requests[q].key == s.requests[r].key
    ensures s.requests[r].answer.Own?
    ensures var t, own := After(Next(s, Complete(r)), run), s.requests[r].answer;
      Refused(t, q, if t.requests[q].hash == s.requests[r].hash then Replay(own.status, own.body) else Mismatch)
  {
    var s1, rq := Next(s, Complete(r)), s.requests[r];
    assert RequestOk(s, r);
    CompletionIsStored(s, r);
    ClockMonotone(s1, run);
    NextInv(s, Complete(r));
    var e := s1.db.entries[rq.key];
    assert Stored(s1, rq.key, e);
    CompletedRecordIsStable(s1, run, rq.key, e);
    RecordRefuses(After(s1, run), q);
  }

  // ---- which answers keep the key ---------------------------------------------------------

  predicate Moves(a: Action, r: nat) { !a.Tick? && a.r == r }

  predicate Untouched(run: seq<Action>, r: nat) { forall i :: 0 <= i < |run| ==> !Moves(run[i], r) }

  lemma {:induction false} RequestWaits(s: State, run: seq<Action>, r: nat)
    requires Possible(s, run) && Untouched(run, r) && r in s.requests
    ensures r in After(s, run).requests && After(s, run).requests[r] == s.requests[r]
    decreases |run|
  {
    if run == [] {
    } else {
      assert !Moves(run[0], r);
      RequestWaits(Next(s, run[0]), run[1..], r);
    }
  }


  lemma SettledRequest(s: State, a: Action)
    requires Inv(s) && Enabled(s, a) && (a.Respond? || a.Close?)
    ensures var rq, ok := Next(s, a).requests[a.r], a.Respond? && 200 <= a.status < 300;
      && rq.token.Some? && rq.key == s.requests[a.r].key && rq.lease == s.requests[a.r].lease
      && rq.answer == (if a.Respond? then Own(a.status, a.body) else Aborted)
      && (if ok then rq.pc.Completing? else rq.pc.Releasing?)
  {
    assert RequestOk(s, a.r);
  }

  /**
   * An answer of 2xx goes to the completion and to no release; any other answer,
   * and an aborted connection, goes to the release and to no completion, however
   * long that takes. The first answer is the one that counts.
   */
  lemma AnswerIsSettled(s: State, a: Action, run: seq<Action>)
    requires Inv(s) && Enabled(s, a) && (a.Respond? || a.Close?)
    requires Possible(Next(s, a), run) && Untouched(run, a.r)
    ensures var t, ok := After(Next(s, a), run), a.Respond? && 200 <= a.status < 300;
      && a.r in t.requests && t.requests[a.r].key == s.requests[a.r].key && t.requests[a.r].lease == s.requests[a.r].lease
      && t.requests[a.r].answer == (if a.Respond? then Own(a.status, a.body) else Aborted)
      && (Enabled(t, Complete(a.r)) <==> ok) && (Enabled(t, Release(a.r)) <==> !ok)
      && !Enabled(t, Close(a.r)) && forall status, body :: !Enabled(t, Respond(a.r, status, body))
  {
    SettledRequest(s, a);
    RequestWaits(Next(s, a), run, a.r);
  }

  /** A release within the lease frees the key, and the next claim of it succeeds. */
  lemma ReleaseFreesKey(s: State, r: nat, q: nat, token: string)
    requires Inv(s) && Enabled(s, Release(r)) && s.db.now < s.requests[r].lease
    ensures var t := Next(s, Release(r));
      && t.requests[r].pc.Finished? && t.db.entries == s.db.entries - {s.requests[r].key}
      && (Enabled(t, Claim(q, token)) && t.requests[q].key == s.requests[r].key ==> Next(t, Claim(q, token)).requests[q].pc.Running?)
  {
    assert RequestOk(s, r);
  }
}
