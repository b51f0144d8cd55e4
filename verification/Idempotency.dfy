/**
 * The idempotency-key protocol: a request claims its key with SET NX PX, runs
 * its handler, and replaces its claim by the response (or withdraws it) with a
 * script that checks the owner token.
 *
 * This module holds the values the protocol works on and the atomic steps of
 * one request; IdempotencyRuns interleaves any number of them.
 */
module Idempotency {
  import opened Prelude

  // ---- records ------------------------------------------------------------------

  /** What a Redis value decodes to. */
  datatype Raw =
    | Empty
    | NotAnObject
    | Object(state: Option<string>, hash: Option<string>, token: Option<string>,
             statusCode: Option<int>, response: Option<string>)

  datatype Record = Record(completed: bool, hash: Option<string>, statusCode: Option<int>, response: Option<string>)

  function InflightRaw(hash: string, token: string): Raw
  {
    Object(Some("inflight"), Some(hash), Some(token), None, None)
  }

  function CompletedRaw(hash: string, status: int, response: Option<string>): Raw
  {
    Object(Some("completed"), Some(hash), None, Some(status), response)
  }

  function ParseRecord(raw: Raw): Option<Record>
  {
    match raw
    case Empty => None
    case NotAnObject => None
    case Object(state, hash, _, statusCode, response) =>
      if state == Some("inflight") || state == Some("completed") then
        Some(Record(state == Some("completed"), hash, statusCode, response))
      else if response.Some? then
        Some(Record(true, hash, Some(201), response))
      else None
  }

  // ---- the store ----------------------------------------------------------------

  datatype Entry = Entry(raw: Raw, expiresAt: nat)
  datatype Db = Db(now: nat, entries: map<string, Entry>)

  predicate Live(db: Db, key: string) { key in db.entries && db.now < db.entries[key].expiresAt }

  function Get(db: Db, key: string): Option<Raw>
  {
    if Live(db, key) then Some(db.entries[key].raw) else None
  }

  function Put(db: Db, key: string, raw: Raw, ttl: nat): Db
  {
    db.(entries := db.entries[key := Entry(raw, db.now + ttl)])
  }

  function Del(db: Db, key: string): Db { db.(entries := db.entries - {key}) }

  function SetNx(db: Db, key: string, raw: Raw, ttl: nat): (Db, bool)
  {
    if Live(db, key) then (db, false) else (Put(db, key, raw, ttl), true)
  }

  /** The guard of both scripts: the value decodes to an object carrying this token. */
  predicate Owns(db: Db, key: string, token: string)
  {
    Live(db, key) && db.entries[key].raw.Object? && db.entries[key].raw.token == Some(token)
  }

  function CompleteScript(db: Db, key: string, token: string, raw: Raw, ttl: nat): (Db, bool)
  {
    if Owns(db, key, token) then (Put(db, key, raw, ttl), true) else (db, false)
  }

  function ReleaseScript(db: Db, key: string, token: string): (Db, bool)
  {
    if Owns(db, key, token) then (Del(db, key), true) else (db, false)
  }

  // ---- one request --------------------------------------------------------------

  datatype Pc =
    | Start                                            // about to GET
    | Deleting                                         // about to DEL an unreadable value
    | Claiming                                         // about to SET NX
    | Contended                                        // about to GET the winner
    | Running                                          // the handler runs under the lock
    | Completing(status: int, body: Option<string>)    // the completion script is on its way
    | Releasing                                        // the release script is on its way
    | Finished

  datatype Answer =
    | Unanswered
    | Mismatch
    | Conflict
    | Replay(status: int, body: Option<string>)
    | Own(status: int, body: Option<string>)
    | Aborted
    | Unprotected                                      // next() without the lock

  datatype Request = Request(key: string, hash: string, token: Option<string>, lease: nat,
                             lockAcquired: bool, settled: bool, pc: Pc, answer: Answer)

  function NewRequest(key: string, hash: string): Request
  {
    Request(key, hash, None, 0, false, false, Start, Unanswered)
  }

  /** The request holds the lock, or held it, and has not finished. */
  predicate Holding(rq: Request) { rq.pc.Running? || rq.pc.Completing? || rq.pc.Releasing? }

  function Resolve(rq: Request, record: Record): Request
  {
    var answer :=
      if record.hash.Some? && record.hash != Some("") && record.hash != Some(rq.hash) then Mismatch
      else if !record.completed then Conflict
      else Replay(if record.statusCode.Some? then record.statusCode.value else 201, record.response);
    rq.(pc := Finished, answer := answer)
  }

  function LookupStep(db: Db, rq: Request): Request
  {
    match Get(db, rq.key)
    case None => rq.(pc := Claiming)
    case Some(Empty) => rq.(pc := Claiming)
    case Some(raw) =>
      match ParseRecord(raw)
      case None => rq.(pc := Deleting)
      case Some(record) => Resolve(rq, record)
  }

  function DeleteStep(db: Db, rq: Request): (Db, Request)
  {
    (Del(db, rq.key), rq.(pc := Claiming))
  }

  function ClaimStep(db: Db, rq: Request, token: string, lockTtl: nat): (Db, Request)
  {
    var (db', ok) := SetNx(db, rq.key, InflightRaw(rq.hash, token), lockTtl);
    (db', if ok then rq.(token := Some(token), lease := db.now + lockTtl, lockAcquired := true, pc := Running)
          else rq.(token := Some(token), pc := Contended))
  }

  function ReadWinnerStep(db: Db, rq: Request): Request
  {
    var raw := Get(db, rq.key);
    var winner := if raw.Some? then ParseRecord(raw.value) else None;
    if winner.Some? then Resolve(rq, winner.value) else rq.(pc := Finished, answer := Unprotected)
  }

  /** The wrapped res.json, first call. */
  function RespondStep(rq: Request, status: int, body: Option<string>): Request
  {
    rq.(settled := true, answer := Own(status, body),
        pc := if 200 <= status < 300 then Completing(status, body) else Releasing)
  }

  /** The connection closes before the handler answered. */
  function CloseStep(rq: Request): Request
  {
    rq.(settled := true, answer := Aborted, pc := Releasing)
  }

  function CompleteStep(db: Db, rq: Request, ttl: nat): (Db, Request)
    requires rq.pc.Completing? && rq.token.Some?
  {
    var raw := CompletedRaw(rq.hash, rq.pc.status, rq.pc.body);
    (CompleteScript(db, rq.key, rq.token.value, raw, ttl).0, rq.(pc := Finished))
  }

  function ReleaseStep(db: Db, rq: Request): (Db, Request)
    requires rq.token.Some?
  {
    (ReleaseScript(db, rq.key, rq.token.value).0, rq.(pc := Finished))
  }

  // ---- the program's objects ----------------------------------------------------

  class Redis {
    var now: nat
    var entries: map<string, Entry>

    function View(): Db reads this { Db(now, entries) }

    method GetRaw(key: string) returns (raw: Option<Raw>)
      ensures raw == Get(View(), key)
    {
      if key in entries && now < entries[key].expiresAt {
        raw := Some(entries[key].raw);
      } else {
        raw := None;
      }
    }

    method Remove(key: string)
      modifies this
      ensures View() == Del(old(View()), key)
    {
      entries := entries - {key};
    }

    method AcquireLock(key: string, raw: Raw, ttl: nat) returns (ok: bool)
      modifies this
      ensures (View(), ok) == SetNx(old(View()), key, raw, ttl)
    {
      var current := GetRaw(key);
      ok := current.None?;
      if ok {
        entries := entries[key := Entry(raw, now + ttl)];
      }
    }

    /** COMPLETE_LOCK_SCRIPT */
    method CompareAndSwap(key: string, token: string, raw: Raw, ttl: nat) returns (ok: bool)
      modifies this
      ensures (View(), ok) == CompleteScript(old(View()), key, token, raw, ttl)
    {
      var current := GetRaw(key);
      if current.None? || !current.value.Object? || current.value.token != Some(token) {
        return false;
      }
      entries := entries[key := Entry(raw, now + ttl)];
      ok := true;
    }

    /** RELEASE_LOCK_SCRIPT */
    method ReleaseLock(key: string, token: string) returns (ok: bool)
      modifies this
      ensures (View(), ok) == ReleaseScript(old(View()), key, token)
    {
      var current := GetRaw(key);
      if current.None? || !current.value.Object? || current.value.token != Some(token) {
        return false;
      }
      entries := entries - {key};
      ok := true;
    }
  }

  /** The closure state of one run of the middleware. */
  class Middleware {
    const redis: Redis
    const key: string
    const hash: string
    var token: Option<string>
    var lease: nat
    var lockAcquired: bool
    var settled: bool
    var pc: Pc
    var answer: Answer

    function View(): Request reads this { Request(key, hash, token, lease, lockAcquired, settled, pc, answer) }

    constructor (redis: Redis, key: string, hash: string)
      ensures View() == NewRequest(key, hash) && this.redis == redis
    {
      this.redis, this.key, this.hash := redis, key, hash;
      token, lease, lockAcquired, settled := None, 0, false, false;
      pc, answer := Start, Unanswered;
    }

    method ResolveExisting(record: Record)
      modifies this
      ensures View() == Resolve(old(View()), record)
    {
      pc := Finished;
      if record.hash.Some? && record.hash.value != "" && record.hash.value != hash {
        answer := Mismatch;
        return;
      }
      if !record.completed {
        answer := Conflict;
        return;
      }
      answer := Replay(if record.statusCode.Some? then record.statusCode.value else 201, record.response);
    }

    method Lookup()
      modifies this
      ensures View() == LookupStep(redis.View(), old(View()))
    {
      var existing := redis.GetRaw(key);
      if existing.Some? && !existing.value.Empty? {
        var record := ParseRecord(existing.value);
        if record.None? {
          pc := Deleting;
        } else {
          ResolveExisting(record.value);
        }
      } else {
        pc := Claiming;
      }
    }

    method DeleteUnreadable()
      modifies this, redis
      ensures (redis.View(), View()) == DeleteStep(old(redis.View()), old(View()))
    {
      redis.Remove(key);
      pc := Claiming;
    }

    method Claim(freshToken: string, lockTtl: nat)
      modifies this, redis
      ensures (redis.View(), View()) == ClaimStep(old(redis.View()), old(View()), freshToken, lockTtl)
    {
      token := Some(freshToken);
      var ok := redis.AcquireLock(key, InflightRaw(hash, freshToken), lockTtl);
      if ok {
        lockAcquired := true;
        lease := redis.now + lockTtl;
        pc := Running;
      } else {
        pc := Contended;
      }
    }

    method ReadWinner()
      modifies this
      ensures View() == ReadWinnerStep(redis.View(), old(View()))
    {
      var raw := redis.GetRaw(key);
      var winner := if raw.Some? then ParseRecord(raw.value) else None;
      if winner.Some? {
        ResolveExisting(winner.value);
      } else {
        pc, answer := Finished, Unprotected;
      }
    }

    /** The wrapped res.json: only the first call settles the request. */
    method Json(status: int, body: Option<string>)
      requires settled || pc.Running?
      modifies this
      ensures View() == if old(settled) then old(View()) else RespondStep(old(View()), status, body)
    {
      if !settled {
        settled := true;
        answer := Own(status, body);
        pc := if 200 <= status < 300 then Completing(status, body) else Releasing;
      }
    }

    /** The close listener. */
    method OnClose()
      requires settled || pc.Running?
      modifies this
      ensures View() == if old(settled) then old(View()) else CloseStep(old(View()))
    {
      if !settled {
        settled := true;
        answer := Aborted;
        pc := Releasing;
      }
    }

    method SendComplete(ttl: nat)
      requires pc.Completing? && token.Some?
      modifies this, redis
      ensures (redis.View(), View()) == CompleteStep(old(redis.View()), old(View()), ttl)
    {
      var ok := redis.CompareAndSwap(key, token.value, CompletedRaw(hash, pc.status, pc.body), ttl);
      pc := Finished;
    }

    method SendRelease()
      requires pc.Releasing? && token.Some?
      modifies this, redis
      ensures (redis.View(), View()) == ReleaseStep(old(redis.View()), old(View()))
    {
      var ok := redis.ReleaseLock(key, token.value);
      pc := Finished;
    }
  }

  // ---- the key ------------------------------------------------------------------

  function BuildIdempotencyKey(merchantId: string, idempotencyKey: string): string
  {
    "idempotency:" + merchantId + ":" + idempotencyKey
  }

  /** Merchants whose ids hold no colon never share a store key. */
  lemma KeysOfMerchantsAreDisjoint(m1: string, k1: string, m2: string, k2: string)
    requires ':' !in m1 && ':' !in m2
    requires BuildIdempotencyKey(m1, k1) == BuildIdempotencyKey(m2, k2)
    ensures m1 == m2 && k1 == k2
  {
    var p := "idempotency:";
    var s1, s2 := m1 + ":" + k1, m2 + ":" + k2;
    assert BuildIdempotencyKey(m1, k1) == p + s1 && BuildIdempotencyKey(m2, k2) == p + s2;
    assert s1 == (p + s1)[|p|..] && s2 == (p + s2)[|p|..];
    assert s1[|m1|] == ':' && s2[|m2|] == ':';
    assert forall i :: 0 <= i < |m1| ==> s1[i] == m1[i];
    assert forall i :: 0 <= i < |m2| ==> s2[i] == m2[i];
    assert |m1| == |m2|;
    assert m1 == s1[..|m1|] && m2 == s2[..|m2|];
    assert k1 == s1[|m1| + 1..] && k2 == s2[|m2| + 1..];
  }
}
