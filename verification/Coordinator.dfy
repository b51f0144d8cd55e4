/**
 * The exchange-rate coordinator: a lease lock elects one leader per key to
 * query Horizon, and a shared quote store lets everybody else reuse its result.
 *
 * This module holds the store and the atomic steps of one load() call;
 * CoordinatorRuns interleaves any number of them.
 */
module Coordinator {
  import opened Prelude
  import opened Quotes

  // ---- the store ------------------------------------------------------------------

  /** What a value of the shared store decodes to. */
  datatype SharedRaw = Unreadable | Shared(version: int, data: Json)

  datatype Lock = Lock(token: string, expiresAt: nat)
  datatype QuoteEntry = QuoteEntry(raw: SharedRaw, expiresAt: nat)
  datatype Store = Store(now: nat, locks: map<string, Lock>, quotes: map<string, QuoteEntry>)

  const SHARED_ENTRY_VERSION: int := 1

  predicate Locked(db: Store, key: string) { key in db.locks && db.now < db.locks[key].expiresAt }

  predicate Owns(db: Store, key: string, token: string) { Locked(db, key) && db.locks[key].token == token }

  function Acquire(db: Store, key: string, token: string, ttl: nat): (Store, bool)
  {
    if Locked(db, key) then (db, false)
    else (db.(locks := db.locks[key := Lock(token, db.now + ttl)]), true)
  }

  /** Compare-and-delete. */
  function Release(db: Store, key: string, token: string): (Store, bool)
  {
    if Owns(db, key, token) then (db.(locks := db.locks - {key}), true) else (db, false)
  }

  /** Validation, then the optional rebuild. */
  function Accept(cfg: Config, data: Json): Option<Json>
  {
    if cfg.validate(data) then cfg.sanitize(data) else None
  }

  function ReadShared(cfg: Config, db: Store, key: string): Option<Json>
  {
    if key in db.quotes && db.now < db.quotes[key].expiresAt
       && db.quotes[key].raw.Shared? && db.quotes[key].raw.version == SHARED_ENTRY_VERSION
    then Accept(cfg, db.quotes[key].raw.data)
    else None
  }

  function PutQuote(db: Store, key: string, raw: SharedRaw, ttl: nat): Store
  {
    db.(quotes := db.quotes[key := QuoteEntry(raw, db.now + ttl)])
  }

  // ---- one load() -----------------------------------------------------------------

  datatype Source = FromShared | FromLeader | FromFallback

  datatype Result = Pending | Failed | Got(data: Json, source: Source)

  datatype Pc =
    | Reading
    | Acquiring
    | DoubleChecking
    | Sleeping
    | Leading                     // the loader runs under the lock
    | Publishing(data: Json)
    | Releasing
    | Recovering                  // releasing after a Redis error, to fall back
    | FallingBack                 // the loader runs without the lock
    | Done

  datatype Load = Load(key: string, deadline: nat, token: Option<string>, lease: nat, pc: Pc, result: Result)

  /** The constructor options; without a sanitizer, `sanitize` is Some. */
  datatype Config = Config(validate: Json -> bool, sanitize: Json -> Option<Json>,
                           sharedTtl: nat, lockTtl: nat, waitTimeout: nat)

  /** The options the exchange-rate service passes. */
  ghost predicate ServiceConfig(cfg: Config, env: Env)
  {
    && (forall data :: cfg.validate(data) == IsValidQuote(data))
    && (forall data :: cfg.sanitize(data) == SanitizeJson(env, data))
  }

  function SanitizeJson(env: Env, data: Json): Option<Json>
  {
    var q := SanitizeQuote(env, data);
    if q.Some? then Some(QuoteJson(q.value)) else None
  }

  function NewLoad(cfg: Config, now: nat, key: string, available: bool): Load
  {
    Load(key, now + cfg.waitTimeout, None, 0, if available then Reading else FallingBack, Pending)
  }

  /** The call holds the lock, or held it, and has not released it. */
  predicate Holding(ld: Load)
  {
    ld.pc.DoubleChecking? || ld.pc.Leading? || ld.pc.Publishing? || ld.pc.Releasing? || ld.pc.Recovering?
  }

  function ReadStep(cfg: Config, db: Store, ld: Load): Load
  {
    var shared := ReadShared(cfg, db, ld.key);
    if shared.Some? then ld.(pc := Done, result := Got(shared.value, FromShared)) else ld.(pc := Acquiring)
  }

  function AcquireStep(cfg: Config, db: Store, ld: Load, token: string): (Store, Load)
  {
    var (db', ok) := Acquire(db, ld.key, token, cfg.lockTtl);
    (db', if ok then ld.(token := Some(token), lease := db.now + cfg.lockTtl, pc := DoubleChecking)
          else ld.(pc := if db.now >= ld.deadline then FallingBack else Sleeping))
  }

  function DoubleCheckStep(cfg: Config, db: Store, ld: Load): Load
  {
    var written := ReadShared(cfg, db, ld.key);
    if written.Some? then ld.(pc := Releasing, result := Got(written.value, FromShared)) else ld.(pc := Leading)
  }

  /** A Redis error inside the coordination loop. */
  function ErrorStep(ld: Load): Load
  {
    ld.(pc := if ld.token.Some? then Recovering else FallingBack)
  }

  function LoadedStep(ld: Load, data: Json): Load
  {
    if ld.pc.Leading? then ld.(pc := Publishing(data))
    else ld.(pc := Done, result := Got(data, FromFallback))
  }

  function LoadFailedStep(ld: Load): Load
  {
    if ld.pc.Leading? then ld.(pc := Releasing, result := Failed) else ld.(pc := Done, result := Failed)
  }

  function PublishStep(cfg: Config, db: Store, ld: Load): (Store, Load)
    requires ld.pc.Publishing?
  {
    (PutQuote(db, ld.key, Shared(SHARED_ENTRY_VERSION, ld.pc.data), cfg.sharedTtl),
     ld.(pc := Releasing, result := Got(ld.pc.data, FromLeader)))
  }

  function PublishFailedStep(ld: Load): Load
    requires ld.pc.Publishing?
  {
    ld.(pc := Releasing, result := Got(ld.pc.data, FromLeader))
  }

  function ReleaseStep(db: Store, ld: Load): (Store, Load)
    requires ld.token.Some?
  {
    (Release(db, ld.key, ld.token.value).0,
     if ld.pc.Recovering? then ld.(token := None, pc := FallingBack) else ld.(pc := Done))
  }

  // ---- the program's objects ------------------------------------------------------

  class RedisClient {
    var now: nat
    var locks: map<string, Lock>
    var quotes: map<string, QuoteEntry>

    function View(): Store reads this { Store(now, locks, quotes) }

    method SetLockNx(key: string, token: string, ttl: nat) returns (ok: bool)
      modifies this
      ensures (View(), ok) == Acquire(old(View()), key, token, ttl)
    {
      if key in locks && now < locks[key].expiresAt {
        return false;
      }
      locks := locks[key := Lock(token, now + ttl)];
      ok := true;
    }

    /** RELEASE_LOCK_SCRIPT */
    method CompareAndDelete(key: string, token: string) returns (released: bool)
      modifies this
      ensures (View(), released) == Release(old(View()), key, token)
    {
      released := key in locks && now < locks[key].expiresAt && locks[key].token == token;
      if released {
        locks := locks - {key};
      }
    }

    method GetShared(cfg: Config, key: string) returns (data: Option<Json>)
      ensures data == ReadShared(cfg, View(), key)
    {
      if key !in quotes || now >= quotes[key].expiresAt {
        return None;
      }
      var raw := quotes[key].raw;
      if raw.Unreadable? || raw.version != SHARED_ENTRY_VERSION || !cfg.validate(raw.data) {
        return None;
      }
      data := cfg.sanitize(raw.data);
    }

    method SetShared(key: string, data: Json, ttl: nat)
      modifies this
      ensures View() == PutQuote(old(View()), key, Shared(SHARED_ENTRY_VERSION, data), ttl)
    {
      quotes := quotes[key := QuoteEntry(Shared(SHARED_ENTRY_VERSION, data), now + ttl)];
    }

    method Invalidate(key: string) returns (removed: bool)
      modifies this
      ensures View() == old(View()).(quotes := old(quotes) - {key})
      ensures removed == (key in old(quotes) && now < old(quotes)[key].expiresAt)
    {
      removed := key in quotes && now < quotes[key].expiresAt;
      quotes := quotes - {key};
    }
  }

  /** One run of load(). */
  class LoadCall {
    const client: RedisClient
    const cfg: Config
    const key: string
    const deadline: nat
    var token: Option<string>
    var lease: nat
    var pc: Pc
    var result: Result

    function View(): Load reads this { Load(key, deadline, token, lease, pc, result) }

    constructor (client: RedisClient, cfg: Config, key: string, available: bool)
      ensures View() == NewLoad(cfg, client.now, key, available) && this.client == client && this.cfg == cfg
    {
      this.client, this.cfg, this.key := client, cfg, key;
      deadline := client.now + cfg.waitTimeout;
      token, lease := None, 0;
      pc, result := if available then Reading else FallingBack, Pending;
    }

    method Read()
      requires pc.Reading?
      modifies this
      ensures View() == ReadStep(cfg, client.View(), old(View()))
    {
      var shared := client.GetShared(cfg, key);
      if shared.Some? {
        pc, result := Done, Got(shared.value, FromShared);
      } else {
        pc := Acquiring;
      }
    }

    method TryAcquire(freshToken: string)
      requires pc.Acquiring?
      modifies this, client
      ensures (client.View(), View()) == AcquireStep(cfg, old(client.View()), old(View()), freshToken)
    {
      var ok := client.SetLockNx(key, freshToken, cfg.lockTtl);
      if ok {
        token, lease, pc := Some(freshToken), client.now + cfg.lockTtl, DoubleChecking;
      } else if client.now >= deadline {
        pc := FallingBack;
      } else {
        pc := Sleeping;
      }
    }

    method DoubleCheck()
      requires pc.DoubleChecking?
      modifies this
      ensures View() == DoubleCheckStep(cfg, client.View(), old(View()))
    {
      var written := client.GetShared(cfg, key);
      if written.Some? {
        pc, result := Releasing, Got(written.value, FromShared);
      } else {
        pc := Leading;
      }
    }

    method OnRedisError()
      requires pc.Reading? || pc.Acquiring? || pc.DoubleChecking?
      modifies this
      ensures View() == ErrorStep(old(View()))
    {
      pc := if token.Some? then Recovering else FallingBack;
    }

    method OnLoaded(data: Json)
      requires pc.Leading? || pc.FallingBack?
      modifies this
      ensures View() == LoadedStep(old(View()), data)
    {
      if pc.Leading? {
        pc := Publishing(data);
      } else {
        pc, result := Done, Got(data, FromFallback);
      }
    }

    method OnLoaderError()
      requires pc.Leading? || pc.FallingBack?
      modifies this
      ensures View() == LoadFailedStep(old(View()))
    {
      result := Failed;
      pc := if pc.Leading? then Releasing else Done;
    }

    method Publish()
      requires pc.Publishing?
      modifies this, client
      ensures (client.View(), View()) == PublishStep(cfg, old(client.View()), old(View()))
    {
      client.SetShared(key, pc.data, cfg.sharedTtl);
      pc, result := Releasing, Got(pc.data, FromLeader);
    }

    method ReleaseLock()
      requires (pc.Releasing? || pc.Recovering?) && token.Some?
      modifies this, client
      ensures (client.View(), View()) == ReleaseStep(old(client.View()), old(View()))
    {
      var released := client.CompareAndDelete(key, token.value);
      if pc.Recovering? {
        token, pc := None, FallingBack;
      } else {
        pc := Done;
      }
    }
  }
}
