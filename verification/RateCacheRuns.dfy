/** Every interleaving of getOrLoad, settling loads, delete, clear, prune and direct writes. */
module RateCacheRuns {
  import opened Prelude
  import opened LruCache
  import opened RateCache

  /** A value, tagged with the load (or direct write) that produced it. */
  datatype Stamped = Stamped(value: string, origin: nat)

  datatype Status = Loading | Succeeded(value: string) | FailedLoad

  /** A load and the time it was registered. */
  datatype LoadInfo = LoadInfo(key: string, born: nat, status: Status)

  datatype Wait = Awaiting(load: nat) | Received(data: Stamped) | Rejected

  /** A getOrLoad call: what was the latest invalidation of its key when it arrived. */
  datatype Caller = Caller(key: string, cutoff: nat, wait: Wait)

  datatype State = State(
    v: Flight<Stamped>, lim: Limits,
    time: nat,                          // number of steps so far
    deletedAt: map<string, nat>, clearedAt: nat,
    loads: map<nat, LoadInfo>, callers: map<nat, Caller>)

  datatype Action =
    | Call(c: nat, key: string, now: int, freshLoad: nat)   // getOrLoad up to its first await
    | Settle(load: nat, result: Option<string>, now: int)    // None: loader error or timeout
    | Deliver(c: nat)                                        // a settled load reaches a waiting caller
    | Peek(key: string, now: int)                            // get()
    | Write(key: string, value: string, now: int, freshLoad: nat)   // set()
    | DeleteAct(key: string)
    | ClearAct
    | PruneAct(now: int)

  /** When the key was last invalidated. */
  function Cutoff(s: State, key: string): nat
  {
    if key in s.deletedAt && s.deletedAt[key] > s.clearedAt then s.deletedAt[key] else s.clearedAt
  }

  predicate Enabled(s: State, a: Action)
  {
    match a
    case Call(c, _, _, freshLoad) => c !in s.callers && freshLoad !in s.loads
    case Settle(load, _, _) => load in s.loads && s.loads[load].status.Loading?
    case Deliver(c) =>
      c in s.callers && s.callers[c].wait.Awaiting? && s.callers[c].wait.load in s.loads
      && !s.loads[s.callers[c].wait.load].status.Loading?
    case Write(_, _, _, freshLoad) => freshLoad !in s.loads
    case _ => true
  }

  function Next(s: State, a: Action): State
    requires Enabled(s, a)
  {
    var s := s.(time := s.time + 1);
    match a
    case Call(c, key, now, freshLoad) =>
      var (v, outcome) := GetOrLoad(s.v, s.lim, key, now, freshLoad);
      var wait :=
        match outcome
        case Cached(data) => Received(data)
        case Joined(load) => Awaiting(load)
        case Started(load) => Awaiting(load);
      s.(v := v, callers := s.callers[c := Caller(key, Cutoff(s, key), wait)],
         loads := if outcome.Started? then s.loads[freshLoad := LoadInfo(key, s.time, Loading)] else s.loads)
    case Settle(load, result, now) =>
      var info := s.loads[load];
      var data := if result.Some? then Some(Stamped(result.value, load)) else None;
      s.(v := Finish(s.v, s.lim, info.key, load, data, now),
         loads := s.loads[load := info.(status := if result.Some? then Succeeded(result.value) else FailedLoad)])
    case Deliver(c) =>
      var caller := s.callers[c];
      var status := s.loads[caller.wait.load].status;
      s.(callers := s.callers[c := caller.(wait :=
        if status.Succeeded? then Received(Stamped(status.value, caller.wait.load)) else Rejected)])
    case Peek(key, now) => s.(v := s.v.(cache := Get(s.v.cache, s.lim, key, now).0))
    case Write(key, value, now, freshLoad) =>
      s.(v := s.v.(cache := Set(s.v.cache, s.lim, key, Stamped(value, freshLoad), now)),
         loads := s.loads[freshLoad := LoadInfo(key, s.time, Succeeded(value))])
    case DeleteAct(key) => s.(v := Delete(s.v, key), deletedAt := s.deletedAt[key := s.time])
    case ClearAct => s.(v := Clear(s.v), clearedAt := s.time)
    case PruneAct(now) => s.(v := s.v.(cache := Prune(s.v.cache, s.lim, now)))
  }

  predicate Init(s: State)
  {
    s.v == Flight([], map[], {}) && s.loads == map[] && s.callers == map[] && s.deletedAt == map[] && s.clearedAt == 0 && s.time == 0
  }

  // ---- the invariant --------------------------------------------------------------

  ghost predicate LoadOk(s: State, id: nat)
    requires id in s.loads
  {
    var info := s.loads[id];
    && 0 < info.born <= s.time
    && (info.status.Loading? && id !in s.v.dead ==>
          Cutoff(s, info.key) < info.born && info.key in s.v.inflight && s.v.inflight[info.key] == id)
  }

  ghost predicate InflightOk(s: State, key: string)
    requires key in s.v.inflight
  {
    var id := s.v.inflight[key];
    id in s.loads && s.loads[id].key == key && s.loads[id].status.Loading? && id !in s.v.dead
  }

  /** Data for a key, produced after `cutoff`. */
  ghost predicate From(s: State, key: string, data: Stamped, cutoff: nat)
  {
    && data.origin in s.loads && s.loads[data.origin].key == key
    && s.loads[data.origin].status == Succeeded(data.value) && cutoff < s.loads[data.origin].born
  }

  ghost predicate CallerOk(s: State, c: nat)
    requires c in s.callers
  {
    var caller := s.callers[c];
    match caller.wait
    case Awaiting(load) => load in s.loads && s.loads[load].key == caller.key && caller.cutoff < s.loads[load].born
    case Received(data) => From(s, caller.key, data, caller.cutoff)
    case Rejected => true
  }

  ghost predicate CacheOk(s: State)
  {
    Distinct(s.v.cache) && forall e :: e in s.v.cache ==> From(s, e.key, e.data, Cutoff(s, e.key))
  }

  ghost predicate Inv(s: State)
  {
    && CacheOk(s)
    && (forall id :: id in s.v.dead ==> id in s.loads)
    && (forall id :: id in s.loads ==> LoadOk(s, id))
    && (forall key :: key in s.v.inflight ==> InflightOk(s, key))
    && (forall c :: c in s.callers ==> CallerOk(s, c))
    && s.clearedAt <= s.time && forall key :: key in s.deletedAt ==> s.deletedAt[key] <= s.time
  }

  lemma InitInv(s: State)
    requires Init(s)
    ensures Inv(s)
  {
  }

  // ---- what the cache operations put in ---------------------------------------------

  lemma GetMembers<T>(c: seq<CacheEntry<T>>, lim: Limits, key: string, now: int)
    requires Distinct(c)
    ensures Distinct(Get(c, lim, key, now).0)
    ensures forall e :: e in Get(c, lim, key, now).0 ==> e in c
    ensures Get(c, lim, key, now).1.Hit? ==>
      exists e :: e in c && e.key == key && e.data == Get(c, lim, key, now).1.data
  {
    var i := Find(c, key);
    RemoveKeeps(c, key);
    forall e | e in Remove(c, key)
      ensures e in c
    {
      RemoveMembers(c, key, e);
    }
    if i < |c| {
      assert c[i] in c;
      NotHas(Remove(c, key), key);
    }
  }

  lemma NotHas<T>(c: seq<CacheEntry<T>>, key: string)
    requires !Has(c, key)
    ensures forall j :: 0 <= j < |c| ==> c[j].key != key
  {
  }

  lemma SetMembers<T>(c: seq<CacheEntry<T>>, lim: Limits, key: string, data: T, now: int)
    requires Distinct(c)
    ensures Distinct(Set(c, lim, key, data, now))
    ensures forall e :: e in Set(c, lim, key, data, now) ==> e in c || e == CacheEntry(key, data, now)
  {
    RemoveKeeps(c, key);
    if Has(c, key) {
      forall e | e in Remove(c, key)
        ensures e in c
      {
        RemoveMembers(c, key, e);
      }
      NotHas(Remove(c, key), key);
    } else {
      NotHas(c, key);
    }
  }

  lemma {:induction false} PruneDistinct<T>(c: seq<CacheEntry<T>>, lim: Limits, now: int)
    requires Distinct(c)
    ensures Distinct(Prune(c, lim, now))
  {
    if c == [] {
    } else {
      PruneDistinct(c[1..], lim, now);
      var r := Prune(c[1..], lim, now);
      forall j | 0 <= j < |r|
        ensures c[0].key != r[j].key
      {
        var m := PrunedTail(c, lim, now, j);
      }
    }
  }

  /**
   * A step that invalidates nothing, starts no load and drops
   * nothing in flight: only the cache shrinks or reorders.
   */
  lemma CacheShrinks(s: State, s': State)
    requires Inv(s) && s' == s.(time := s.time + 1, v := s.v.(cache := s'.v.cache))
    requires Distinct(s'.v.cache) && forall e :: e in s'.v.cache ==> e in s.v.cache
    ensures Inv(s')
  {
    forall e | e in s'.v.cache
      ensures From(s', e.key, e.data, Cutoff(s', e.key))
    {
      assert From(s, e.key, e.data, Cutoff(s, e.key));
    }
    forall id | id in s'.loads ensures LoadOk(s', id) { assert LoadOk(s, id); }
    forall key | key in s'.v.inflight ensures InflightOk(s', key) { assert InflightOk(s, key); }
    forall c | c in s'.callers ensures CallerOk(s', c) { assert CallerOk(s, c); }
  }

  lemma CallInv(s: State, a: Action)
    requires Inv(s) && a.Call? && Enabled(s, a)
    ensures Inv(Next(s, a))
  {
    var s' := Next(s, a);
    CallCacheOk(s, a);
    CallLoadsOk(s, a);
    CallerArrives(s, a);
    forall c | c in s'.callers
      ensures CallerOk(s', c)
    {
      if c != a.c { assert CallerOk(s, c); }
    }
  }

  lemma CallCacheOk(s: State, a: Action)
    requires Inv(s) && a.Call? && Enabled(s, a)
    ensures CacheOk(Next(s, a))
  {
    var s' := Next(s, a);
    GetMembers(s.v.cache, s.lim, a.key, a.now);
    forall e | e in s'.v.cache
      ensures From(s', e.key, e.data, Cutoff(s', e.key))
    {
      assert From(s, e.key, e.data, Cutoff(s, e.key));
    }
  }

  lemma CallLoadsOk(s: State, a: Action)
    requires Inv(s) && a.Call? && Enabled(s, a)
    ensures var s' := Next(s, a);
      && (forall id :: id in s'.loads ==> LoadOk(s', id))
      && (forall key :: key in s'.v.inflight ==> InflightOk(s', key))
  {
    var s' := Next(s, a);
    assert Cutoff(s', a.key) == Cutoff(s, a.key);
    forall id | id in s'.loads
      ensures LoadOk(s', id)
    {
      if id in s.loads { assert LoadOk(s, id); }
    }
    forall key | key in s'.v.inflight
      ensures InflightOk(s', key)
    {
      if key in s.v.inflight { assert InflightOk(s, key); }
    }
  }

  lemma CallerArrives(s: State, a: Action)
    requires Inv(s) && a.Call? && Enabled(s, a)
    ensures CallerOk(Next(s, a), a.c)
  {
    var s' := Next(s, a);
    var (v, outcome) := GetOrLoad(s.v, s.lim, a.key, a.now, a.freshLoad);
    GetMembers(s.v.cache, s.lim, a.key, a.now);
    assert Cutoff(s', a.key) == Cutoff(s, a.key);
    match outcome
    case Cached(data) =>
      var e :| e in s.v.cache && e.key == a.key && e.data == data;
      assert From(s, e.key, e.data, Cutoff(s, e.key));
    case Joined(load) =>
      assert InflightOk(s, a.key);
      assert LoadOk(s, load);
    case Started(load) =>
  }

  lemma SettleInv(s: State, a: Action)
    requires Inv(s) && a.Settle? && Enabled(s, a)
    ensures Inv(Next(s, a))
  {
    var s', info := Next(s, a), s.loads[a.load];
    assert LoadOk(s, a.load);
    if a.result.Some? {
      SetMembers(s.v.cache, s.lim, info.key, Stamped(a.result.value, a.load), a.now);
    }
    forall e | e in s'.v.cache
      ensures From(s', e.key, e.data, Cutoff(s', e.key))
    {
      if e in s.v.cache { assert From(s, e.key, e.data, Cutoff(s, e.key)); }
    }
    forall id | id in s'.loads
      ensures LoadOk(s', id)
    {
      assert LoadOk(s, id);
    }
    forall key | key in s'.v.inflight
      ensures InflightOk(s', key)
    {
      assert InflightOk(s, key);
    }
    forall c | c in s'.callers
      ensures CallerOk(s', c)
    {
      assert CallerOk(s, c);
    }
  }

  lemma WriteInv(s: State, a: Action)
    requires Inv(s) && a.Write? && Enabled(s, a)
    ensures Inv(Next(s, a))
  {
    var s' := Next(s, a);
    WriteCacheOk(s, a);
    forall id | id in s'.loads
      ensures LoadOk(s', id)
    {
      if id in s.loads { assert LoadOk(s, id); }
    }
    forall key | key in s'.v.inflight ensures InflightOk(s', key) { assert InflightOk(s, key); }
    forall c | c in s'.callers ensures CallerOk(s', c) { assert CallerOk(s, c); }
  }

  lemma WriteCacheOk(s: State, a: Action)
    requires Inv(s) && a.Write? && Enabled(s, a)
    ensures CacheOk(Next(s, a))
  {
    var s' := Next(s, a);
    SetMembers(s.v.cache, s.lim, a.key, Stamped(a.value, a.freshLoad), a.now);
    forall e | e in s'.v.cache
      ensures From(s', e.key, e.data, Cutoff(s', e.key))
    {
      if e in s.v.cache { assert From(s, e.key, e.data, Cutoff(s, e.key)); }
    }
  }

  lemma DeliverInv(s: State, a: Action)
    requires Inv(s) && a.Deliver? && Enabled(s, a)
    ensures Inv(Next(s, a))
  {
    var s' := Next(s, a);
    assert CallerOk(s, a.c);
    forall e | e in s'.v.cache
      ensures From(s', e.key, e.data, Cutoff(s', e.key))
    {
      assert From(s, e.key, e.data, Cutoff(s, e.key));
    }
    forall id | id in s'.loads ensures LoadOk(s', id) { assert LoadOk(s, id); }
    forall key | key in s'.v.inflight ensures InflightOk(s', key) { assert InflightOk(s, key); }
    forall c | c in s'.callers
      ensures CallerOk(s', c)
    {
      assert CallerOk(s, c);
    }
  }

  lemma DeleteInv(s: State, key: string)
    requires Inv(s)
    ensures Inv(Next(s, DeleteAct(key)))
  {
    var s' := Next(s, DeleteAct(key));
    RemoveKeeps(s.v.cache, key);
    forall e | e in s'.v.cache
      ensures From(s', e.key, e.data, Cutoff(s', e.key))
    {
      RemoveMembers(s.v.cache, key, e);
      assert From(s, e.key, e.data, Cutoff(s, e.key));
    }
    forall id | id in s'.loads
      ensures LoadOk(s', id)
    {
      assert LoadOk(s, id);
    }
    forall k | k in s'.v.inflight
      ensures InflightOk(s', k)
    {
      assert InflightOk(s, k);
      if key in s.v.inflight { assert InflightOk(s, key); }
    }
    forall c | c in s'.callers ensures CallerOk(s', c) { assert CallerOk(s, c); }
    if key in s.v.inflight { assert InflightOk(s, key); }
  }

  lemma ClearInv(s: State)
    requires Inv(s)
    ensures Inv(Next(s, ClearAct))
  {
    var s' := Next(s, ClearAct);
    forall id | id in s'.v.dead
      ensures id in s'.loads
    {
      if id !in s.v.dead {
        var k :| k in s.v.inflight && s.v.inflight[k] == id;
        assert InflightOk(s, k);
      }
    }
    forall id | id in s'.loads
      ensures LoadOk(s', id)
    {
      assert LoadOk(s, id);
    }
    forall c | c in s'.callers ensures CallerOk(s', c) { assert CallerOk(s, c); }
  }

  /** Every step keeps the invariant. */
  lemma NextInv(s: State, a: Action)
    requires Inv(s) && Enabled(s, a)
    ensures Inv(Next(s, a))
  {
    match a
    case Call(_, _, _, _) => CallInv(s, a);
    case Settle(_, _, _) => SettleInv(s, a);
    case Deliver(_) => DeliverInv(s, a);
    case Write(_, _, _, _) => WriteInv(s, a);
    case DeleteAct(key) => DeleteInv(s, key);
    case ClearAct => ClearInv(s);
    case Peek(key, now) =>
      GetMembers(s.v.cache, s.lim, key, now);
      CacheShrinks(s, Next(s, a));
    case PruneAct(now) =>
      PruneDistinct(s.v.cache, s.lim, now);
      forall e | e in Prune(s.v.cache, s.lim, now)
        ensures e in s.v.cache
      {
        PruneMembers(s.v.cache, s.lim, now, e);
      }
      CacheShrinks(s, Next(s, a));
  }

  // ---- runs -----------------------------------------------------------------------

  ghost predicate Possible(s: State, run: seq<Action>)
    decreases |run|
  {
    run == [] || (Enabled(s, run[0]) && Possible(Next(s, run[0]), run[1..]))
  }

  ghost function After(s: State, run: seq<Action>): State
    requires Possible(s, run)
    decreases |run|
  {
    if run == [] then s else After(Next(s, run[0]), run[1..])
  }

  lemma {:induction false} RunInv(s: State, run: seq<Action>)
    requires Inv(s) && Possible(s, run)
    ensures Inv(After(s, run))
    decreases |run|
  {
    if run == [] {
    } else {
      NextInv(s, run[0]);
      RunInv(Next(s, run[0]), run[1..]);
    }
  }

  /** A state that some run reaches. */
  ghost predicate Reachable(s: State)
  {
    exists s0, run :: Init(s0) && Possible(s0, run) && s == After(s0, run)
  }

  lemma ReachableInv(s: State)
    requires Reachable(s)
    ensures Inv(s)
  {
    var s0, run :| Init(s0) && Possible(s0, run) && s == After(s0, run);
    InitInv(s0);
    RunInv(s0, run);
  }

  /** What is cached for a key was loaded after the key's latest invalidation. */
  lemma CachedIsCurrent(s: State, i: nat)
    requires Reachable(s) && i < |s.v.cache|
    ensures var e := s.v.cache[i];
      && e.data.origin in s.loads && s.loads[e.data.origin].key == e.key
      && s.loads[e.data.origin].status == Succeeded(e.data.value)
      && Cutoff(s, e.key) < s.loads[e.data.origin].born
  {
    ReachableInv(s);
    assert s.v.cache[i] in s.v.cache;
  }

  /** What a caller receives was loaded after the invalidation that preceded its call. */
  lemma ReceivedIsCurrent(s: State, c: nat)
    requires Reachable(s) && c in s.callers && s.callers[c].wait.Received?
    ensures var caller := s.callers[c];
      && caller.wait.data.origin in s.loads && s.loads[caller.wait.data.origin].key == caller.key
      && s.loads[caller.wait.data.origin].status == Succeeded(caller.wait.data.value)
      && caller.cutoff < s.loads[caller.wait.data.origin].born
  {
    ReachableInv(s);
    assert CallerOk(s, c);
  }

  /** At most one load per key is in flight and not invalidated. */
  lemma SingleFlight(s: State, id1: nat, id2: nat)
    requires Reachable(s) && id1 in s.loads && id2 in s.loads && s.loads[id1].key == s.loads[id2].key
    requires s.loads[id1].status.Loading? && s.loads[id2].status.Loading? && id1 !in s.v.dead && id2 !in s.v.dead
    ensures id1 == id2
  {
    ReachableInv(s);
    assert LoadOk(s, id1) && LoadOk(s, id2);
  }

  /** Settling a detached load writes nothing and leaves every load in flight in place. */
  lemma DetachedLoadIsHarmless(s: State, load: nat, result: Option<string>, now: int)
    requires Reachable(s) && Enabled(s, Settle(load, result, now)) && load in s.v.dead
    ensures Next(s, Settle(load, result, now)).v == s.v
  {
    ReachableInv(s);
    var key := s.loads[load].key;
    if key in s.v.inflight {
      assert InflightOk(s, key);
    }
  }

  /** Settling any load removes at most its own entry in flight. */
  lemma SettleRemovesOwnEntry(s: State, load: nat, result: Option<string>, now: int, key: string)
    requires Reachable(s) && Enabled(s, Settle(load, result, now)) && key in s.v.inflight
    ensures var s' := Next(s, Settle(load, result, now));
      if s.v.inflight[key] == load then key !in s'.v.inflight
      else key in s'.v.inflight && s'.v.inflight[key] == s.v.inflight[key]
  {
    ReachableInv(s);
    assert InflightOk(s, key);
  }

  // ---- bursts ---------------------------------------------------------------------------

  /**
   * A load of the key is in flight, and whatever is cached for
   * the key is too old to be a fresh hit from `since` on.
   */
  ghost predicate Burst(s: State, key: string, load: nat, since: int)
  {
    && key in s.v.inflight && s.v.inflight[key] == load
    && forall e :: e in s.v.cache && e.key == key ==> since - e.insertedAt > s.lim.ttlMs
  }

  /**
   * Steps that leave the load in flight and put nothing in the
   * cache for the key, under a clock that is not behind.
   */
  predicate Quiet(a: Action, key: string, load: nat, since: int)
  {
    match a
    case Call(_, _, now, _) => now >= since
    case Settle(id, _, _) => id != load
    case Write(k, _, _, _) => k != key
    case DeleteAct(k) => k != key
    case ClearAct => false
    case _ => true
  }

  /** A caller that has to wait opens a burst. */
  lemma WaitingOpensBurst(s: State, c: nat, key: string, now: int, freshLoad: nat)
    requires Inv(s) && Enabled(s, Call(c, key, now, freshLoad))
    requires Next(s, Call(c, key, now, freshLoad)).callers[c].wait.Awaiting?
    ensures var s' := Next(s, Call(c, key, now, freshLoad)); Burst(s', key, s'.callers[c].wait.load, now)
  {
    var s' := Next(s, Call(c, key, now, freshLoad));
    GetMembers(s.v.cache, s.lim, key, now);
    forall e | e in s'.v.cache && e.key == key ensures now - e.insertedAt > s.lim.ttlMs {
      HeldStale(s.v.cache, s.lim, key, now, e);
    }
  }

  /** What get() leaves under the key it was asked for, without a fresh hit, is stale. */
  lemma HeldStale<T>(c: seq<CacheEntry<T>>, lim: Limits, key: string, now: int, e: CacheEntry<T>)
    requires Distinct(c) && e in Get(c, lim, key, now).0 && e.key == key
    requires !(Get(c, lim, key, now).1.Hit? && !Get(c, lim, key, now).1.stale)
    ensures now - e.insertedAt > lim.ttlMs
  {
    var i := Find(c, key);
    if i == |c| {
      NotHas(c, key);
    } else {
      RemoveKeeps(c, key);
      NotHas(Remove(c, key), key);
    }
  }

  lemma BurstStep(s: State, a: Action, key: string, load: nat, since: int)
    requires Inv(s) && Enabled(s, a) && Burst(s, key, load, since) && Quiet(a, key, load, since)
    ensures Burst(Next(s, a), key, load, since)
  {
    match a
    case Call(_, k, now, _) => GetMembers(s.v.cache, s.lim, k, now);
    case Peek(k, now) => GetMembers(s.v.cache, s.lim, k, now);
    case PruneAct(now) => PruneKeeps(s.v.cache, s.lim, now);
    case Settle(id, result, now) => SettleKeepsBurst(s, a, key, load, since);
    case Write(k, value, now, freshLoad) => SetMembers(s.v.cache, s.lim, k, Stamped(value, freshLoad), now);
    case DeleteAct(k) => RemoveSubset(s.v.cache, k);
    case _ =>
  }

  lemma PruneKeeps<T>(c: seq<CacheEntry<T>>, lim: Limits, now: int)
    ensures forall e :: e in Prune(c, lim, now) ==> e in c
  {
    forall e | e in Prune(c, lim, now) ensures e in c {
      PruneMembers(c, lim, now, e);
    }
  }

  lemma RemoveSubset<T>(c: seq<CacheEntry<T>>, key: string)
    requires Distinct(c)
    ensures forall e :: e in Remove(c, key) ==> e in c
  {
    forall e | e in Remove(c, key) ensures e in c {
      RemoveMembers(c, key, e);
    }
  }

  /** Another load that settles writes for the key only if it was invalidated, and then it does not write. */
  lemma SettleKeepsBurst(s: State, a: Action, key: string, load: nat, since: int)
    requires Inv(s) && Enabled(s, a) && Burst(s, key, load, since) && a.Settle? && a.load != load
    ensures Burst(Next(s, a), key, load, since)
  {
    assert LoadOk(s, a.load) && InflightOk(s, key);
    if a.result.Some? {
      SetMembers(s.v.cache, s.lim, s.loads[a.load].key, Stamped(a.result.value, a.load), a.now);
    }
  }

  /** A caller that comes in a burst waits for its load and starts none. */
  lemma CallerJoins(s: State, a: Action, key: string, load: nat, since: int)
    requires Inv(s) && Enabled(s, a) && Burst(s, key, load, since) && a.Call? && a.key == key && a.now >= since
    ensures Next(s, a).callers[a.c].wait == Awaiting(load) && Next(s, a).loads == s.loads
  {
    var i := Find(s.v.cache, key);
    if i < |s.v.cache| {
      assert s.v.cache[i] in s.v.cache;
    }
  }

  /**
   * Over any run in which the load does not settle, nothing is written for the
   * key, and neither the key nor everything is invalidated, every caller of the
   * key waits for that load, however the others come and go.
   */
  lemma {:induction false} BurstSharesOneLoad(s: State, run: seq<Action>, key: string, load: nat, since: int, i: nat)
    requires Inv(s) && Possible(s, run) && Burst(s, key, load, since)
    requires forall j :: 0 <= j < |run| ==> Quiet(run[j], key, load, since)
    requires i < |run| && run[i].Call? && run[i].key == key
    ensures Possible(s, run[..i]) && Possible(s, run[..i + 1])
    ensures var before, after := After(s, run[..i]), After(s, run[..i + 1]);
      run[i].c in after.callers && after.callers[run[i].c].wait == Awaiting(load) && after.loads == before.loads
    decreases |run|
  {
    assert Quiet(run[0], key, load, since);
    assert run[..i + 1][1..] == run[1..][..i];
    NextInv(s, run[0]);
    if i == 0 {
      assert run[..0] == [] && run[..1] == [run[0]];
      CallerJoins(s, run[0], key, load, since);
    } else {
      BurstStep(s, run[0], key, load, since);
      assert run[..i][1..] == run[1..][..i - 1];
      BurstSharesOneLoad(Next(s, run[0]), run[1..], key, load, since, i - 1);
    }
  }
}
