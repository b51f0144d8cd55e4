/**
 * What getOrLoad() answers in every reachable state, what each step leaves in
 * the cache, and what a waiting caller gets in the end.
 */
module RateCacheAnswers {
  import opened Prelude
  import opened LruCache
  import opened RateCache
  import opened RateCacheRuns

  /** The cache holds this entry of the key, and it is neither older than the TTL nor than the tolerance. */
  ghost predicate Fresh<T>(c: seq<CacheEntry<T>>, lim: Limits, key: string, now: int, e: CacheEntry<T>)
  {
    e in c && e.key == key && now - e.insertedAt <= lim.ttlMs && now - e.insertedAt <= lim.staleToleranceMs
  }

  // ---- get() and set() --------------------------------------------------------------------

  /**
   * get() hits exactly an entry within the tolerance, and
   * calls it stale exactly if it is older than the TTL.
   */
  lemma GetDecides<T>(c: seq<CacheEntry<T>>, lim: Limits, key: string, now: int)
    requires Distinct(c)
    ensures Get(c, lim, key, now).1.Hit? <==>
      exists e :: e in c && e.key == key && now - e.insertedAt <= lim.staleToleranceMs
    ensures forall e :: e in c && e.key == key && now - e.insertedAt <= lim.staleToleranceMs ==>
      Get(c, lim, key, now).1 == Hit(e.data, now - e.insertedAt > lim.ttlMs)
  {
    var i := Find(c, key);
    if i < |c| {
      assert c[i] in c;
    }
    forall e | e in c && e.key == key ensures i < |c| && e == c[i] {
      OnlyEntry(c, i, e);
    }
  }

  lemma OnlyEntry<T>(c: seq<CacheEntry<T>>, i: nat, e: CacheEntry<T>)
    requires Distinct(c) && e in c && i == Find(c, e.key)
    ensures i < |c| && e == c[i]
  {
    var j :| 0 <= j < |c| && c[j] == e;
    if i == |c| {
      NotHas(c, e.key);
    }
  }

  /** It drops an entry of the key that is too old, and nothing else. */
  lemma GetKeeps<T>(c: seq<CacheEntry<T>>, lim: Limits, key: string, now: int, e: CacheEntry<T>)
    requires Distinct(c)
    ensures e in Get(c, lim, key, now).0 <==> e in c && !(e.key == key && now - e.insertedAt > lim.staleToleranceMs)
  {
    var i := Find(c, key);
    RemoveMembers(c, key, e);
    if i < |c| {
      assert c[i] in c;
      if e in c && e.key == key {
        OnlyEntry(c, i, e);
      }
    } else {
      NotHas(c, key);
    }
  }

  /**
   * set() leaves exactly the new entry of its key, and all others
   * but the front of a full cache when the key is new.
   */
  lemma SetKeeps<T>(c: seq<CacheEntry<T>>, lim: Limits, key: string, data: T, now: int, e: CacheEntry<T>)
    requires Distinct(c)
    ensures var known := exists x :: x in c && x.key == key;
      e in Set(c, lim, key, data, now) <==>
        || e == CacheEntry(key, data, now)
        || (e in c && e.key != key && (known || |c| < lim.maxEntries || e != c[0]))
  {
    RemoveMembers(c, key, e);
    if Has(c, key) {
      assert c[Find(c, key)] in c;
    } else {
      NotHas(c, key);
      if |c| >= lim.maxEntries && c != [] {
        TailMembers(c, e);
      }
    }
  }

  lemma TailMembers<T>(c: seq<CacheEntry<T>>, e: CacheEntry<T>)
    requires Distinct(c) && c != []
    ensures e in c[1..] <==> e in c && e != c[0]
  {
    if e in c[1..] {
      var j :| 0 <= j < |c| - 1 && c[1..][j] == e;
      assert c[j + 1] == e;
    }
    if e in c && e != c[0] {
      var j :| 0 <= j < |c| && c[j] == e;
      assert c[1..][j - 1] == e;
    }
  }

  // ---- getOrLoad() --------------------------------------------------------------------------

  /**
   * A caller is answered at once exactly if the cache holds a fresh entry of its
   * key, and then with its data. Otherwise it waits for the load in flight, and
   * only if there is none it starts one.
   */
  lemma CallDecides(s: State, c: nat, key: string, now: int, freshLoad: nat)
    requires Inv(s) && Enabled(s, Call(c, key, now, freshLoad))
    ensures var t, wait := Next(s, Call(c, key, now, freshLoad)), Next(s, Call(c, key, now, freshLoad)).callers[c].wait;
      && (wait.Received? <==> exists e :: Fresh(s.v.cache, s.lim, key, now, e))
      && (forall e :: Fresh(s.v.cache, s.lim, key, now, e) ==> wait == Received(e.data))
      && (!wait.Received? ==> wait == Awaiting(if key in s.v.inflight then s.v.inflight[key] else freshLoad))
      && t.loads == (if wait.Received? || key in s.v.inflight then s.loads
                     else s.loads[freshLoad := LoadInfo(key, s.time + 1, Loading)])
      && t.v.inflight == (if wait.Received? || key in s.v.inflight then s.v.inflight else s.v.inflight[key := freshLoad])
      && t.v.dead == s.v.dead
  {
    GetDecides(s.v.cache, s.lim, key, now);
    var found := Get(s.v.cache, s.lim, key, now).1;
    if found.Hit? {
      var e :| e in s.v.cache && e.key == key && now - e.insertedAt <= s.lim.staleToleranceMs;
      assert found == Hit(e.data, now - e.insertedAt > s.lim.ttlMs);
      assert !found.stale ==> Fresh(s.v.cache, s.lim, key, now, e);
    }
  }

  /** What a step leaves in the cache. */
  ghost predicate Leaves(s: State, a: Action, e: CacheEntry<Stamped>)
    requires Enabled(s, a)
  {
    match a
    case Call(_, key, now, _) => e in s.v.cache && !(e.key == key && now - e.insertedAt > s.lim.staleToleranceMs)
    case Peek(key, now) => e in s.v.cache && !(e.key == key && now - e.insertedAt > s.lim.staleToleranceMs)
    case Settle(load, result, now) =>
      if result.Some? && load !in s.v.dead then Written(s, s.loads[load].key, Stamped(result.value, load), now, e)
      else e in s.v.cache
    case Write(key, value, now, load) => Written(s, key, Stamped(value, load), now, e)
    case DeleteAct(key) => e in s.v.cache && e.key != key
    case ClearAct => false
    case PruneAct(now) => e in s.v.cache && now - e.insertedAt <= s.lim.staleToleranceMs
    case Deliver(_) => e in s.v.cache
  }

  /**
   * After a write of the key: the new entry, and the others, of
   * which a new key evicts the front of a full cache.
   */
  ghost predicate Written(s: State, key: string, data: Stamped, now: int, e: CacheEntry<Stamped>)
  {
    || e == CacheEntry(key, data, now)
    || (e in s.v.cache && e.key != key
        && ((exists x :: x in s.v.cache && x.key == key) || |s.v.cache| < s.lim.maxEntries || e != s.v.cache[0]))
  }

  /** Every step leaves exactly that. */
  lemma CacheAfter(s: State, a: Action, e: CacheEntry<Stamped>)
    requires Inv(s) && Enabled(s, a)
    ensures e in Next(s, a).v.cache <==> Leaves(s, a, e)
  {
    match a
    case Call(_, key, now, _) => GetKeeps(s.v.cache, s.lim, key, now, e);
    case Peek(key, now) => GetKeeps(s.v.cache, s.lim, key, now, e);
    case Settle(load, result, now) =>
      if result.Some? {
        SetKeeps(s.v.cache, s.lim, s.loads[load].key, Stamped(result.value, load), now, e);
      }
    case Write(key, value, now, load) => SetKeeps(s.v.cache, s.lim, key, Stamped(value, load), now, e);
    case DeleteAct(key) => RemoveMembers(s.v.cache, key, e);
    case PruneAct(now) => PruneMembers(s.v.cache, s.lim, now, e);
    case _ =>
  }

  /** An invalidation detaches exactly the loads of its keys. */
  lemma InvalidationDetaches(s: State, a: Action, key: string)
    requires Inv(s) && Enabled(s, a) && (a.DeleteAct? || a.ClearAct?) && key in s.v.inflight
    ensures var t, load := Next(s, a), s.v.inflight[key];
      if a.ClearAct? || a.key == key then key !in t.v.inflight && load in t.v.dead
      else key in t.v.inflight && t.v.inflight[key] == load && load !in t.v.dead
  {
    assert InflightOk(s, key);
    if a.DeleteAct? && a.key in s.v.inflight {
      assert InflightOk(s, a.key);
    }
  }

  // ---- what a waiting caller gets ------------------------------------------------------------

  /** Loads keep their outcome, and callers wait for theirs. */
  lemma {:induction false} OutcomeStays(s: State, run: seq<Action>, c: nat, load: nat)
    requires Possible(s, run) && load in s.loads && !s.loads[load].status.Loading?
    requires c in s.callers && s.callers[c].wait == Awaiting(load) && forall i :: 0 <= i < |run| ==> run[i] != Deliver(c)
    ensures var t := After(s, run);
      load in t.loads && t.loads[load] == s.loads[load] && c in t.callers && t.callers[c] == s.callers[c]
    decreases |run|
  {
    if run == [] {
    } else {
      OutcomeStays(Next(s, run[0]), run[1..], c, load);
    }
  }

  /**
   * Whatever happens after its load settled, a waiting caller gets what the loader
   * gave, or is rejected if it gave nothing: also when the load was invalidated.
   */
  lemma WaiterGetsOutcome(s: State, load: nat, result: Option<string>, now: int, c: nat, run: seq<Action>)
    requires Enabled(s, Settle(load, result, now)) && c in s.callers && s.callers[c].wait == Awaiting(load)
    requires Possible(Next(s, Settle(load, result, now)), run) && forall i :: 0 <= i < |run| ==> run[i] != Deliver(c)
    ensures var t := After(Next(s, Settle(load, result, now)), run);
      && Enabled(t, Deliver(c))
      && Next(t, Deliver(c)).callers[c].wait == if result.Some? then Received(Stamped(result.value, load)) else Rejected
  {
    OutcomeStays(Next(s, Settle(load, result, now)), run, c, load);
  }
}
