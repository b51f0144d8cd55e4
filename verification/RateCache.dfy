/**
 * The in-process exchange-rate cache: an LRU with staleness, and at most one
 * load in flight per key. delete() and clear() detach the load in flight.
 *
 * This module holds the synchronous pieces between two awaits; RateCacheRuns
 * interleaves them.
 */
module RateCache {
  import opened Prelude
  import opened LruCache

  /** The cache, the load in flight per key, and the loads that were invalidated. */
  datatype Flight<T> = Flight(cache: seq<CacheEntry<T>>, inflight: map<string, nat>, dead: set<nat>)

  datatype Outcome<T> = Cached(data: T) | Joined(load: nat) | Started(load: nat)

  /** getOrLoad up to its first await. */
  function GetOrLoad<T>(v: Flight<T>, lim: Limits, key: string, now: int, freshLoad: nat): (Flight<T>, Outcome<T>)
  {
    var (cache, found) := Get(v.cache, lim, key, now);
    var v' := v.(cache := cache);
    if found.Hit? && !found.stale then (v', Cached(found.data))
    else if key in v.inflight then (v', Joined(v.inflight[key]))
    else (v'.(inflight := v.inflight[key := freshLoad]), Started(freshLoad))
  }

  /** The rest of a load once its loader settled: Some(data), or None for an error or a timeout. */
  function Finish<T>(v: Flight<T>, lim: Limits, key: string, load: nat, result: Option<T>, now: int): Flight<T>
  {
    Flight(if result.Some? && load !in v.dead then Set(v.cache, lim, key, result.value, now) else v.cache,
           if key in v.inflight && v.inflight[key] == load then v.inflight - {key} else v.inflight,
           v.dead)
  }

  function InvalidateInflight<T>(v: Flight<T>, key: string): Flight<T>
  {
    if key in v.inflight then v.(inflight := v.inflight - {key}, dead := v.dead + {v.inflight[key]}) else v
  }

  function Delete<T>(v: Flight<T>, key: string): Flight<T>
  {
    InvalidateInflight(v, key).(cache := Remove(v.cache, key))
  }

  function Clear<T>(v: Flight<T>): Flight<T>
  {
    Flight([], map[], v.dead + v.inflight.Values)
  }

  // ---- the program's objects ----------------------------------------------------------

  /** The entry object a load keeps while it is in flight. */
  class InflightLoad {
    const key: string
    const id: nat
    var invalidated: bool

    constructor (key: string, id: nat)
      ensures this.key == key && this.id == id && !invalidated
    {
      this.key, this.id, invalidated := key, id, false;
    }
  }

  ghost function LoadIds(loads: map<string, InflightLoad>): map<string, nat> { map k | k in loads :: loads[k].id }

  lemma LoadIdsChange(loads: map<string, InflightLoad>, key: string, entry: InflightLoad)
    ensures LoadIds(loads[key := entry]) == LoadIds(loads)[key := entry.id]
    ensures LoadIds(loads - {key}) == LoadIds(loads) - {key}
  {
  }

  ghost function Ids(loads: map<string, InflightLoad>, keys: set<string>): set<nat>
    requires keys <= loads.Keys
  {
    set k | k in keys :: loads[k].id
  }

  lemma IdsGrow(loads: map<string, InflightLoad>, keys: set<string>, key: string)
    requires key in keys && keys <= loads.Keys
    ensures Ids(loads, loads.Keys - (keys - {key})) == Ids(loads, loads.Keys - keys) + {loads[key].id}
  {
    assert loads.Keys - (keys - {key}) == loads.Keys - keys + {key};
  }

  lemma AllIds(loads: map<string, InflightLoad>)
    ensures Ids(loads, loads.Keys) == LoadIds(loads).Values
  {
    forall id | id in LoadIds(loads).Values ensures id in Ids(loads, loads.Keys) {
      var k :| k in loads && LoadIds(loads)[k] == id;
    }
    forall id | id in Ids(loads, loads.Keys) ensures id in LoadIds(loads).Values {
      var k :| k in loads && loads[k].id == id;
      assert LoadIds(loads)[k] == id;
    }
  }

  class ExchangeRateCache<T> {
    const lim: Limits
    var cache: seq<CacheEntry<T>>
    var inflight: map<string, InflightLoad>
    ghost var dead: set<nat>

    constructor (lim: Limits)
      ensures Valid() && View() == Flight([], map[], {}) && this.lim == lim
    {
      this.lim := lim;
      cache, inflight, dead := [], map[], {};
    }

    ghost predicate Valid()
      reads this, inflight.Values
    {
      && (forall k :: k in inflight ==> inflight[k].key == k && !inflight[k].invalidated && inflight[k].id !in dead)
      && (forall k1, k2 :: k1 in inflight && k2 in inflight && inflight[k1].id == inflight[k2].id ==> k1 == k2)
    }

    ghost function View(): Flight<T>
      reads this
    {
      Flight(cache, LoadIds(inflight), dead)
    }

    /**
     * The entry object stands for its load: it is in the table
     * under its id, and it knows whether it was invalidated.
     */
    ghost predicate Tracks(entry: InflightLoad)
      reads this, entry
    {
      && (entry.invalidated <==> entry.id in dead)
      && (entry.key in inflight && inflight[entry.key].id == entry.id ==> inflight[entry.key] == entry)
    }

    method Lookup(key: string, now: int) returns (found: Lookup<T>)
      modifies this`cache
      ensures (cache, found) == Get(old(cache), lim, key, now)
    {
      var i := Find(cache, key);
      if i == |cache| {
        return Miss;
      }
      var entry := cache[i];
      var age := now - entry.insertedAt;
      cache := Remove(cache, key);
      if age > lim.staleToleranceMs {
        return Miss;
      }
      cache := cache + [entry];
      found := Hit(entry.data, age > lim.ttlMs);
    }

    method Store(key: string, data: T, now: int)
      modifies this`cache
      ensures cache == Set(old(cache), lim, key, data, now)
    {
      if Has(cache, key) {
        cache := Remove(cache, key);
      } else if |cache| >= lim.maxEntries && |cache| > 0 {
        cache := cache[1..];
      }
      cache := cache + [CacheEntry(key, data, now)];
    }

    method BeginGetOrLoad(key: string, now: int, freshLoad: nat)
      returns (outcome: Outcome<T>, entry: Option<InflightLoad>)
      requires Valid() && freshLoad !in dead && forall k :: k in inflight ==> inflight[k].id != freshLoad
      modifies this`cache, this`inflight
      ensures Valid() && (View(), outcome) == GetOrLoad(old(View()), lim, key, now, freshLoad)
      ensures !outcome.Cached? ==> entry.Some? && key in inflight && inflight[key] == entry.value && Tracks(entry.value)
    {
      var found := Lookup(key, now);
      if found.Hit? && !found.stale {
        return Cached(found.data), None;
      }
      if key in inflight {
        return Joined(inflight[key].id), Some(inflight[key]);
      }
      var e := new InflightLoad(key, freshLoad);
      LoadIdsChange(inflight, key, e);
      inflight := inflight[key := e];
      outcome, entry := Started(freshLoad), Some(e);
    }

    method FinishLoad(entry: InflightLoad, result: Option<T>, now: int)
      requires Valid() && Tracks(entry)
      modifies this`cache, this`inflight
      ensures Valid() && View() == Finish(old(View()), lim, entry.key, entry.id, result, now)
    {
      if result.Some? && !entry.invalidated {
        Store(entry.key, result.value, now);
      }
      if entry.key in inflight && inflight[entry.key] == entry {
        LoadIdsChange(inflight, entry.key, entry);
        inflight := inflight - {entry.key};
      }
    }

    method InvalidateLoad(key: string)
      modifies this`inflight, this`dead, if key in inflight then {inflight[key]} else {}
      ensures View() == InvalidateInflight(old(View()), key) && (old(Valid()) ==> Valid())
      ensures inflight == old(inflight) - {key}
      ensures key in old(inflight) ==> old(inflight)[key].invalidated
      ensures dead == old(dead) + if key in old(inflight) then {old(inflight)[key].id} else {}
    {
      if key in inflight {
        var entry := inflight[key];
        entry.invalidated := true;
        LoadIdsChange(inflight, key, entry);
        inflight := inflight - {key};
        dead := dead + {entry.id};
      }
    }

    method DeleteKey(key: string)
      requires Valid()
      modifies this, inflight.Values
      ensures Valid() && View() == Delete(old(View()), key)
      ensures key in old(inflight) ==> old(inflight)[key].invalidated
    {
      InvalidateLoad(key);
      cache := Remove(cache, key);
    }

    method ClearAll()
      requires Valid()
      modifies this, inflight.Values
      ensures Valid() && View() == Clear(old(View()))
      ensures forall k :: k in old(inflight) ==> old(inflight)[k].invalidated
    {
      AllIds(inflight);
      InvalidateAll();
      cache := [];
      assert LoadIds(inflight) == map[];
    }

    method InvalidateAll()
      modifies this`inflight, this`dead, inflight.Values
      ensures inflight == map[] && dead == old(dead) + Ids(old(inflight), old(inflight).Keys)
      ensures forall k :: k in old(inflight) ==> old(inflight)[k].invalidated
    {
      var keys := inflight.Keys;
      ghost var was := inflight;
      while keys != {}
        invariant inflight.Keys == keys <= was.Keys
        invariant forall k :: k in keys ==> inflight[k] == was[k]
        invariant forall k :: k in was && k !in keys ==> was[k].invalidated
        invariant dead == old(dead) + Ids(was, was.Keys - keys)
        decreases keys
      {
        var key :| key in keys;
        IdsGrow(was, keys, key);
        InvalidateLoad(key);
        keys := keys - {key};
      }
      assert was.Keys - keys == was.Keys;
    }

    method PruneExpired(now: int) returns (pruned: nat)
      modifies this`cache
      ensures cache == Prune(old(cache), lim, now) && pruned == |old(cache)| - |cache|
    {
      var kept: seq<CacheEntry<T>> := [];
      pruned := 0;
      for i := 0 to |cache|
        invariant kept + Prune(cache[i..], lim, now) == Prune(cache, lim, now)
        invariant pruned == i - |kept|
      {
        assert cache[i..][0] == cache[i] && cache[i..][1..] == cache[i + 1..];
        if now - cache[i].insertedAt > lim.staleToleranceMs {
          pruned := pruned + 1;
        } else {
          kept := kept + [cache[i]];
        }
      }
      cache := kept;
    }
  }
}
