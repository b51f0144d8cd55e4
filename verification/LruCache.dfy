/**
 * The insertion-ordered Map behind the exchange-rate cache, used as an LRU:
 * reading or writing a key moves it to the end, capacity evicts the front.
 */
module LruCache {
  import opened Prelude

  datatype CacheEntry<T> = CacheEntry(key: string, data: T, insertedAt: int)

  datatype Limits = Limits(ttlMs: int, maxEntries: nat, staleToleranceMs: int)

  datatype Lookup<T> = Miss | Hit(data: T, stale: bool)

  /** The keys of a Map are distinct. */
  ghost predicate Distinct<T>(c: seq<CacheEntry<T>>)
  {
    forall i, j :: 0 <= i < j < |c| ==> c[i].key != c[j].key
  }

  /** The position of a key, or the size. */
  function Find<T>(c: seq<CacheEntry<T>>, key: string): (i: nat)
    ensures i <= |c|
    ensures i < |c| ==> c[i].key == key
    ensures forall j :: 0 <= j < i ==> c[j].key != key
  {
    if c == [] || c[0].key == key then 0 else 1 + Find(c[1..], key)
  }

  predicate Has<T>(c: seq<CacheEntry<T>>, key: string) { Find(c, key) < |c| }

  lemma Here<T>(c: seq<CacheEntry<T>>, i: nat)
    requires i < |c|
    ensures Has(c, c[i].key)
  {
  }

  function Drop<T>(c: seq<CacheEntry<T>>, i: nat): (r: seq<CacheEntry<T>>)
    ensures |r| == if i < |c| then |c| - 1 else |c|
    ensures forall j :: 0 <= j < |r| ==> r[j] == if j < i then c[j] else c[j + 1]
  {
    if i < |c| then c[..i] + c[i + 1..] else c
  }

  /** Map.prototype.delete */
  function Remove<T>(c: seq<CacheEntry<T>>, key: string): (r: seq<CacheEntry<T>>)
  {
    Drop(c, Find(c, key))
  }

  /** get(): the entry is dropped when too old, otherwise moved to the end. */
  function Get<T>(c: seq<CacheEntry<T>>, lim: Limits, key: string, now: int): (seq<CacheEntry<T>>, Lookup<T>)
  {
    var i := Find(c, key);
    if i == |c| then (c, Miss)
    else if now - c[i].insertedAt > lim.staleToleranceMs then (Remove(c, key), Miss)
    else (Remove(c, key) + [c[i]], Hit(c[i].data, now - c[i].insertedAt > lim.ttlMs))
  }

  /** set(): an existing key moves to the end; a new one evicts the front of a full cache. */
  function Set<T>(c: seq<CacheEntry<T>>, lim: Limits, key: string, data: T, now: int): seq<CacheEntry<T>>
  {
    var kept :=
      if Has(c, key) then Remove(c, key)
      else if |c| >= lim.maxEntries && c != [] then c[1..]
      else c;
    kept + [CacheEntry(key, data, now)]
  }

  function Prune<T>(c: seq<CacheEntry<T>>, lim: Limits, now: int): (r: seq<CacheEntry<T>>)
  {
    if c == [] then []
    else if now - c[0].insertedAt > lim.staleToleranceMs then Prune(c[1..], lim, now)
    else [c[0]] + Prune(c[1..], lim, now)
  }

  // ---- what a removal keeps ----------------------------------------------------------

  lemma RemoveKeeps<T>(c: seq<CacheEntry<T>>, key: string)
    requires Distinct(c)
    ensures Distinct(Remove(c, key)) && !Has(Remove(c, key), key)
    ensures |Remove(c, key)| == |c| - if Has(c, key) then 1 else 0
  {
    if Has(c, key) {
      var i, r := Find(c, key), Remove(c, key);
      forall j | 0 <= j < |r|
        ensures r[j].key != key
      {
        if j < i { assert c[j].key != c[i].key; } else { assert c[i].key != c[j + 1].key; }
      }
    }
  }

  /** What remains after a removal. */
  lemma RemoveMembers<T>(c: seq<CacheEntry<T>>, key: string, e: CacheEntry<T>)
    requires Distinct(c)
    ensures e in Remove(c, key) <==> e in c && e.key != key
  {
    if e in Remove(c, key) {
      RemovedWasThere(c, key, e);
    } else if e in c && e.key != key {
      OthersStay(c, key, e);
    }
  }

  lemma OthersStay<T>(c: seq<CacheEntry<T>>, key: string, e: CacheEntry<T>)
    requires e in c && e.key != key
    ensures e in Remove(c, key)
  {
    var i, r := Find(c, key), Remove(c, key);
    var j :| 0 <= j < |c| && c[j] == e;
    assert i == |c| || r[if j < i then j else j - 1] == e;
  }

  lemma RemovedWasThere<T>(c: seq<CacheEntry<T>>, key: string, e: CacheEntry<T>)
    requires Distinct(c) && e in Remove(c, key)
    ensures e in c && e.key != key
  {
    var i, r := Find(c, key), Remove(c, key);
    var j :| 0 <= j < |r| && r[j] == e;
    assert e == c[if j < i then j else j + 1];
  }

  /** prune() keeps exactly the entries that are not too old. */
  lemma {:induction false} PruneMembers<T>(c: seq<CacheEntry<T>>, lim: Limits, now: int, e: CacheEntry<T>)
    ensures e in Prune(c, lim, now) <==> e in c && now - e.insertedAt <= lim.staleToleranceMs
  {
    if c == [] {
    } else {
      PruneMembers(c[1..], lim, now, e);
      assert c == [c[0]] + c[1..];
    }
  }

  lemma PruneLength<T>(c: seq<CacheEntry<T>>, lim: Limits, now: int)
    ensures |Prune(c, lim, now)| <= |c|
  {
  }

  /** An entry that survives the pruning of a tail sits somewhere in that tail. */
  lemma PrunedTail<T>(c: seq<CacheEntry<T>>, lim: Limits, now: int, j: nat) returns (m: nat)
    requires c != [] && j < |Prune(c[1..], lim, now)|
    ensures 0 < m < |c| && c[m] == Prune(c[1..], lim, now)[j]
  {
    var e := Prune(c[1..], lim, now)[j];
    PruneMembers(c[1..], lim, now, e);
    var i :| 0 <= i < |c| - 1 && c[1..][i] == e;
    m := i + 1;
  }

  // ---- order of last touch -----------------------------------------------------------

  datatype Op<T> = OpGet(key: string, now: int) | OpSet(key: string, data: T, now: int)
                 | OpDelete(key: string) | OpPrune(now: int) | OpClear

  function Apply<T>(c: seq<CacheEntry<T>>, lim: Limits, op: Op<T>): seq<CacheEntry<T>>
  {
    match op
    case OpGet(key, now) => Get(c, lim, key, now).0
    case OpSet(key, data, now) => Set(c, lim, key, data, now)
    case OpDelete(key) => Remove(c, key)
    case OpPrune(now) => Prune(c, lim, now)
    case OpClear => []
  }

  /** A hit or a write touches its key. */
  predicate Touches<T>(c: seq<CacheEntry<T>>, lim: Limits, op: Op<T>)
  {
    op.OpSet? || (op.OpGet? && Get(c, lim, op.key, op.now).1.Hit?)
  }

  /** The log of touched keys, oldest first. */
  function Log<T>(c: seq<CacheEntry<T>>, lim: Limits, log: seq<string>, op: Op<T>): seq<string>
  {
    if Touches(c, lim, op) then log + [op.key] else log
  }

  /** The position of the last touch of a key, -1 when it never was. */
  function LastTouch(log: seq<string>, key: string): (i: int)
    ensures -1 <= i < |log|
    ensures i >= 0 ==> log[i] == key
    ensures forall j :: i < j < |log| ==> log[j] != key
  {
    if log == [] then -1 else if log[|log| - 1] == key then |log| - 1 else LastTouch(log[..|log| - 1], key)
  }

  /** The order of the Map is the order of last touch. */
  ghost predicate InTouchOrder<T>(c: seq<CacheEntry<T>>, log: seq<string>)
  {
    && (forall i :: 0 <= i < |c| ==> LastTouch(log, c[i].key) >= 0)
    && forall i, j :: 0 <= i < j < |c| ==> LastTouch(log, c[i].key) < LastTouch(log, c[j].key)
  }

  lemma TouchOrderIsDistinct<T>(c: seq<CacheEntry<T>>, log: seq<string>)
    requires InTouchOrder(c, log)
    ensures Distinct(c)
  {
  }

  lemma LastTouchAppend(log: seq<string>, touched: string, key: string)
    ensures LastTouch(log + [touched], key) == if key == touched then |log| else LastTouch(log, key)
  {
    assert (log + [touched])[..|log|] == log;
  }

  /** Dropping entries keeps the order. */
  lemma DropKeepsOrder<T>(c: seq<CacheEntry<T>>, log: seq<string>, i: nat)
    requires InTouchOrder(c, log) && i < |c|
    ensures InTouchOrder(Drop(c, i), log)
  {
  }

  lemma TailKeepsOrder<T>(c: seq<CacheEntry<T>>, log: seq<string>)
    requires c != [] && InTouchOrder(c, log)
    ensures InTouchOrder(c[1..], log)
  {
  }

  /** An entry before others in order can stand before what is left of them. */
  lemma FrontOfPruned<T>(c: seq<CacheEntry<T>>, log: seq<string>, lim: Limits, now: int)
    requires c != [] && InTouchOrder(c, log) && InTouchOrder(Prune(c[1..], lim, now), log)
    ensures InTouchOrder([c[0]] + Prune(c[1..], lim, now), log)
  {
    var r := Prune(c[1..], lim, now);
    forall j | 0 <= j < |r| ensures LastTouch(log, c[0].key) < LastTouch(log, r[j].key) {
      var m := PrunedTail(c, lim, now, j);
    }
  }

  lemma {:induction false} PruneKeepsOrder<T>(c: seq<CacheEntry<T>>, log: seq<string>, lim: Limits, now: int)
    requires InTouchOrder(c, log)
    ensures InTouchOrder(Prune(c, lim, now), log)
  {
    if c == [] {
    } else {
      TailKeepsOrder(c, log);
      PruneKeepsOrder(c[1..], log, lim, now);
      if now - c[0].insertedAt <= lim.staleToleranceMs {
        FrontOfPruned(c, log, lim, now);
      }
    }
  }

  /** Moving a key to the end, right after touching it. */
  lemma MoveToEnd<T>(c: seq<CacheEntry<T>>, log: seq<string>, e: CacheEntry<T>)
    requires InTouchOrder(c, log) && !Has(c, e.key)
    ensures InTouchOrder(c + [e], log + [e.key])
  {
    var r, log' := c + [e], log + [e.key];
    forall i | 0 <= i < |r|
      ensures LastTouch(log', r[i].key) == if i < |c| then LastTouch(log, c[i].key) else |log|
    {
      LastTouchAppend(log, e.key, r[i].key);
    }
  }

  lemma RemoveKeepsOrder<T>(c: seq<CacheEntry<T>>, log: seq<string>, key: string)
    requires InTouchOrder(c, log)
    ensures InTouchOrder(Remove(c, key), log) && !Has(Remove(c, key), key)
    ensures |Remove(c, key)| == |c| - if Has(c, key) then 1 else 0
  {
    TouchOrderIsDistinct(c, log);
    RemoveKeeps(c, key);
    if Has(c, key) {
      DropKeepsOrder(c, log, Find(c, key));
    }
  }

  lemma GetKeepsOrder<T>(c: seq<CacheEntry<T>>, lim: Limits, log: seq<string>, key: string, now: int)
    requires InTouchOrder(c, log)
    ensures InTouchOrder(Get(c, lim, key, now).0, Log(c, lim, log, OpGet(key, now)))
    ensures |Get(c, lim, key, now).0| <= |c|
  {
    var i := Find(c, key);
    RemoveKeepsOrder(c, log, key);
    if i < |c| {
      if now - c[i].insertedAt <= lim.staleToleranceMs {
        MoveToEnd(Remove(c, key), log, c[i]);
      }
    }
  }

  lemma SetKeepsOrder<T>(c: seq<CacheEntry<T>>, lim: Limits, log: seq<string>, key: string, data: T, now: int)
    requires lim.maxEntries >= 1 && |c| <= lim.maxEntries && InTouchOrder(c, log)
    ensures InTouchOrder(Set(c, lim, key, data, now), log + [key])
    ensures |Set(c, lim, key, data, now)| <= lim.maxEntries
  {
    var e := CacheEntry(key, data, now);
    if Has(c, key) {
      RemoveKeepsOrder(c, log, key);
      MoveToEnd(Remove(c, key), log, e);
    } else if |c| >= lim.maxEntries {
      DropKeepsOrder(c, log, 0);
      assert Drop(c, 0) == c[1..];
      assert !Has(c[1..], key);
      MoveToEnd(c[1..], log, e);
    } else {
      MoveToEnd(c, log, e);
    }
  }

  /** Every operation keeps the cache within its capacity and in order of last touch. */
  lemma ApplyKeepsOrder<T>(c: seq<CacheEntry<T>>, lim: Limits, log: seq<string>, op: Op<T>)
    requires lim.maxEntries >= 1 && |c| <= lim.maxEntries && InTouchOrder(c, log)
    ensures InTouchOrder(Apply(c, lim, op), Log(c, lim, log, op))
    ensures |Apply(c, lim, op)| <= lim.maxEntries
  {
    match op
    case OpGet(key, now) => GetKeepsOrder(c, lim, log, key, now);
    case OpSet(key, data, now) => SetKeepsOrder(c, lim, log, key, data, now);
    case OpDelete(key) => RemoveKeepsOrder(c, log, key);
    case OpPrune(now) =>
      PruneKeepsOrder(c, log, lim, now);
      PruneLength(c, lim, now);
    case OpClear =>
  }

  function RunOps<T>(c: seq<CacheEntry<T>>, lim: Limits, log: seq<string>, ops: seq<Op<T>>): (seq<CacheEntry<T>>, seq<string>)
    decreases |ops|
  {
    if ops == [] then (c, log) else RunOps(Apply(c, lim, ops[0]), lim, Log(c, lim, log, ops[0]), ops[1..])
  }

  /** So does any run of operations, in particular one that starts with an empty cache. */
  lemma {:induction false} LruInvariant<T>(c: seq<CacheEntry<T>>, lim: Limits, log: seq<string>, ops: seq<Op<T>>)
    requires lim.maxEntries >= 1 && |c| <= lim.maxEntries && InTouchOrder(c, log)
    ensures var (c', log') := RunOps(c, lim, log, ops); InTouchOrder(c', log') && |c'| <= lim.maxEntries
    decreases |ops|
  {
    if ops == [] {
    } else {
      ApplyKeepsOrder(c, lim, log, ops[0]);
      LruInvariant(Apply(c, lim, ops[0]), lim, Log(c, lim, log, ops[0]), ops[1..]);
    }
  }

  /** The other keys touched since the last touch of `key`. */
  function TouchedSince(log: seq<string>, key: string): set<string>
  {
    set j | LastTouch(log, key) < j < |log| :: log[j]
  }

  ghost function Keys<T>(c: seq<CacheEntry<T>>): set<string> { set e | e in c :: e.key }

  lemma {:induction false} KeysCount<T>(c: seq<CacheEntry<T>>)
    requires Distinct(c)
    ensures |Keys(c)| == |c|
  {
    if c == [] {
    } else {
      var init, last := c[..|c| - 1], c[|c| - 1];
      KeysCount(init);
      assert c == init + [last];
      assert Keys(c) == Keys(init) + {last.key};
      assert last.key !in Keys(init);
    }
  }

  /** A write keeps every key but the front of a full cache, when the key written is new. */
  lemma WriteKeeps<T>(c: seq<CacheEntry<T>>, lim: Limits, key: string, written: string, data: T, now: int)
    requires Distinct(c) && Has(c, key)
    requires key == written || Has(c, written) || |c| < lim.maxEntries || Find(c, key) > 0
    ensures Has(Set(c, lim, written, data, now), key)
  {
    var r, at := Set(c, lim, written, data, now), Find(c, key);
    if key == written {
      Here(r, |r| - 1);
    } else if Has(c, written) {
      RemoveMembers(c, written, c[at]);
      var j :| 0 <= j < |Remove(c, written)| && Remove(c, written)[j] == c[at];
      Here(r, j);
    } else if |c| < lim.maxEntries {
      Here(r, at);
    } else {
      Here(r, at - 1);
    }
  }

  /** The keys behind the front were all touched since. */
  lemma BehindFront<T>(c: seq<CacheEntry<T>>, log: seq<string>, k: string)
    requires InTouchOrder(c, log) && c != [] && k in Keys(c[1..])
    ensures k in TouchedSince(log, c[0].key)
  {
    var e :| e in c[1..] && e.key == k;
    var j :| 0 <= j < |c| - 1 && c[1..][j] == e;
    assert c[j + 1] == e;
    assert log[LastTouch(log, k)] == k;
  }

  lemma TouchedSinceAppend(log: seq<string>, touched: string, key: string)
    requires touched != key
    ensures TouchedSince(log + [touched], key) == TouchedSince(log, key) + {touched}
  {
    LastTouchAppend(log, touched, key);
    var log' := log + [touched];
    assert log'[|log|] == touched;
    forall k | k in TouchedSince(log, key)
      ensures k in TouchedSince(log', key)
    {
      var j :| LastTouch(log, key) < j < |log| && log[j] == k;
      assert log'[j] == k;
    }
  }

  /**
   * A write evicts a key only after at least maxEntries distinct other keys,
   * counting the one being written, were touched since the last touch of it.
   */
  lemma EvictionNeedsManyTouches<T>(c: seq<CacheEntry<T>>, lim: Limits, log: seq<string>, op: Op<T>, key: string)
    requires InTouchOrder(c, log)
    requires op.OpSet? && Has(c, key) && !Has(Apply(c, lim, op), key)
    ensures key !in TouchedSince(Log(c, lim, log, op), key)
    ensures |TouchedSince(Log(c, lim, log, op), key)| >= lim.maxEntries
  {
    TouchOrderIsDistinct(c, log);
    if key == op.key || Has(c, op.key) || |c| < lim.maxEntries || Find(c, key) > 0 {
      WriteKeeps(c, lim, key, op.key, op.data, op.now);
    }
    TouchedSinceAppend(log, op.key, key);
    forall k | k in Keys(c[1..])
      ensures k in TouchedSince(log, key) && k != op.key
    {
      BehindFront(c, log, k);
    }
    assert forall j :: 0 <= j < |c| - 1 ==> c[1..][j] == c[j + 1];
    KeysCount(c[1..]);
    Subset(Keys(c[1..]) + {op.key}, TouchedSince(log, key) + {op.key});
  }

  lemma Subset(a: set<string>, b: set<string>)
    requires a <= b
    ensures |a| <= |b|
  {
    assert b == a + (b - a);
  }

  /** With a capacity of zero the bound fails: the first write already exceeds it. */
  lemma ZeroCapacityIsExceeded<T>(lim: Limits, key: string, data: T, now: int)
    ensures |Set([], lim, key, data, now)| <= lim.maxEntries <==> lim.maxEntries >= 1
  {
  }
}
