/** The bounded dead-letter queue of the audit writer: what a recovery run takes out and what it leaves. */
module DeadLetters {

  /** A write function, and whether its result is cached under a key. */
  datatype Write = Write(fn: nat, keyed: bool)

  /** A failed write with the times recovery looks at. */
  datatype DeadLetter = DeadLetter(write: Write, failedAt: int, nextRetryAt: int)

  /** The oldest entry makes room. */
  function Add(dlq: seq<DeadLetter>, maxSize: nat, entry: DeadLetter): seq<DeadLetter>
  {
    (if |dlq| >= maxSize && dlq != [] then dlq[1..] else dlq) + [entry]
  }

  /** A capacity of at least one is never exceeded; a capacity of zero always is. */
  lemma AddIsBounded(dlq: seq<DeadLetter>, maxSize: nat, entry: DeadLetter)
    requires |dlq| <= maxSize
    ensures |Add(dlq, maxSize, entry)| <= maxSize <==> maxSize >= 1
    ensures maxSize >= 1 ==> Add(dlq, maxSize, entry) == (dlq + [entry])[|dlq| + 1 - |Add(dlq, maxSize, entry)|..]
  {
    if dlq != [] {
      assert (dlq + [entry])[1..] == dlq[1..] + [entry];
    }
    assert (dlq + [entry])[0..] == dlq + [entry];
  }

  predicate Eligible(entry: DeadLetter, forceAll: bool, now: int) { forceAll || entry.nextRetryAt <= now }

  /** The first n eligible entries, in order. */
  function Taken(dlq: seq<DeadLetter>, n: nat, forceAll: bool, now: int): seq<DeadLetter>
  {
    if dlq == [] || n == 0 then []
    else if Eligible(dlq[0], forceAll, now) then [dlq[0]] + Taken(dlq[1..], n - 1, forceAll, now)
    else Taken(dlq[1..], n, forceAll, now)
  }

  /** Everything else, in order. */
  function Kept(dlq: seq<DeadLetter>, n: nat, forceAll: bool, now: int): seq<DeadLetter>
  {
    if dlq == [] || n == 0 then dlq
    else if Eligible(dlq[0], forceAll, now) then Kept(dlq[1..], n - 1, forceAll, now)
    else [dlq[0]] + Kept(dlq[1..], n, forceAll, now)
  }

  function CountEligible(dlq: seq<DeadLetter>, forceAll: bool, now: int): nat
  {
    if dlq == [] then 0
    else (if Eligible(dlq[0], forceAll, now) then 1 else 0) + CountEligible(dlq[1..], forceAll, now)
  }

  function Min(a: nat, b: nat): nat { if a < b then a else b }

  /** The taken entries are eligible and as many as the batch allows, and nothing is lost or duplicated. */
  lemma {:induction false} TakenAndKept(dlq: seq<DeadLetter>, n: nat, forceAll: bool, now: int)
    ensures |Taken(dlq, n, forceAll, now)| == Min(n, CountEligible(dlq, forceAll, now))
    ensures forall e :: e in Taken(dlq, n, forceAll, now) ==> forceAll || e.nextRetryAt <= now
    ensures multiset(Taken(dlq, n, forceAll, now)) + multiset(Kept(dlq, n, forceAll, now)) == multiset(dlq)
  {
    if dlq != [] && n > 0 {
      assert dlq == [dlq[0]] + dlq[1..];
      TakenAndKept(dlq[1..], if Eligible(dlq[0], forceAll, now) then n - 1 else n, forceAll, now);
    }
  }

  /**
   * Taking is stable: of two eligible entries the earlier goes first,
   * so an entry stays only if the batch was full before it.
   */
  lemma {:induction false} KeptEligibleIsLate(dlq: seq<DeadLetter>, n: nat, forceAll: bool, now: int)
    ensures (exists e :: e in Kept(dlq, n, forceAll, now) && (forceAll || e.nextRetryAt <= now)) ==>
      |Taken(dlq, n, forceAll, now)| == n
  {
    if dlq != [] && n > 0 {
      var m := if Eligible(dlq[0], forceAll, now) then n - 1 else n;
      KeptEligibleIsLate(dlq[1..], m, forceAll, now);
      if e :| e in Kept(dlq, n, forceAll, now) && (forceAll || e.nextRetryAt <= now) {
        assert e in Kept(dlq[1..], m, forceAll, now);
      }
    }
  }

  // ---- the two index loops ------------------------------------------------------------

  /** The entries at the given positions. */
  function At(dlq: seq<DeadLetter>, indices: seq<nat>): seq<DeadLetter>
    requires forall k :: 0 <= k < |indices| ==> indices[k] < |dlq|
  {
    seq(|indices|, k requires 0 <= k < |indices| => dlq[indices[k]])
  }

  ghost predicate Increasing(indices: seq<nat>)
  {
    forall i, j :: 0 <= i < j < |indices| ==> indices[i] < indices[j]
  }

  /** The sequence without the given positions. */
  function Without(dlq: seq<DeadLetter>, indices: seq<nat>): seq<DeadLetter>
    decreases |dlq|
  {
    if dlq == [] then []
    else if |dlq| - 1 in indices then Without(dlq[..|dlq| - 1], indices)
    else Without(dlq[..|dlq| - 1], indices) + [dlq[|dlq| - 1]]
  }

  lemma {:induction false} WithoutNone(dlq: seq<DeadLetter>, indices: seq<nat>)
    requires forall k :: 0 <= k < |dlq| ==> k !in indices
    ensures Without(dlq, indices) == dlq
  {
    if dlq == [] {
    } else {
      WithoutNone(dlq[..|dlq| - 1], indices);
    }
  }

  /** Splicing out the largest position of an increasing list, then the rest. */
  lemma {:induction false} SpliceLast(dlq: seq<DeadLetter>, indices: seq<nat>)
    requires Increasing(indices) && indices != [] && indices[|indices| - 1] < |dlq|
    ensures var i := indices[|indices| - 1];
      Without(dlq, indices) == Without(dlq[..i], indices[..|indices| - 1]) + dlq[i + 1..]
    decreases |dlq|
  {
    var i, n := indices[|indices| - 1], |dlq|;
    assert forall k :: k in indices ==> k <= i;
    if i == n - 1 {
      SameBelow(dlq[..i], indices, indices[..|indices| - 1]);
      assert dlq[i + 1..] == [];
    } else {
      SpliceLast(dlq[..n - 1], indices);
      LastBehind(dlq, i);
    }
  }

  lemma LastBehind(dlq: seq<DeadLetter>, i: nat)
    requires i < |dlq| - 1
    ensures var n := |dlq|;
      dlq[..n - 1][..i] == dlq[..i] && dlq[..n - 1][i + 1..] + [dlq[n - 1]] == dlq[i + 1..]
  {
  }

  lemma {:induction false} SameBelow(dlq: seq<DeadLetter>, a: seq<nat>, b: seq<nat>)
    requires forall k :: 0 <= k < |dlq| ==> (k in a <==> k in b)
    ensures Without(dlq, a) == Without(dlq, b)
  {
    if dlq == [] {
    } else {
      SameBelow(dlq[..|dlq| - 1], a, b);
    }
  }

  /** What the scan collects up to position i. */
  function Scan(dlq: seq<DeadLetter>, i: nat, n: nat, forceAll: bool, now: int): (indices: seq<nat>)
    requires i <= |dlq|
    ensures |indices| <= n
    ensures forall k :: 0 <= k < |indices| ==> indices[k] < i
  {
    if i == 0 then []
    else
      var before := Scan(dlq, i - 1, n, forceAll, now);
      if |before| < n && Eligible(dlq[i - 1], forceAll, now) then before + [i - 1] else before
  }

  lemma {:induction false} ScanIncreasing(dlq: seq<DeadLetter>, i: nat, n: nat, forceAll: bool, now: int)
    requires i <= |dlq|
    ensures Increasing(Scan(dlq, i, n, forceAll, now))
  {
    if i == 0 {
    } else {
      ScanIncreasing(dlq, i - 1, n, forceAll, now);
    }
  }

  /** A full batch stays as it is. */
  lemma {:induction false} ScanFull(dlq: seq<DeadLetter>, i: nat, j: nat, n: nat, forceAll: bool, now: int)
    requires i <= j <= |dlq| && |Scan(dlq, i, n, forceAll, now)| == n
    ensures Scan(dlq, j, n, forceAll, now) == Scan(dlq, i, n, forceAll, now)
  {
    if i < j {
      ScanFull(dlq, i, j - 1, n, forceAll, now);
    }
  }

  /** The scan finds the positions of the taken entries, and leaves the kept ones. */
  lemma {:induction false} ScanIsTaken(dlq: seq<DeadLetter>, i: nat, n: nat, forceAll: bool, now: int)
    requires i <= |dlq|
    ensures var s := Scan(dlq, i, n, forceAll, now);
      && At(dlq, s) == Taken(dlq[..i], n, forceAll, now)
      && Without(dlq[..i], s) == Kept(dlq[..i], n, forceAll, now)
  {
    if i == 0 {
    } else {
      ScanIsTaken(dlq, i - 1, n, forceAll, now);
      TakeOneMore(dlq[..i - 1], dlq[i - 1], n, forceAll, now);
      assert dlq[..i] == dlq[..i - 1] + [dlq[i - 1]];
      var before := Scan(dlq, i - 1, n, forceAll, now);
      if |before| < n && Eligible(dlq[i - 1], forceAll, now) {
        ScanTakes(dlq, i, before);
      } else {
        ScanSkips(dlq, i, before);
      }
    }
  }

  /** The position just scanned is collected. */
  lemma {:induction false} ScanTakes(dlq: seq<DeadLetter>, i: nat, before: seq<nat>)
    requires 0 < i <= |dlq| && forall k :: 0 <= k < |before| ==> before[k] < i - 1
    ensures At(dlq, before + [i - 1]) == At(dlq, before) + [dlq[i - 1]]
    ensures Without(dlq[..i], before + [i - 1]) == Without(dlq[..i - 1], before)
  {
    var upTo := dlq[..i];
    assert upTo[..|upTo| - 1] == dlq[..i - 1] && |upTo| - 1 in before + [i - 1];
    SameBelow(dlq[..i - 1], before + [i - 1], before);
  }

  /** It is not. */
  lemma {:induction false} ScanSkips(dlq: seq<DeadLetter>, i: nat, before: seq<nat>)
    requires 0 < i <= |dlq| && forall k :: 0 <= k < |before| ==> before[k] < i - 1
    ensures Without(dlq[..i], before) == Without(dlq[..i - 1], before) + [dlq[i - 1]]
  {
    var upTo := dlq[..i];
    assert upTo[..|upTo| - 1] == dlq[..i - 1] && |upTo| - 1 !in before;
  }

  lemma {:induction false} TakeOneMore(dlq: seq<DeadLetter>, e: DeadLetter, n: nat, forceAll: bool, now: int)
    ensures var took := |Taken(dlq, n, forceAll, now)| < n && Eligible(e, forceAll, now);
      && Taken(dlq + [e], n, forceAll, now) == Taken(dlq, n, forceAll, now) + (if took then [e] else [])
      && Kept(dlq + [e], n, forceAll, now) == Kept(dlq, n, forceAll, now) + (if took then [] else [e])
  {
    if dlq != [] && n > 0 {
      assert (dlq + [e])[1..] == dlq[1..] + [e];
      TakeOneMore(dlq[1..], e, if Eligible(dlq[0], forceAll, now) then n - 1 else n, forceAll, now);
    }
  }

  function Reversed(s: seq<DeadLetter>): (r: seq<DeadLetter>)
  {
    if s == [] then [] else [s[|s| - 1]] + Reversed(s[..|s| - 1])
  }

  /** Last first. */
  lemma {:induction false} ReversedAt(s: seq<DeadLetter>, k: nat)
    requires k < |s|
    ensures |Reversed(s)| == |s| && Reversed(s)[k] == s[|s| - 1 - k]
  {
    if |s| > 1 {
      ReversedAt(s[..|s| - 1], if k > 0 then k - 1 else 0);
    }
  }

  /** The upward scan for eligible positions. */
  method CollectEligible(dlq: seq<DeadLetter>, maxBatch: int, forceAll: bool, now: int) returns (indices: seq<nat>)
    ensures indices == Scan(dlq, |dlq|, if maxBatch < 0 then 0 else maxBatch, forceAll, now)
  {
    ghost var n: nat := if maxBatch < 0 then 0 else maxBatch;
    indices := [];
    var i := 0;
    while i < |dlq| && |indices| < maxBatch
      invariant 0 <= i <= |dlq| && indices == Scan(dlq, i, n, forceAll, now)
    {
      if Eligible(dlq[i], forceAll, now) {
        indices := indices + [i];
      }
      i := i + 1;
    }
    ScanFullOrEnd(dlq, i, n, forceAll, now);
  }

  /** The downward splices. */
  method SpliceOut(dlq: seq<DeadLetter>, indices: seq<nat>) returns (rest: seq<DeadLetter>, removed: seq<DeadLetter>)
    requires Increasing(indices) && forall k :: 0 <= k < |indices| ==> indices[k] < |dlq|
    ensures rest == Without(dlq, indices) && removed == Reversed(At(dlq, indices))
  {
    rest, removed := dlq, [];
    var k := |indices|;
    assert indices[..k] == indices;
    while k > 0
      invariant 0 <= k <= |indices|
      invariant removed + Reversed(At(dlq, indices[..k])) == Reversed(At(dlq, indices))
      invariant forall j :: 0 <= j < k ==> indices[j] < |rest| && rest[indices[j]] == dlq[indices[j]]
      invariant Without(rest, indices[..k]) == Without(dlq, indices)
    {
      var idx := indices[k - 1];
      SpliceOne(dlq, rest, indices, k);
      removed := removed + [rest[idx]];
      rest := rest[..idx] + rest[idx + 1..];
      k := k - 1;
    }
    assert indices[..0] == [];
    WithoutNone(rest, []);
  }

  /** One round of the downward loop. */
  lemma {:induction false} SpliceOne(dlq: seq<DeadLetter>, rest: seq<DeadLetter>, indices: seq<nat>, k: nat)
    requires 0 < k <= |indices| && Increasing(indices) && forall j :: 0 <= j < |indices| ==> indices[j] < |dlq|
    requires forall j :: 0 <= j < k ==> indices[j] < |rest|
    ensures var idx := indices[k - 1];
      && Without(rest[..idx] + rest[idx + 1..], indices[..k - 1]) == Without(rest, indices[..k])
      && Reversed(At(dlq, indices[..k])) == [dlq[idx]] + Reversed(At(dlq, indices[..k - 1]))
  {
    assert At(dlq, indices[..k])[..k - 1] == At(dlq, indices[..k - 1]);
    var upTo := indices[..k];
    assert upTo[k - 1] == indices[k - 1] && upTo[..k - 1] == indices[..k - 1];
    SpliceRest(rest, upTo);
  }

  lemma {:induction false} SpliceRest(rest: seq<DeadLetter>, indices: seq<nat>)
    requires indices != [] && Increasing(indices) && forall j :: 0 <= j < |indices| ==> indices[j] < |rest|
    ensures var idx, below := indices[|indices| - 1], indices[..|indices| - 1];
      Without(rest[..idx] + rest[idx + 1..], below) == Without(rest, indices)
  {
    SpliceLast(rest, indices);
    Splice(rest, indices[..|indices| - 1], indices[|indices| - 1]);
  }

  /**
   * The extraction of a recovery run: positions are collected upward, entries
   * spliced out downward. What is taken comes out last first.
   */
  method Extract(dlq: seq<DeadLetter>, maxBatch: int, forceAll: bool, now: int)
    returns (rest: seq<DeadLetter>, toRecover: seq<DeadLetter>)
    ensures rest == Kept(dlq, if maxBatch < 0 then 0 else maxBatch, forceAll, now)
    ensures toRecover == Reversed(Taken(dlq, if maxBatch < 0 then 0 else maxBatch, forceAll, now))
  {
    ghost var n: nat := if maxBatch < 0 then 0 else maxBatch;
    var indices := CollectEligible(dlq, maxBatch, forceAll, now);
    ScanIncreasing(dlq, |dlq|, n, forceAll, now);
    ScanIsTaken(dlq, |dlq|, n, forceAll, now);
    assert dlq[..|dlq|] == dlq;
    rest, toRecover := SpliceOut(dlq, indices);
  }

  lemma ScanFullOrEnd(dlq: seq<DeadLetter>, i: nat, n: nat, forceAll: bool, now: int)
    requires i <= |dlq| && (i == |dlq| || |Scan(dlq, i, n, forceAll, now)| >= n)
    ensures Scan(dlq, |dlq|, n, forceAll, now) == Scan(dlq, i, n, forceAll, now)
  {
    if i < |dlq| {
      ScanFull(dlq, i, |dlq|, n, forceAll, now);
    }
  }

  /** Positions below the splice are unaffected by it. */
  lemma {:induction false} Splice(dlq: seq<DeadLetter>, indices: seq<nat>, idx: nat)
    requires idx < |dlq| && forall k :: k in indices ==> k < idx
    ensures Without(dlq[..idx] + dlq[idx + 1..], indices) == Without(dlq[..idx], indices) + dlq[idx + 1..]
    decreases |dlq|
  {
    var n := |dlq|;
    var spliced := dlq[..idx] + dlq[idx + 1..];
    if idx == n - 1 {
      assert spliced == dlq[..idx] && dlq[idx + 1..] == [];
    } else {
      Splice(dlq[..n - 1], indices, idx);
      assert spliced[..n - 2] == dlq[..n - 1][..idx] + dlq[..n - 1][idx + 1..];
      assert dlq[..n - 1][..idx] == dlq[..idx];
      assert dlq[..n - 1][idx + 1..] + [dlq[n - 1]] == dlq[idx + 1..];
    }
  }
}
