/**
 * The ring of time buckets behind the health monitors: a fixed number of
 * counters that are to report exactly what a full log of events would.
 */
module HealthRing {
  import opened Arithmetic

  /** Counters of one time slot; slot -1 marks a bucket never used. */
  datatype Bucket = Bucket(slot: int, counts: seq<nat>)

  /** An event by time slot and kind; kinds beyond the known ones are not counted. */
  datatype Event = Event(slot: nat, kind: nat)

  function EmptyCounts(kinds: nat): seq<nat> { seq(kinds, _ => 0) }

  function EmptyRing(n: nat, kinds: nat): seq<Bucket> { seq(n, _ => Bucket(-1, EmptyCounts(kinds))) }

  function Position(slot: int, n: nat): nat
    requires n > 0
  {
    slot % n
  }

  /** The bucket of a slot, emptied first if it belongs to another slot. */
  function Claimed(b: Bucket, slot: int): Bucket
  {
    if b.slot != slot then Bucket(slot, EmptyCounts(|b.counts|)) else b
  }

  function Counted(b: Bucket, kind: nat): Bucket
  {
    if kind < |b.counts| then b.(counts := b.counts[kind := b.counts[kind] + 1]) else b
  }

  function Recorded(ring: seq<Bucket>, e: Event): seq<Bucket>
    requires ring != []
  {
    var p := Position(e.slot, |ring|);
    ring[p := Counted(Claimed(ring[p], e.slot), e.kind)]
  }

  /** The ring after a log of events. */
  function RingOf(log: seq<Event>, n: nat, kinds: nat): (ring: seq<Bucket>)
    requires n > 0
    ensures |ring| == n
  {
    if log == [] then EmptyRing(n, kinds) else Recorded(RingOf(log[..|log| - 1], n, kinds), log[|log| - 1])
  }

  // ---- exact counting -----------------------------------------------------------------

  /** Events of a kind whose slot lies in lo..hi. */
  function CountIn(log: seq<Event>, lo: int, hi: int, kind: nat): nat
  {
    if log == [] then 0
    else
      var e := log[|log| - 1];
      CountIn(log[..|log| - 1], lo, hi, kind) + if lo <= e.slot <= hi && e.kind == kind then 1 else 0
  }

  /** The latest slot so far. */
  function Latest(log: seq<Event>): (m: int)
    ensures m >= -1
    ensures forall i :: 0 <= i < |log| ==> log[i].slot <= m
  {
    if log == [] then -1
    else
      var before := Latest(log[..|log| - 1]);
      if log[|log| - 1].slot > before then log[|log| - 1].slot else before
  }

  /** No event comes a whole window late. A clock that never runs backwards is a special case. */
  ghost predicate InTime(log: seq<Event>, n: nat)
  {
    log != [] ==> InTime(log[..|log| - 1], n) && log[|log| - 1].slot > Latest(log[..|log| - 1]) - n
  }

  ghost predicate NonDecreasing(log: seq<Event>) { forall i, j :: 0 <= i < j < |log| ==> log[i].slot <= log[j].slot }

  lemma {:induction false} SteadyClockIsInTime(log: seq<Event>, n: nat)
    requires n > 0 && NonDecreasing(log)
    ensures InTime(log, n)
  {
    if log == [] {
    } else {
      var before := log[..|log| - 1];
      SteadyClockIsInTime(before, n);
      if before != [] {
        LatestIsSome(before);
      }
    }
  }

  lemma {:induction false} LatestIsSome(log: seq<Event>)
    requires log != []
    ensures exists i :: 0 <= i < |log| && log[i].slot == Latest(log)
  {
    var before := log[..|log| - 1];
    if before != [] {
      LatestIsSome(before);
      var i :| 0 <= i < |before| && before[i].slot == Latest(before);
      assert log[i] == before[i];
    }
    assert log[|log| - 1].slot == Latest(log) || before != [];
  }

  // ---- the ring refines it --------------------------------------------------------------

  /** A bucket that holds a slot of the window holds exactly its events; a slot without a bucket has none. */
  ghost predicate SlotExact(ring: seq<Bucket>, log: seq<Event>, kinds: nat, slot: int)
    requires ring != []
  {
    var b := ring[Position(slot, |ring|)];
    forall k :: 0 <= k < kinds ==> CountIn(log, slot, slot, k) == if b.slot == slot && k < |b.counts| then b.counts[k] else 0
  }

  ghost predicate Shaped(ring: seq<Bucket>, kinds: nat)
    requires ring != []
  {
    forall p :: 0 <= p < |ring| ==>
      && |ring[p].counts| == kinds
      && (ring[p] == Bucket(-1, EmptyCounts(kinds)) || Position(ring[p].slot, |ring|) == p)
  }

  ghost predicate Exact(ring: seq<Bucket>, log: seq<Event>, kinds: nat)
    requires ring != []
  {
    forall slot :: Latest(log) - |ring| < slot <= Latest(log) ==> SlotExact(ring, log, kinds, slot)
  }

  ghost predicate NoneLater(ring: seq<Bucket>, last: int)
  {
    forall p :: 0 <= p < |ring| ==> ring[p].slot <= last
  }

  lemma PositionsDiffer(a: int, b: int, n: nat)
    requires n > 0 && a != b && a < b + n && b < a + n
    ensures Position(a, n) != Position(b, n)
  {
    if a % n == b % n {
      var q, r := a / n, b / n;
      assert a == q * n + a % n && b == r * n + b % n;
      MulMono(q + 1, r, n);
      MulMono(r + 1, q, n);
    }
  }

  lemma {:induction false} CountNone(log: seq<Event>, lo: int, hi: int, kind: nat)
    requires lo > Latest(log)
    ensures CountIn(log, lo, hi, kind) == 0
  {
    if log == [] {
    } else {
      CountNone(log[..|log| - 1], lo, hi, kind);
    }
  }

  /** Recording an event that is not too late keeps the ring exact. */
  lemma RecordKeepsExact(ring: seq<Bucket>, log: seq<Event>, e: Event, kinds: nat)
    requires ring != [] && Shaped(ring, kinds) && Exact(ring, log, kinds) && NoneLater(ring, Latest(log))
    requires e.slot > Latest(log) - |ring|
    ensures Exact(Recorded(ring, e), log + [e], kinds)
  {
    var n, ring', log' := |ring|, Recorded(ring, e), log + [e];
    assert log'[..|log|] == log;
    forall slot | Latest(log') - n < slot <= Latest(log') ensures SlotExact(ring', log', kinds, slot) {
      if slot > Latest(log) {
        forall k | 0 <= k < kinds ensures CountIn(log, slot, slot, k) == 0 {
          CountNone(log, slot, slot, k);
        }
      } else {
        assert SlotExact(ring, log, kinds, slot);
      }
      if slot != e.slot {
        PositionsDiffer(slot, e.slot, n);
      }
      SlotRecorded(ring, log, e, kinds, slot);
    }
  }

  lemma SlotRecorded(ring: seq<Bucket>, log: seq<Event>, e: Event, kinds: nat, slot: int)
    requires ring != [] && Shaped(ring, kinds) && SlotExact(ring, log, kinds, slot)
    requires slot != e.slot ==> Position(slot, |ring|) != Position(e.slot, |ring|)
    ensures SlotExact(Recorded(ring, e), log + [e], kinds, slot)
  {
    assert (log + [e])[..|log|] == log;
    var b := ring[Position(slot, |ring|)];
    forall k | 0 <= k < kinds
      ensures CountIn(log + [e], slot, slot, k) == CountIn(log, slot, slot, k) + if slot == e.slot && k == e.kind then 1 else 0
    {
    }
  }

  /** A bucket that has counted nothing. */
  ghost predicate Quiet(b: Bucket, kinds: nat) { forall k :: 0 <= k < kinds && k < |b.counts| ==> b.counts[k] == 0 }

  /**
   * An event that comes a whole window late takes the bucket of a later
   * slot: the ring stays exact iff that bucket counted nothing.
   */
  lemma LateEventLoses(ring: seq<Bucket>, log: seq<Event>, e: Event, kinds: nat)
    requires ring != [] && Shaped(ring, kinds) && Exact(ring, log, kinds) && NoneLater(ring, Latest(log))
    requires e.slot <= Latest(log) - |ring|
    ensures var b := ring[Position(e.slot, |ring|)];
      Exact(Recorded(ring, e), log + [e], kinds) <==>
        (b.slot > Latest(log) - |ring| ==> Quiet(b, kinds))
  {
    var latest, n := Latest(log), |ring|;
    var p, log', ring' := Position(e.slot, n), log + [e], Recorded(ring, e);
    assert log'[..|log|] == log && Latest(log') == latest && |ring'| == n;
    var hit := SlotAt(p, latest, n);
    SlotAtIsIt(p, latest, n, latest);
    BucketSlot(ring, kinds, p, latest);
    if Exact(ring', log', kinds) {
      assert SlotExact(ring', log', kinds, hit);
      LateSlot(ring, log, e, kinds, hit);
    }
    if ring[p].slot > latest - n ==> Quiet(ring[p], kinds) {
      forall slot | latest - n < slot <= latest ensures SlotExact(ring', log', kinds, slot) {
        LateSlot(ring, log, e, kinds, slot);
      }
    }
  }

  lemma LateSlot(ring: seq<Bucket>, log: seq<Event>, e: Event, kinds: nat, slot: int)
    requires ring != [] && Shaped(ring, kinds) && Exact(ring, log, kinds)
    requires e.slot <= Latest(log) - |ring| < slot <= Latest(log)
    ensures var p := Position(e.slot, |ring|);
      var hit := SlotAt(p, Latest(log), |ring|);
      SlotExact(Recorded(ring, e), log + [e], kinds, slot) <==> (slot == hit && ring[p].slot == hit ==> Quiet(ring[p], kinds))
  {
    assert SlotExact(ring, log, kinds, slot);
    SlotAtIsIt(Position(e.slot, |ring|), Latest(log), |ring|, slot);
    SlotOverwritten(ring, log, e, kinds, slot);
  }

  lemma BucketSlot(ring: seq<Bucket>, kinds: nat, p: nat, current: int)
    requires ring != [] && Shaped(ring, kinds) && NoneLater(ring, current) && p < |ring|
    ensures ring[p].slot > current - |ring| ==> Quiet(ring[p], kinds) || ring[p].slot == SlotAt(p, current, |ring|)
  {
    if ring[p].slot > current - |ring| && ring[p] != Bucket(-1, EmptyCounts(kinds)) {
      SlotAtIsIt(p, current, |ring|, ring[p].slot);
    }
  }

  lemma SlotOverwritten(ring: seq<Bucket>, log: seq<Event>, e: Event, kinds: nat, slot: int)
    requires ring != [] && Shaped(ring, kinds) && SlotExact(ring, log, kinds, slot) && slot != e.slot
    ensures var p := Position(e.slot, |ring|);
      SlotExact(Recorded(ring, e), log + [e], kinds, slot) <==>
        (Position(slot, |ring|) == p && ring[p].slot == slot ==> Quiet(ring[p], kinds))
  {
    assert (log + [e])[..|log|] == log;
    assert forall k :: CountIn(log + [e], slot, slot, k) == CountIn(log, slot, slot, k);
    var p := Position(e.slot, |ring|);
    if Position(slot, |ring|) == p {
      var b := Recorded(ring, e)[p];
      assert b.slot != slot;
      forall k | 0 <= k < kinds ensures CountIn(log, slot, slot, k) == if ring[p].slot == slot then ring[p].counts[k] else 0 {
      }
    }
  }

  lemma ShapeKept(ring: seq<Bucket>, e: Event, kinds: nat, last: int)
    requires ring != [] && Shaped(ring, kinds) && NoneLater(ring, last)
    ensures Shaped(Recorded(ring, e), kinds) && NoneLater(Recorded(ring, e), if e.slot > last then e.slot else last)
  {
  }

  lemma {:induction false} RingIsExact(log: seq<Event>, n: nat, kinds: nat)
    requires n > 0
    ensures var ring := RingOf(log, n, kinds);
      Shaped(ring, kinds) && NoneLater(ring, Latest(log)) && (InTime(log, n) ==> Exact(ring, log, kinds))
  {
    if log == [] {
      forall slot | -1 - n < slot <= -1 ensures SlotExact(EmptyRing(n, kinds), log, kinds, slot) {
      }
    } else {
      var before, e := log[..|log| - 1], log[|log| - 1];
      assert log == before + [e];
      RingIsExact(before, n, kinds);
      ShapeKept(RingOf(before, n, kinds), e, kinds, Latest(before));
      if InTime(log, n) {
        RecordKeepsExact(RingOf(before, n, kinds), before, e, kinds);
      }
    }
  }

  // ---- the snapshot ---------------------------------------------------------------------

  /** What the first m buckets contribute to a snapshot. */
  function Total(ring: seq<Bucket>, m: nat, current: int, kind: nat): nat
    requires m <= |ring|
  {
    if m == 0 then 0
    else
      var b := ring[m - 1];
      Total(ring, m - 1, current, kind) +
      if current - |ring| + 1 <= b.slot <= current && kind < |b.counts| then b.counts[kind] else 0
  }

  /** Events of the window whose buckets are among the first m. */
  function CountBelow(log: seq<Event>, n: nat, current: int, kind: nat, m: nat): nat
    requires n > 0
  {
    if log == [] then 0
    else
      var e := log[|log| - 1];
      CountBelow(log[..|log| - 1], n, current, kind, m) +
      if current - n < e.slot <= current && e.kind == kind && Position(e.slot, n) < m then 1 else 0
  }

  /** The slot of the window that belongs to a bucket. */
  function SlotAt(p: nat, current: int, n: nat): int
    requires p < n
  {
    current - Position(current - p, n)
  }

  lemma SlotAtIsIt(p: nat, current: int, n: nat, slot: int)
    requires p < n && current - n < slot <= current
    ensures current - n < SlotAt(p, current, n) <= current && Position(SlotAt(p, current, n), n) == p
    ensures Position(slot, n) == p <==> slot == SlotAt(p, current, n)
  {
    var d := current - p;
    assert SlotAt(p, current, n) == p + n * (d / n);
    SameResidue(p, n, d / n);
    SmallResidue(p, n);
    if slot != SlotAt(p, current, n) {
      PositionsDiffer(slot, SlotAt(p, current, n), n);
    }
  }

  lemma SmallResidue(p: nat, n: nat)
    requires p < n
    ensures p % n == p
  {
  }

  lemma {:induction false} CountBelowStep(log: seq<Event>, n: nat, current: int, kind: nat, p: nat)
    requires p < n
    ensures var slot := SlotAt(p, current, n);
      CountBelow(log, n, current, kind, p + 1) == CountBelow(log, n, current, kind, p) + CountIn(log, slot, slot, kind)
  {
    if log == [] {
    } else {
      CountBelowStep(log[..|log| - 1], n, current, kind, p);
      var e := log[|log| - 1];
      SlotAtIsIt(p, current, n, current);
      if current - n < e.slot <= current {
        SlotAtIsIt(p, current, n, e.slot);
      }
    }
  }

  lemma {:induction false} CountBelowAll(log: seq<Event>, n: nat, current: int, kind: nat)
    requires n > 0
    ensures CountBelow(log, n, current, kind, n) == CountIn(log, current - n + 1, current, kind)
    ensures CountBelow(log, n, current, kind, 0) == 0
  {
    if log == [] {
    } else {
      CountBelowAll(log[..|log| - 1], n, current, kind);
    }
  }

  lemma {:induction false} TotalIsCount(ring: seq<Bucket>, log: seq<Event>, kinds: nat, m: nat, current: int, kind: nat)
    requires ring != [] && Shaped(ring, kinds) && Exact(ring, log, kinds) && NoneLater(ring, Latest(log))
    requires m <= |ring| && kind < kinds && current >= Latest(log)
    ensures Total(ring, m, current, kind) == CountBelow(log, |ring|, current, kind, m)
  {
    if m == 0 {
      CountBelowAll(log, |ring|, current, kind);
    } else {
      TotalIsCount(ring, log, kinds, m - 1, current, kind);
      CountBelowStep(log, |ring|, current, kind, m - 1);
      BucketIsCount(ring, log, kinds, m - 1, current, kind);
    }
  }

  lemma BucketIsCount(ring: seq<Bucket>, log: seq<Event>, kinds: nat, p: nat, current: int, kind: nat)
    requires ring != [] && Shaped(ring, kinds) && Exact(ring, log, kinds) && NoneLater(ring, Latest(log))
    requires p < |ring| && kind < kinds && current >= Latest(log)
    ensures var b, slot := ring[p], SlotAt(p, current, |ring|);
      CountIn(log, slot, slot, kind) ==
        if current - |ring| + 1 <= b.slot <= current && kind < |b.counts| then b.counts[kind] else 0
  {
    var n, b, slot := |ring|, ring[p], SlotAt(p, current, |ring|);
    SlotAtIsIt(p, current, n, current);
    if slot > Latest(log) {
      CountNone(log, slot, slot, kind);
    } else {
      assert SlotExact(ring, log, kinds, slot);
    }
    if current - n < b.slot <= current && b != Bucket(-1, EmptyCounts(kinds)) {
      SlotAtIsIt(p, current, n, b.slot);
    }
  }

  /** A snapshot taken no earlier than the latest event reports exactly the events of the last n slots. */
  lemma SnapshotIsExact(log: seq<Event>, n: nat, kinds: nat, current: int, kind: nat)
    requires n > 0 && InTime(log, n) && current >= Latest(log) && kind < kinds
    ensures Total(RingOf(log, n, kinds), n, current, kind) == CountIn(log, current - n + 1, current, kind)
  {
    RingIsExact(log, n, kinds);
    TotalIsCount(RingOf(log, n, kinds), log, kinds, n, current, kind);
    CountBelowAll(log, n, current, kind);
  }
}
