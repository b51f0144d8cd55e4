/** The RLS and the exchange-rate-oracle health monitors, over the same ring of buckets. */
module HealthMonitors {
  import opened Prelude
  import opened Arithmetic
  import opened HealthRing

  datatype Health = Healthy | Degraded | Unhealthy

  /**
   * A snapshot: the verdict, the counts by kind, how many events the
   * ratios are of, the rounded ratios, and what it was made from.
   */
  datatype Report<O> = Report(
    health: Health, reasons: seq<string>, windowMs: nat, counts: seq<nat>, totals: seq<nat>, ratios: seq<real>,
    lastAt: Option<nat>, thresholds: O)

  /** Rounded up, and at least one. */
  function BucketCount(windowMs: nat, bucketMs: nat): (n: nat)
    requires bucketMs > 0
    ensures n > 0
  {
    var n := (windowMs + bucketMs - 1) / bucketMs;
    if n < 1 then 1 else n
  }

  function SlotOf(time: nat, bucketMs: nat): nat
    requires bucketMs > 0
  {
    time / bucketMs
  }

  /** The ring covers the configured window, with less than one bucket to spare. */
  lemma BucketsCoverWindow(windowMs: nat, bucketMs: nat)
    requires bucketMs > 0
    ensures var n := BucketCount(windowMs, bucketMs);
      n * bucketMs >= windowMs && (windowMs > 0 ==> n * bucketMs - bucketMs < windowMs)
  {
    var up, r := (windowMs + bucketMs - 1) / bucketMs, (windowMs + bucketMs - 1) % bucketMs;
    assert windowMs + bucketMs - 1 == up * bucketMs + r;
    MulMono(up, 0, bucketMs);
  }

  /**
   * The window in time: an event is within the last n slots if it is younger than
   * n - 1 buckets, which is at least the configured window less one bucket, and
   * only if it is younger than n buckets.
   */
  lemma WindowInTime(n: nat, bucketMs: nat, now: nat, time: nat)
    requires bucketMs > 0 && n > 0 && time <= now
    ensures var inside := SlotOf(now, bucketMs) - n < SlotOf(time, bucketMs);
      && (now - time <= n * bucketMs - bucketMs ==> inside)
      && (inside ==> now - time < n * bucketMs)
  {
    var s, t := now / bucketMs, time / bucketMs;
    assert now == s * bucketMs + now % bucketMs && time == t * bucketMs + time % bucketMs;
    if t <= s - n {
      MulMono(t, s - n, bucketMs);
      assert (s - n) * bucketMs == s * bucketMs - n * bucketMs;
    } else {
      MulMono(s - n + 1, t, bucketMs);
      assert (s - n + 1) * bucketMs == s * bucketMs - n * bucketMs + bucketMs;
    }
  }

  /** What a log of everything would report for the last n slots. */
  function ExactCounts(log: seq<Event>, n: nat, kinds: nat, current: int): seq<nat>
  {
    seq(kinds, k requires 0 <= k < kinds => CountIn(log, current - n + 1, current, k))
  }

  /** The part of a monitor that both have in common. */
  class BucketRing {
    const bucketMs: nat
    const kinds: nat
    const buckets: array<Bucket>
    ghost var log: seq<Event>

    /** The buckets are those of the log. */
    ghost predicate Valid()
      reads this, buckets
    {
      bucketMs > 0 && buckets.Length > 0 && buckets[..] == RingOf(log, buckets.Length, kinds)
    }

    constructor (windowMs: nat, bucketMs: nat, kinds: nat)
      requires bucketMs > 0
      ensures Valid() && log == [] && fresh(buckets)
      ensures this.bucketMs == bucketMs && this.kinds == kinds && buckets.Length == BucketCount(windowMs, bucketMs)
    {
      this.bucketMs, this.kinds := bucketMs, kinds;
      var n := BucketCount(windowMs, bucketMs);
      buckets := new Bucket[n](_ => Bucket(-1, EmptyCounts(kinds)));
      log := [];
    }

    /** Finds the bucket of a time and empties it if it holds another slot. */
    method BucketFor(time: nat) returns (p: nat)
      requires bucketMs > 0 && buckets.Length > 0
      modifies buckets
      ensures p == Position(SlotOf(time, bucketMs), buckets.Length) < buckets.Length
      ensures buckets[..] == old(buckets[..])[p := Claimed(old(buckets[..])[p], SlotOf(time, bucketMs))]
    {
      var slot := time / bucketMs;
      p := slot % buckets.Length;
      if buckets[p].slot != slot {
        buckets[p] := Bucket(slot, EmptyCounts(|buckets[p].counts|));
      }
    }

    method Count(kind: nat, time: nat)
      requires Valid()
      modifies this, buckets
      ensures Valid() && log == old(log) + [Event(SlotOf(time, bucketMs), kind)]
    {
      ghost var e := Event(SlotOf(time, bucketMs), kind);
      ghost var ring := buckets[..];
      var p := BucketFor(time);
      if kind < |buckets[p].counts| {
        buckets[p] := buckets[p].(counts := buckets[p].counts[kind := buckets[p].counts[kind] + 1]);
      }
      assert buckets[..] == Recorded(ring, e);
      log := log + [e];
      assert log[..|log| - 1] == old(log);
    }

    /** Sums the buckets of the window: exact as long as no event was recorded a whole window late. */
    method Totals(time: nat) returns (counts: seq<nat>)
      requires Valid()
      ensures |counts| == kinds
      ensures InTime(log, buckets.Length) && SlotOf(time, bucketMs) >= Latest(log) ==>
        counts == ExactCounts(log, buckets.Length, kinds, SlotOf(time, bucketMs))
    {
      var current := time / bucketMs;
      var oldest := current - buckets.Length + 1;
      counts := EmptyCounts(kinds);
      RingIsExact(log, buckets.Length, kinds);
      var m := 0;
      while m < buckets.Length
        invariant 0 <= m <= buckets.Length && |counts| == kinds
        invariant forall k :: 0 <= k < kinds ==> counts[k] == Total(buckets[..], m, current, k)
      {
        var b := buckets[m];
        assert b == buckets[..][m];
        if oldest <= b.slot <= current {
          counts := seq(kinds, k requires 0 <= k < kinds => counts[k] + b.counts[k]);
        }
        m := m + 1;
      }
      if InTime(log, buckets.Length) && current >= Latest(log) {
        forall k | 0 <= k < kinds ensures counts[k] == CountIn(log, oldest, current, k) {
          SnapshotIsExact(log, buckets.Length, kinds, current, k);
        }
      }
    }
  }

  /** A share of nothing is zero. */
  function Ratio(part: nat, total: nat): real { if total > 0 then part as real / total as real else 0.0 }

  /** Reaching a positive ratio, without dividing: nothing recorded never reaches it. */
  lemma RatioReached(part: nat, total: nat, threshold: real)
    requires threshold > 0.0
    ensures Ratio(part, total) >= threshold <==> total > 0 && part as real >= threshold * total as real
  {
    if total > 0 {
      var t := total as real;
      assert part as real == part as real / t * t;
      assert part as real / t >= threshold ==> part as real / t * t >= threshold * t;
      assert part as real / t < threshold ==> part as real / t * t < threshold * t;
    }
  }

  /** The same for any threshold. */
  lemma RatioReaches(part: nat, total: nat, threshold: real)
    ensures Ratio(part, total) >= threshold <==> Reaches(part, total, threshold)
  {
    if total > 0 {
      var t := total as real;
      assert part as real == part as real / t * t;
      assert part as real / t >= threshold ==> part as real / t * t >= threshold * t;
      assert part as real / t < threshold ==> part as real / t * t < threshold * t;
    }
  }

  /** The part is at least this share of the total; of nothing, it is no share. */
  predicate Reaches(part: nat, total: nat, threshold: real)
  {
    if total == 0 then threshold <= 0.0 else part as real >= threshold * total as real
  }

  /** A reported ratio, four digits of the part's share. */
  predicate Shows(ratio: real, part: nat, total: nat)
  {
    if total == 0 then ratio == 0.0 else part as real / total as real - 0.00005 < ratio <= part as real / total as real + 0.00005
  }

  lemma RatioShows(part: nat, total: nat)
    ensures Shows(Rounded(Ratio(part, total)), part, total)
  {
    RoundedIsNear(Ratio(part, total));
    assert Rounded(0.0) == 0.0;
  }

  /** toFixed(4): the nearest multiple of 0.0001, the larger of two. */
  function Rounded(x: real): real { (x * 10000.0 + 0.5).Floor as real / 10000.0 }

  /** Rounding moves a ratio by half a unit of the fourth digit at most, and not out of 0 to 1. */
  lemma RoundedIsNear(x: real)
    ensures x - 0.00005 < Rounded(x) <= x + 0.00005
    ensures 0.0 <= x <= 1.0 ==> 0.0 <= Rounded(x) <= 1.0
  {
    var n := (x * 10000.0 + 0.5).Floor;
    assert n as real <= x * 10000.0 + 0.5 < n as real + 1.0;
    if 0.0 <= x <= 1.0 {
      assert 0 <= n <= 10000;
    }
  }

  // ---- row-level-security transactions ----------------------------------------------------

  const RLS_KINDS: nat := 5

  /** Unknown outcomes are not counted. */
  function RlsKind(outcome: string): nat
  {
    if outcome == "committed" then 0
    else if outcome == "rolled_back" then 1
    else if outcome == "invalid_input" then 2
    else if outcome == "connection_error" then 3
    else if outcome == "transaction_error" then 4
    else RLS_KINDS
  }

  datatype RlsOptions = RlsOptions(minSamples: real, errorRatio: real, rollbackRatio: real, invalidInput: real)

  function RlsReport(counts: seq<nat>, o: RlsOptions, windowMs: nat, lastAt: Option<nat>): Report<RlsOptions>
    requires |counts| == RLS_KINDS
  {
    var errors := counts[3] + counts[4];
    var total := counts[0] + counts[1] + counts[2] + errors;
    var enough := total as real >= o.minSamples;
    var failing := enough && Ratio(errors, total) >= o.errorRatio;
    var rolling := enough && Ratio(counts[1], total) >= o.rollbackRatio;
    var spike := counts[2] as real >= o.invalidInput;
    Report(if failing then Unhealthy else if rolling || spike then Degraded else Healthy,
      (if failing then ["error_ratio_exceeded"] else []) + (if rolling then ["rollback_ratio_exceeded"] else [])
        + (if spike then ["invalid_input_spike"] else []),
      windowMs, counts, [total, errors], [Rounded(Ratio(counts[1], total)), Rounded(Ratio(errors, total))], lastAt, o)
  }

  /** For a positive error ratio: unhealthy means enough traffic with enough errors in it. */
  lemma RlsUnhealthyMeans(counts: seq<nat>, o: RlsOptions, windowMs: nat, lastAt: Option<nat>, errors: nat, total: nat)
    requires |counts| == RLS_KINDS && o.errorRatio > 0.0
    requires errors == counts[3] + counts[4] && total == counts[0] + counts[1] + counts[2] + errors
    ensures RlsReport(counts, o, windowMs, lastAt).health.Unhealthy? <==>
      total > 0 && total as real >= o.minSamples && errors as real >= o.errorRatio * total as real
  {
    var reached := Ratio(errors, total) >= o.errorRatio;
    assert RlsReport(counts, o, windowMs, lastAt).health.Unhealthy? <==> total as real >= o.minSamples && reached;
    RatioReached(errors, total, o.errorRatio);
  }

  /** Without any traffic the monitor is healthy exactly when its thresholds ask for some. */
  lemma RlsIdleIsHealthy(o: RlsOptions, windowMs: nat, lastAt: Option<nat>)
    ensures RlsReport(EmptyCounts(RLS_KINDS), o, windowMs, lastAt).health.Healthy? <==>
      o.invalidInput > 0.0 && (o.minSamples > 0.0 || (o.errorRatio > 0.0 && o.rollbackRatio > 0.0))
  {
  }

  /** The whole verdict, in terms of the counts of the five outcomes. */
  lemma RlsVerdict(c: seq<nat>, o: RlsOptions, windowMs: nat, lastAt: Option<nat>)
    requires |c| == 5
    ensures var r, total := RlsReport(c, o, windowMs, lastAt), c[0] + c[1] + c[2] + c[3] + c[4];
      var failing := total as real >= o.minSamples && Reaches(c[3] + c[4], total, o.errorRatio);
      var rolling := total as real >= o.minSamples && Reaches(c[1], total, o.rollbackRatio);
      var spike := c[2] as real >= o.invalidInput;
      && (r.health.Unhealthy? <==> failing) && (r.health.Degraded? <==> !failing && (rolling || spike))
      && r.reasons == (if failing then ["error_ratio_exceeded"] else []) + (if rolling then ["rollback_ratio_exceeded"] else [])
                      + (if spike then ["invalid_input_spike"] else [])
      && r.windowMs == windowMs && r.counts == c && r.totals == [total, c[3] + c[4]] && r.lastAt == lastAt && r.thresholds == o
      && |r.ratios| == 2 && Shows(r.ratios[0], c[1], total) && Shows(r.ratios[1], c[3] + c[4], total)
  {
    var total := c[0] + c[1] + c[2] + c[3] + c[4];
    RatioReaches(c[3] + c[4], total, o.errorRatio);
    RatioReaches(c[1], total, o.rollbackRatio);
    RatioShows(c[1], total);
    RatioShows(c[3] + c[4], total);
  }

  /** Something recorded under a name, and its slot. */
  datatype Named = Named(name: string, slot: nat)

  /** How often one of these names was recorded in the slots lo..hi. */
  function CountNamed(records: seq<Named>, name: string -> bool, lo: int, hi: int): nat
  {
    if records == [] then 0
    else
      var r := records[|records| - 1];
      CountNamed(records[..|records| - 1], name, lo, hi) + if lo <= r.slot <= hi && name(r.name) then 1 else 0
  }

  /** The log that recorded outcomes make. */
  function RlsLog(records: seq<Named>): seq<Event>
  {
    seq(|records|, i requires 0 <= i < |records| => Event(records[i].slot, RlsKind(records[i].name)))
  }

  /** Each of the five outcomes is counted in its own place, and no other is. */
  lemma {:induction false} RlsCountsByName(records: seq<Named>, lo: int, hi: int)
    ensures CountIn(RlsLog(records), lo, hi, 0) == CountNamed(records, n => n == "committed", lo, hi)
    ensures CountIn(RlsLog(records), lo, hi, 1) == CountNamed(records, n => n == "rolled_back", lo, hi)
    ensures CountIn(RlsLog(records), lo, hi, 2) == CountNamed(records, n => n == "invalid_input", lo, hi)
    ensures CountIn(RlsLog(records), lo, hi, 3) == CountNamed(records, n => n == "connection_error", lo, hi)
    ensures CountIn(RlsLog(records), lo, hi, 4) == CountNamed(records, n => n == "transaction_error", lo, hi)
  {
    if records == [] {
    } else {
      var init := records[..|records| - 1];
      RlsCountsByName(init, lo, hi);
      assert RlsLog(records)[..|records| - 1] == RlsLog(init);
      RlsKindsDiffer(records[|records| - 1].name);
    }
  }

  lemma RlsKindsDiffer(name: string)
    ensures (RlsKind(name) == 0 <==> name == "committed") && (RlsKind(name) == 1 <==> name == "rolled_back")
    ensures (RlsKind(name) == 2 <==> name == "invalid_input") && (RlsKind(name) == 3 <==> name == "connection_error")
    ensures RlsKind(name) == 4 <==> name == "transaction_error"
  {
    assert |"committed"| == 9 && |"rolled_back"| == 11 && |"invalid_input"| == 13;
    assert |"connection_error"| == 16 && |"transaction_error"| == 17;
  }

  class DatabaseRlsHealthMonitor {
    const ring: BucketRing
    const options: RlsOptions
    var lastTransactionAt: Option<nat>

    ghost predicate Valid()
      reads this, ring, ring.buckets
    {
      ring.kinds == RLS_KINDS && ring.Valid()
    }

    constructor (windowMs: nat, bucketMs: nat, options: RlsOptions)
      requires bucketMs > 0
      ensures Valid() && ring.log == [] && lastTransactionAt == None && fresh(ring) && fresh(ring.buckets)
    {
      ring := new BucketRing(windowMs, bucketMs, RLS_KINDS);
      this.options, lastTransactionAt := options, None;
    }

    method Record(outcome: string, time: nat)
      requires Valid()
      modifies this, ring, ring.buckets
      ensures Valid() && ring.log == old(ring.log) + [Event(SlotOf(time, ring.bucketMs), RlsKind(outcome))]
      ensures lastTransactionAt == Some(time)
    {
      ring.Count(RlsKind(outcome), time);
      lastTransactionAt := Some(time);
    }

    method Snapshot(time: nat) returns (report: Report<RlsOptions>)
      requires Valid()
      ensures InTime(ring.log, ring.buckets.Length) && SlotOf(time, ring.bucketMs) >= Latest(ring.log) ==>
        report == RlsReport(ExactCounts(ring.log, ring.buckets.Length, RLS_KINDS, SlotOf(time, ring.bucketMs)), options,
                            ring.buckets.Length * ring.bucketMs, lastTransactionAt)
    {
      var counts := ring.Totals(time);
      var errors := counts[3] + counts[4];
      var total := counts[0] + counts[1] + counts[2] + errors;
      var errorRatio, rollbackRatio := Ratio(errors, total), Ratio(counts[1], total);
      var reasons, health := [], Healthy;
      if total as real >= options.minSamples && errorRatio >= options.errorRatio {
        health := Unhealthy;
        reasons := reasons + ["error_ratio_exceeded"];
      }
      if total as real >= options.minSamples && rollbackRatio >= options.rollbackRatio {
        if health == Healthy { health := Degraded; }
        reasons := reasons + ["rollback_ratio_exceeded"];
      }
      if counts[2] as real >= options.invalidInput {
        if health == Healthy { health := Degraded; }
        reasons := reasons + ["invalid_input_spike"];
      }
      report := Report(health, reasons, ring.buckets.Length * ring.bucketMs, counts, [total, errors],
        [Rounded(rollbackRatio), Rounded(errorRatio)], lastTransactionAt, options);
    }
  }

  // ---- exchange-rate oracle cache ---------------------------------------------------------

  const ORACLE_KINDS: nat := 7

  /** Anything but a hit or a stale entry counts as a miss. */
  function LookupKind(result: string): nat
  {
    if result == "hit" then 0 else if result == "stale" then 2 else 1
  }

  /** Anything but a known outcome counts as an error. */
  function LoadKind(outcome: string): nat
  {
    if outcome == "success" then 3 else if outcome == "timeout" then 5 else if outcome == "not_found" then 6 else 4
  }

  datatype OracleOptions = OracleOptions(minSamples: real, errorRatio: real, timeoutRatio: real, staleRatio: real)

  function OracleReport(counts: seq<nat>, o: OracleOptions, windowMs: nat, lastAt: Option<nat>): Report<OracleOptions>
    requires |counts| == ORACLE_KINDS
  {
    var loads := counts[3] + counts[4] + counts[5] + counts[6];
    var lookups := counts[0] + counts[1] + counts[2];
    var failing := loads as real >= o.minSamples && Ratio(counts[4], loads) >= o.errorRatio;
    var slow := loads as real >= o.minSamples && Ratio(counts[5], loads) >= o.timeoutRatio;
    var stale := lookups as real >= o.minSamples && Ratio(counts[2], lookups) >= o.staleRatio;
    Report(if failing then Unhealthy else if slow || stale then Degraded else Healthy,
      (if failing then ["error_ratio_exceeded"] else []) + (if slow then ["timeout_ratio_exceeded"] else [])
        + (if stale then ["stale_ratio_exceeded"] else []),
      windowMs, counts, [loads, lookups],
      [Rounded(Ratio(counts[4], loads)), Rounded(Ratio(counts[5], loads)), Rounded(Ratio(counts[2], lookups))], lastAt, o)
  }

  /** For a positive error ratio: unhealthy means enough loads with enough errors among them. */
  lemma OracleUnhealthyMeans(counts: seq<nat>, o: OracleOptions, windowMs: nat, lastAt: Option<nat>, loads: nat)
    requires |counts| == ORACLE_KINDS && o.errorRatio > 0.0 && loads == counts[3] + counts[4] + counts[5] + counts[6]
    ensures OracleReport(counts, o, windowMs, lastAt).health.Unhealthy? <==>
      loads > 0 && loads as real >= o.minSamples && counts[4] as real >= o.errorRatio * loads as real
  {
    var reached := Ratio(counts[4], loads) >= o.errorRatio;
    assert OracleReport(counts, o, windowMs, lastAt).health.Unhealthy? <==> loads as real >= o.minSamples && reached;
    RatioReached(counts[4], loads, o.errorRatio);
  }

  /**
   * The same for the oracle monitor: every ratio counts as zero, so
   * each threshold must be positive unless samples are asked for.
   */
  lemma OracleIdleIsHealthy(o: OracleOptions, windowMs: nat, lastAt: Option<nat>)
    ensures OracleReport(EmptyCounts(ORACLE_KINDS), o, windowMs, lastAt).health.Healthy? <==>
      o.minSamples > 0.0 || (o.errorRatio > 0.0 && o.timeoutRatio > 0.0 && o.staleRatio > 0.0)
  {
  }

  /** The whole verdict, in terms of the seven counts. */
  lemma OracleVerdict(c: seq<nat>, o: OracleOptions, windowMs: nat, lastAt: Option<nat>)
    requires |c| == 7
    ensures var r, loads, lookups := OracleReport(c, o, windowMs, lastAt), c[3] + c[4] + c[5] + c[6], c[0] + c[1] + c[2];
      var failing := loads as real >= o.minSamples && Reaches(c[4], loads, o.errorRatio);
      var slow := loads as real >= o.minSamples && Reaches(c[5], loads, o.timeoutRatio);
      var stale := lookups as real >= o.minSamples && Reaches(c[2], lookups, o.staleRatio);
      && (r.health.Unhealthy? <==> failing) && (r.health.Degraded? <==> !failing && (slow || stale))
      && r.reasons == (if failing then ["error_ratio_exceeded"] else []) + (if slow then ["timeout_ratio_exceeded"] else [])
                      + (if stale then ["stale_ratio_exceeded"] else [])
      && r.windowMs == windowMs && r.counts == c && r.totals == [loads, lookups] && r.lastAt == lastAt && r.thresholds == o
      && |r.ratios| == 3 && Shows(r.ratios[0], c[4], loads) && Shows(r.ratios[1], c[5], loads) && Shows(r.ratios[2], c[2], lookups)
  {
    var loads, lookups := c[3] + c[4] + c[5] + c[6], c[0] + c[1] + c[2];
    RatioReaches(c[4], loads, o.errorRatio);
    RatioReaches(c[5], loads, o.timeoutRatio);
    RatioReaches(c[2], lookups, o.staleRatio);
    RatioShows(c[4], loads);
    RatioShows(c[5], loads);
    RatioShows(c[2], lookups);
  }

  /** Lookups and loads as they are recorded, marked by whether they are loads. */
  datatype OracleRecord = OracleRecord(load: bool, named: Named)

  function OracleLog(records: seq<OracleRecord>): seq<Event>
  {
    seq(|records|, i requires 0 <= i < |records| =>
      var r := records[i].named;
      Event(r.slot, if records[i].load then LoadKind(r.name) else LookupKind(r.name)))
  }

  /** The lookups, or the loads, of a record. */
  function Only(records: seq<OracleRecord>, load: bool): seq<Named>
  {
    if records == [] then []
    else
      var r := records[|records| - 1];
      Only(records[..|records| - 1], load) + if r.load == load then [r.named] else []
  }

  lemma CountOneMore(records: seq<Named>, r: Named, name: string -> bool, lo: int, hi: int)
    ensures CountNamed(records + [r], name, lo, hi)
            == CountNamed(records, name, lo, hi) + if lo <= r.slot <= hi && name(r.name) then 1 else 0
  {
    assert (records + [r])[..|records|] == records;
  }

  /** The log counts the lookups or loads of a kind by these names. */
  lemma {:induction false} OracleCounts(records: seq<OracleRecord>, load: bool, name: string -> bool, kind: nat, lo: int, hi: int)
    requires forall n :: name(n) <==> (if load then LoadKind(n) else LookupKind(n)) == kind
    requires if load then kind >= 3 else kind < 3
    ensures CountIn(OracleLog(records), lo, hi, kind) == CountNamed(Only(records, load), name, lo, hi)
  {
    if records == [] {
    } else {
      var init, r := records[..|records| - 1], records[|records| - 1];
      OracleCounts(init, load, name, kind, lo, hi);
      assert OracleLog(records)[..|records| - 1] == OracleLog(init);
      if r.load == load {
        CountOneMore(Only(init, load), r.named, name, lo, hi);
      } else {
        assert Only(records, load) == Only(init, load);
      }
    }
  }

  /** Lookups are hits, stale or else misses; loads are successes, timeouts, not found or else errors. */
  lemma OracleCountsByName(records: seq<OracleRecord>, lo: int, hi: int)
    ensures CountIn(OracleLog(records), lo, hi, 0) == CountNamed(Only(records, false), n => n == "hit", lo, hi)
    ensures CountIn(OracleLog(records), lo, hi, 1) == CountNamed(Only(records, false), n => n != "hit" && n != "stale", lo, hi)
    ensures CountIn(OracleLog(records), lo, hi, 2) == CountNamed(Only(records, false), n => n == "stale", lo, hi)
    ensures CountIn(OracleLog(records), lo, hi, 3) == CountNamed(Only(records, true), n => n == "success", lo, hi)
    ensures CountIn(OracleLog(records), lo, hi, 4)
            == CountNamed(Only(records, true), n => n != "success" && n != "timeout" && n != "not_found", lo, hi)
    ensures CountIn(OracleLog(records), lo, hi, 5) == CountNamed(Only(records, true), n => n == "timeout", lo, hi)
    ensures CountIn(OracleLog(records), lo, hi, 6) == CountNamed(Only(records, true), n => n == "not_found", lo, hi)
  {
    assert |"hit"| == 3 && |"stale"| == 5 && |"not_found"| == 9 && "success"[0] != "timeout"[0];
    OracleCounts(records, false, n => n == "hit", 0, lo, hi);
    OracleCounts(records, false, n => n != "hit" && n != "stale", 1, lo, hi);
    OracleCounts(records, false, n => n == "stale", 2, lo, hi);
    OracleCounts(records, true, n => n == "success", 3, lo, hi);
    OracleCounts(records, true, n => n != "success" && n != "timeout" && n != "not_found", 4, lo, hi);
    OracleCounts(records, true, n => n == "timeout", 5, lo, hi);
    OracleCounts(records, true, n => n == "not_found", 6, lo, hi);
  }

  class ExchangeRateOracleHealthMonitor {
    const ring: BucketRing
    const options: OracleOptions
    var lastLoadAt: Option<nat>

    ghost predicate Valid()
      reads this, ring, ring.buckets
    {
      ring.kinds == ORACLE_KINDS && ring.Valid()
    }

    constructor (windowMs: nat, bucketMs: nat, options: OracleOptions)
      requires bucketMs > 0
      ensures Valid() && ring.log == [] && lastLoadAt == None && fresh(ring) && fresh(ring.buckets)
    {
      ring := new BucketRing(windowMs, bucketMs, ORACLE_KINDS);
      this.options, lastLoadAt := options, None;
    }

    method RecordLookup(result: string, time: nat)
      requires Valid()
      modifies ring, ring.buckets
      ensures Valid() && ring.log == old(ring.log) + [Event(SlotOf(time, ring.bucketMs), LookupKind(result))]
    {
      ring.Count(LookupKind(result), time);
    }

    method RecordLoad(outcome: string, time: nat)
      requires Valid()
      modifies this, ring, ring.buckets
      ensures Valid() && ring.log == old(ring.log) + [Event(SlotOf(time, ring.bucketMs), LoadKind(outcome))]
      ensures lastLoadAt == Some(time)
    {
      ring.Count(LoadKind(outcome), time);
      lastLoadAt := Some(time);
    }

    method Snapshot(time: nat) returns (report: Report<OracleOptions>)
      requires Valid()
      ensures InTime(ring.log, ring.buckets.Length) && SlotOf(time, ring.bucketMs) >= Latest(ring.log) ==>
        report == OracleReport(ExactCounts(ring.log, ring.buckets.Length, ORACLE_KINDS, SlotOf(time, ring.bucketMs)), options,
                               ring.buckets.Length * ring.bucketMs, lastLoadAt)
    {
      var counts := ring.Totals(time);
      var loads := counts[3] + counts[4] + counts[5] + counts[6];
      var lookups := counts[0] + counts[1] + counts[2];
      var errorRatio, timeoutRatio, staleRatio := Ratio(counts[4], loads), Ratio(counts[5], loads), Ratio(counts[2], lookups);
      var reasons, health := [], Healthy;
      if loads as real >= options.minSamples && errorRatio >= options.errorRatio {
        health := Unhealthy;
        reasons := reasons + ["error_ratio_exceeded"];
      }
      if loads as real >= options.minSamples && timeoutRatio >= options.timeoutRatio {
        if health == Healthy { health := Degraded; }
        reasons := reasons + ["timeout_ratio_exceeded"];
      }
      if lookups as real >= options.minSamples && staleRatio >= options.staleRatio {
        if health == Healthy { health := Degraded; }
        reasons := reasons + ["stale_ratio_exceeded"];
      }
      report := Report(health, reasons, ring.buckets.Length * ring.bucketMs, counts, [loads, lookups],
        [Rounded(errorRatio), Rounded(timeoutRatio), Rounded(staleRatio)], lastLoadAt, options);
    }
  }
}
