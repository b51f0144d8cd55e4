/**
 * The ledger monitor's token bucket, for callers that do not overlap: each
 * waitForSlot call is over before the next begins. Tokens are real numbers,
 * times are milliseconds.
 */
module TokenBucket {
  import opened Prelude

  datatype Options = Options(rate: real, burst: real)

  type Config = c: Options | c.rate >= 1.0 && c.burst >= 1.0 witness Options(1.0, 1.0)

  function AtLeastOne(x: real): real { if x < 1.0 then 1.0 else x }

  /** A missing or zero option falls back: to one per second, and to a burst of the rate. */
  function Configure(maxPerSecond: Option<real>, burst: Option<real>): (cfg: Config)
  {
    var rate := AtLeastOne(if maxPerSecond.Some? then maxPerSecond.value else 1.0);
    Options(rate, AtLeastOne(if burst.Some? && burst.value != 0.0 then burst.value else rate))
  }

  datatype Bucket = Bucket(tokens: real, lastRefillAt: int)

  /** What the rate yields in so many milliseconds. */
  function Earned(rate: real, ms: int): real { ms as real / 1000.0 * rate }

  function Ceil(x: real): int { -((-x).Floor) }

  function Refill(b: Bucket, cfg: Config, now: int): Bucket
  {
    var elapsed := if now - b.lastRefillAt < 0 then 0 else now - b.lastRefillAt;
    var tokens := b.tokens + Earned(cfg.rate, elapsed);
    Bucket(if tokens < cfg.burst then tokens else cfg.burst, now)
  }

  /** A call up to its sleep: admitted at once, or asked to sleep. */
  function Arrive(b: Bucket, cfg: Config, now: int): (Bucket, Option<int>)
  {
    var b := Refill(b, cfg, now);
    if b.tokens >= 1.0 then (b.(tokens := b.tokens - 1.0), None)
    else (b, Some(Ceil((1.0 - b.tokens) / cfg.rate * 1000.0)))
  }

  /** The rest of a call that slept. */
  function Wake(b: Bucket, cfg: Config, now: int): Bucket
  {
    var b := Refill(b, cfg, now);
    b.(tokens := if b.tokens - 1.0 < 0.0 then 0.0 else b.tokens - 1.0)
  }

  class RateLimiter {
    const cfg: Config
    var tokens: real
    var lastRefillAt: int

    ghost function View(): Bucket reads this { Bucket(tokens, lastRefillAt) }

    constructor (maxPerSecond: Option<real>, burst: Option<real>, now: int)
      ensures cfg == Configure(maxPerSecond, burst) && View() == Bucket(cfg.burst, now)
    {
      var c := Configure(maxPerSecond, burst);
      cfg, tokens, lastRefillAt := c, c.burst, now;
    }

    method RefillAt(now: int)
      modifies this
      ensures View() == Refill(old(View()), cfg, now)
    {
      var elapsedMs := if now - lastRefillAt < 0 then 0 else now - lastRefillAt;
      tokens := tokens + elapsedMs as real / 1000.0 * cfg.rate;
      if tokens >= cfg.burst {
        tokens := cfg.burst;
      }
      lastRefillAt := now;
    }

    method RequestSlot(now: int) returns (delayMs: Option<int>)
      modifies this
      ensures (View(), delayMs) == Arrive(old(View()), cfg, now)
    {
      RefillAt(now);
      if tokens >= 1.0 {
        tokens := tokens - 1.0;
        return None;
      }
      delayMs := Some(Ceil((1.0 - tokens) / cfg.rate * 1000.0));
    }

    method SlotAfterSleep(now: int)
      modifies this
      ensures View() == Wake(old(View()), cfg, now)
    {
      RefillAt(now);
      tokens := if tokens - 1.0 < 0.0 then 0.0 else tokens - 1.0;
    }
  }

  // ---- runs of calls ------------------------------------------------------------------

  /** When a call arrives and, if it has to sleep, wakes up. */
  datatype Request = Request(arrives: int, wakes: int)

  function AdmittedAt(b: Bucket, cfg: Config, r: Request): int
  {
    if Arrive(b, cfg, r.arrives).1.None? then r.arrives else r.wakes
  }

  function After(b: Bucket, cfg: Config, r: Request): Bucket
  {
    var (b, delay) := Arrive(b, cfg, r.arrives);
    if delay.None? then b else Wake(b, cfg, r.wakes)
  }

  /** The clock does not run backwards and a sleep lasts at least as long as asked. */
  predicate Timely(b: Bucket, cfg: Config, r: Request)
  {
    && b.lastRefillAt <= r.arrives
    && var delay := Arrive(b, cfg, r.arrives).1;
      delay.Some? ==> r.wakes >= r.arrives + delay.value
  }

  /** The bucket after the first calls of a run. */
  function BucketAfter(b: Bucket, cfg: Config, run: seq<Request>): Bucket
  {
    if run == [] then b else After(BucketAfter(b, cfg, run[..|run| - 1]), cfg, run[|run| - 1])
  }

  ghost predicate Possible(b: Bucket, cfg: Config, run: seq<Request>)
  {
    run != [] ==>
      Possible(b, cfg, run[..|run| - 1]) && Timely(BucketAfter(b, cfg, run[..|run| - 1]), cfg, run[|run| - 1])
  }

  /** Admissions of a run between two times. */
  function Admitted(b: Bucket, cfg: Config, run: seq<Request>, from: int, to: int): nat
  {
    if run == [] then 0
    else
      var before := run[..|run| - 1];
      var at := AdmittedAt(BucketAfter(b, cfg, before), cfg, run[|run| - 1]);
      Admitted(b, cfg, before, from, to) + if from <= at <= to then 1 else 0
  }

  lemma EarnedIsAdditive(rate: real, a: int, b: int)
    requires rate >= 0.0
    ensures Earned(rate, a) + Earned(rate, b) == Earned(rate, a + b)
    ensures a <= b ==> Earned(rate, a) <= Earned(rate, b)
  {
    assert (a + b) as real / 1000.0 * rate == a as real / 1000.0 * rate + b as real / 1000.0 * rate;
    if a <= b {
      assert (b - a) as real / 1000.0 >= 0.0;
      assert (b - a) as real / 1000.0 * rate >= 0.0;
      assert b as real / 1000.0 * rate - a as real / 1000.0 * rate == (b - a) as real / 1000.0 * rate;
    }
  }

  /** The asked delay earns what was missing. */
  lemma DelaySuffices(cfg: Config, missing: real, ms: int)
    requires missing >= 0.0 && ms >= Ceil(missing / cfg.rate * 1000.0)
    ensures Earned(cfg.rate, ms) >= missing && ms >= 0
  {
    var x := missing / cfg.rate * 1000.0;
    assert missing / cfg.rate >= 0.0;
    assert x >= 0.0;
    assert (-x).Floor as real <= -x;
    assert ms as real >= x;
    assert ms as real / 1000.0 >= missing / cfg.rate;
    assert ms as real / 1000.0 * cfg.rate >= missing / cfg.rate * cfg.rate;
    assert missing / cfg.rate * cfg.rate == missing;
  }

  /** One call spends exactly one token of what the bucket holds and earns; it is not clamped at zero. */
  lemma OneCall(b: Bucket, cfg: Config, r: Request)
    requires 0.0 <= b.tokens <= cfg.burst && Timely(b, cfg, r)
    ensures var b' := After(b, cfg, r);
      && b'.lastRefillAt == AdmittedAt(b, cfg, r) >= b.lastRefillAt
      && 0.0 <= b'.tokens <= cfg.burst - 1.0
      && b'.tokens <= b.tokens + Earned(cfg.rate, b'.lastRefillAt - b.lastRefillAt) - 1.0
  {
    var (mid, delay) := Arrive(b, cfg, r.arrives);
    EarnedIsAdditive(cfg.rate, 0, r.arrives - b.lastRefillAt);
    if delay.Some? {
      DelaySuffices(cfg, 1.0 - mid.tokens, r.wakes - r.arrives);
      EarnedIsAdditive(cfg.rate, r.arrives - b.lastRefillAt, r.wakes - r.arrives);
    }
  }

  /** What the bucket holds at a time, if nobody takes anything. */
  function HeldAt(b: Bucket, cfg: Config, now: int): real
  {
    Capped(b.tokens + (now - b.lastRefillAt) as real / 1000.0 * cfg.rate, cfg.burst)
  }

  function Capped(tokens: real, burst: real): real { if tokens < burst then tokens else burst }

  lemma HeldIsEarned(b: Bucket, cfg: Config, now: int)
    ensures HeldAt(b, cfg, now) == Capped(b.tokens + Earned(cfg.rate, now - b.lastRefillAt), cfg.burst)
  {
  }

  /** One call leaves exactly one token less than the bucket would hold when the call is admitted. */
  lemma CallCost(b: Bucket, cfg: Config, r: Request)
    requires 0.0 <= b.tokens <= cfg.burst && Timely(b, cfg, r)
    ensures After(b, cfg, r) == Bucket(HeldAt(b, cfg, AdmittedAt(b, cfg, r)) - 1.0, AdmittedAt(b, cfg, r))
  {
    var (mid, delay) := Arrive(b, cfg, r.arrives);
    OneCall(b, cfg, r);
    if delay.Some? {
      DelaySuffices(cfg, 1.0 - mid.tokens, r.wakes - r.arrives);
      EarnedIsAdditive(cfg.rate, r.arrives - b.lastRefillAt, r.wakes - r.arrives);
    }
  }

  /**
   * A call is admitted at once exactly if it finds a token, and
   * else sleeps for the least time that earns one.
   */
  lemma DelayIsLeast(b: Bucket, cfg: Config, now: int)
    requires 0.0 <= b.tokens <= cfg.burst && b.lastRefillAt <= now
    ensures var delay := Arrive(b, cfg, now).1;
      && (delay.None? <==> HeldAt(b, cfg, now) >= 1.0)
      && (delay.Some? ==> delay.value > 0 && HeldAt(b, cfg, now + delay.value) >= 1.0 && HeldAt(b, cfg, now + delay.value - 1) < 1.0)
  {
    var elapsed := now - b.lastRefillAt;
    HeldIsEarned(b, cfg, now);
    if b.tokens + Earned(cfg.rate, elapsed) < 1.0 {
      var ms := Ceil((1.0 - (b.tokens + Earned(cfg.rate, elapsed))) / cfg.rate * 1000.0);
      LeastDelay(cfg, b.tokens, elapsed, ms);
      HeldIsEarned(b, cfg, now + ms);
      HeldIsEarned(b, cfg, now + ms - 1);
      assert now + ms - b.lastRefillAt == elapsed + ms && now + ms - 1 - b.lastRefillAt == elapsed + ms - 1;
    }
  }

  lemma LeastDelay(cfg: Config, tokens: real, elapsed: int, ms: int)
    requires var held := tokens + Earned(cfg.rate, elapsed); held < 1.0 && ms == Ceil((1.0 - held) / cfg.rate * 1000.0)
    ensures ms > 0 && tokens + Earned(cfg.rate, elapsed + ms) >= 1.0 && tokens + Earned(cfg.rate, elapsed + ms - 1) < 1.0
  {
    var held := tokens + Earned(cfg.rate, elapsed);
    DelaySuffices(cfg, 1.0 - held, ms);
    OneMillisecondLess(cfg, 1.0 - held, ms);
    EarnedIsAdditive(cfg.rate, elapsed, ms);
    EarnedIsAdditive(cfg.rate, elapsed, ms - 1);
  }

  lemma OneMillisecondLess(cfg: Config, missing: real, ms: int)
    requires missing > 0.0 && ms == Ceil(missing / cfg.rate * 1000.0)
    ensures ms > 0 && Earned(cfg.rate, ms - 1) < missing
  {
    var x := missing / cfg.rate * 1000.0;
    assert missing / cfg.rate > 0.0;
    assert x > 0.0;
    assert -x < (-x).Floor as real + 1.0;
    assert (ms - 1) as real < x;
    assert (ms - 1) as real / 1000.0 < missing / cfg.rate;
    assert (ms - 1) as real / 1000.0 * cfg.rate < missing / cfg.rate * cfg.rate;
    assert missing / cfg.rate * cfg.rate == missing;
  }

  /**
   * Neither the rate nor the burst falls below one; without a
   * burst, or with a burst of zero, it is the rate.
   */
  lemma ConfigureDecides(maxPerSecond: Option<real>, burst: Option<real>)
    ensures var c := Configure(maxPerSecond, burst);
      && c.rate >= 1.0 && c.burst >= 1.0
      && (maxPerSecond.None? ==> c.rate == 1.0) && (maxPerSecond.Some? && maxPerSecond.value >= 1.0 ==> c.rate == maxPerSecond.value)
      && (maxPerSecond.Some? && maxPerSecond.value < 1.0 ==> c.rate == 1.0)
      && (burst.None? || burst.value == 0.0 ==> c.burst == c.rate) && (burst.Some? && burst.value >= 1.0 ==> c.burst == burst.value)
      && (burst.Some? && burst.value != 0.0 && burst.value < 1.0 ==> c.burst == 1.0)
  {
  }

  lemma {:induction false} TokensStayInRange(b: Bucket, cfg: Config, run: seq<Request>)
    requires 0.0 <= b.tokens <= cfg.burst && Possible(b, cfg, run)
    ensures 0.0 <= BucketAfter(b, cfg, run).tokens <= cfg.burst
  {
    if run == [] {
    } else {
      TokensStayInRange(b, cfg, run[..|run| - 1]);
      OneCall(BucketAfter(b, cfg, run[..|run| - 1]), cfg, run[|run| - 1]);
    }
  }

  /** A woken call finds a whole token, so the clamp at zero never acts. */
  lemma ClampNeverActs(b: Bucket, cfg: Config, run: seq<Request>, r: Request)
    requires 0.0 <= b.tokens <= cfg.burst && Possible(b, cfg, run)
    requires Timely(BucketAfter(b, cfg, run), cfg, r) && Arrive(BucketAfter(b, cfg, run), cfg, r.arrives).1.Some?
    ensures Refill(Arrive(BucketAfter(b, cfg, run), cfg, r.arrives).0, cfg, r.wakes).tokens >= 1.0
  {
    TokensStayInRange(b, cfg, run);
    var now := BucketAfter(b, cfg, run);
    EarnedIsAdditive(cfg.rate, 0, r.arrives - now.lastRefillAt);
    DelaySuffices(cfg, 1.0 - Refill(now, cfg, r.arrives).tokens, r.wakes - r.arrives);
  }

  /** Tokens left and admissions since a time are paid for by the burst and what was earned since. */
  lemma {:induction false} Budget(b: Bucket, cfg: Config, run: seq<Request>, from: int, to: int)
    requires 0.0 <= b.tokens <= cfg.burst && Possible(b, cfg, run)
    ensures var last := BucketAfter(b, cfg, run);
      && 0.0 <= last.tokens <= cfg.burst
      && (last.lastRefillAt < from ==> Admitted(b, cfg, run, from, to) == 0)
      && (from <= last.lastRefillAt ==>
            last.tokens + Admitted(b, cfg, run, from, to) as real <= cfg.burst + Earned(cfg.rate, last.lastRefillAt - from))
  {
    TokensStayInRange(b, cfg, run);
    if run == [] {
      EarnedIsAdditive(cfg.rate, 0, b.lastRefillAt - from);
    } else {
      var init, r := run[..|run| - 1], run[|run| - 1];
      var before, last := BucketAfter(b, cfg, init), BucketAfter(b, cfg, run);
      Budget(b, cfg, init, from, to);
      OneCall(before, cfg, r);
      EarnedIsAdditive(cfg.rate, 0, last.lastRefillAt - from);
      EarnedIsAdditive(cfg.rate, before.lastRefillAt - from, last.lastRefillAt - before.lastRefillAt);
    }
  }

  /** Any span of time admits at most the burst and what the rate yields in it. */
  lemma {:induction false} SpanIsBounded(b: Bucket, cfg: Config, run: seq<Request>, from: int, to: int)
    requires 0.0 <= b.tokens <= cfg.burst && Possible(b, cfg, run) && from <= to
    ensures Admitted(b, cfg, run, from, to) as real <= cfg.burst + Earned(cfg.rate, to - from)
  {
    EarnedIsAdditive(cfg.rate, 0, to - from);
    if run != [] {
      var init := run[..|run| - 1];
      TokensStayInRange(b, cfg, init);
      OneCall(BucketAfter(b, cfg, init), cfg, run[|run| - 1]);
      if BucketAfter(b, cfg, run).lastRefillAt > to {
        SpanIsBounded(b, cfg, init, from, to);
      } else {
        Budget(b, cfg, run, from, to);
        EarnedIsAdditive(cfg.rate, BucketAfter(b, cfg, run).lastRefillAt - from, to - from);
      }
    }
  }
}
