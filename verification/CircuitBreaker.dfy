/**
 * The audit circuit breaker and its execute() calls: a call checks the breaker,
 * runs its function, sleeps between retries and checks again. Code between two
 * awaits is one step; callbacks do not throw.
 */
module CircuitBreaker {
  import opened Prelude

  datatype CircuitState = Closed | Open | HalfOpen

  datatype Breaker = Breaker(state: CircuitState, failures: nat, openedAt: Option<int>, halfOpenSuccesses: nat)

  datatype Config = Config(failureThreshold: int, resetTimeoutMs: nat, halfOpenRequired: int)

  const FRESH: Breaker := Breaker(Closed, 0, None, 0)

  /** Whether calls are blocked; an open breaker whose time is up turns half-open. */
  function IsOpen(b: Breaker, cfg: Config, now: int): (Breaker, bool)
    requires b.state.Open? ==> b.openedAt.Some?
  {
    if !b.state.Open? then (b, false)
    else if now - b.openedAt.value >= cfg.resetTimeoutMs then (b.(state := HalfOpen, halfOpenSuccesses := 0), false)
    else (b, true)
  }

  function RecordSuccess(b: Breaker, cfg: Config): Breaker
  {
    if !b.state.HalfOpen? then b.(failures := 0)
    else if b.halfOpenSuccesses + 1 >= cfg.halfOpenRequired then FRESH
    else b.(halfOpenSuccesses := b.halfOpenSuccesses + 1)
  }

  function RecordFailure(b: Breaker, cfg: Config, now: int): Breaker
  {
    var failures := b.failures + 1;
    if b.state.HalfOpen? || failures >= cfg.failureThreshold then Breaker(Open, failures, Some(now), 0)
    else b.(failures := failures)
  }

  // ---- one execute() call ---------------------------------------------------------------

  datatype Pc =
    | Running(attempt: nat)     // awaiting the function
    | Sleeping(attempt: nat)    // backing off
    | Returned
    | Threw
    | OpenError

  datatype Call = Call(maxRetries: int, pc: Pc)

  /** What a step does to the breaker, the call and the record of outcomes. */
  datatype Effect = Effect(b: Breaker, call: Call, recorded: Option<bool>)

  function ExecuteStep(b: Breaker, cfg: Config, maxRetries: int, now: int): Effect
    requires b.state.Open? ==> b.openedAt.Some?
  {
    var (b, open) := IsOpen(b, cfg, now);
    if open then Effect(b, Call(maxRetries, OpenError), None)
    else if maxRetries < 0 then Effect(RecordFailure(b, cfg, now), Call(maxRetries, Threw), Some(false))
    else Effect(b, Call(maxRetries, Running(0)), None)
  }

  function ResultStep(b: Breaker, cfg: Config, call: Call): Effect
  {
    Effect(RecordSuccess(b, cfg), call.(pc := Returned), Some(true))
  }

  function ErrorStep(b: Breaker, cfg: Config, call: Call, retryable: bool, now: int): Effect
    requires call.pc.Running?
  {
    if !retryable || call.pc.attempt >= call.maxRetries then
      Effect(RecordFailure(b, cfg, now), call.(pc := Threw), Some(false))
    else Effect(b, call.(pc := Sleeping(call.pc.attempt)), None)
  }

  function WakeStep(b: Breaker, cfg: Config, call: Call, now: int): Effect
    requires call.pc.Sleeping? && (b.state.Open? ==> b.openedAt.Some?)
  {
    var (b, open) := IsOpen(b, cfg, now);
    Effect(b, call.(pc := if open then OpenError else Running(call.pc.attempt + 1)), None)
  }

  // ---- the program's objects ----------------------------------------------------------------

  class AuditCircuitBreaker {
    const cfg: Config
    var state: CircuitState
    var failures: nat
    var openedAt: Option<int>
    var halfOpenSuccesses: nat

    ghost function View(): Breaker reads this { Breaker(state, failures, openedAt, halfOpenSuccesses) }

    ghost predicate Valid() reads this { state.Open? ==> openedAt.Some? }

    constructor (cfg: Config)
      ensures this.cfg == cfg && View() == FRESH && Valid()
    {
      this.cfg := cfg;
      state, failures, openedAt, halfOpenSuccesses := Closed, 0, None, 0;
    }

    method CheckOpen(now: int) returns (open: bool)
      requires Valid()
      modifies this
      ensures Valid() && (View(), open) == IsOpen(old(View()), cfg, now)
    {
      if state.Open? {
        if now - openedAt.value >= cfg.resetTimeoutMs {
          state, halfOpenSuccesses := HalfOpen, 0;
          return false;
        }
        return true;
      }
      open := false;
    }

    method OnSuccess()
      modifies this
      ensures View() == RecordSuccess(old(View()), cfg) && (old(Valid()) ==> Valid())
    {
      if state.HalfOpen? {
        halfOpenSuccesses := halfOpenSuccesses + 1;
        if halfOpenSuccesses >= cfg.halfOpenRequired {
          state, failures, halfOpenSuccesses, openedAt := Closed, 0, 0, None;
        }
      } else {
        failures := 0;
      }
    }

    method OnFailure(now: int)
      modifies this
      ensures View() == RecordFailure(old(View()), cfg, now) && (old(Valid()) ==> Valid())
    {
      failures := failures + 1;
      if state.HalfOpen? || failures >= cfg.failureThreshold {
        state, openedAt, halfOpenSuccesses := Open, Some(now), 0;
      }
    }

    method Reset()
      modifies this
      ensures View() == FRESH && Valid()
    {
      state, failures, openedAt, halfOpenSuccesses := Closed, 0, None, 0;
    }
  }

  /** An execute() call in progress. */
  class Execution {
    const breaker: AuditCircuitBreaker
    const maxRetries: int
    var pc: Pc

    ghost function View(): Call reads this { Call(maxRetries, pc) }

    /** execute() up to its first await. */
    constructor (breaker: AuditCircuitBreaker, maxRetries: int, now: int)
      requires breaker.Valid()
      modifies breaker
      ensures this.breaker == breaker && breaker.Valid()
      ensures var e := ExecuteStep(old(breaker.View()), breaker.cfg, maxRetries, now);
        breaker.View() == e.b && View() == e.call
    {
      this.breaker, this.maxRetries := breaker, maxRetries;
      var open := breaker.CheckOpen(now);
      if open {
        pc := OpenError;
      } else if maxRetries < 0 {
        breaker.OnFailure(now);
        pc := Threw;
      } else {
        pc := Running(0);
      }
    }

    method OnResult()
      requires pc.Running?
      modifies this, breaker
      ensures var e := ResultStep(old(breaker.View()), breaker.cfg, old(View())); breaker.View() == e.b && View() == e.call
    {
      breaker.OnSuccess();
      pc := Returned;
    }

    method OnError(retryable: bool, now: int)
      requires pc.Running?
      modifies this, breaker
      ensures var e := ErrorStep(old(breaker.View()), breaker.cfg, old(View()), retryable, now);
        breaker.View() == e.b && View() == e.call
    {
      if !retryable || pc.attempt >= maxRetries {
        breaker.OnFailure(now);
        pc := Threw;
      } else {
        pc := Sleeping(pc.attempt);
      }
    }

    method OnWake(now: int)
      requires pc.Sleeping? && breaker.Valid()
      modifies this, breaker
      ensures var e := WakeStep(old(breaker.View()), breaker.cfg, old(View()), now);
        breaker.Valid() && breaker.View() == e.b && View() == e.call
    {
      var open := breaker.CheckOpen(now);
      pc := if open then OpenError else Running(pc.attempt + 1);
    }
  }
}
