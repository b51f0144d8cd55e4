/**
 * Every interleaving of execute() calls, their sleeps and
 * resets, under a clock that does not run backwards.
 */
module CircuitBreakerRuns {
  import opened Prelude
  import opened CircuitBreaker

  /** A recorded outcome, and the call that recorded it. */
  datatype Outcome = Outcome(call: nat, ok: bool)

  /**
   * The breaker, its calls and the history: outcomes in order, where the last
   * reset and the last half-opening fall in it, opening times since that reset,
   * and how often each call's function was started.
   */
  datatype State = State(
    b: Breaker, calls: map<nat, Call>, clock: int,
    log: seq<Outcome>, base: nat, halfOpenedAt: nat, openings: seq<int>, starts: map<nat, nat>)

  datatype Action =
    | Execute(c: nat, maxRetries: int, now: int)
    | Result(c: nat, now: int)
    | Error(c: nat, retryable: bool, now: int)
    | Wake(c: nat, now: int)
    | Reset(now: int)

  predicate Enabled(s: State, a: Action)
  {
    && a.now >= s.clock
    && (s.b.state.Open? ==> s.b.openedAt.Some?)
    && match a
       case Execute(c, _, _) => c !in s.calls
       case Result(c, _) => c in s.calls && s.calls[c].pc.Running?
       case Error(c, _, _) => c in s.calls && s.calls[c].pc.Running?
       case Wake(c, _) => c in s.calls && s.calls[c].pc.Sleeping?
       case Reset(_) => true
  }

  function Starts(s: State, c: nat): nat { if c in s.starts then s.starts[c] else 0 }

  /** The step set the open time anew. */
  predicate Opened(e: Effect, now: int)
  {
    e.recorded == Some(false) && e.b.state.Open? && e.b.openedAt == Some(now)
  }

  /** The step checked an open breaker and turned it half-open. */
  predicate HalfOpened(s: State, a: Action, cfg: Config)
    requires Enabled(s, a)
  {
    (a.Execute? || a.Wake?) && s.b.state.Open? && !IsOpen(s.b, cfg, a.now).1
  }

  /** The step started the call's function. */
  predicate StartsFunction(a: Action, e: Effect) { (a.Execute? || a.Wake?) && e.call.pc.Running? }

  function EffectOf(s: State, a: Action, cfg: Config): Effect
    requires Enabled(s, a) && !a.Reset?
  {
    match a
    case Execute(_, maxRetries, now) => ExecuteStep(s.b, cfg, maxRetries, now)
    case Result(c, _) => ResultStep(s.b, cfg, s.calls[c])
    case Error(c, retryable, now) => ErrorStep(s.b, cfg, s.calls[c], retryable, now)
    case Wake(c, now) => WakeStep(s.b, cfg, s.calls[c], now)
  }

  function Next(s: State, a: Action, cfg: Config): State
    requires Enabled(s, a)
  {
    if a.Reset? then s.(b := FRESH, clock := a.now, base := |s.log|, openings := [])
    else
      var e := EffectOf(s, a, cfg);
      s.(b := e.b, clock := a.now, calls := s.calls[a.c := e.call],
         log := if e.recorded.Some? then s.log + [Outcome(a.c, e.recorded.value)] else s.log,
         halfOpenedAt := if HalfOpened(s, a, cfg) then |s.log| else s.halfOpenedAt,
         openings := if Opened(e, a.now) then s.openings + [a.now] else s.openings,
         starts := if StartsFunction(a, e) then s.starts[a.c := Starts(s, a.c) + 1] else s.starts)
  }

  predicate Init(s: State)
  {
    && s.b == FRESH && s.calls == map[] && s.log == [] && s.base == 0 && s.openings == [] && s.starts == map[]
  }

  // ---- the invariant ------------------------------------------------------------------

  /** How many failures end the record since the last reset. */
  function Trailing(log: seq<Outcome>, base: nat): nat
  {
    if |log| <= base || log[|log| - 1].ok then 0 else 1 + Trailing(log[..|log| - 1], base)
  }

  /** How often a call recorded this outcome. */
  function Count(log: seq<Outcome>, c: nat, ok: bool): nat
  {
    if log == [] then 0
    else Count(log[..|log| - 1], c, ok) + if log[|log| - 1] == Outcome(c, ok) then 1 else 0
  }

  ghost predicate BreakerOk(s: State, cfg: Config)
  {
    && s.base <= |s.log|
    && (s.b.state.Closed? ==> s.b.failures < cfg.failureThreshold && s.b.failures == Trailing(s.log, s.base))
    && (s.b.state.HalfOpen? ==>
          && s.b.openedAt.Some? && s.b.halfOpenSuccesses < cfg.halfOpenRequired
          && s.base <= s.halfOpenedAt <= |s.log| && |s.log| - s.halfOpenedAt == s.b.halfOpenSuccesses
          && forall i :: s.halfOpenedAt <= i < |s.log| ==> s.log[i].ok)
    && (s.b.state.Open? ==> s.b.openedAt.Some? && s.b.openedAt.value <= s.clock)
  }

  /** An open breaker remembers its last opening; any other has waited it out. */
  ghost predicate OpeningsOk(s: State, cfg: Config)
    requires s.b.state.Open? ==> s.b.openedAt.Some?
  {
    forall i :: 0 <= i < |s.openings| ==>
      if s.b.state.Open? then s.openings[i] <= s.b.openedAt.value else s.openings[i] + cfg.resetTimeoutMs <= s.clock
  }

  ghost predicate CallOk(s: State, c: nat)
    requires c in s.calls
  {
    var call := s.calls[c];
    var allowed := if call.maxRetries < 0 then 0 else call.maxRetries + 1;
    && Starts(s, c) <= allowed
    && (match call.pc
        case Running(attempt) => attempt <= call.maxRetries && Starts(s, c) == attempt + 1
        case Sleeping(attempt) => attempt < call.maxRetries && Starts(s, c) == attempt + 1
        case _ => true)
    && Count(s.log, c, true) == (if call.pc.Returned? then 1 else 0)
    && Count(s.log, c, false) == (if call.pc.Threw? then 1 else 0)
  }

  ghost predicate CallsOk(s: State)
  {
    && (forall c :: c in s.calls ==> CallOk(s, c))
    && (forall c :: c in s.starts ==> c in s.calls)
    && (forall i :: 0 <= i < |s.log| ==> s.log[i].call in s.calls)
  }

  ghost predicate Inv(s: State, cfg: Config)
  {
    BreakerOk(s, cfg) && OpeningsOk(s, cfg) && CallsOk(s)
  }

  ghost predicate Sound(cfg: Config) { cfg.failureThreshold >= 1 && cfg.halfOpenRequired >= 1 }

  lemma InitInv(s: State, cfg: Config)
    requires Init(s) && Sound(cfg)
    ensures Inv(s, cfg)
  {
  }

  lemma {:induction false} CountNone(log: seq<Outcome>, c: nat, ok: bool)
    requires forall i :: 0 <= i < |log| ==> log[i].call != c
    ensures Count(log, c, ok) == 0
  {
    if log == [] {
    } else {
      CountNone(log[..|log| - 1], c, ok);
    }
  }

  lemma Appended(log: seq<Outcome>, o: Outcome, base: nat)
    requires base <= |log|
    ensures Trailing(log + [o], base) == if o.ok then 0 else 1 + Trailing(log, base)
    ensures forall c, ok :: Count(log + [o], c, ok) == Count(log, c, ok) + if o == Outcome(c, ok) then 1 else 0
  {
    assert (log + [o])[..|log|] == log;
  }

  /** One outcome is recorded. */
  lemma RecordedOk(s: State, s': State, o: Outcome, cfg: Config)
    requires BreakerOk(s, cfg) && Sound(cfg) && s.clock <= s'.clock
    requires s'.log == s.log + [o] && s'.base == s.base && s'.halfOpenedAt == s.halfOpenedAt
    requires s'.b == if o.ok then RecordSuccess(s.b, cfg) else RecordFailure(s.b, cfg, s'.clock)
    ensures BreakerOk(s', cfg)
  {
    Appended(s.log, o, s.base);
  }

  /** The breaker is checked. */
  lemma CheckedOk(s: State, s': State, cfg: Config)
    requires BreakerOk(s, cfg) && Sound(cfg) && s.clock <= s'.clock
    requires s'.log == s.log && s'.base == s.base && s'.b == IsOpen(s.b, cfg, s'.clock).0
    requires s'.halfOpenedAt == if s.b.state.Open? && s'.b.state.HalfOpen? then |s.log| else s.halfOpenedAt
    ensures BreakerOk(s', cfg)
  {
  }

  lemma NextBreakerOk(s: State, a: Action, cfg: Config)
    requires Inv(s, cfg) && Enabled(s, a) && Sound(cfg)
    ensures BreakerOk(Next(s, a, cfg), cfg)
  {
    var s' := Next(s, a, cfg);
    match a
    case Execute(c, maxRetries, now) =>
      var between := s.(b := IsOpen(s.b, cfg, now).0, clock := now,
        halfOpenedAt := if HalfOpened(s, a, cfg) then |s.log| else s.halfOpenedAt);
      CheckedOk(s, between, cfg);
      if s'.log != s.log {
        RecordedOk(between, s', Outcome(c, false), cfg);
      }
    case Result(c, _) => RecordedOk(s, s', Outcome(c, true), cfg);
    case Error(c, _, _) =>
      if s'.log != s.log {
        RecordedOk(s, s', Outcome(c, false), cfg);
      }
    case Wake(_, _) => CheckedOk(s, s', cfg);
    case Reset(_) =>
  }

  lemma NextOpeningsOk(s: State, a: Action, cfg: Config)
    requires Inv(s, cfg) && Enabled(s, a) && Sound(cfg) && BreakerOk(Next(s, a, cfg), cfg)
    ensures OpeningsOk(Next(s, a, cfg), cfg)
  {
    var s' := Next(s, a, cfg);
    forall i | 0 <= i < |s'.openings|
      ensures if s'.b.state.Open? then s'.openings[i] <= s'.b.openedAt.value else s'.openings[i] + cfg.resetTimeoutMs <= s'.clock
    {
      assert i < |s.openings| ==> s'.openings[i] == s.openings[i];
    }
  }

  /** What a step leaves of the call it is about. */
  lemma OwnCallOk(s: State, a: Action, cfg: Config)
    requires Inv(s, cfg) && Enabled(s, a) && !a.Reset?
    ensures CallOk(Next(s, a, cfg), a.c)
  {
    var e := EffectOf(s, a, cfg);
    if e.recorded.Some? {
      Appended(s.log, Outcome(a.c, e.recorded.value), s.base);
    }
    if a.Execute? {
      NewCall(s, a.c);
    } else {
      assert CallOk(s, a.c);
    }
  }

  lemma NewCall(s: State, c: nat)
    requires CallsOk(s) && c !in s.calls
    ensures Starts(s, c) == 0 && Count(s.log, c, true) == 0 && Count(s.log, c, false) == 0
  {
    CountNone(s.log, c, true);
    CountNone(s.log, c, false);
  }

  lemma OtherCallOk(s: State, a: Action, cfg: Config, c: nat)
    requires Inv(s, cfg) && Enabled(s, a) && c in s.calls && (a.Reset? || c != a.c)
    ensures c in Next(s, a, cfg).calls && CallOk(Next(s, a, cfg), c)
  {
    assert CallOk(s, c);
    if !a.Reset? && EffectOf(s, a, cfg).recorded.Some? {
      Appended(s.log, Outcome(a.c, EffectOf(s, a, cfg).recorded.value), s.base);
    }
  }

  lemma NextCallsOk(s: State, a: Action, cfg: Config)
    requires Inv(s, cfg) && Enabled(s, a)
    ensures CallsOk(Next(s, a, cfg))
  {
    var s' := Next(s, a, cfg);
    forall c | c in s'.calls ensures CallOk(s', c) {
      if !a.Reset? && c == a.c {
        OwnCallOk(s, a, cfg);
      } else {
        OtherCallOk(s, a, cfg, c);
      }
    }
  }

  lemma NextInv(s: State, a: Action, cfg: Config)
    requires Inv(s, cfg) && Enabled(s, a) && Sound(cfg)
    ensures Inv(Next(s, a, cfg), cfg)
  {
    NextBreakerOk(s, a, cfg);
    NextOpeningsOk(s, a, cfg);
    NextCallsOk(s, a, cfg);
  }

  // ---- whole runs ------------------------------------------------------------------------

  ghost predicate Possible(s: State, run: seq<Action>, cfg: Config)
    decreases |run|
  {
    run != [] ==> Enabled(s, run[0]) && Possible(Next(s, run[0], cfg), run[1..], cfg)
  }

  function After(s: State, run: seq<Action>, cfg: Config): State
    requires Possible(s, run, cfg)
    decreases |run|
  {
    if run == [] then s else After(Next(s, run[0], cfg), run[1..], cfg)
  }

  lemma {:induction false} RunInv(s: State, run: seq<Action>, cfg: Config)
    requires Inv(s, cfg) && Possible(s, run, cfg) && Sound(cfg)
    ensures Inv(After(s, run, cfg), cfg)
    decreases |run|
  {
    if run == [] {
    } else {
      NextInv(s, run[0], cfg);
      RunInv(Next(s, run[0], cfg), run[1..], cfg);
    }
  }

  /**
   * A closed breaker is below its failure threshold; a half-open one
   * is short of its successes and knows when it opened.
   */
  lemma StatesAreSound(s: State, run: seq<Action>, cfg: Config)
    requires Init(s) && Possible(s, run, cfg) && Sound(cfg)
    ensures var b := After(s, run, cfg).b;
      && (b.state.Closed? ==> b.failures < cfg.failureThreshold)
      && (b.state.HalfOpen? ==> b.halfOpenSuccesses < cfg.halfOpenRequired && b.openedAt.Some?)
      && (b.state.Open? ==> b.openedAt.Some?)
  {
    InitInv(s, cfg);
    RunInv(s, run, cfg);
  }

  /** No function starts before the reset timeout of every opening since the last reset has passed. */
  lemma NoEarlyStart(s: State, run: seq<Action>, a: Action, cfg: Config)
    requires Init(s) && Possible(s, run, cfg) && Sound(cfg) && Enabled(After(s, run, cfg), a) && !a.Reset?
    requires StartsFunction(a, EffectOf(After(s, run, cfg), a, cfg))
    ensures var t := After(s, run, cfg);
      forall i :: 0 <= i < |t.openings| ==> a.now >= t.openings[i] + cfg.resetTimeoutMs
  {
    InitInv(s, cfg);
    RunInv(s, run, cfg);
  }

  /**
   * A call that returns has recorded one success, one that throws one failure,
   * any other nothing; and its function is started at most maxRetries + 1 times.
   */
  lemma OneOutcomePerCall(s: State, run: seq<Action>, cfg: Config, c: nat)
    requires Init(s) && Possible(s, run, cfg) && Sound(cfg)
    ensures var t := After(s, run, cfg);
      c in t.calls ==>
        && Count(t.log, c, true) == (if t.calls[c].pc.Returned? then 1 else 0)
        && Count(t.log, c, false) == (if t.calls[c].pc.Threw? then 1 else 0)
        && Starts(t, c) <= (if t.calls[c].maxRetries < 0 then 0 else t.calls[c].maxRetries + 1)
  {
    InitInv(s, cfg);
    RunInv(s, run, cfg);
    if c in After(s, run, cfg).calls {
      assert CallOk(After(s, run, cfg), c);
    }
  }

  /** A closed breaker opens exactly when the record ends in as many failures as the threshold. */
  lemma OpensOnConsecutiveFailures(s: State, run: seq<Action>, a: Action, cfg: Config)
    requires Init(s) && Possible(s, run, cfg) && Sound(cfg) && Enabled(After(s, run, cfg), a) && After(s, run, cfg).b.state.Closed?
    ensures var t := Next(After(s, run, cfg), a, cfg);
      t.b.state.Open? <==> Trailing(t.log, t.base) >= cfg.failureThreshold
  {
    InitInv(s, cfg);
    RunInv(s, run, cfg);
    NextOpensIff(After(s, run, cfg), a, cfg);
  }

  lemma NextOpensIff(s: State, a: Action, cfg: Config)
    requires Inv(s, cfg) && Sound(cfg) && Enabled(s, a) && s.b.state.Closed?
    ensures var t := Next(s, a, cfg); t.b.state.Open? <==> Trailing(t.log, t.base) >= cfg.failureThreshold
  {
    if !a.Reset? && EffectOf(s, a, cfg).recorded.Some? {
      Appended(s.log, Outcome(a.c, EffectOf(s, a, cfg).recorded.value), s.base);
    }
  }

  /**
   * A half-open breaker closes, other than by a reset, exactly when all
   * outcomes since it turned half-open are successes, as many as required.
   */
  lemma ClosesOnTrials(s: State, run: seq<Action>, a: Action, cfg: Config)
    requires Init(s) && Possible(s, run, cfg) && Sound(cfg) && Enabled(After(s, run, cfg), a)
    requires After(s, run, cfg).b.state.HalfOpen? && !a.Reset?
    ensures var t := Next(After(s, run, cfg), a, cfg);
      t.b.state.Closed? <==> |t.log| - t.halfOpenedAt == cfg.halfOpenRequired && forall i :: t.halfOpenedAt <= i < |t.log| ==> t.log[i].ok
  {
    InitInv(s, cfg);
    RunInv(s, run, cfg);
    NextClosesIff(After(s, run, cfg), a, cfg);
  }

  lemma NextClosesIff(s: State, a: Action, cfg: Config)
    requires Inv(s, cfg) && Sound(cfg) && Enabled(s, a) && s.b.state.HalfOpen? && !a.Reset?
    ensures var t := Next(s, a, cfg);
      t.b.state.Closed? <==> |t.log| - t.halfOpenedAt == cfg.halfOpenRequired && forall i :: t.halfOpenedAt <= i < |t.log| ==> t.log[i].ok
  {
    var e, t := EffectOf(s, a, cfg), Next(s, a, cfg);
    if e.recorded == Some(false) {
      assert !t.log[|t.log| - 1].ok;
    }
  }
}
