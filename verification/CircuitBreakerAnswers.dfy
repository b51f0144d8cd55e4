/**
 * When a call is let through, when it tries again, and between which states the
 * breaker moves, in every state that calls and resets can reach.
 */
module CircuitBreakerAnswers {
  import opened Prelude
  import opened CircuitBreaker
  import opened CircuitBreakerRuns

  /** An open breaker opened last when the history says so. */
  ghost predicate KnowsOpening(s: State)
  {
    s.b.state.Open? ==> s.openings != [] && s.b.openedAt == Some(s.openings[|s.openings| - 1])
  }

  lemma OpeningStep(s: State, a: Action, cfg: Config)
    requires Inv(s, cfg) && Enabled(s, a) && KnowsOpening(s)
    ensures KnowsOpening(Next(s, a, cfg))
  {
  }

  /** A state that calls and resets can reach. */
  ghost predicate Reached(s: State, cfg: Config)
  {
    exists s0, run :: Init(s0) && Possible(s0, run, cfg) && s == After(s0, run, cfg)
  }

  lemma {:induction false} RunKnowsOpening(s: State, run: seq<Action>, cfg: Config)
    requires Inv(s, cfg) && KnowsOpening(s) && Possible(s, run, cfg) && Sound(cfg)
    ensures KnowsOpening(After(s, run, cfg))
    decreases |run|
  {
    if run == [] {
    } else {
      NextInv(s, run[0], cfg);
      OpeningStep(s, run[0], cfg);
      RunKnowsOpening(Next(s, run[0], cfg), run[1..], cfg);
    }
  }

  lemma ReachedOk(s: State, cfg: Config)
    requires Reached(s, cfg) && Sound(cfg)
    ensures Inv(s, cfg) && KnowsOpening(s)
  {
    var s0, run :| Init(s0) && Possible(s0, run, cfg) && s == After(s0, run, cfg);
    InitInv(s0, cfg);
    RunInv(s0, run, cfg);
    RunKnowsOpening(s0, run, cfg);
  }

  /** Calls are blocked: the breaker is open and its last opening is not yet the reset timeout ago. */
  ghost predicate Blocked(s: State, cfg: Config, now: int)
  {
    s.b.state.Open? && s.openings != [] && now < s.openings[|s.openings| - 1] + cfg.resetTimeoutMs
  }

  /**
   * execute() refuses exactly while calls are blocked; otherwise it starts its
   * function, or throws at once if it may not even be tried once.
   */
  lemma ExecuteDecides(s: State, cfg: Config, c: nat, maxRetries: int, now: int)
    requires Reached(s, cfg) && Sound(cfg) && Enabled(s, Execute(c, maxRetries, now))
    ensures var t := Next(s, Execute(c, maxRetries, now), cfg);
      && t.calls[c] == Call(maxRetries, if Blocked(s, cfg, now) then OpenError else if maxRetries < 0 then Threw else Running(0))
      && Starts(t, c) == (if t.calls[c].pc.Running? then 1 else 0)
  {
    ReachedOk(s, cfg);
    NewCall(s, c);
  }

  /**
   * A call that wakes up is refused exactly while calls are
   * blocked; otherwise its function starts once more.
   */
  lemma WakeDecides(s: State, cfg: Config, c: nat, now: int)
    requires Reached(s, cfg) && Sound(cfg) && Enabled(s, Wake(c, now))
    ensures var t := Next(s, Wake(c, now), cfg);
      && (t.calls[c].pc.OpenError? <==> Blocked(s, cfg, now)) && (t.calls[c].pc.Running? <==> !Blocked(s, cfg, now))
      && Starts(t, c) == Starts(s, c) + (if Blocked(s, cfg, now) then 0 else 1)
  {
    ReachedOk(s, cfg);
    assert CallOk(s, c);
  }

  /**
   * An error ends the call exactly if it must not be retried or
   * the function was started maxRetries + 1 times.
   */
  lemma ErrorDecides(s: State, cfg: Config, c: nat, retryable: bool, now: int)
    requires Reached(s, cfg) && Sound(cfg) && Enabled(s, Error(c, retryable, now))
    ensures var t, ends := Next(s, Error(c, retryable, now), cfg), !retryable || Starts(s, c) == s.calls[c].maxRetries + 1;
      && (t.calls[c].pc.Threw? <==> ends) && (t.calls[c].pc.Sleeping? <==> !ends)
      && t.log == (if ends then s.log + [Outcome(c, false)] else s.log)
      && (!ends ==> t.b == s.b)
  {
    ReachedOk(s, cfg);
    assert CallOk(s, c);
  }

  /** A result ends the call and is recorded as a success. */
  lemma ResultDecides(s: State, cfg: Config, c: nat, now: int)
    requires Enabled(s, Result(c, now))
    ensures var t := Next(s, Result(c, now), cfg); t.calls[c].pc.Returned? && t.log == s.log + [Outcome(c, true)]
  {
  }

  /**
   * An open breaker turns half-open exactly when a call that may be tried comes by
   * after the timeout, and closes only by a reset.
   */
  lemma OpenLeaves(s: State, cfg: Config, a: Action)
    requires Reached(s, cfg) && Sound(cfg) && Enabled(s, a) && s.b.state.Open?
    ensures var t := Next(s, a, cfg).b.state;
      && (t.HalfOpen? <==> ((a.Execute? && a.maxRetries >= 0) || a.Wake?) && !Blocked(s, cfg, a.now))
      && (t.Closed? <==> a.Reset?)
  {
    ReachedOk(s, cfg);
  }

  /** A half-open breaker opens again exactly on a failure, and then from that moment on. */
  lemma HalfOpenReopens(s: State, cfg: Config, a: Action)
    requires Reached(s, cfg) && Sound(cfg) && Enabled(s, a) && s.b.state.HalfOpen?
    ensures var t := Next(s, a, cfg);
      && (t.b.state.Open? <==> exists c :: t.log == s.log + [Outcome(c, false)])
      && (t.b.state.Open? ==> t.openings == s.openings + [a.now])
  {
    ReachedOk(s, cfg);
    var t := Next(s, a, cfg);
    if !a.Reset? && EffectOf(s, a, cfg).recorded == Some(false) {
      assert t.log == s.log + [Outcome(a.c, false)];
    }
    if c :| t.log == s.log + [Outcome(c, false)] {
      assert t.log[|s.log|] == Outcome(c, false);
    }
  }

  /** A closed breaker opens at the moment of the failure, and turns half-open never. */
  lemma ClosedLeaves(s: State, cfg: Config, a: Action)
    requires Reached(s, cfg) && Sound(cfg) && Enabled(s, a) && s.b.state.Closed?
    ensures var t := Next(s, a, cfg);
      !t.b.state.HalfOpen? && (t.b.state.Open? ==> t.openings == s.openings + [a.now])
  {
  }

  /** Every failure is counted; a success forgets them, unless it is one of several trials. */
  lemma FailuresAreCounted(s: State, cfg: Config, a: Action)
    requires Reached(s, cfg) && Sound(cfg) && Enabled(s, a) && !a.Reset? && Next(s, a, cfg).log != s.log
    ensures var t := Next(s, a, cfg);
      && t.b.failures == (if !t.log[|s.log|].ok then s.b.failures + 1
                          else if s.b.state.HalfOpen? && t.b.state.HalfOpen? then s.b.failures else 0)
      && (a.Error? && s.b.state.Open? ==>
            if s.b.failures + 1 >= cfg.failureThreshold then t.openings == s.openings + [a.now] else t.b.openedAt == s.b.openedAt)
  {
    ReachedOk(s, cfg);
  }
}
