/**
 * What becomes of the entries a dead-letter recovery takes out of the queue:
 * each of them, over any run, and when any of them can be lost.
 */
module AuditRecoveryRuns {
  import opened DeadLetters
  import opened AuditQueue
  import opened AuditQueueRuns

  /** The entries a recovery takes, in the order in which it submits them. */
  function TakenBy(s: State, a: Action): seq<DeadLetter>
    requires a.RecoverAct?
  {
    Reversed(Taken(s.q.dlq, if a.maxBatch < 0 then 0 else a.maxBatch, a.forceAll, a.now))
  }

  /** The state without them. Recovery goes on from there by submitting them all: to AllSubmitted. */
  function WithoutTaken(s: State, a: Action): State
    requires a.RecoverAct?
  {
    s.(q := s.q.(dlq := Kept(s.q.dlq, if a.maxBatch < 0 then 0 else a.maxBatch, a.forceAll, a.now)))
  }

  // ---- one call that awaits the cache -------------------------------------------------

  predicate Answers(a: Action, i: nat) { a.LookupAct? && a.i == i }

  /** Where the i-th of the waiting calls stands after a step that does not answer it. */
  function Moved(i: nat, a: Action): nat { if a.LookupAct? && a.i < i then i - 1 else i }

  /** What became of a call, or where it waits. */
  datatype Fate = Pending(i: nat) | FromCache | Accepted(id: nat) | Lost

  /**
   * What a step made of the one call it ended, as the history
   * tells it: Lost is neither accepted nor answered.
   */
  function Outcome(s: State, t: State): Fate
  {
    if |t.accepted| > |s.accepted| then Accepted(|s.accepted|)
    else if t.q.counts.cached > s.q.counts.cached then FromCache
    else Lost
  }

  /** Where a run takes the i-th of the waiting calls. */
  function FateOf(s: State, i: nat, run: seq<Action>, lim: Limits): Fate
    requires Possible(s, run, lim)
    decreases |run|
  {
    if run == [] then Pending(i)
    else
      var t := Next(s, run[0], lim);
      if Answers(run[0], i) then Outcome(s, t) else FateOf(t, Moved(i, run[0]), run[1..], lim)
  }

  /** A call waits until its own answer comes. */
  lemma CallWaits(s: State, a: Action, i: nat, lim: Limits)
    requires Enabled(s, a) && i < |s.q.lookups| && !Answers(a, i)
    ensures var t := Next(s, a, lim); Moved(i, a) < |t.q.lookups| && t.q.lookups[Moved(i, a)] == s.q.lookups[i]
  {
    if a.RecoverAct? {
      CallsJoin(s, a, lim);
    }
  }

  /** The calls of a recovery join behind those that wait. */
  lemma CallsJoin(s: State, a: Action, lim: Limits)
    requires a.RecoverAct?
    ensures Next(s, a, lim).q.lookups == s.q.lookups + LookupsOf(TakenBy(s, a))
  {
    RecoverIs(s, lim, a.maxBatch, a.forceAll, a.now);
    SubmitAllFills(WithoutTaken(s, a).q, lim, TakenBy(s, a));
  }

  predicate Full(q: Queue, lim: Limits) { |q.queue| >= lim.maxQueueSize }

  /** An answer ends its call in one of three ways; one that loses it leaves nothing behind but a count. */
  lemma AnswerDecides(s: State, i: nat, hit: bool, lim: Limits)
    requires Enabled(s, LookupAct(i, hit))
    ensures var t := Next(s, LookupAct(i, hit), lim);
      var call := s.q.lookups[i];
      match Outcome(s, t)
      case FromCache => hit
      case Accepted(id) =>
        !hit && !Full(s.q, lim) && t.accepted == s.accepted + [Job(s.q.counts.enqueued, call.write, call.maxRetries)]
      case Lost =>
        && !hit && Full(s.q, lim)
        && t == s.(q := s.q.(lookups := s.q.lookups[..i] + s.q.lookups[i + 1..], counts := s.q.counts.(dropped := s.q.counts.dropped + 1)))
      case Pending(_) => false
  {
  }

  /** The k-th step answers the call: not from the cache, and the queue is full. */
  ghost predicate MissesFull(s: State, i: nat, run: seq<Action>, k: nat, lim: Limits)
    requires Possible(s, run, lim)
  {
    && k < |run| && Possible(s, run[..k], lim)
    && FateOf(s, i, run[..k], lim).Pending?
    && run[k] == LookupAct(FateOf(s, i, run[..k], lim).i, false)
    && Full(After(s, run[..k], lim).q, lim)
  }

  /** Some step of the run does. */
  ghost predicate MissesWhenFull(s: State, i: nat, run: seq<Action>, lim: Limits)
    requires Possible(s, run, lim)
  {
    exists k: nat :: MissesFull(s, i, run, k, lim)
  }

  lemma MissesLater(s: State, i: nat, run: seq<Action>, k: nat, lim: Limits)
    requires run != [] && Possible(s, run, lim) && !Answers(run[0], i)
    ensures MissesFull(s, i, run, k + 1, lim) <==> MissesFull(Next(s, run[0], lim), Moved(i, run[0]), run[1..], k, lim)
  {
    if k < |run[1..]| {
      assert run[..k + 1][1..] == run[1..][..k] && run[..k + 1][0] == run[0] && run[k + 1] == run[1..][k];
    }
  }

  lemma MissesNow(s: State, i: nat, run: seq<Action>, lim: Limits)
    requires run != [] && Possible(s, run, lim)
    ensures MissesFull(s, i, run, 0, lim) <==> run[0] == LookupAct(i, false) && Full(s.q, lim)
    ensures Answers(run[0], i) ==> forall k: nat :: MissesFull(s, i, run, k, lim) ==> k == 0
  {
    assert run[..0] == [];
    assert forall k: nat :: 0 < k <= |run| ==> run[..k][0] == run[0];
  }

  /** Over any run, a call is lost if and only if its lookup misses while the queue is full. */
  lemma {:induction false} CallLostIff(s: State, i: nat, run: seq<Action>, lim: Limits)
    requires Possible(s, run, lim) && i < |s.q.lookups|
    ensures FateOf(s, i, run, lim).Lost? <==> MissesWhenFull(s, i, run, lim)
    decreases |run|
  {
    if run != [] {
      MissesNow(s, i, run, lim);
      if Answers(run[0], i) {
        AnswerDecides(s, i, run[0].hit, lim);
      } else {
        var t, j := Next(s, run[0], lim), Moved(i, run[0]);
        CallWaits(s, run[0], i, lim);
        CallLostIff(t, j, run[1..], lim);
        MissesShift(s, i, run, lim);
      }
    }
  }

  lemma MissesShift(s: State, i: nat, run: seq<Action>, lim: Limits)
    requires run != [] && Possible(s, run, lim) && !Answers(run[0], i)
    ensures MissesWhenFull(s, i, run, lim) <==> MissesWhenFull(Next(s, run[0], lim), Moved(i, run[0]), run[1..], lim)
  {
    MissesNow(s, i, run, lim);
    var t, j := Next(s, run[0], lim), Moved(i, run[0]);
    if k: nat :| MissesFull(t, j, run[1..], k, lim) {
      MissesLater(s, i, run, k, lim);
      assert MissesFull(s, i, run, k + 1, lim);
    }
    if k: nat :| MissesFull(s, i, run, k, lim) {
      MissesLater(s, i, run, k - 1, lim);
    }
  }

  /** Nothing of the history is forgotten: accepted writes keep their numbers, and no counter falls. */
  predicate Later(s: State, t: State)
  {
    && s.accepted <= t.accepted
    && s.q.counts.cached <= t.q.counts.cached && s.q.counts.dropped <= t.q.counts.dropped
  }

  lemma {:induction false} AllLater(s: State, lim: Limits, entries: seq<DeadLetter>)
    ensures Later(s, AllSubmitted(s, lim, entries))
    decreases |entries|
  {
    if entries == [] {
    } else {
      AllLater(Submitted(s, lim, entries[0].write, 0, false), lim, entries[1..]);
    }
  }

  lemma StepLater(s: State, a: Action, lim: Limits)
    requires Enabled(s, a)
    ensures Later(s, Next(s, a, lim))
  {
    if a.RecoverAct? {
      AllLater(WithoutTaken(s, a), lim, TakenBy(s, a));
    }
  }

  lemma {:induction false} RunLater(s: State, run: seq<Action>, lim: Limits)
    requires Possible(s, run, lim)
    ensures Later(s, After(s, run, lim))
    decreases |run|
  {
    if run == [] {
    } else {
      StepLater(s, run[0], lim);
      RunLater(Next(s, run[0], lim), run[1..], lim);
    }
  }

  /** An accepted write of a given form, which is in one place. */
  ghost predicate IsKept(s: State, id: nat, write: Write, maxRetries: int)
  {
    id < |s.accepted| && s.accepted[id] == Job(id, write, maxRetries) && InOnePlace(s, id)
  }

  lemma StaysKept(s: State, run: seq<Action>, id: nat, lim: Limits)
    requires Inv(s) && Possible(s, run, lim) && id < |s.accepted|
    ensures IsKept(After(s, run, lim), id, s.accepted[id].write, s.accepted[id].maxRetries)
  {
    RunLater(s, run, lim);
    RunInv(s, run, lim);
    var p := OnlyPlace(After(s, run, lim), id);
  }

  /** What the fate of a call made in s says about a later state t. */
  ghost predicate Shows(fate: Fate, call: Lookup, s: State, t: State)
  {
    match fate
    case Pending(i) => i < |t.q.lookups| && t.q.lookups[i] == call
    case Accepted(id) => IsKept(t, id, call.write, call.maxRetries)
    case FromCache => t.q.counts.cached > s.q.counts.cached
    case Lost => t.q.counts.dropped > s.q.counts.dropped
  }

  /**
   * A call that is not lost still waits, was answered from the cache,
   * or has become an accepted write, which is in one place.
   */
  lemma {:induction false} CallIsKept(s: State, i: nat, run: seq<Action>, lim: Limits)
    requires Inv(s) && Possible(s, run, lim) && i < |s.q.lookups|
    ensures Shows(FateOf(s, i, run, lim), s.q.lookups[i], s, After(s, run, lim))
    decreases |run|
  {
    if run != [] {
      var a, t := run[0], Next(s, run[0], lim);
      NextInv(s, a, lim);
      StepLater(s, a, lim);
      RunLater(t, run[1..], lim);
      if Answers(a, i) {
        AnswerDecides(s, i, a.hit, lim);
        if Outcome(s, t).Accepted? {
          StaysKept(t, run[1..], |s.accepted|, lim);
        }
      } else {
        CallWaits(s, a, i, lim);
        CallIsKept(t, Moved(i, a), run[1..], lim);
      }
    }
  }

  // ---- the entries of a recovery run ----------------------------------------------------

  lemma {:induction false} SubmittedInTurn(s: State, lim: Limits, a: seq<DeadLetter>, b: seq<DeadLetter>)
    ensures AllSubmitted(s, lim, a + b) == AllSubmitted(AllSubmitted(s, lim, a), lim, b)
    decreases |a|
  {
    if a == [] {
      assert a + b == b;
    } else {
      assert (a + b)[1..] == a[1..] + b;
      SubmittedInTurn(Submitted(s, lim, a[0].write, 0, false), lim, a[1..], b);
    }
  }

  /** How far the queue and the waiting calls have grown. */
  lemma SubmittedFill(s: State, lim: Limits, entries: seq<DeadLetter>)
    ensures var q := AllSubmitted(s, lim, entries).q;
      && |q.queue| == |s.q.queue| + Min(Room(s.q, lim), |Direct(entries)|)
      && q.lookups == s.q.lookups + LookupsOf(entries)
  {
    AllSubmittedIs(s, lim, entries);
    SubmitAllFills(s.q, lim, entries);
  }

  /** What became of the k-th entry: of a call without a key at once, of another in the run that follows. */
  function EntryFate(s: State, entries: seq<DeadLetter>, k: nat, run: seq<Action>, lim: Limits): Fate
    requires k < |entries| && Possible(AllSubmitted(s, lim, entries), run, lim)
  {
    var before := AllSubmitted(s, lim, entries[..k]);
    if entries[k].write.keyed then FateOf(AllSubmitted(s, lim, entries), |before.q.lookups|, run, lim)
    else Outcome(before, AllSubmitted(s, lim, entries[..k + 1]))
  }

  lemma {:induction false} SplitCounts(entries: seq<DeadLetter>, k: nat)
    requires k < |entries|
    ensures |Direct(entries)| == |Direct(entries[..k])| + |DirectOne(entries[k])| + |Direct(entries[k + 1..])|
    ensures |LookupsOf(entries)| == |LookupsOf(entries[..k])| + |LookupOne(entries[k])| + |LookupsOf(entries[k + 1..])|
  {
    if k > 0 {
      var tail := entries[1..];
      SplitCounts(tail, k - 1);
      assert entries[..k][0] == entries[0] && entries[..k][1..] == tail[..k - 1] && tail[k..] == entries[k + 1..];
    }
  }

  /** The calls come in the order of their entries. */
  lemma {:induction false} CallOf(entries: seq<DeadLetter>, k: nat)
    requires k < |entries| && entries[k].write.keyed
    ensures |LookupsOf(entries[..k])| < |LookupsOf(entries)|
    ensures LookupsOf(entries)[|LookupsOf(entries[..k])|] == Lookup(entries[k].write, 0)
  {
    if k > 0 {
      CallOf(entries[1..], k - 1);
      assert entries[..k][0] == entries[0] && entries[..k][1..] == entries[1..][..k - 1];
    }
  }

  /** Where the call of the k-th entry waits. */
  function PlaceOf(s: State, entries: seq<DeadLetter>, k: nat): nat
    requires k < |entries|
  {
    |s.q.lookups| + |LookupsOf(entries[..k])|
  }

  /** The entry's call waits at its place. */
  lemma EntryWaits(s: State, entries: seq<DeadLetter>, k: nat, lim: Limits)
    requires k < |entries| && entries[k].write.keyed
    ensures var calls, i := AllSubmitted(s, lim, entries).q.lookups, |AllSubmitted(s, lim, entries[..k]).q.lookups|;
      && i == PlaceOf(s, entries, k) < |calls|
      && calls[i] == Lookup(entries[k].write, 0)
  {
    SubmittedFill(s, lim, entries);
    SubmittedFill(s, lim, entries[..k]);
    CallOf(entries, k);
  }

  /** An entry without a key is dropped or accepted on the spot. */
  lemma DirectEntry(s: State, entries: seq<DeadLetter>, k: nat, lim: Limits)
    requires k < |entries| && !entries[k].write.keyed
    ensures var before, after := AllSubmitted(s, lim, entries[..k]), AllSubmitted(s, lim, entries[..k + 1]);
      && after == Submitted(before, lim, entries[k].write, 0, false)
      && (Outcome(before, after).Lost? <==> |s.q.queue| + |Direct(entries[..k])| >= lim.maxQueueSize)
  {
    assert entries[..k + 1] == entries[..k] + [entries[k]];
    SubmittedInTurn(s, lim, entries[..k], [entries[k]]);
    var before := AllSubmitted(s, lim, entries[..k]);
    assert AllSubmitted(before, lim, [entries[k]]) == Submitted(before, lim, entries[k].write, 0, false);
    SubmittedFill(s, lim, entries[..k]);
  }

  lemma KeyedEntryFate(s: State, entries: seq<DeadLetter>, k: nat, run: seq<Action>, lim: Limits)
    requires k < |entries| && entries[k].write.keyed && Possible(AllSubmitted(s, lim, entries), run, lim)
    ensures EntryFate(s, entries, k, run, lim) == FateOf(AllSubmitted(s, lim, entries), PlaceOf(s, entries, k), run, lim)
  {
    EntryWaits(s, entries, k, lim);
  }

  /**
   * Over any run after a recovery, an entry it took is lost if and only if it has
   * no key and the entries before it leave no room, or it has one and its lookup
   * misses while the queue is full.
   */
  lemma EntryLostIff(s: State, entries: seq<DeadLetter>, k: nat, run: seq<Action>, lim: Limits)
    requires k < |entries| && Possible(AllSubmitted(s, lim, entries), run, lim)
    ensures EntryFate(s, entries, k, run, lim).Lost? <==>
      if entries[k].write.keyed then MissesWhenFull(AllSubmitted(s, lim, entries), PlaceOf(s, entries, k), run, lim)
      else |s.q.queue| + |Direct(entries[..k])| >= lim.maxQueueSize
  {
    if entries[k].write.keyed {
      EntryWaits(s, entries, k, lim);
      KeyedEntryFate(s, entries, k, run, lim);
      CallLostIff(AllSubmitted(s, lim, entries), PlaceOf(s, entries, k), run, lim);
    } else {
      DirectEntry(s, entries, k, lim);
    }
  }

  /**
   * An entry that is not lost still waits for the cache, was answered
   * from it, or has become an accepted write with a single attempt.
   */
  lemma EntryIsKept(s: State, entries: seq<DeadLetter>, k: nat, run: seq<Action>, lim: Limits)
    requires Inv(s) && k < |entries| && Possible(AllSubmitted(s, lim, entries), run, lim)
    ensures Shows(EntryFate(s, entries, k, run, lim), Lookup(entries[k].write, 0), s, After(AllSubmitted(s, lim, entries), run, lim))
  {
    var all := AllSubmitted(s, lim, entries);
    AllSubmittedOk(s, lim, entries);
    if entries[k].write.keyed {
      AllLater(s, lim, entries);
      EntryWaits(s, entries, k, lim);
      CallIsKept(all, PlaceOf(s, entries, k), run, lim);
    } else {
      DirectIsKept(s, entries, k, lim);
      RunLater(all, run, lim);
      var before := AllSubmitted(s, lim, entries[..k]);
      if Outcome(before, AllSubmitted(s, lim, entries[..k + 1])).Accepted? {
        StaysKept(all, run, |before.accepted|, lim);
      }
    }
  }

  lemma DirectIsKept(s: State, entries: seq<DeadLetter>, k: nat, lim: Limits)
    requires Inv(s) && k < |entries| && !entries[k].write.keyed
    ensures var before, all := AllSubmitted(s, lim, entries[..k]), AllSubmitted(s, lim, entries);
      var fate := Outcome(before, AllSubmitted(s, lim, entries[..k + 1]));
      && (fate.Accepted? || fate.Lost?)
      && (fate.Accepted? ==> |all.accepted| > fate.id && all.accepted[fate.id] == Job(fate.id, entries[k].write, 0))
      && (fate.Lost? ==> all.q.counts.dropped > s.q.counts.dropped)
  {
    var before := AllSubmitted(s, lim, entries[..k]);
    DirectEntry(s, entries, k, lim);
    AllSubmittedOk(s, lim, entries[..k]);
    AllLater(s, lim, entries[..k]);
    SubmittedDecides(before, lim, entries[k].write);
    RestLater(s, entries, k, lim);
  }

  lemma SubmittedDecides(s: State, lim: Limits, write: Write)
    requires Inv(s) && !write.keyed
    ensures var t := Submitted(s, lim, write, 0, false);
      match Outcome(s, t)
      case Accepted(id) => t.accepted == s.accepted + [Job(id, write, 0)]
      case Lost => t.q.counts.dropped == s.q.counts.dropped + 1
      case _ => false
  {
  }

  lemma RestLater(s: State, entries: seq<DeadLetter>, k: nat, lim: Limits)
    requires k < |entries|
    ensures Later(AllSubmitted(s, lim, entries[..k + 1]), AllSubmitted(s, lim, entries))
  {
    assert entries == entries[..k + 1] + entries[k + 1..];
    SubmittedInTurn(s, lim, entries[..k + 1], entries[k + 1..]);
    AllLater(AllSubmitted(s, lim, entries[..k + 1]), lim, entries[k + 1..]);
  }

  // ---- whether any can be lost ------------------------------------------------------------

  /** No further call enters the queue. */
  predicate NoneEnter(run: seq<Action>) { forall i :: 0 <= i < |run| ==> !run[i].EnqueueAct? && !run[i].RecoverAct? }

  /** After the recovery a, the k-th entry it took is lost in this run. */
  ghost predicate Loses(s: State, a: Action, k: nat, run: seq<Action>, lim: Limits)
    requires a.RecoverAct?
  {
    && k < |TakenBy(s, a)| && NoneEnter(run) && Possible(Next(s, a, lim), run, lim)
    && EntryFate(WithoutTaken(s, a), TakenBy(s, a), k, run, lim).Lost?
  }

  /** Without new calls, queue and waiting calls together do not grow. */
  lemma DemandFalls(s: State, a: Action, lim: Limits)
    requires Enabled(s, a) && !a.EnqueueAct? && !a.RecoverAct?
    ensures var q := Next(s, a, lim).q; |q.queue| + |q.lookups| <= |s.q.queue| + |s.q.lookups|
  {
  }

  lemma {:induction false} FittingCallIsKept(s: State, i: nat, run: seq<Action>, lim: Limits)
    requires Possible(s, run, lim) && NoneEnter(run) && i < |s.q.lookups| && |s.q.queue| + |s.q.lookups| <= lim.maxQueueSize
    ensures !FateOf(s, i, run, lim).Lost?
    decreases |run|
  {
    if run != [] {
      var a, t := run[0], Next(s, run[0], lim);
      DemandFalls(s, a, lim);
      if Answers(a, i) {
        AnswerDecides(s, i, a.hit, lim);
      } else {
        CallWaits(s, a, i, lim);
        FittingCallIsKept(t, Moved(i, a), run[1..], lim);
      }
    }
  }

  /** The cache answers n calls, none of them with a record. */
  function AllMiss(n: nat): seq<Action> { if n == 0 then [] else [LookupAct(0, false)] + AllMiss(n - 1) }

  /** How many of the waiting calls the queue has no room for. */
  function Overflow(q: Queue, lim: Limits): nat { |q.lookups| - Min(Room(q, lim), |q.lookups|) }

  lemma MissEffect(s: State, lim: Limits)
    requires s.q.lookups != []
    ensures var t := Next(s, LookupAct(0, false), lim);
      && |t.q.lookups| == |s.q.lookups| - 1
      && t.q.counts.dropped + Overflow(t.q, lim) == s.q.counts.dropped + Overflow(s.q, lim)
      && (|s.q.lookups| > 1 && Overflow(s.q, lim) > 0 ==> Overflow(t.q, lim) > 0)
  {
    EnqueueEffect(s.q.(lookups := s.q.lookups[..0] + s.q.lookups[1..]), lim, s.q.lookups[0].write, s.q.lookups[0].maxRetries);
  }

  lemma AllMissUnfold(n: nat)
    requires n > 0
    ensures AllMiss(n)[0] == LookupAct(0, false) && AllMiss(n)[1..] == AllMiss(n - 1)
  {
  }

  /** If they all miss, those are lost. */
  lemma {:induction false} AllMissLosesOverflow(s: State, n: nat, lim: Limits)
    requires n == |s.q.lookups|
    ensures Possible(s, AllMiss(n), lim) && NoneEnter(AllMiss(n))
    ensures After(s, AllMiss(n), lim).q.counts.dropped == s.q.counts.dropped + Overflow(s.q, lim)
    decreases n
  {
    if n > 0 {
      AllMissUnfold(n);
      MissEffect(s, lim);
      AllMissLosesOverflow(Next(s, LookupAct(0, false), lim), n - 1, lim);
    }
  }

  /** The last one is among them. */
  lemma {:induction false} AllMissLosesLast(s: State, n: nat, lim: Limits)
    requires n == |s.q.lookups| && Overflow(s.q, lim) > 0 && Possible(s, AllMiss(n), lim)
    ensures FateOf(s, n - 1, AllMiss(n), lim).Lost?
    decreases n
  {
    AllMissUnfold(n);
    if n == 1 {
      AnswerDecides(s, 0, false, lim);
    } else {
      MissEffect(s, lim);
      AllMissLosesLast(Next(s, LookupAct(0, false), lim), n - 1, lim);
    }
  }

  lemma LastIsLost(s: State, lim: Limits) returns (run: seq<Action>)
    requires Overflow(s.q, lim) > 0
    ensures Possible(s, run, lim) && NoneEnter(run) && FateOf(s, |s.q.lookups| - 1, run, lim).Lost?
  {
    run := AllMiss(|s.q.lookups|);
    AllMissLosesOverflow(s, |s.q.lookups|, lim);
    AllMissLosesLast(s, |s.q.lookups|, lim);
  }

  lemma LossStep(s: State, a: Action, lim: Limits)
    requires Enabled(s, a) && !a.EnqueueAct? && !a.RecoverAct?
    ensures var t := Next(s, a, lim); t.q.counts.dropped + Overflow(t.q, lim) <= s.q.counts.dropped + Overflow(s.q, lim)
  {
    DemandFalls(s, a, lim);
    if a.LookupAct? && !a.hit {
      EnqueueEffect(s.q.(lookups := s.q.lookups[..a.i] + s.q.lookups[a.i + 1..]), lim, s.q.lookups[a.i].write, s.q.lookups[a.i].maxRetries);
    }
  }

  /** However the cache answers and the queue works on, no more are ever lost. */
  lemma {:induction false} LossIsBounded(s: State, run: seq<Action>, lim: Limits)
    requires Possible(s, run, lim) && NoneEnter(run)
    ensures After(s, run, lim).q.counts.dropped <= s.q.counts.dropped + Overflow(s.q, lim)
    decreases |run|
  {
    if run == [] {
    } else {
      LossStep(s, run[0], lim);
      LossIsBounded(Next(s, run[0], lim), run[1..], lim);
    }
  }

  /**
   * The most that can be lost until no call waits any more: as many as the queue
   * cannot hold of the calls waiting before and the entries taken, and all of
   * these if no lookup finds a record and nothing leaves the queue meanwhile.
   */
  lemma WorstLoss(s: State, a: Action, lim: Limits)
    requires a.RecoverAct?
    ensures var t, calls := Next(s, a, lim), |s.q.lookups| + |TakenBy(s, a)|;
      var worst := s.q.counts.dropped + calls - Min(Room(s.q, lim), calls);
      && (forall run :: Possible(t, run, lim) && NoneEnter(run) ==> After(t, run, lim).q.counts.dropped <= worst)
      && Possible(t, AllMiss(|t.q.lookups|), lim) && NoneEnter(AllMiss(|t.q.lookups|))
      && After(t, AllMiss(|t.q.lookups|), lim).q.counts.dropped == worst
  {
    var s', taken, t := WithoutTaken(s, a), TakenBy(s, a), Next(s, a, lim);
    assert t == AllSubmitted(s', lim, taken);
    AllSubmittedIs(s', lim, taken);
    SubmitAllFills(s'.q, lim, taken);
    assert |LookupsOf(taken)| + |Direct(taken)| == |taken|;
    AllMissLosesOverflow(t, |t.q.lookups|, lim);
    forall run | Possible(t, run, lim) && NoneEnter(run)
      ensures After(t, run, lim).q.counts.dropped <= t.q.counts.dropped + Overflow(t.q, lim)
    {
      LossIsBounded(t, run, lim);
    }
  }

  /** The last entry without a key has all the others before it. */
  lemma {:induction false} LastDirect(entries: seq<DeadLetter>) returns (k: nat)
    requires Direct(entries) != []
    ensures k < |entries| && !entries[k].write.keyed && |Direct(entries[..k])| == |Direct(entries)| - 1
  {
    k := |entries| - 1;
    SplitCounts(entries, k);
    if entries[k].write.keyed {
      var before := entries[..k];
      k := LastDirect(before);
      assert before[..k] == entries[..k];
    }
  }

  lemma {:induction false} LastKeyed(entries: seq<DeadLetter>) returns (k: nat)
    requires LookupsOf(entries) != []
    ensures k < |entries| && entries[k].write.keyed && |LookupsOf(entries[..k])| == |LookupsOf(entries)| - 1
  {
    k := |entries| - 1;
    SplitCounts(entries, k);
    if !entries[k].write.keyed {
      var before := entries[..k];
      k := LastKeyed(before);
      assert before[..k] == entries[..k];
    }
  }

  /** Whether entries without a key overflow the queue at once, or those with one can do so later. */
  predicate Overflows(q: Queue, taken: seq<DeadLetter>, lim: Limits)
  {
    || (Direct(taken) != [] && |q.queue| + |Direct(taken)| > lim.maxQueueSize)
    || (LookupsOf(taken) != [] && |q.queue| + |q.lookups| + |taken| > lim.maxQueueSize)
  }

  lemma DirectOverflowLoses(s: State, a: Action, lim: Limits) returns (k: nat)
    requires a.RecoverAct? && Direct(TakenBy(s, a)) != [] && |s.q.queue| + |Direct(TakenBy(s, a))| > lim.maxQueueSize
    ensures Loses(s, a, k, [], lim)
  {
    k := LastDirect(TakenBy(s, a));
    assert Next(s, a, lim) == AllSubmitted(WithoutTaken(s, a), lim, TakenBy(s, a));
    EntryLostIff(WithoutTaken(s, a), TakenBy(s, a), k, [], lim);
  }

  lemma KeyedOverflow(s: State, a: Action, lim: Limits) returns (k: nat)
    requires a.RecoverAct? && LookupsOf(TakenBy(s, a)) != []
    requires |s.q.queue| + |s.q.lookups| + |TakenBy(s, a)| > lim.maxQueueSize
    requires |s.q.queue| + |Direct(TakenBy(s, a))| <= lim.maxQueueSize || Direct(TakenBy(s, a)) == []
    ensures k < |TakenBy(s, a)| && TakenBy(s, a)[k].write.keyed
    ensures var q := Next(s, a, lim).q; Overflow(q, lim) > 0 && PlaceOf(s, TakenBy(s, a), k) == |q.lookups| - 1
  {
    k := LastKeyed(TakenBy(s, a));
    SubmittedFill(WithoutTaken(s, a), lim, TakenBy(s, a));
  }

  lemma KeyedLoss(s: State, a: Action, k: nat, run: seq<Action>, lim: Limits)
    requires a.RecoverAct? && k < |TakenBy(s, a)| && TakenBy(s, a)[k].write.keyed
    requires NoneEnter(run) && Possible(Next(s, a, lim), run, lim)
    ensures Loses(s, a, k, run, lim) <==> FateOf(Next(s, a, lim), PlaceOf(s, TakenBy(s, a), k), run, lim).Lost?
  {
    assert Next(s, a, lim) == AllSubmitted(WithoutTaken(s, a), lim, TakenBy(s, a));
    KeyedEntryFate(WithoutTaken(s, a), TakenBy(s, a), k, run, lim);
  }

  lemma KeyedOverflowLoses(s: State, a: Action, lim: Limits) returns (k: nat, run: seq<Action>)
    requires a.RecoverAct? && LookupsOf(TakenBy(s, a)) != []
    requires |s.q.queue| + |s.q.lookups| + |TakenBy(s, a)| > lim.maxQueueSize
    requires |s.q.queue| + |Direct(TakenBy(s, a))| <= lim.maxQueueSize || Direct(TakenBy(s, a)) == []
    ensures Loses(s, a, k, run, lim)
  {
    k := KeyedOverflow(s, a, lim);
    run := LastIsLost(Next(s, a, lim), lim);
    KeyedLoss(s, a, k, run, lim);
  }

  lemma LossNeedsOverflow(s: State, a: Action, k: nat, run: seq<Action>, lim: Limits)
    requires a.RecoverAct? && Loses(s, a, k, run, lim)
    ensures Overflows(s.q, TakenBy(s, a), lim)
  {
    var s', taken, t := WithoutTaken(s, a), TakenBy(s, a), Next(s, a, lim);
    assert t == AllSubmitted(s', lim, taken);
    SplitCounts(taken, k);
    if !taken[k].write.keyed {
      EntryLostIff(s', taken, k, run, lim);
    } else if !Overflows(s.q, taken, lim) {
      SubmittedFill(s', lim, taken);
      EntryWaits(s', taken, k, lim);
      KeyedEntryFate(s', taken, k, run, lim);
      FittingCallIsKept(t, PlaceOf(s', taken, k), run, lim);
    }
  }

  /**
   * When a recovery can lose an entry although no further call enters: exactly if
   * the entries without a key do not all fit, or there are others and the queue
   * cannot hold them all together with the calls already waiting for the cache.
   */
  lemma RecoveryCanLose(s: State, a: Action, lim: Limits)
    requires a.RecoverAct?
    ensures (exists k: nat, run :: Loses(s, a, k, run, lim)) <==> Overflows(s.q, TakenBy(s, a), lim)
    ensures s.q.lookups == [] ==>
      ((exists k: nat, run :: Loses(s, a, k, run, lim)) <==>
        TakenBy(s, a) != [] && |s.q.queue| + |TakenBy(s, a)| > lim.maxQueueSize)
  {
    if Direct(TakenBy(s, a)) != [] && |s.q.queue| + |Direct(TakenBy(s, a))| > lim.maxQueueSize {
      var k := DirectOverflowLoses(s, a, lim);
    } else if Overflows(s.q, TakenBy(s, a), lim) {
      var k, run := KeyedOverflowLoses(s, a, lim);
    }
    if k: nat, run :| Loses(s, a, k, run, lim) {
      LossNeedsOverflow(s, a, k, run, lim);
    }
  }

  /**
   * A full queue of one job and one entry with a key: recovery
   * reports it, the lookup misses, and nothing of it is left.
   */
  lemma KeyedEntryLost(q: Queue, lim: Limits, e: DeadLetter, now: int)
    requires lim.maxQueueSize == 1 && |q.queue| == 1 && q.lookups == [] && q.dlq == [e]
    requires e.write.keyed && e.nextRetryAt <= now
    ensures var (q', recovered) := Recover(q, lim, 1, false, now);
      && recovered == 1 && Direct([e]) == [] && q'.lookups == [Lookup(e.write, 0)] && q'.counts == q.counts
      && LookupDone(q', lim, 0, false) == (q.(dlq := [], counts := q.counts.(dropped := q.counts.dropped + 1)), false)
  {
    assert [e][1..] == [] && Taken([], 0, false, now) == [] && Kept([], 0, false, now) == [];
    assert Taken([e], 1, false, now) == [e] && Kept([e], 1, false, now) == [];
    assert Reversed([e]) == [e];
    var submitted := q.(dlq := [], lookups := [Lookup(e.write, 0)]);
    assert SubmitAll(q.(dlq := []), lim, [e]) == SubmitAll(submitted, lim, []);
    assert submitted.lookups[..0] + submitted.lookups[1..] == [];
  }
}
