/**
 * From what a check found on the ledger to the stored row and the announcement:
 * over any run, which claims it makes, and why it ends without one.
 */
module LedgerOutcomes {
  import opened Prelude
  import opened LedgerClaims
  import opened LedgerRuns

  predicate Finds(a: Action) { a.FoundMatch? || a.FoundOther? }

  /** What the found payment is to the one that is expected; a difference within the tolerance is neither. */
  function KindFound(a: Action): Option<Kind>
    requires Finds(a)
  {
    if a.FoundMatch? then Some(Match)
    else if a.diff < -0.0000001 then Some(Underpaid)
    else if a.diff > 0.0000001 then Some(Overpaid)
    else None
  }

  /** The payment is pending without a transaction, and no other payment carries this one. */
  ghost predicate Free(rows: Table, p: nat, tx: string)
  {
    p in rows && rows[p] == Row(Pending, None) && forall q :: q in rows && q != p ==> rows[q].tx != Some(tx)
  }

  /** What a payment of this kind makes of the row. */
  predicate Records(kind: Kind, tx: string, row: Row)
  {
    row.tx == Some(tx) && row.status == if kind.Underpaid? then Failed else Confirmed
  }

  /** Check c is after this transaction, and has claimed and announced nothing else. */
  ghost predicate Pursues(s: State, c: nat, p: nat, kind: Kind, tx: string)
  {
    && c in s.checks && s.checks[c].payment == p && !s.checks[c].caller.Service?
    && (match s.checks[c].pc
        case Selecting(t) => t == tx && kind.Match?
        case Updating(k, t, _) => t == tx && k == kind
        case Announcing(row) => Records(kind, tx, row)
        case Finished => true
        case _ => false)
    && (forall i :: 0 <= i < |s.claims| && s.claims[i].check == c ==>
          s.claims[i].payment == p && s.claims[i].kind == kind && Records(kind, tx, s.claims[i].row))
    && (forall i :: 0 <= i < |s.notices| && s.notices[i].check == c ==>
          s.notices[i].payment == p && Records(kind, tx, s.notices[i].row))
  }

  lemma PursuesStep(s: State, a: Action, c: nat, p: nat, kind: Kind, tx: string)
    requires Enabled(s, a) && Pursues(s, c, p, kind, tx)
    ensures Pursues(Next(s, a), c, p, kind, tx) && Next(s, a).checks[c].caller == s.checks[c].caller
  {
  }

  lemma {:induction false} StillPursues(s: State, run: seq<Action>, c: nat, p: nat, kind: Kind, tx: string)
    requires Possible(s, run) && Pursues(s, c, p, kind, tx)
    ensures Pursues(After(s, run), c, p, kind, tx) && After(s, run).checks[c].caller == s.checks[c].caller
    decreases |run|
  {
    if run == [] {
    } else {
      PursuesStep(s, run[0], c, p, kind, tx);
      StillPursues(Next(s, run[0]), run[1..], c, p, kind, tx);
    }
  }

  lemma FirstPursues(s: State, a: Action)
    requires Inv(s) && Enabled(s, a) && Finds(a) && KindFound(a).Some?
    ensures Pursues(Next(s, a), a.c, s.checks[a.c].payment, KindFound(a).value, a.tx)
    ensures Next(s, a).checks[a.c].caller == s.checks[a.c].caller
  {
    assert CheckOk(s, a.c);
  }

  /** A difference within the tolerance ends the check, as does a hash that a poller finds malformed. */
  lemma FoundDecides(s: State, a: Action)
    requires Inv(s) && Enabled(s, a) && Finds(a)
    ensures var pc := Next(s, a).checks[a.c].pc;
      && (pc.Finished? <==> KindFound(a).None? || (a.FoundMatch? && s.checks[a.c].caller.Poller? && !a.validHash))
      && (!pc.Finished? ==> pc == if a.FoundMatch? then Selecting(a.tx) else Updating(KindFound(a).value, a.tx, 0))
  {
  }

  /**
   * Whatever a poller or route check claims and announces over any run is what it
   * found: an exact match confirms the payment with that transaction; any other
   * payment fails it exactly if it is too little and confirms it exactly if it is
   * too much.
   */
  lemma FoundIsStored(s: State, a: Action, run: seq<Action>, i: nat)
    requires Inv(s) && Enabled(s, a) && Finds(a) && Possible(Next(s, a), run)
    requires i < |After(Next(s, a), run).claims| && After(Next(s, a), run).claims[i].check == a.c
    ensures var cl := After(Next(s, a), run).claims[i];
      && cl.payment == s.checks[a.c].payment && cl.row.tx == Some(a.tx)
      && (a.FoundMatch? ==> cl.kind.Match? && cl.row.status.Confirmed?)
      && (a.FoundOther? ==>
            && !cl.kind.Match?
            && (cl.row.status.Failed? <==> a.diff < -0.0000001) && (cl.row.status.Confirmed? <==> a.diff > 0.0000001))
  {
    if KindFound(a).Some? {
      FirstPursues(s, a);
      StillPursues(Next(s, a), run, a.c, s.checks[a.c].payment, KindFound(a).value, a.tx);
    } else {
      FoundDecides(s, a);
      assert CheckOk(s, a.c);
      EndedMakesNoClaim(Next(s, a), run, a.c);
      assert false;
    }
  }

  lemma {:induction false} EndedMakesNoClaim(s: State, run: seq<Action>, c: nat)
    requires Possible(s, run) && c in s.checks && s.checks[c].pc.Finished? && Claimless(s, c)
    ensures Claimless(After(s, run), c)
    decreases |run|
  {
    if run == [] {
    } else {
      EndedMakesNoClaim(Next(s, run[0]), run[1..], c);
    }
  }

  // ---- the statement ----------------------------------------------------------------------

  /**
   * At any later time: the statement of the check writes the row exactly if the
   * payment is still unclaimed and the transaction free. An acknowledged one goes
   * on to be announced, unless it is the route's for a wrong amount; one that
   * changed nothing ends the check.
   */
  lemma StatementDecides(s: State, a: Action, run: seq<Action>)
    requires Inv(s) && Enabled(s, a) && Finds(a) && KindFound(a).Some? && Possible(Next(s, a), run)
    requires Enabled(After(Next(s, a), run), RunUpdate(a.c))
    ensures var t, c, p, kind := After(Next(s, a), run), a.c, s.checks[a.c].payment, KindFound(a).value;
      var u, row := Next(t, RunUpdate(c)), Row(if a.FoundMatch? || a.diff > 0.0 then Confirmed else Failed, Some(a.tx));
      if Free(t.rows, p, a.tx) then
        && u.rows == t.rows[p := row] && u.claims == t.claims + [Claim(p, kind, Row(Pending, None), row, c, t.checks[c].caller)]
        && u.checks[c].pc == (if t.checks[c].caller.Route? && a.FoundOther? then Finished else Announcing(row))
        && (Enabled(u, Announce(c)) ==> Next(u, Announce(c)).notices == t.notices + [Notice(p, row, c)])
      else u.rows == t.rows && u.claims == t.claims && u.checks[c].pc.Finished?
  {
    var t, p, kind := After(Next(s, a), run), s.checks[a.c].payment, KindFound(a).value;
    FirstPursues(s, a);
    StillPursues(Next(s, a), run, a.c, p, kind, a.tx);
    NextInv(s, a);
    RunInv(Next(s, a), run);
    StatementRuns(t, a.c, p, kind, a.tx);
  }

  lemma StatementRuns(s: State, c: nat, p: nat, kind: Kind, tx: string)
    requires Inv(s) && Enabled(s, RunUpdate(c)) && Pursues(s, c, p, kind, tx)
    ensures var t, row := Next(s, RunUpdate(c)), Row(if kind.Underpaid? then Failed else Confirmed, Some(tx));
      if Free(s.rows, p, tx) then
        && t.rows == s.rows[p := row] && t.claims == s.claims + [Claim(p, kind, Row(Pending, None), row, c, s.checks[c].caller)]
        && t.checks[c] == s.checks[c].(pc := if s.checks[c].caller.Route? && !kind.Match? then Finished else Announcing(row))
        && t.notices == s.notices
      else t.rows == s.rows && t.claims == s.claims && t.checks[c].pc.Finished?
  {
    GuardMeansUnclaimed(s, c);
  }

  /**
   * The look for another owner ends the check exactly if it
   * finds one; if it fails, the statement decides.
   */
  lemma SelectDecides(s: State, c: nat, selectFailed: bool)
    requires Enabled(s, Select(c, selectFailed))
    ensures var t, tx := Next(s, Select(c, selectFailed)), s.checks[c].pc.tx;
      && t.rows == s.rows && t.claims == s.claims
      && t.checks[c].pc ==
           if !selectFailed && exists q :: q in s.rows && q != s.checks[c].payment && s.rows[q].tx == Some(tx) then Finished
           else Updating(Match, tx, 0)
  {
  }

  /** An error hides whether the statement ran; if it did, it decided as always. */
  lemma ErrorDecides(s: State, c: nat, applied: bool, transient: bool)
    requires Inv(s) && Enabled(s, UpdateError(c, applied, transient))
    ensures var t, check := Next(s, UpdateError(c, applied, transient)), s.checks[c];
      && (t.rows != s.rows <==> applied && Free(s.rows, check.payment, check.pc.tx))
      && (t.rows != s.rows ==> t.rows == Next(s, RunUpdate(c)).rows && t.claims == Next(s, RunUpdate(c)).claims)
      && !t.checks[c].pc.Announcing?
  {
    GuardMeansUnclaimed(s, c);
  }

  // ---- why a check ends -------------------------------------------------------------------

  /** How often the check's statement came back with an error. */
  function Errors(run: seq<Action>, c: nat): nat
  {
    if run == [] then 0 else (if run[0].UpdateError? && run[0].c == c then 1 else 0) + Errors(run[1..], c)
  }

  /** How often it was sent. */
  function Tries(run: seq<Action>, c: nat): nat
  {
    if run == [] then 0
    else (if (run[0].UpdateError? || run[0].RunUpdate?) && run[0].c == c then 1 else 0) + Tries(run[1..], c)
  }

  /** A step that ends the check without a claim, after so many errors. */
  ghost predicate Ends(s: State, a: Action, c: nat, p: nat, tx: string, caller: Caller, errors: nat)
  {
    || a == Crash(c)
    || (a == Select(c, false) && exists q :: q in s.rows && q != p && s.rows[q].tx == Some(tx))
    || (a == RunUpdate(c) && !Free(s.rows, p, tx))
    || (a.UpdateError? && a.c == c && !(caller.Poller? && a.transient && errors < 2))
  }

  ghost predicate EndsAt(s: State, run: seq<Action>, i: nat, c: nat, p: nat, tx: string, caller: Caller, errors: nat)
  {
    i < |run| && Possible(s, run[..i]) && Ends(After(s, run[..i]), run[i], c, p, tx, caller, errors + Errors(run[..i], c))
  }

  /** The check is about to claim, after so many errors. */
  ghost predicate Trying(s: State, c: nat, p: nat, kind: Kind, tx: string, caller: Caller, errors: nat)
  {
    && Pursues(s, c, p, kind, tx) && s.checks[c].caller == caller
    && (s.checks[c].pc.Selecting? || s.checks[c].pc.Updating?)
    && errors == (if s.checks[c].pc.Updating? then s.checks[c].pc.attempt else 0)
    && errors <= 2 && (!caller.Poller? ==> errors == 0)
  }

  predicate ErrorOf(a: Action, c: nat) { a.UpdateError? && a.c == c }

  /** A step leaves the check trying, claims for it, or ends it for a reason. */
  lemma TryingStep(s: State, a: Action, c: nat, p: nat, kind: Kind, tx: string, caller: Caller, errors: nat)
    requires Inv(s) && Enabled(s, a) && Trying(s, c, p, kind, tx, caller, errors)
    ensures var t := Next(s, a);
      || Trying(t, c, p, kind, tx, caller, if ErrorOf(a, c) then errors + 1 else errors)
      || !Claimless(t, c)
      || Ends(s, a, c, p, tx, caller, errors)
  {
    PursuesStep(s, a, c, p, kind, tx);
    if a.RunUpdate? && a.c == c && Free(s.rows, p, tx) {
      StatementClaims(s, c, p, kind, tx);
    }
  }

  lemma StatementClaims(s: State, c: nat, p: nat, kind: Kind, tx: string)
    requires Inv(s) && Enabled(s, RunUpdate(c)) && Pursues(s, c, p, kind, tx) && Free(s.rows, p, tx)
    ensures !Claimless(Next(s, RunUpdate(c)), c)
  {
    GuardMeansUnclaimed(s, c);
    var t := Next(s, RunUpdate(c));
    assert t.claims[|s.claims|].check == c;
  }

  lemma {:induction false} ClaimStays(s: State, run: seq<Action>, c: nat)
    requires Possible(s, run) && !Claimless(s, c)
    ensures !Claimless(After(s, run), c)
    decreases |run|
  {
    if run == [] {
    } else {
      var i :| 0 <= i < |s.claims| && s.claims[i].check == c;
      assert Next(s, run[0]).claims[i] == s.claims[i];
      ClaimStays(Next(s, run[0]), run[1..], c);
    }
  }

  lemma {:induction false} EndIn(s: State, run: seq<Action>, c: nat, p: nat, kind: Kind, tx: string, caller: Caller, errors: nat)
    returns (i: nat)
    requires Inv(s) && Possible(s, run) && Trying(s, c, p, kind, tx, caller, errors)
    requires c in After(s, run).checks && After(s, run).checks[c].pc.Finished? && Claimless(After(s, run), c)
    ensures EndsAt(s, run, i, c, p, tx, caller, errors)
    decreases |run|
  {
    var a, t := run[0], Next(s, run[0]);
    NextInv(s, a);
    TryingStep(s, a, c, p, kind, tx, caller, errors);
    assert run[..0] == [];
    if Ends(s, a, c, p, tx, caller, errors) {
      i := 0;
    } else if !Claimless(t, c) {
      ClaimStays(t, run[1..], c);
      assert false;
    } else {
      i := EndIn(t, run[1..], c, p, kind, tx, caller, if ErrorOf(a, c) then errors + 1 else errors);
      assert run[..i + 1][1..] == run[1..][..i] && run[..i + 1][0] == a && run[i + 1] == run[1..][i];
      i := i + 1;
    }
  }

  /**
   * A check that went after what it found ends without a claim only for a reason:
   * it crashed, another payment carried the transaction, the payment was no
   * longer free when its statement ran, or the statement came back with an error
   * that is not transient, or for the third time, or to the route.
   */
  lemma EndHasReason(s: State, a: Action, run: seq<Action>) returns (i: nat)
    requires Inv(s) && Enabled(s, a) && Finds(a) && !Next(s, a).checks[a.c].pc.Finished? && Possible(Next(s, a), run)
    requires a.c in After(Next(s, a), run).checks
    requires After(Next(s, a), run).checks[a.c].pc.Finished? && Claimless(After(Next(s, a), run), a.c)
    ensures EndsAt(Next(s, a), run, i, a.c, s.checks[a.c].payment, a.tx, s.checks[a.c].caller, 0)
  {
    FoundDecides(s, a);
    FirstPursues(s, a);
    NextInv(s, a);
    i := EndIn(Next(s, a), run, a.c, s.checks[a.c].payment, KindFound(a).value, a.tx, s.checks[a.c].caller, 0);
  }

  /** The check sends its statement, or may do so, having seen so many errors. */
  predicate CountsErrors(check: Check, errors: nat)
  {
    && !check.pc.Looking? && !check.caller.Service?
    && (check.pc.Updating? ==> errors == check.pc.attempt <= if check.caller.Poller? then 2 else 0)
    && (check.pc.Selecting? ==> errors == 0)
  }

  function Left(check: Check, errors: nat): int
  {
    if check.pc.Selecting? || check.pc.Updating? then (if check.caller.Poller? then 3 - errors else 1) else 0
  }

  lemma TryCounts(s: State, a: Action, c: nat, errors: nat)
    requires Enabled(s, a) && c in s.checks && CountsErrors(s.checks[c], errors)
    ensures var t, errors' := Next(s, a), if ErrorOf(a, c) then errors + 1 else errors;
      && c in t.checks && CountsErrors(t.checks[c], errors')
      && Left(t.checks[c], errors') + (if (a.UpdateError? || a.RunUpdate?) && a.c == c then 1 else 0) <= Left(s.checks[c], errors)
  {
  }

  lemma {:induction false} TriesLeft(s: State, run: seq<Action>, c: nat, errors: nat)
    requires Possible(s, run) && c in s.checks && CountsErrors(s.checks[c], errors)
    ensures Tries(run, c) <= Left(s.checks[c], errors)
    decreases |run|
  {
    if run != [] {
      TryCounts(s, run[0], c, errors);
      TriesLeft(Next(s, run[0]), run[1..], c, if ErrorOf(run[0], c) then errors + 1 else errors);
    }
  }

  /** A poller sends its statement three times at most, the route once. */
  lemma TriesAreBounded(s: State, a: Action, run: seq<Action>)
    requires Inv(s) && Enabled(s, a) && Finds(a) && Possible(Next(s, a), run)
    ensures Tries(run, a.c) <= if s.checks[a.c].caller.Poller? then 3 else 1
  {
    assert CheckOk(s, a.c);
    TriesLeft(Next(s, a), run, a.c, 0);
  }

  // ---- the route's lookup and the service -------------------------------------------------

  /** The route looks for a transaction exactly if the payment exists and is not confirmed. */
  lemma RouteLooks(s: State, c: nat, p: nat)
    requires Enabled(s, BeginRoute(c, p))
    ensures var check := Next(s, BeginRoute(c, p)).checks[c];
      && check.payment == p && check.caller.Route?
      && check.pc == if p in s.rows && s.rows[p].status != Confirmed then Looking else Finished
  {
  }

  ghost predicate Serves(s: State, c: nat, p: nat, seen: Status, tx: string)
  {
    c in s.checks && s.checks[c].payment == p && s.checks[c].caller.Service? && s.checks[c].pc == ServiceUpdating(seen, tx)
  }

  predicate NotOf(run: seq<Action>, c: nat)
  {
    forall i :: 0 <= i < |run| ==> !(run[i].ServiceUpdate? && run[i].c == c) && run[i] != Crash(c)
  }

  lemma {:induction false} StillServes(s: State, run: seq<Action>, c: nat, p: nat, seen: Status, tx: string)
    requires Possible(s, run) && NotOf(run, c) && Serves(s, c, p, seen, tx)
    ensures Serves(After(s, run), c, p, seen, tx)
    decreases |run|
  {
    if run == [] {
    } else {
      StillServes(Next(s, run[0]), run[1..], c, p, seen, tx);
    }
  }

  /**
   * However long verifyPayment takes from its read to its update, the update
   * confirms the payment with the transaction it found exactly if the status is
   * still the one it read and no other payment carries the transaction.
   */
  lemma ServiceConfirms(s: State, c: nat, p: nat, tx: string, run: seq<Action>, acked: bool)
    requires Inv(s) && Enabled(s, BeginService(c, p, tx)) && Possible(Next(s, BeginService(c, p, tx)), run) && NotOf(run, c)
    ensures var t := After(Next(s, BeginService(c, p, tx)), run);
      && Enabled(t, ServiceUpdate(c, acked))
      && var u, row := Next(t, ServiceUpdate(c, acked)), Row(Confirmed, Some(tx));
         if p in t.rows && t.rows[p].status == s.rows[p].status && forall q :: q in t.rows && q != p ==> t.rows[q].tx != Some(tx) then
           u.rows == t.rows[p := row] && u.checks[c].pc == if acked then Announcing(row) else Finished
         else u.rows == t.rows && u.checks[c].pc.Finished?
  {
    StillServes(Next(s, BeginService(c, p, tx)), run, c, p, s.rows[p].status, tx);
  }
}
