/**
 * Any number of checks by pollers, the route and the service,
 * interleaved, with errors, lost acknowledgements and crashes.
 */
module LedgerRuns {
  import opened Prelude
  import opened LedgerClaims

  /** An update that changed a row, for what kind of payment, the row it replaced, and who made it. */
  datatype Claim = Claim(payment: nat, kind: Kind, before: Row, row: Row, check: nat, caller: Caller)

  datatype Notice = Notice(payment: nat, row: Row, check: nat)

  datatype State = State(rows: Table, checks: map<nat, Check>, claims: seq<Claim>, notices: seq<Notice>)

  datatype Action =
    | NewPayment(payment: nat)
    | Begin(c: nat, payment: nat)
    | BeginRoute(c: nat, payment: nat)
    | BeginService(c: nat, payment: nat, tx: string)      // reads the row, finds a matching transaction
    | FoundMatch(c: nat, tx: string, validHash: bool)
    | FoundOther(c: nat, tx: string, diff: real)
    | FoundNothing(c: nat)
    | Select(c: nat, selectFailed: bool)
    | RunUpdate(c: nat)
    | UpdateError(c: nat, applied: bool, transient: bool)
    | ServiceUpdate(c: nat, acked: bool)
    | Announce(c: nat)
    | Crash(c: nat)

  /** Nobody is checking; the index holds, and payments are stored pending without a transaction. */
  ghost predicate Init(s: State)
  {
    s.checks == map[] && s.claims == [] && s.notices == [] && UniqueTx(s.rows) && PendingIsFree(s.rows)
  }

  predicate Enabled(s: State, a: Action)
  {
    match a
    case NewPayment(payment) => payment !in s.rows
    case Begin(c, _) => c !in s.checks
    case BeginRoute(c, _) => c !in s.checks
    case BeginService(c, payment, _) => c !in s.checks && payment in s.rows && !s.rows[payment].status.Confirmed?
    case FoundMatch(c, _, _) => c in s.checks && s.checks[c].pc.Looking?
    case FoundOther(c, _, _) => c in s.checks && s.checks[c].pc.Looking?
    case FoundNothing(c) => c in s.checks && s.checks[c].pc.Looking?
    case Select(c, _) => c in s.checks && s.checks[c].pc.Selecting?
    case RunUpdate(c) => c in s.checks && s.checks[c].pc.Updating?
    case UpdateError(c, _, _) => c in s.checks && s.checks[c].pc.Updating?
    case ServiceUpdate(c, _) => c in s.checks && s.checks[c].pc.ServiceUpdating?
    case Announce(c) => c in s.checks && s.checks[c].pc.Announcing?
    case Crash(c) => c in s.checks && !s.checks[c].pc.Finished?
  }

  /** A statement of check c ran: the row it wrote, if it wrote one, is recorded. */
  function Ran(s: State, c: nat, rows: Table, check: Check, kind: Kind): State
  {
    var p := check.payment;
    var s' := s.(rows := rows, checks := s.checks[c := check]);
    if p in s.rows && p in rows && rows[p] != s.rows[p] then
      s'.(claims := s.claims + [Claim(p, kind, s.rows[p], rows[p], c, check.caller)])
    else s'
  }

  function Next(s: State, a: Action): State
    requires Enabled(s, a)
  {
    match a
    case NewPayment(payment) => s.(rows := s.rows[payment := Row(Pending, None)])
    case Begin(c, payment) => s.(checks := s.checks[c := NewCheck(payment, Poller)])
    case BeginRoute(c, payment) => s.(checks := s.checks[c := NewRouteCall(s.rows, payment)])
    case BeginService(c, payment, tx) =>
      s.(checks := s.checks[c := NewCheck(payment, Service).(pc := ServiceUpdating(s.rows[payment].status, tx))])
    case FoundMatch(c, tx, validHash) => s.(checks := s.checks[c := MatchStep(s.checks[c], tx, validHash)])
    case FoundOther(c, tx, diff) => s.(checks := s.checks[c := OtherPaymentStep(s.checks[c], tx, diff)])
    case FoundNothing(c) => s.(checks := s.checks[c := s.checks[c].(pc := Finished)])
    case Select(c, selectFailed) => s.(checks := s.checks[c := SelectStep(s.rows, s.checks[c], selectFailed)])
    case RunUpdate(c) =>
      var (rows, check) := UpdateStep(s.rows, s.checks[c]);
      Ran(s, c, rows, check, s.checks[c].pc.kind)
    case UpdateError(c, applied, transient) =>
      var (rows, check) := ErrorStep(s.rows, s.checks[c], applied, transient);
      Ran(s, c, rows, check, s.checks[c].pc.kind)
    case ServiceUpdate(c, acked) =>
      var (rows, check) := ServiceStep(s.rows, s.checks[c], acked);
      Ran(s, c, rows, check, Match)
    case Announce(c) =>
      s.(checks := s.checks[c := s.checks[c].(pc := Finished)],
         notices := s.notices + [Notice(s.checks[c].payment, s.checks[c].pc.row, c)])
    case Crash(c) => s.(checks := s.checks[c := s.checks[c].(pc := Finished, crashed := true)])
  }

  // ---- the invariant --------------------------------------------------------------

  ghost predicate UniqueTx(rows: Table)
  {
    forall p, q :: p in rows && q in rows && p != q && rows[p].tx.Some? ==> rows[p].tx != rows[q].tx
  }

  ghost predicate PendingIsFree(rows: Table) { forall p :: p in rows && rows[p].status.Pending? ==> rows[p].tx == None }

  ghost predicate CheckOk(s: State, c: nat)
    requires c in s.checks
  {
    var check := s.checks[c];
    && (check.pc.Announcing? ==> Claims(s, c, check.payment, check.pc.row))
    && (check.pc.ServiceUpdating? ==> check.caller.Service? && !check.pc.seen.Confirmed?)
    && (check.pc.Looking? || check.pc.Selecting? || check.pc.Updating? ==> !check.caller.Service?)
    && (check.pc.Looking? || check.pc.Selecting? || check.pc.ServiceUpdating? ==> Claimless(s, c))
    && (check.pc.Updating? && !check.ackLost ==> Claimless(s, c))
    && (!check.pc.Finished? ==> Unannounced(s, c))
  }

  /** The check made a claim that wrote this row and is to be announced. */
  ghost predicate Claims(s: State, c: nat, payment: nat, row: Row)
  {
    exists i :: 0 <= i < |s.claims| && IsClaim(s.claims[i], c, payment, row)
  }

  predicate IsClaim(cl: Claim, c: nat, payment: nat, row: Row)
  {
    cl.check == c && cl.payment == payment && cl.row == row && Announces(cl.caller, cl.kind)
  }

  ghost predicate Claimless(s: State, c: nat) { forall i :: 0 <= i < |s.claims| ==> s.claims[i].check != c }

  ghost predicate Unannounced(s: State, c: nat) { forall i :: 0 <= i < |s.notices| ==> s.notices[i].check != c }

  /** What is known of a claim: who made it and what became of it. */
  ghost predicate ClaimOk(s: State, i: nat)
    requires i < |s.claims|
  {
    var cl := s.claims[i];
    && cl.check in s.checks && s.checks[cl.check].payment == cl.payment && cl.payment in s.rows
    && cl.caller == s.checks[cl.check].caller
    && cl.row.tx.Some? && cl.row == Claimed(cl.kind, cl.row.tx.value)
    && (cl.caller.Service? ==> cl.kind.Match? && !cl.before.status.Confirmed?)
    && (!cl.caller.Service? ==> cl.before == Row(Pending, None))
    && (Announces(cl.caller, cl.kind) ==>
          Announced(s, cl) || s.checks[cl.check].pc.Announcing? || s.checks[cl.check].ackLost || s.checks[cl.check].crashed)
    && !s.rows[cl.payment].status.Pending?
  }

  ghost predicate Announced(s: State, cl: Claim)
  {
    exists j :: 0 <= j < |s.notices| && s.notices[j] == Notice(cl.payment, cl.row, cl.check)
  }

  /** Successive claims of one payment: the later one found what the earlier one wrote. */
  ghost predicate Chained(s: State, i: nat, j: nat)
    requires i < j < |s.claims|
  {
    s.claims[i].check != s.claims[j].check
    && (s.claims[i].payment == s.claims[j].payment ==>
          && s.claims[i].row.status.Failed? && s.claims[j].before.status.Failed?
          && s.claims[j].caller.Service?)
  }

  ghost predicate NoticeOk(s: State, j: nat)
    requires j < |s.notices|
  {
    Claims(s, s.notices[j].check, s.notices[j].payment, s.notices[j].row)
  }

  /** The row of a payment is what its latest claim wrote. */
  ghost predicate RowIsLatest(s: State, i: nat)
    requires i < |s.claims|
  {
    (forall j :: i < j < |s.claims| ==> s.claims[j].payment != s.claims[i].payment) ==>
      s.claims[i].payment in s.rows && s.rows[s.claims[i].payment] == s.claims[i].row
  }

  ghost predicate Inv(s: State)
  {
    && UniqueTx(s.rows) && PendingIsFree(s.rows)
    && (forall c :: c in s.checks ==> CheckOk(s, c))
    && (forall i :: 0 <= i < |s.claims| ==> ClaimOk(s, i) && RowIsLatest(s, i))
    && (forall i, j :: 0 <= i < j < |s.claims| ==> Chained(s, i, j))
    && (forall j :: 0 <= j < |s.notices| ==> NoticeOk(s, j))
    && (forall i, j :: 0 <= i < j < |s.notices| ==> s.notices[i].check != s.notices[j].check)
  }

  lemma InitInv(s: State)
    requires Init(s)
    ensures Inv(s)
  {
  }

  /** A step of check c that runs no statement and announces nothing. */
  lemma LocalInv(s: State, c: nat, check: Check)
    requires Inv(s)
    requires c in s.checks ==> check.payment == s.checks[c].payment && check.caller == s.checks[c].caller
    requires c in s.checks ==> (s.checks[c].ackLost ==> check.ackLost) && (s.checks[c].pc.Announcing? ==> check.crashed)
    requires c !in s.checks || !s.checks[c].pc.Finished?
    requires CheckOk(s.(checks := s.checks[c := check]), c)
    requires c in s.checks && s.checks[c].crashed ==> check.crashed
    ensures Inv(s.(checks := s.checks[c := check]))
  {
    var s' := s.(checks := s.checks[c := check]);
    forall d | d in s'.checks
      ensures CheckOk(s', d)
    {
      if d != c { assert CheckOk(s, d); }
    }
    forall i | 0 <= i < |s'.claims|
      ensures ClaimOk(s', i) && RowIsLatest(s', i)
    {
      assert ClaimOk(s, i) && RowIsLatest(s, i);
      if Announced(s, s.claims[i]) { assert Announced(s', s.claims[i]); }
    }
    forall i, j | 0 <= i < j < |s'.claims|
      ensures Chained(s', i, j)
    {
      assert Chained(s, i, j) && ClaimOk(s, j);
    }
    forall j | 0 <= j < |s'.notices|
      ensures NoticeOk(s', j)
    {
      assert NoticeOk(s, j);
    }
  }

  /** The statement of check c that changed the row of its payment. */
  ghost predicate Claiming(s: State, c: nat, row: Row)
  {
    && c in s.checks && Claimless(s, c)
    && var p := s.checks[c].payment;
    && p in s.rows && row.tx.Some? && !row.status.Pending? && !Taken(s.rows, p, row.tx.value) && row != s.rows[p]
    && if s.checks[c].caller.Service? then row.status.Confirmed? && !s.rows[p].status.Confirmed? else Unclaimed(s.rows, p)
  }

  lemma LatestClaim(s: State, i: nat, p: nat) returns (k: nat)
    requires i < |s.claims| && s.claims[i].payment == p
    ensures i <= k < |s.claims| && s.claims[k].payment == p
    ensures forall j :: k < j < |s.claims| ==> s.claims[j].payment != p
    decreases |s.claims| - i
  {
    if j :| i < j < |s.claims| && s.claims[j].payment == p {
      k := LatestClaim(s, j, p);
    } else {
      k := i;
    }
  }

  /** A payment claimed before was failed by that claim, if anyone can claim it again. */
  lemma ClaimedBefore(s: State, c: nat, row: Row, i: nat)
    requires Inv(s) && Claiming(s, c, row) && i < |s.claims| && s.claims[i].payment == s.checks[c].payment
    ensures s.checks[c].caller.Service? && s.claims[i].row.status.Failed? && s.rows[s.checks[c].payment].status.Failed?
  {
    assert ClaimOk(s, i);
    var k := LatestClaim(s, i, s.checks[c].payment);
    assert RowIsLatest(s, k);
    if i < k {
      assert Chained(s, i, k);
    }
  }

  lemma RowsStayUnique(rows: Table, p: nat, row: Row)
    requires UniqueTx(rows) && PendingIsFree(rows) && p in rows && row.tx.Some? && !Taken(rows, p, row.tx.value) && !row.status.Pending?
    ensures UniqueTx(rows[p := row]) && PendingIsFree(rows[p := row])
  {
  }

  lemma ClaimInv(s: State, c: nat, row: Row, check: Check, kind: Kind)
    requires Inv(s) && Claiming(s, c, row) && row == Claimed(kind, row.tx.value)
    requires s.checks[c].caller.Service? ==> kind.Match?
    requires var p := s.checks[c].payment; check.payment == p && check.caller == s.checks[c].caller
    requires Announces(check.caller, kind) ==> check.pc.Announcing? || check.ackLost
    requires s.checks[c].ackLost ==> check.ackLost
    requires s.checks[c].crashed ==> check.crashed
    requires var s' := Ran(s, c, s.rows[check.payment := row], check, kind); CheckOk(s', c)
    ensures Inv(Ran(s, c, s.rows[check.payment := row], check, kind))
  {
    var p, n := check.payment, |s.claims|;
    var s' := Ran(s, c, s.rows[p := row], check, kind);
    var cl := Claim(p, kind, s.rows[p], row, c, check.caller);
    assert s'.claims == s.claims + [cl];
    RowsStayUnique(s.rows, p, row);
    forall d | d in s'.checks
      ensures CheckOk(s', d)
    {
      if d != c {
        assert CheckOk(s, d);
        if s.checks[d].pc.Announcing? {
          var i :| 0 <= i < n && IsClaim(s.claims[i], d, s.checks[d].payment, s.checks[d].pc.row);
          assert s'.claims[i] == s.claims[i];
        }
      }
    }
    forall i | 0 <= i < n + 1
      ensures ClaimOk(s', i)
    {
      if i < n {
        assert ClaimOk(s, i) && s'.claims[i] == s.claims[i] && s.claims[i].check != c;
        if Announced(s, s.claims[i]) { assert Announced(s', s'.claims[i]); }
      }
    }
    forall i | 0 <= i < n + 1
      ensures RowIsLatest(s', i)
    {
      if i < n {
        assert RowIsLatest(s, i) && ClaimOk(s, i) && s'.claims[i] == s.claims[i];
        if s.claims[i].payment == p {
          assert s'.claims[n].payment == p;
        } else if forall j :: i < j < n + 1 ==> s'.claims[j].payment != s'.claims[i].payment {
          assert forall j :: i < j < n ==> s.claims[j] == s'.claims[j];
        }
      }
    }
    forall i, j | 0 <= i < j < n + 1
      ensures Chained(s', i, j)
    {
      if j < n {
        assert Chained(s, i, j);
      } else {
        if s.claims[i].payment == p { ClaimedBefore(s, c, row, i); }
      }
    }
    forall j | 0 <= j < |s'.notices|
      ensures NoticeOk(s', j)
    {
      assert NoticeOk(s, j);
      var nt := s.notices[j];
      var i :| 0 <= i < n && IsClaim(s.claims[i], nt.check, nt.payment, nt.row);
      assert s'.claims[i] == s.claims[i];
    }
  }

  /** Under the invariant all guards of pollers and the route say the same. */
  lemma GuardMeansUnclaimed(s: State, c: nat)
    requires Inv(s) && c in s.checks && s.checks[c].pc.Updating?
    ensures Guard(s.rows, s.checks[c]) <==> Unclaimed(s.rows, s.checks[c].payment)
  {
  }

  /** An update of a poller or the route, acknowledged or not. */
  lemma StatementInv(s: State, c: nat, check: Check, ran: bool)
    requires Inv(s) && c in s.checks && s.checks[c].pc.Updating?
    requires var (rows, result) := Update(s.rows, s.checks[c].payment, Guard(s.rows, s.checks[c]), Claimed(s.checks[c].pc.kind, s.checks[c].pc.tx));
      var updated := ran && result.Updated?;
      && check == s.checks[c].(pc := check.pc, ackLost := check.ackLost)
      && (s.checks[c].ackLost ==> check.ackLost)
      && (check.pc.Finished? || (check.pc.Updating? && (updated ==> check.ackLost))
          || (updated && check.pc == Announcing(Claimed(s.checks[c].pc.kind, s.checks[c].pc.tx)) && Announces(check.caller, s.checks[c].pc.kind)))
      && (updated && Announces(check.caller, s.checks[c].pc.kind) ==> check.pc.Announcing? || check.ackLost)
    ensures var rows := Update(s.rows, s.checks[c].payment, Guard(s.rows, s.checks[c]), Claimed(s.checks[c].pc.kind, s.checks[c].pc.tx)).0;
      Inv(Ran(s, c, if ran then rows else s.rows, check, s.checks[c].pc.kind))
  {
    var kind, tx := s.checks[c].pc.kind, s.checks[c].pc.tx;
    var (rows, result) := Update(s.rows, check.payment, Guard(s.rows, s.checks[c]), Claimed(kind, tx));
    assert CheckOk(s, c);
    AttemptFindsClaim(s, c);
    GuardMeansUnclaimed(s, c);
    if ran && result.Updated? {
      if Announces(check.caller, kind) {
        NewClaimIsRecorded(s, c, rows, check, kind);
      }
      ClaimInv(s, c, Claimed(kind, tx), check, kind);
    } else {
      LocalInv(s, c, check);
    }
  }

  /** A check that lost an acknowledgement finds its payment claimed. */
  lemma AttemptFindsClaim(s: State, c: nat)
    requires Inv(s) && c in s.checks
    ensures Claimless(s, c) || (s.checks[c].payment in s.rows && !s.rows[s.checks[c].payment].status.Pending?)
  {
    if i :| 0 <= i < |s.claims| && s.claims[i].check == c {
      assert ClaimOk(s, i);
    }
  }

  lemma NewClaimIsRecorded(s: State, c: nat, rows: Table, check: Check, kind: Kind)
    requires c in s.checks && check.payment in s.rows && check.payment in rows && rows[check.payment] != s.rows[check.payment]
    requires Announces(check.caller, kind)
    ensures Claims(Ran(s, c, rows, check, kind), c, check.payment, rows[check.payment])
  {
    var s' := Ran(s, c, rows, check, kind);
    assert IsClaim(s'.claims[|s.claims|], c, check.payment, rows[check.payment]);
  }

  lemma ServiceInv(s: State, a: Action)
    requires Inv(s) && Enabled(s, a) && a.ServiceUpdate?
    ensures Inv(Next(s, a))
  {
    var check := s.checks[a.c];
    var (rows, check') := ServiceStep(s.rows, check, a.acked);
    assert CheckOk(s, a.c);
    if Update(s.rows, check.payment, HasStatus(s.rows, check.payment, check.pc.seen), Claimed(Match, check.pc.tx)).1.Updated? {
      NewClaimIsRecorded(s, a.c, rows, check', Match);
      ClaimInv(s, a.c, Claimed(Match, check.pc.tx), check', Match);
    } else {
      LocalInv(s, a.c, check');
    }
  }

  lemma AnnounceInv(s: State, a: Action)
    requires Inv(s) && Enabled(s, a) && a.Announce?
    ensures Inv(Next(s, a))
  {
    var check, n := s.checks[a.c], |s.notices|;
    var nt := Notice(check.payment, check.pc.row, a.c);
    var s' := Next(s, a);
    assert CheckOk(s, a.c);
    assert s'.notices[n] == nt;
    forall d | d in s'.checks
      ensures CheckOk(s', d)
    {
      assert CheckOk(s, d);
    }
    forall i | 0 <= i < |s'.claims|
      ensures ClaimOk(s', i) && RowIsLatest(s', i)
    {
      assert ClaimOk(s, i) && RowIsLatest(s, i);
      if Announced(s, s.claims[i]) {
        var j :| 0 <= j < n && s.notices[j] == Notice(s.claims[i].payment, s.claims[i].row, s.claims[i].check);
        assert s'.notices[j] == s.notices[j];
      } else if s.claims[i].check == a.c {
        OneClaimPerCheck(s, a.c, i);
        assert s'.notices[n] == Notice(s.claims[i].payment, s.claims[i].row, s.claims[i].check);
      }
    }
    forall i, j | 0 <= i < j < |s'.claims|
      ensures Chained(s', i, j)
    {
      assert Chained(s, i, j);
    }
    forall j | 0 <= j < n + 1
      ensures NoticeOk(s', j)
    {
      if j < n { assert NoticeOk(s, j); }
    }
  }

  lemma DistinctCheckers(s: State, i: nat, j: nat)
    requires Inv(s) && i < j < |s.claims|
    ensures s.claims[i].check != s.claims[j].check
  {
    assert Chained(s, i, j);
  }

  /** The claim a check announces is its only one. */
  lemma OneClaimPerCheck(s: State, c: nat, i: nat)
    requires Inv(s) && c in s.checks && s.checks[c].pc.Announcing? && i < |s.claims| && s.claims[i].check == c
    ensures s.claims[i].payment == s.checks[c].payment && s.claims[i].row == s.checks[c].pc.row
  {
    assert CheckOk(s, c);
    var k :| 0 <= k < |s.claims| && IsClaim(s.claims[k], c, s.checks[c].payment, s.checks[c].pc.row);
    if i < k {
      DistinctCheckers(s, i, k);
    } else if k < i {
      DistinctCheckers(s, k, i);
    }
  }

  lemma NewPaymentInv(s: State, p: nat)
    requires Inv(s) && p !in s.rows
    ensures Inv(Next(s, NewPayment(p)))
  {
    var s' := Next(s, NewPayment(p));
    forall d | d in s'.checks ensures CheckOk(s', d) { assert CheckOk(s, d); }
    forall i | 0 <= i < |s'.claims|
      ensures ClaimOk(s', i) && RowIsLatest(s', i)
    {
      assert ClaimOk(s, i) && RowIsLatest(s, i);
      if Announced(s, s.claims[i]) { assert Announced(s', s.claims[i]); }
    }
    forall i, j | 0 <= i < j < |s'.claims| ensures Chained(s', i, j) { assert Chained(s, i, j); }
    forall j | 0 <= j < |s'.notices| ensures NoticeOk(s', j) { assert NoticeOk(s, j); }
  }

  lemma BeginInv(s: State, a: Action)
    requires Inv(s) && Enabled(s, a) && (a.Begin? || a.BeginRoute? || a.BeginService?)
    ensures Inv(Next(s, a))
  {
    forall i | 0 <= i < |s.claims| ensures s.claims[i].check != a.c { assert ClaimOk(s, i); }
    forall j | 0 <= j < |s.notices|
      ensures s.notices[j].check != a.c
    {
      assert NoticeOk(s, j);
      var i :| 0 <= i < |s.claims| && IsClaim(s.claims[i], s.notices[j].check, s.notices[j].payment, s.notices[j].row);
    }
    LocalInv(s, a.c, Next(s, a).checks[a.c]);
  }

  /** Every step keeps the invariant. */
  lemma NextInv(s: State, a: Action)
    requires Inv(s) && Enabled(s, a)
    ensures Inv(Next(s, a))
  {
    match a
    case NewPayment(p) => NewPaymentInv(s, p);
    case Begin(_, _) => BeginInv(s, a);
    case BeginRoute(_, _) => BeginInv(s, a);
    case BeginService(_, _, _) => BeginInv(s, a);
    case RunUpdate(c) => StatementInv(s, c, UpdateStep(s.rows, s.checks[c]).1, true);
    case UpdateError(c, applied, transient) => StatementInv(s, c, ErrorStep(s.rows, s.checks[c], applied, transient).1, applied);
    case ServiceUpdate(_, _) => ServiceInv(s, a);
    case Announce(_) => AnnounceInv(s, a);
    case _ =>
      assert CheckOk(s, a.c);
      LocalInv(s, a.c, Next(s, a).checks[a.c]);
  }

  // ---- runs -----------------------------------------------------------------------

  ghost predicate Possible(s: State, run: seq<Action>)
    decreases |run|
  {
    run == [] || (Enabled(s, run[0]) && Possible(Next(s, run[0]), run[1..]))
  }

  ghost function After(s: State, run: seq<Action>): State
    requires Possible(s, run)
    decreases |run|
  {
    if run == [] then s else After(Next(s, run[0]), run[1..])
  }

  lemma {:induction false} RunInv(s: State, run: seq<Action>)
    requires Inv(s) && Possible(s, run)
    ensures Inv(After(s, run))
    decreases |run|
  {
    if run == [] {
    } else {
      NextInv(s, run[0]);
      RunInv(Next(s, run[0]), run[1..]);
    }
  }

  /** A state that some run reaches. */
  ghost predicate Reachable(s: State)
  {
    exists s0, run :: Init(s0) && Possible(s0, run) && s == After(s0, run)
  }

  lemma ReachableInv(s: State)
    requires Reachable(s)
    ensures Inv(s)
  {
    var s0, run :| Init(s0) && Possible(s0, run) && s == After(s0, run);
    InitInv(s0);
    RunInv(s0, run);
  }

  /** No two payments ever carry the same transaction. */
  lemma NoSharedTransaction(s: State, run: seq<Action>, p: nat, q: nat)
    requires Init(s) && Possible(s, run)
    requires p in After(s, run).rows && q in After(s, run).rows && p != q
    ensures After(s, run).rows[p].tx.Some? ==> After(s, run).rows[p].tx != After(s, run).rows[q].tx
  {
    InitInv(s);
    RunInv(s, run);
  }

  /** A confirmed row is final. */
  lemma {:induction false} ConfirmedIsFinal(s: State, run: seq<Action>, p: nat)
    requires Inv(s) && Possible(s, run) && p in s.rows && s.rows[p].status.Confirmed?
    ensures p in After(s, run).rows && After(s, run).rows[p] == s.rows[p]
    decreases |run|
  {
    if run == [] {
    } else {
      NextInv(s, run[0]);
      RowChange(s, run[0], p);
      ConfirmedIsFinal(Next(s, run[0]), run[1..], p);
    }
  }

  /**
   * A row changes only when a poller or the route finds it pending and without
   * transaction, or when a call of the service that read its current,
   * unconfirmed status confirms it.
   */
  lemma RowChange(s: State, a: Action, p: nat)
    requires Inv(s) && Enabled(s, a) && p in s.rows
    ensures p in Next(s, a).rows
    ensures Next(s, a).rows[p] != s.rows[p] ==>
      && (a.RunUpdate? || a.UpdateError? || a.ServiceUpdate?) && s.checks[a.c].payment == p
      && Next(s, a).rows[p].tx.Some?
      && (!a.ServiceUpdate? ==> s.rows[p] == Row(Pending, None) && !Next(s, a).rows[p].status.Pending?)
      && (a.ServiceUpdate? ==> s.rows[p].status == s.checks[a.c].pc.seen && !s.rows[p].status.Confirmed?
                               && Next(s, a).rows[p].status.Confirmed?)
  {
    if a.ServiceUpdate? {
      assert CheckOk(s, a.c);
    } else if a.RunUpdate? || a.UpdateError? {
      GuardMeansUnclaimed(s, a.c);
    }
  }

  /**
   * A row that carries a transaction changes exactly when a call of the service
   * that read its current status brings a transaction no other payment carries.
   * Pollers and the route never change it.
   */
  lemma TransactionReplaced(s: State, a: Action, p: nat)
    requires Reachable(s) && Enabled(s, a) && p in s.rows && s.rows[p].tx.Some?
    ensures Next(s, a).rows[p] != s.rows[p] <==>
      && a.ServiceUpdate? && s.checks[a.c].payment == p
      && s.rows[p].status == s.checks[a.c].pc.seen && !Taken(s.rows, p, s.checks[a.c].pc.tx)
  {
    ReachableInv(s);
    RowChange(s, a, p);
    if a.ServiceUpdate? {
      assert CheckOk(s, a.c);
    }
  }

  /** A payment leaves `pending` at most once. */
  lemma LeavesPendingOnce(s: State, i: nat, j: nat)
    requires Reachable(s) && i < j < |s.claims| && s.claims[i].payment == s.claims[j].payment
    ensures !s.claims[j].before.status.Pending?
  {
    ReachableInv(s);
    assert Chained(s, i, j);
  }

  // ---- pollers and the route ---------------------------------------------------------

  /** Nobody calls the service. */
  ghost predicate NoServiceCall(s: State) { forall c :: c in s.checks ==> !s.checks[c].caller.Service? }

  /** A payment is claimed at most once, by whichever poller or route call comes first. */
  lemma AtMostOneClaim(s: State, i: nat, j: nat)
    requires Reachable(s) && NoServiceCall(s) && i < j < |s.claims|
    ensures s.claims[i].payment != s.claims[j].payment
    ensures s.claims[i].before == s.claims[j].before == Row(Pending, None)
  {
    ReachableInv(s);
    assert Chained(s, i, j) && ClaimOk(s, i) && ClaimOk(s, j);
  }

  /**
   * Over any run of pollers and route calls, a row that has
   * left `pending` or carries a transaction stays as it is.
   */
  lemma {:induction false} SettledIsFinal(s: State, run: seq<Action>, p: nat)
    requires Inv(s) && Possible(s, run) && p in s.rows && s.rows[p] != Row(Pending, None)
    requires NoServiceCall(s) && forall i :: 0 <= i < |run| ==> !run[i].BeginService?
    ensures p in After(s, run).rows && After(s, run).rows[p] == s.rows[p]
    decreases |run|
  {
    if run == [] {
    } else {
      assert !run[0].BeginService?;
      NextInv(s, run[0]);
      RowChange(s, run[0], p);
      forall c | c in s.checks ensures !s.checks[c].pc.ServiceUpdating? {
        assert CheckOk(s, c);
      }
      SettledIsFinal(Next(s, run[0]), run[1..], p);
    }
  }

  /** A payment is announced at most once, and the announcement is what its row says. */
  lemma NotifiedOnce(s: State, i: nat)
    requires Reachable(s) && NoServiceCall(s) && i < |s.notices|
    ensures forall j :: 0 <= j < |s.notices| && j != i ==> s.notices[j].payment != s.notices[i].payment
    ensures s.notices[i].payment in s.rows && s.rows[s.notices[i].payment] == s.notices[i].row
  {
    ReachableInv(s);
    var k := ClaimOfNotice(s, i);
    assert RowIsLatest(s, k);
    forall j | k < j < |s.claims| ensures s.claims[j].payment != s.notices[i].payment {
      AtMostOneClaim(s, k, j);
    }
    forall j | 0 <= j < |s.notices| && j != i ensures s.notices[j].payment != s.notices[i].payment {
      var l := ClaimOfNotice(s, j);
      if k < l {
        AtMostOneClaim(s, k, l);
      } else if l < k {
        AtMostOneClaim(s, l, k);
      }
    }
  }

  lemma ClaimOfNotice(s: State, i: nat) returns (k: nat)
    requires Inv(s) && i < |s.notices|
    ensures k < |s.claims| && ClaimOk(s, k)
    ensures IsClaim(s.claims[k], s.notices[i].check, s.notices[i].payment, s.notices[i].row)
  {
    assert NoticeOk(s, i);
    k :| 0 <= k < |s.claims| && IsClaim(s.claims[k], s.notices[i].check, s.notices[i].payment, s.notices[i].row);
    assert ClaimOk(s, k);
  }

  /**
   * Who is told of a claim: of a claim whose check ended and lost no
   * acknowledgement, subscribers are told if and only if it is not one of the
   * route's for a wrong amount. Those only the route's own caller hears of.
   */
  lemma AnnouncedIff(s: State, i: nat)
    requires Reachable(s) && i < |s.claims|
    ensures s.claims[i].check in s.checks
    ensures var c := s.checks[s.claims[i].check];
      c.pc.Finished? && !c.ackLost && !c.crashed ==>
        (Announced(s, s.claims[i]) <==> !c.caller.Route? || s.claims[i].kind.Match?)
  {
    ReachableInv(s);
    assert ClaimOk(s, i);
    if j :| 0 <= j < |s.notices| && s.notices[j] == Notice(s.claims[i].payment, s.claims[i].row, s.claims[i].check) {
      var k := ClaimOfNotice(s, j);
      if k < i {
        DistinctCheckers(s, k, i);
      } else if i < k {
        DistinctCheckers(s, i, k);
      }
    }
  }

  // ---- with the service --------------------------------------------------------------

  /** At most two claims change one payment, and the second is a call of the service for a failed one. */
  lemma AtMostTwoClaims(s: State, i: nat, j: nat, k: nat)
    requires Reachable(s) && i < j < |s.claims| && s.claims[i].payment == s.claims[j].payment
    requires k < |s.claims| && s.claims[k].payment == s.claims[i].payment
    ensures k == i || k == j
    ensures s.claims[i].row.status.Failed? && s.claims[j].row.status.Confirmed? && s.claims[j].caller.Service?
  {
    ReachableInv(s);
    SecondClaimConfirms(s, i, j);
    if j < k {
      NoClaimAfterConfirm(s, j, k);
    } else if i < k < j {
      SecondClaimConfirms(s, i, k);
      NoClaimAfterConfirm(s, k, j);
    } else if k < i {
      SecondClaimConfirms(s, k, i);
      NoClaimAfterConfirm(s, i, j);
    }
  }

  lemma SecondClaimConfirms(s: State, i: nat, j: nat)
    requires Inv(s) && i < j < |s.claims| && s.claims[i].payment == s.claims[j].payment
    ensures s.claims[i].row.status.Failed? && s.claims[j].row.status.Confirmed? && s.claims[j].caller.Service?
  {
    assert Chained(s, i, j) && ClaimOk(s, j);
  }

  lemma NoClaimAfterConfirm(s: State, i: nat, j: nat)
    requires Inv(s) && i < j < |s.claims| && s.claims[i].row.status.Confirmed?
    ensures s.claims[i].payment != s.claims[j].payment
  {
    assert Chained(s, i, j);
  }

  /** Two announcements of one payment are one of a failure and one of the service confirming it after all. */
  lemma NotificationsAgree(s: State, i: nat, j: nat)
    requires Reachable(s) && i < |s.notices| && j < |s.notices| && i != j && s.notices[i].payment == s.notices[j].payment
    ensures Claims(s, s.notices[i].check, s.notices[i].payment, s.notices[i].row)
    ensures s.notices[i].check in s.checks && s.notices[j].check in s.checks
    ensures s.checks[s.notices[i].check].caller.Service? || s.checks[s.notices[j].check].caller.Service?
    ensures {s.notices[i].row.status, s.notices[j].row.status} == {Failed, Confirmed}
  {
    ReachableInv(s);
    var ci := ClaimOfNotice(s, i);
    var cj := ClaimOfNotice(s, j);
    assert s.notices[i].check != s.notices[j].check;
    if ci < cj {
      SecondClaimConfirms(s, ci, cj);
    } else {
      SecondClaimConfirms(s, cj, ci);
    }
  }

  lemma Extend(s: State, a: Action)
    requires Reachable(s) && Enabled(s, a)
    ensures Reachable(Next(s, a))
  {
    var s0, run :| Init(s0) && Possible(s0, run) && s == After(s0, run);
    AfterOneMore(s0, run, a);
    assert Next(s, a) == After(s0, run + [a]);
  }

  lemma {:induction false} AfterOneMore(s: State, run: seq<Action>, a: Action)
    requires Possible(s, run) && Enabled(After(s, run), a)
    ensures Possible(s, run + [a]) && After(s, run + [a]) == Next(After(s, run), a)
    decreases |run|
  {
    if run == [] {
      assert (run + [a])[1..] == [];
    } else {
      assert (run + [a])[1..] == run[1..] + [a];
      AfterOneMore(Next(s, run[0]), run[1..], a);
    }
  }

  /** A poller is about to fail a payment for an underpayment. */
  lemma UnderpaymentFound(tx: string) returns (s: State)
    ensures Reachable(s)
    ensures s == State(map[0 := Row(Pending, None)], map[1 := Check(0, Poller, Updating(Underpaid, tx, 0), false, false)], [], [])
  {
    var s0 := State(map[], map[], [], []);
    assert After(s0, []) == s0;
    Extend(s0, NewPayment(0));
    var s1 := State(map[0 := Row(Pending, None)], map[], [], []);
    assert Next(s0, NewPayment(0)) == s1;
    Extend(s1, Begin(1, 0));
    var s2 := s1.(checks := map[1 := NewCheck(0, Poller)]);
    assert Next(s1, Begin(1, 0)) == s2;
    Extend(s2, FoundOther(1, tx, -1.0));
    s := Next(s2, FoundOther(1, tx, -1.0));
  }

  lemma PaymentFailed(tx: string) returns (s: State)
    ensures Reachable(s) && s.rows == map[0 := Row(Failed, Some(tx))] && s.checks.Keys == {1}
  {
    var s3 := UnderpaymentFound(tx);
    Extend(s3, RunUpdate(1));
    s := Next(s3, RunUpdate(1));
  }

  /** The service does replace a transaction: verifyPayment finds a matching one for the failed payment. */
  lemma ServiceReplacesTransaction() returns (s: State, a: Action, p: nat)
    ensures Reachable(s) && Enabled(s, a) && p in s.rows && s.rows[p].tx.Some?
    ensures p in Next(s, a).rows && Next(s, a).rows[p].tx.Some? && Next(s, a).rows[p].tx != s.rows[p].tx
  {
    var failed := PaymentFailed("first");
    Extend(failed, BeginService(2, 0, "second"));
    s, a, p := Next(failed, BeginService(2, 0, "second")), ServiceUpdate(2, true), 0;
    assert !Taken(s.rows, 0, "second");
    assert "first"[0] != "second"[0];
  }
}
