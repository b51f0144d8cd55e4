/**
 * The claim protocol of the ledger: a conditional row update and a unique
 * index on tx_id decide which check of which payment gets a transaction.
 *
 * Three kinds of callers claim: the pollers of the ledger monitor, the
 * verify-payment route, and the payment service's verifyPayment, which no
 * route calls. They differ in the guards of their updates, in what they do
 * about errors, and in which claims they announce.
 *
 * This module holds the table and the atomic steps of one check; LedgerRuns
 * interleaves any number of them.
 */
module LedgerClaims {
  import opened Prelude

  datatype Status = Pending | Confirmed | Failed

  datatype Row = Row(status: Status, tx: Option<string>)

  type Table = map<nat, Row>

  datatype DbResult = Updated | NoRow | UniqueViolation

  /** The unique index: another payment already carries the transaction. */
  predicate Taken(rows: Table, payment: nat, tx: string)
  {
    exists q :: q in rows && q != payment && rows[q].tx == Some(tx)
  }

  /** UPDATE ... WHERE id = payment AND guard, under the unique index. */
  function Update(rows: Table, payment: nat, guard: bool, row: Row): (Table, DbResult)
  {
    if payment !in rows || !guard then (rows, NoRow)
    else if row.tx.Some? && Taken(rows, payment, row.tx.value) then (rows, UniqueViolation)
    else (rows[payment := row], Updated)
  }

  /** The guard of a claim by tx_id: still pending, no transaction yet. */
  predicate Unclaimed(rows: Table, payment: nat) { payment in rows && rows[payment] == Row(Pending, None) }

  /** A guard on the status alone. */
  predicate HasStatus(rows: Table, payment: nat, seen: Status) { payment in rows && rows[payment].status == seen }

  // ---- one check ------------------------------------------------------------------

  datatype Caller = Poller | Route | Service

  const TRANSIENT_DB_RETRY_ATTEMPTS: nat := 2

  datatype Kind = Match | Underpaid | Overpaid

  /** The row a claim of this kind writes. */
  function Claimed(kind: Kind, tx: string): Row
  {
    Row(if kind.Underpaid? then Failed else Confirmed, Some(tx))
  }

  datatype Pc =
    | Looking                                                   // querying Horizon
    | Selecting(tx: string)                                     // about to look for another owner of tx
    | Updating(kind: Kind, tx: string, attempt: nat)            // about to run the conditional update
    | ServiceUpdating(seen: Status, tx: string)                 // the same in verifyPayment
    | Announcing(row: Row)                                      // the update was acknowledged, subscribers are told
    | Finished

  /** One check of a payment; ackLost and crashed are bookkeeping. */
  datatype Check = Check(payment: nat, caller: Caller, pc: Pc, ackLost: bool, crashed: bool)

  function NewCheck(payment: nat, caller: Caller): Check { Check(payment, caller, Looking, false, false) }

  /** The route's lookup: no payment or a confirmed one ends the call, any other status goes on. */
  function NewRouteCall(rows: Table, payment: nat): Check
  {
    if payment !in rows || rows[payment].status.Confirmed? then NewCheck(payment, Route).(pc := Finished)
    else NewCheck(payment, Route)
  }

  /** The tolerance of the amount comparison. */
  const TOLERANCE: real := 0.0000001

  /** What the computed difference `received - expected` amounts to; within the tolerance it is neither. */
  function Classify(diff: real): Option<Kind>
  {
    if diff < -TOLERANCE then Some(Underpaid)
    else if diff > TOLERANCE then Some(Overpaid)
    else None
  }

  /** Only the poller looks at the shape of the hash. */
  function MatchStep(c: Check, tx: string, validHash: bool): Check
  {
    c.(pc := if validHash || !c.caller.Poller? then Selecting(tx) else Finished)
  }

  function OtherPaymentStep(c: Check, tx: string, diff: real): Check
  {
    var kind := Classify(diff);
    c.(pc := if kind.Some? then Updating(kind.value, tx, 0) else Finished)
  }

  function SelectStep(rows: Table, c: Check, selectFailed: bool): Check
    requires c.pc.Selecting?
  {
    c.(pc := if !selectFailed && Taken(rows, c.payment, c.pc.tx) then Finished else Updating(Match, c.pc.tx, 0))
  }

  /** The guard of an update: the route's updates for a wrong amount look at the status only. */
  predicate Guard(rows: Table, c: Check)
    requires c.pc.Updating?
  {
    if c.caller.Poller? || c.pc.kind.Match? then Unclaimed(rows, c.payment) else HasStatus(rows, c.payment, Pending)
  }

  /** The route answers its caller about a wrong amount and tells nobody else. */
  predicate Announces(caller: Caller, kind: Kind) { !caller.Route? || kind.Match? }

  function UpdateStep(rows: Table, c: Check): (Table, Check)
    requires c.pc.Updating?
  {
    var row := Claimed(c.pc.kind, c.pc.tx);
    var (rows', result) := Update(rows, c.payment, Guard(rows, c), row);
    (rows', c.(pc := if result.Updated? && Announces(c.caller, c.pc.kind) then Announcing(row) else Finished))
  }

  /**
   * The update came back with an error: the statement ran or not, the caller can
   * not tell. A poller tries again after a transient one, three times in all.
   */
  function ErrorStep(rows: Table, c: Check, applied: bool, transient: bool): (Table, Check)
    requires c.pc.Updating?
  {
    var row := Claimed(c.pc.kind, c.pc.tx);
    var (rows', result) := Update(rows, c.payment, Guard(rows, c), row);
    (if applied then rows' else rows,
     c.(pc := if c.caller.Poller? && transient && c.pc.attempt < TRANSIENT_DB_RETRY_ATTEMPTS
              then c.pc.(attempt := c.pc.attempt + 1) else Finished,
        ackLost := c.ackLost || (applied && result.Updated?)))
  }

  function ServiceStep(rows: Table, c: Check, acked: bool): (Table, Check)
    requires c.pc.ServiceUpdating?
  {
    var row := Claimed(Match, c.pc.tx);
    var (rows', result) := Update(rows, c.payment, HasStatus(rows, c.payment, c.pc.seen), row);
    (rows', c.(pc := if acked && result.Updated? then Announcing(row) else Finished,
               ackLost := c.ackLost || (!acked && result.Updated?)))
  }

  // ---- the program's objects ------------------------------------------------------

  class PaymentsTable {
    var rows: Table

    /** The updates guarded by a pending status and a missing transaction. */
    method ClaimPending(payment: nat, row: Row) returns (result: DbResult)
      modifies this
      ensures (rows, result) == Update(old(rows), payment, Unclaimed(old(rows), payment), row)
    {
      if !Unclaimed(rows, payment) {
        return NoRow;
      }
      if row.tx.Some? && Taken(rows, payment, row.tx.value) {
        return UniqueViolation;
      }
      rows := rows[payment := row];
      result := Updated;
    }

    /** The updates guarded by a status alone. */
    method UpdateIfStatus(payment: nat, seen: Status, row: Row) returns (result: DbResult)
      modifies this
      ensures (rows, result) == Update(old(rows), payment, HasStatus(old(rows), payment, seen), row)
    {
      if !HasStatus(rows, payment, seen) {
        return NoRow;
      }
      if row.tx.Some? && Taken(rows, payment, row.tx.value) {
        return UniqueViolation;
      }
      rows := rows[payment := row];
      result := Updated;
    }
  }

  class PaymentCheck {
    const table: PaymentsTable
    const payment: nat
    const caller: Caller
    var pc: Pc
    ghost var ackLost: bool
    ghost var crashed: bool

    ghost function View(): Check reads this { Check(payment, caller, pc, ackLost, crashed) }

    constructor (table: PaymentsTable, payment: nat, caller: Caller)
      ensures View() == NewCheck(payment, caller) && this.table == table
    {
      this.table, this.payment, this.caller := table, payment, caller;
      pc, ackLost, crashed := Looking, false, false;
    }

    /** The route reads the payment before it looks for a transaction. */
    method LookUp()
      requires caller.Route? && View() == NewCheck(payment, Route)
      modifies this
      ensures View() == NewRouteCall(table.rows, payment)
    {
      if payment !in table.rows || table.rows[payment].status.Confirmed? {
        pc := Finished;
      }
    }

    method OnMatch(tx: string, validHash: bool)
      requires pc.Looking?
      modifies this
      ensures View() == MatchStep(old(View()), tx, validHash)
    {
      if caller.Poller? && !validHash {
        pc := Finished;
      } else {
        pc := Selecting(tx);
      }
    }

    method OnOtherPayment(tx: string, diff: real)
      requires pc.Looking?
      modifies this
      ensures View() == OtherPaymentStep(old(View()), tx, diff)
    {
      if diff < -TOLERANCE {
        pc := Updating(Underpaid, tx, 0);
      } else if diff > TOLERANCE {
        pc := Updating(Overpaid, tx, 0);
      } else {
        pc := Finished;
      }
    }

    method SelectOtherOwner(selectFailed: bool)
      requires pc.Selecting?
      modifies this
      ensures View() == SelectStep(table.rows, old(View()), selectFailed)
    {
      if !selectFailed && Taken(table.rows, payment, pc.tx) {
        pc := Finished;
      } else {
        pc := Updating(Match, pc.tx, 0);
      }
    }

    /** Runs the statement of this caller and this kind of payment. */
    method RunStatement(row: Row) returns (result: DbResult)
      requires pc.Updating?
      modifies table
      ensures (table.rows, result) == Update(old(table.rows), payment, Guard(old(table.rows), View()), row)
    {
      if caller.Poller? || pc.kind.Match? {
        result := table.ClaimPending(payment, row);
      } else {
        result := table.UpdateIfStatus(payment, Pending, row);
      }
    }

    method RunUpdate()
      requires pc.Updating?
      modifies this, table
      ensures (table.rows, View()) == UpdateStep(old(table.rows), old(View()))
    {
      var row := Claimed(pc.kind, pc.tx);
      var result := RunStatement(row);
      pc := if result.Updated? && (!caller.Route? || pc.kind.Match?) then Announcing(row) else Finished;
    }

    method OnUpdateError(applied: bool, transient: bool)
      requires pc.Updating?
      modifies this, table
      ensures (table.rows, View()) == ErrorStep(old(table.rows), old(View()), applied, transient)
    {
      if applied {
        var result := RunStatement(Claimed(pc.kind, pc.tx));
        ackLost := ackLost || result.Updated?;
      }
      if caller.Poller? && transient && pc.attempt < TRANSIENT_DB_RETRY_ATTEMPTS {
        pc := pc.(attempt := pc.attempt + 1);
      } else {
        pc := Finished;
      }
    }

    method RunServiceUpdate(acked: bool)
      requires pc.ServiceUpdating?
      modifies this, table
      ensures (table.rows, View()) == ServiceStep(old(table.rows), old(View()), acked)
    {
      var row := Claimed(Match, pc.tx);
      var result := table.UpdateIfStatus(payment, pc.seen, row);
      ackLost := ackLost || (!acked && result.Updated?);
      pc := if acked && result.Updated? then Announcing(row) else Finished;
    }
  }
}
