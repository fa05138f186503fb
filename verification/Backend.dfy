// The money side of the database and the workers that act on it concurrently,
// one SQL statement at a time: payout requests and their processing, refunds,
// balance adjustments, settlements (webhook or reconcile) and status updates.
//
// A table is a sequence of rows and a row's id is its position, so an insert
// takes a fresh id. A worker inside a transaction keeps its uncommitted writes
// to itself; they reach the tables in the step that commits. Row locks are
// those of the transactions in flight. A statement that meets a lock held by
// another worker waits: the step changes nothing and may be taken again later.

module Backend {
  import opened Sums
  import opened Options
  import opened PaymentDomain
  import Fee

  const MAX_ADJUSTMENT := 1_000_000_000_000

  // ------------------------------------------------------------------- tables

  /** `trail` is a history variable: every status the row has had, in order. */
  datatype Payment = Payment(merchant: nat, amount: int, fee: int, net: int,
                             production: bool, provider: nat, status: Status, trail: seq<Status>)
  {
    function TotalAmount(): int { amount + fee }
    predicate Settled() { status == Paid || status == Refunded }
    /** Credited to the ledger: a settled production payment with a positive net. */
    predicate Creditable() { Settled() && production && net > 0 }
    /** The columns no statement ever rewrites. */
    predicate SameOrder(p: Payment) {
      merchant == p.merchant && amount == p.amount && fee == p.fee && production == p.production && provider == p.provider
    }
    function Move(to: Status): Payment { this.(status := to, trail := trail + [to]) }
  }

  datatype Refund = Refund(payment: nat, merchant: nat, amount: int)

  datatype PayoutStatus = Requested | PaidOut | Rejected
  datatype Payout = Payout(merchant: nat, amount: int, status: PayoutStatus)

  datatype Kind =
    | PaymentCredit(payment: nat)
    | RefundDebit(payment: nat, refund: nat)
    | PayoutDebit(payout: nat)
    | PayoutReversal(payout: nat)
    | Adjustment
  datatype Entry = Entry(merchant: nat, kind: Kind, amount: int)

  /** A queued first-attempt merchant callback. */
  datatype Callback = Callback(payment: nat, event: Status, late: bool)

  /** History: this provider reported this payment settled with this amount. */
  datatype Report = Report(provider: nat, payment: nat, amount: int)

  /** `accounts` maps each merchant to whether its payout account is complete. */
  datatype Db = Db(accounts: map<nat, bool>, payments: seq<Payment>, refunds: seq<Refund>, payouts: seq<Payout>,
                   ledger: seq<Entry>, callbacks: seq<Callback>, reports: set<Report>)

  // --------------------------------------------------------------- aggregates

  function AmountOf(m: nat): Entry -> int { (e: Entry) => if e.merchant == m then e.amount else 0 }
  function CreditOf(m: nat): Entry -> int { (e: Entry) => if e.merchant == m && e.kind.PaymentCredit? then e.amount else 0 }
  function PayoutPart(m: nat): Entry -> int {
    (e: Entry) => if e.merchant == m && (e.kind.PayoutDebit? || e.kind.PayoutReversal?) then e.amount else 0
  }
  function RefundPart(m: nat): Entry -> int { (e: Entry) => if e.merchant == m && e.kind.RefundDebit? then e.amount else 0 }
  function AdjustmentPart(m: nat): Entry -> int { (e: Entry) => if e.merchant == m && e.kind.Adjustment? then e.amount else 0 }
  function PositiveAdjustment(m: nat): Entry -> int {
    (e: Entry) => if e.merchant == m && e.kind.Adjustment? && e.amount > 0 then e.amount else 0
  }

  function Balance(ledger: seq<Entry>, m: nat): int { Sum(ledger, AmountOf(m)) }
  function Credited(ledger: seq<Entry>, m: nat): int { Sum(ledger, CreditOf(m)) }
  function PaidOutNet(ledger: seq<Entry>, m: nat): int { -Sum(ledger, PayoutPart(m)) }
  function RefundDebits(ledger: seq<Entry>, m: nat): int { -Sum(ledger, RefundPart(m)) }
  function Adjustments(ledger: seq<Entry>, m: nat): int { Sum(ledger, AdjustmentPart(m)) }
  function Granted(ledger: seq<Entry>, m: nat): int { Sum(ledger, PositiveAdjustment(m)) }

  /** ledger.Summary: four sums over one merchant's ledger rows. */
  datatype Summary = Summary(balance: int, credited: int, paidOut: int, refunded: int)
  function SummaryOf(ledger: seq<Entry>, m: nat): Summary {
    Summary(Balance(ledger, m), Credited(ledger, m), PaidOutNet(ledger, m), RefundDebits(ledger, m))
  }

  // The same figures taken from the documents instead of the ledger.
  function DueOf(m: nat): Payment -> int { (p: Payment) => if p.merchant == m && p.Creditable() then p.net else 0 }
  function ToMerchant(m: nat): Refund -> int { (r: Refund) => if r.merchant == m then r.amount else 0 }
  function OfPayment(i: nat): Refund -> int { (r: Refund) => if r.payment == i then r.amount else 0 }
  function LiveOf(m: nat): Payout -> int { (o: Payout) => if o.merchant == m && o.status != Rejected then o.amount else 0 }

  function NetsDue(payments: seq<Payment>, m: nat): int { Sum(payments, DueOf(m)) }
  function RefundsMade(refunds: seq<Refund>, m: nat): int { Sum(refunds, ToMerchant(m)) }
  function RefundedOf(refunds: seq<Refund>, i: nat): int { Sum(refunds, OfPayment(i)) }
  function LivePayouts(payouts: seq<Payout>, m: nat): int { Sum(payouts, LiveOf(m)) }

  /** The merchant has a payout waiting for processing. */
  predicate HasOpen(payouts: seq<Payout>, m: nat) {
    exists i :: 0 <= i < |payouts| && payouts[i].merchant == m && payouts[i].status == Requested
  }

  // ------------------------------------------------------------------ workers

  datatype PayoutStage = MerchantLocked | NoOpen | Funded | PayoutRow | PayoutDebitRow
  datatype RefundStage = PaymentLocked | Summed | RefundRow | RefundDebitRow | StatusRow

  datatype Tx =
    | Idle
    | PayoutTx(m: nat, amount: int, payoutStage: PayoutStage)
    | RejectTx(payout: nat, reversed: bool)
    | RefundTx(payment: nat, row: Payment, amount: int, remaining: int, refundStage: RefundStage)
    | Settling(payment: nat, row: Payment, hook: Option<int>)   // payment row read, provider not asked yet
    | Confirmed(payment: nat, row: Payment, hook: Option<int>)  // provider confirmed, MarkPaid not begun
    | PaidTx(payment: nat, previous: Status, net: int, credited: bool)
    | Notifying(payment: nat, event: Status, late: bool)        // committed, callback not queued yet
  {
    predicate LocksMerchant(id: nat) { PayoutTx? && m == id }
    predicate LocksPayment(id: nat) { (RefundTx? || PaidTx?) && payment == id }
    predicate LocksPayout(id: nat) { RejectTx? && payout == id }
  }

  datatype State = State(db: Db, tx: map<nat, Tx>) {
    function TxOf(w: nat): Tx { if w in tx then tx[w] else Idle }
    function Put(w: nat, t: Tx): State { this.(tx := tx[w := t]) }
    predicate MerchantBusy(id: nat) { exists w :: w in tx && tx[w].LocksMerchant(id) }
    predicate PaymentBusy(id: nat) { exists w :: w in tx && tx[w].LocksPayment(id) }
    predicate PayoutBusy(id: nat) { exists w :: w in tx && tx[w].LocksPayout(id) }
  }

  datatype Action =
    | Create(merchant: nat, nominal: int, customerBears: bool, charge: int, charged: int, production: bool, provider: nat)
    | RequestPayout(m: nat, payoutAmount: int, minAmount: int)
    | MarkPayoutPaid(payout: nat)
    | RejectPayout(payout: nat)
    | Adjust(m: nat, delta: int)
    | BeginRefund(payment: nat, refundAmount: int)
    | Receive(payment: nat, from: nat, hook: Option<int>)  // a settlement webhook, or a reconcile check (no hook amount)
    | ProviderSays(settled: bool, reported: Option<int>)   // the provider answers the status check
    | UpdateStatus(payment: nat, to: Status)
    | Advance                                              // the next statement of the worker's own sequence
    | Abort                                                // any error, crash or rollback

  // ------------------------------------------------------------ table changes

  function AddPayment(db: Db, merchant: nat, amount: int, fee: int, production: bool, provider: nat): Db {
    db.(payments := db.payments + [Payment(merchant, amount, fee, 0, production, provider, Pending, [Pending])])
  }

  function AddPayout(db: Db, m: nat, amount: int): Db {
    db.(payouts := db.payouts + [Payout(m, amount, Requested)],
        ledger := db.ledger + [Entry(m, PayoutDebit(|db.payouts|), -amount)])
  }

  function PayPayout(db: Db, id: nat): Db
    requires id < |db.payouts|
  {
    db.(payouts := db.payouts[id := db.payouts[id].(status := PaidOut)])
  }

  /** The reversal's merchant and amount come from the payout row. */
  function ReversePayout(db: Db, id: nat): Db
    requires id < |db.payouts|
  {
    db.(payouts := db.payouts[id := db.payouts[id].(status := Rejected)],
        ledger := db.ledger + [Entry(db.payouts[id].merchant, PayoutReversal(id), db.payouts[id].amount)])
  }

  function AddAdjustment(db: Db, m: nat, delta: int): Db {
    db.(ledger := db.ledger + [Entry(m, Adjustment, delta)])
  }

  /** Both rows carry the merchant of the payment row that was locked. */
  function AddRefund(db: Db, id: nat, m: nat, amount: int): Db {
    db.(refunds := db.refunds + [Refund(id, m, amount)],
        ledger := db.ledger + [Entry(m, RefundDebit(id, |db.refunds|), -amount)])
  }

  function CloseRefunded(db: Db, id: nat): Db
    requires id < |db.payments|
  {
    db.(payments := db.payments[id := db.payments[id].Move(Refunded)])
  }

  function SettlePayment(db: Db, id: nat, net: int): Db
    requires id < |db.payments|
  {
    var p := db.payments[id];
    db.(payments := db.payments[id := p.Move(Paid).(net := net)],
        ledger := if p.production && net > 0 then db.ledger + [Entry(p.merchant, PaymentCredit(id), net)] else db.ledger)
  }

  function MoveStatus(db: Db, id: nat, to: Status): Db
    requires id < |db.payments|
  {
    db.(payments := db.payments[id := db.payments[id].Move(to)])
  }

  function Queue(db: Db, c: Callback): Db {
    db.(callbacks := db.callbacks + [c])
  }

  // -------------------------------------------------------------------- steps

  /** verifyProviderPayment: the provider says settled, and its amount, and the
      webhook's when it carries one, equal what the customer was asked to pay. */
  predicate Verified(row: Payment, settled: bool, reported: Option<int>, hook: Option<int>) {
    settled && reported == Some(row.TotalAmount()) && (hook.None? || hook == Some(row.TotalAmount()))
  }

  /** Worker w takes one step. A step that is not enabled leaves the state. */
  function Step(s: State, w: nat, a: Action): State {
    var t := s.TxOf(w);
    if a.Abort? then s.Put(w, Idle)
    else if a.Advance? then AdvanceTx(s, w, t)
    else if a.ProviderSays? then (if t.Settling? then Answer(s, w, t, a.settled, a.reported) else s)
    else if t.Idle? then Begin(s, w, a)
    else s
  }

  function Answer(s: State, w: nat, t: Tx, settled: bool, reported: Option<int>): State
    requires t.Settling?
  {
    var heard := if settled && reported.Some?
      then s.(db := s.db.(reports := s.db.reports + {Report(t.row.provider, t.payment, reported.value)})) else s;
    heard.Put(w, if Verified(t.row, settled, reported, t.hook) then Confirmed(t.payment, t.row, t.hook) else Idle)
  }

  /** The first statement of each operation; refused inputs leave the state. */
  function Begin(s: State, w: nat, a: Action): State {
    var db := s.db;
    match a
    case Create(m, nominal, customerBears, charge, charged, production, provider) =>
      // charge is what the provider is asked for, charged what it says it charges
      var stored := Fee.StoredAmounts(customerBears, nominal, charge, charged);
      if m !in db.accounts || nominal < 1 || nominal > Fee.MAX_NOMINAL || stored.None? then s
      else s.(db := AddPayment(db, m, stored.value.0, stored.value.1, production, provider))
    case RequestPayout(m, amount, minAmount) =>
      if amount <= 0 || amount < minAmount || s.MerchantBusy(m) then s
      else if m !in db.accounts || !db.accounts[m] then s
      else s.Put(w, PayoutTx(m, amount, MerchantLocked))
    case MarkPayoutPaid(id) =>
      if id >= |db.payouts| || s.PayoutBusy(id) || db.payouts[id].status != Requested then s
      else s.(db := PayPayout(db, id))
    case RejectPayout(id) =>
      if id >= |db.payouts| || s.PayoutBusy(id) || db.payouts[id].status != Requested then s
      else s.Put(w, RejectTx(id, false))
    case Adjust(m, delta) =>
      if delta == 0 || delta > MAX_ADJUSTMENT || delta < -MAX_ADJUSTMENT || m !in db.accounts then s
      else s.(db := AddAdjustment(db, m, delta))
    case BeginRefund(id, amount) =>
      if amount <= 0 || id >= |db.payments| || s.PaymentBusy(id) then s
      else
        var p := db.payments[id];
        if p.status != Paid || !p.production || p.net <= 0 then s
        else s.Put(w, RefundTx(id, p, amount, 0, PaymentLocked))
    case Receive(id, from, hook) =>
      if id >= |db.payments| || db.payments[id].provider != from then s
      else
        var p := db.payments[id];
        if p.status != Pending && p.status != Expired then s else s.Put(w, Settling(id, p, hook))
    case UpdateStatus(id, to) =>
      if to == Paid || to == Refunded || id >= |db.payments| || s.PaymentBusy(id) then s
      else if db.payments[id].status !in AllowedSourceStatuses(to) then s
      else s.(db := MoveStatus(db, id, to)).Put(w, Notifying(id, to, false))
    case ProviderSays(_, _) | Advance | Abort => s
  }

  function AdvanceTx(s: State, w: nat, t: Tx): State {
    match t
    case Idle | Settling(_, _, _) => s
    case PayoutTx(m, amount, stage) => AdvancePayout(s, w, m, amount, stage)
    case RejectTx(id, reversed) =>
      if !reversed then s.Put(w, t.(reversed := true))
      else if id < |s.db.payouts| then s.(db := ReversePayout(s.db, id)).Put(w, Idle)
      else s
    case RefundTx(_, _, _, _, _) => AdvanceRefund(s, w, t)
    case Confirmed(id, row, _) => BeginMarkPaid(s, w, id, Fee.MerchantNetFor(row.amount, row.fee))
    case PaidTx(id, previous, net, credited) =>
      if !credited then s.Put(w, t.(credited := true))
      else if id < |s.db.payments| then s.(db := SettlePayment(s.db, id, net)).Put(w, Notifying(id, Paid, previous == Expired))
      else s
    case Notifying(id, event, late) => s.(db := Queue(s.db, Callback(id, event, late))).Put(w, Idle)
  }

  function AdvancePayout(s: State, w: nat, m: nat, amount: int, stage: PayoutStage): State {
    match stage
    case MerchantLocked => s.Put(w, if HasOpen(s.db.payouts, m) then Idle else PayoutTx(m, amount, NoOpen))
    case NoOpen => s.Put(w, if amount > Balance(s.db.ledger, m) then Idle else PayoutTx(m, amount, Funded))
    case Funded => s.Put(w, if HasOpen(s.db.payouts, m) then Idle else PayoutTx(m, amount, PayoutRow))  // the unique index
    case PayoutRow => s.Put(w, PayoutTx(m, amount, PayoutDebitRow))
    case PayoutDebitRow => s.(db := AddPayout(s.db, m, amount)).Put(w, Idle)
  }

  function AdvanceRefund(s: State, w: nat, t: Tx): State
    requires t.RefundTx?
  {
    match t.refundStage
    case PaymentLocked =>
      var remaining := t.row.net - RefundedOf(s.db.refunds, t.payment);
      s.Put(w, if t.amount > remaining then Idle else t.(remaining := remaining, refundStage := Summed))
    case Summed => s.Put(w, t.(refundStage := RefundRow))
    case RefundRow => s.Put(w, t.(refundStage := RefundDebitRow))
    case RefundDebitRow =>
      var committed := AddRefund(s.db, t.payment, t.row.merchant, t.amount);
      if t.remaining - t.amount != 0 then s.(db := committed).Put(w, Idle)
      else if t.payment >= |s.db.payments| || s.db.payments[t.payment].status != Paid then s.Put(w, Idle)
      else s.Put(w, t.(refundStage := StatusRow))
    case StatusRow =>
      if t.payment >= |s.db.payments| then s
      else s.(db := CloseRefunded(AddRefund(s.db, t.payment, t.row.merchant, t.amount), t.payment))
            .Put(w, Notifying(t.payment, Refunded, false))
  }

  /** MarkPaid's guarded UPDATE: waits for the row lock, then re-checks the
      guard against the current row. */
  function BeginMarkPaid(s: State, w: nat, id: nat, net: Option<int>): State {
    if net.None? || id >= |s.db.payments| then s.Put(w, Idle)
    else if s.PaymentBusy(id) then s
    else
      var previous := s.db.payments[id].status;
      s.Put(w, if previous in AllowedSourceStatuses(Paid) then PaidTx(id, previous, net.value, false) else Idle)
  }

  // --------------------------------------------------------------------- runs

  datatype Event = Event(worker: nat, action: Action)

  /** The state after the events of one interleaving, oldest first. */
  function Exec(s: State, events: seq<Event>): State {
    if |events| == 0 then s
    else
      var last := events[|events| - 1];
      Step(Exec(s, events[..|events| - 1]), last.worker, last.action)
  }

  /** An empty database with any set of merchants, and no worker active. */
  predicate Initial(s: State) {
    s == State(Db(s.db.accounts, [], [], [], [], [], {}), map[])
  }
}
