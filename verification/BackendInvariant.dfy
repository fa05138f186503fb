// What every interleaving of the workers of Backend keeps. Each table change
// is shown to keep the database invariant and the facts that the other
// workers, which hold no conflicting lock, still rely on.

module BackendInvariant {
  import opened Sums
  import opened Options
  import opened PaymentDomain
  import opened Backend
  import Fee

  // ------------------------------------------------------- database invariant

  function IsKind(k: Kind): Entry -> bool { (e: Entry) => e.kind == k }
  function Rows(ledger: seq<Entry>, k: Kind): seq<Entry> { Filter(ledger, IsKind(k)) }

  /** The ledger rows a document must have: exactly these, in any state. */
  function RowsDue(db: Db, k: Kind): seq<Entry> {
    match k
    case PaymentCredit(i) =>
      if i < |db.payments| && db.payments[i].Creditable() then [Entry(db.payments[i].merchant, k, db.payments[i].net)] else []
    case RefundDebit(i, j) =>
      if j < |db.refunds| && db.refunds[j].payment == i then [Entry(db.refunds[j].merchant, k, -db.refunds[j].amount)] else []
    case PayoutDebit(i) =>
      if i < |db.payouts| then [Entry(db.payouts[i].merchant, k, -db.payouts[i].amount)] else []
    case PayoutReversal(i) =>
      if i < |db.payouts| && db.payouts[i].status == Rejected then [Entry(db.payouts[i].merchant, k, db.payouts[i].amount)] else []
    case Adjustment => []
  }

  ghost predicate RowsOk(db: Db) {
    forall k: Kind :: !k.Adjustment? ==> Rows(db.ledger, k) == RowsDue(db, k)
  }

  /** One merchant's ledger totals agree with the documents, and its live
      payouts never exceed what it was credited and granted. */
  ghost predicate MerchantOk(db: Db, m: nat) {
    && Credited(db.ledger, m) == NetsDue(db.payments, m)
    && RefundDebits(db.ledger, m) == RefundsMade(db.refunds, m)
    && PaidOutNet(db.ledger, m) == LivePayouts(db.payouts, m)
    && LivePayouts(db.payouts, m) <= Credited(db.ledger, m) + Granted(db.ledger, m)
  }

  ghost predicate PaymentOk(p: Payment, i: nat, reports: set<Report>) {
    && p.amount > 0 && p.fee >= 0 && (p.fee > 0 ==> p.amount <= Fee.MAX_NOMINAL)
    && Path(p.trail) && p.trail[|p.trail| - 1] == p.status
    && (if p.Settled() then Fee.MerchantNetFor(p.amount, p.fee) == Some(p.net) else p.net == 0)
    && (p.Settled() ==> Report(p.provider, i, p.TotalAmount()) in reports)
  }

  /** A payment against the sum of its refunds. */
  ghost predicate RefundsOk(p: Payment, refunded: int) {
    && 0 <= refunded <= p.net
    && (refunded > 0 ==> p.Creditable())
    && (p.status == Refunded <==> p.net > 0 && refunded == p.net)
  }

  ghost predicate RefundOk(r: Refund, payments: seq<Payment>) {
    r.payment < |payments| && r.amount > 0 && r.merchant == payments[r.payment].merchant
  }

  ghost predicate PaymentsOk(db: Db) {
    && (forall i :: 0 <= i < |db.payments| ==>
          PaymentOk(db.payments[i], i, db.reports) && RefundsOk(db.payments[i], RefundedOf(db.refunds, i)))
    && (forall j :: 0 <= j < |db.refunds| ==> RefundOk(db.refunds[j], db.payments))
  }

  ghost predicate PayoutsOk(payouts: seq<Payout>) {
    && (forall i :: 0 <= i < |payouts| ==> payouts[i].amount > 0)
    && (forall i, j :: 0 <= i < j < |payouts| && payouts[i].status == Requested && payouts[j].status == Requested ==>
          payouts[i].merchant != payouts[j].merchant)
  }

  predicate Late(p: Payment, event: Status) { event == Paid && Expired in p.trail }

  ghost predicate CallbacksOk(db: Db) {
    && (forall i :: 0 <= i < |db.callbacks| ==>
          var c := db.callbacks[i];
          && c.payment < |db.payments| && c.event in db.payments[c.payment].trail && c.event != Pending
          && c.late == Late(db.payments[c.payment], c.event))
    && (forall i, j :: 0 <= i < j < |db.callbacks| ==>
          db.callbacks[i].payment != db.callbacks[j].payment || db.callbacks[i].event != db.callbacks[j].event)
  }

  predicate Queued(callbacks: seq<Callback>, i: nat, event: Status) {
    exists c :: c in callbacks && c.payment == i && c.event == event
  }

  ghost predicate DbOk(db: Db) {
    RowsOk(db) && (forall m :: MerchantOk(db, m)) && PaymentsOk(db) && PayoutsOk(db.payouts) && CallbacksOk(db)
  }

  // --------------------------------------------------------- worker invariant

  /** What a worker's own state lets it rely on, whatever the others do. */
  ghost predicate TxOk(db: Db, t: Tx) {
    match t
    case Idle => true
    case PayoutTx(m, amount, stage) =>
      && amount > 0
      && (stage != MerchantLocked ==> !HasOpen(db.payouts, m))
      && (stage != MerchantLocked && stage != NoOpen ==> LivePayouts(db.payouts, m) + amount <= Credited(db.ledger, m) + Granted(db.ledger, m))
    case RejectTx(id, _) => id < |db.payouts| && db.payouts[id].status == Requested
    case RefundTx(id, row, amount, remaining, stage) =>
      && id < |db.payments| && row == db.payments[id]
      && row.status == Paid && row.production && row.net > 0 && amount > 0
      && (stage != PaymentLocked ==> remaining == row.net - RefundedOf(db.refunds, id) && amount <= remaining)
      && (stage == StatusRow ==> amount == remaining)
    case Settling(id, row, _) => id < |db.payments| && row.SameOrder(db.payments[id])
    case Confirmed(id, row, hook) =>
      && id < |db.payments| && row.SameOrder(db.payments[id]) && ConfirmedAmount(db, id, hook)
    case PaidTx(id, previous, net, _) =>
      && id < |db.payments| && db.payments[id].status == previous && previous in AllowedSourceStatuses(Paid)
      && Fee.MerchantNetFor(db.payments[id].amount, db.payments[id].fee) == Some(net)
      && Report(db.payments[id].provider, id, db.payments[id].TotalAmount()) in db.reports
    case Notifying(id, event, late) =>
      && id < |db.payments| && event in db.payments[id].trail && event != Pending && !Queued(db.callbacks, id, event)
      && late == Late(db.payments[id], event)
  }

  /** The owning provider reported the stored total, and a webhook amount, when
      there was one, was that total too. */
  ghost predicate ConfirmedAmount(db: Db, id: nat, hook: Option<int>)
    requires id < |db.payments|
  {
    && Report(db.payments[id].provider, id, db.payments[id].TotalAmount()) in db.reports
    && (hook.None? || hook == Some(db.payments[id].TotalAmount()))
  }

  /** No two workers hold the same row lock or owe the same notification. */
  predicate Compatible(t: Tx, u: Tx) {
    && (t.PayoutTx? && u.PayoutTx? ==> t.m != u.m)
    && (t.RejectTx? && u.RejectTx? ==> t.payout != u.payout)
    && ((t.RefundTx? || t.PaidTx?) && (u.RefundTx? || u.PaidTx?) ==> t.payment != u.payment)
    && (t.Notifying? && u.Notifying? ==> t.payment != u.payment || t.event != u.event)
  }

  ghost predicate Inv(s: State) {
    && DbOk(s.db)
    && (forall w :: w in s.tx ==> TxOk(s.db, s.tx[w]))
    && (forall w, v :: w in s.tx && v in s.tx && w != v ==> Compatible(s.tx[w], s.tx[v]))
  }

  // ------------------------------------------------------ effect of one insert

  lemma LedgerPush(ledger: seq<Entry>, e: Entry)
    ensures forall k :: Rows(ledger + [e], k) == Rows(ledger, k) + if e.kind == k then [e] else []
    ensures forall m :: Sum(ledger + [e], AmountOf(m)) == Sum(ledger, AmountOf(m)) + AmountOf(m)(e)
    ensures forall m :: Sum(ledger + [e], CreditOf(m)) == Sum(ledger, CreditOf(m)) + CreditOf(m)(e)
    ensures forall m :: Sum(ledger + [e], RefundPart(m)) == Sum(ledger, RefundPart(m)) + RefundPart(m)(e)
    ensures forall m :: Sum(ledger + [e], PayoutPart(m)) == Sum(ledger, PayoutPart(m)) + PayoutPart(m)(e)
    ensures forall m :: Sum(ledger + [e], PositiveAdjustment(m)) == Sum(ledger, PositiveAdjustment(m)) + PositiveAdjustment(m)(e)
  {
    forall k
      ensures Rows(ledger + [e], k) == Rows(ledger, k) + if e.kind == k then [e] else []
    {
      FilterPush(ledger, e, IsKind(k));
    }
    forall m: nat
      ensures Sum(ledger + [e], AmountOf(m)) == Sum(ledger, AmountOf(m)) + AmountOf(m)(e)
      ensures Sum(ledger + [e], CreditOf(m)) == Sum(ledger, CreditOf(m)) + CreditOf(m)(e)
      ensures Sum(ledger + [e], RefundPart(m)) == Sum(ledger, RefundPart(m)) + RefundPart(m)(e)
      ensures Sum(ledger + [e], PayoutPart(m)) == Sum(ledger, PayoutPart(m)) + PayoutPart(m)(e)
      ensures Sum(ledger + [e], PositiveAdjustment(m)) == Sum(ledger, PositiveAdjustment(m)) + PositiveAdjustment(m)(e)
    {
      SumPush(ledger, e, AmountOf(m));
      SumPush(ledger, e, CreditOf(m));
      SumPush(ledger, e, RefundPart(m));
      SumPush(ledger, e, PayoutPart(m));
      SumPush(ledger, e, PositiveAdjustment(m));
    }
  }

  lemma PaymentSet(payments: seq<Payment>, i: nat, p: Payment)
    requires i < |payments|
    ensures forall m :: Sum(payments[i := p], DueOf(m)) == Sum(payments, DueOf(m)) - DueOf(m)(payments[i]) + DueOf(m)(p)
  {
    forall m: nat
      ensures Sum(payments[i := p], DueOf(m)) == Sum(payments, DueOf(m)) - DueOf(m)(payments[i]) + DueOf(m)(p)
    {
      SumSet(payments, i, p, DueOf(m));
    }
  }

  lemma PayoutSet(payouts: seq<Payout>, i: nat, o: Payout)
    requires i < |payouts|
    ensures forall m :: Sum(payouts[i := o], LiveOf(m)) == Sum(payouts, LiveOf(m)) - LiveOf(m)(payouts[i]) + LiveOf(m)(o)
  {
    forall m: nat
      ensures Sum(payouts[i := o], LiveOf(m)) == Sum(payouts, LiveOf(m)) - LiveOf(m)(payouts[i]) + LiveOf(m)(o)
    {
      SumSet(payouts, i, o, LiveOf(m));
    }
  }

  // --------------------------------------- every table change keeps everything

  // A database follows another, so far as the other workers are concerned, when
  // rows stay where they are, order columns never change, the ledger, the
  // callbacks and the reports only grow, and nothing a lock protects has moved
  // except what the `mover` has locked.

  ghost predicate PaymentsFollow(db: Db, db': Db, mover: Tx) {
    && |db.payments| <= |db'.payments|
    && forall i :: 0 <= i < |db.payments| ==>
         && db.payments[i].SameOrder(db'.payments[i]) && db.payments[i].trail <= db'.payments[i].trail
         && (Paid in db.payments[i].trail ==> (Expired in db'.payments[i].trail ==> Expired in db.payments[i].trail))
         && (mover.LocksPayment(i) ||
              (db.payments[i] == db'.payments[i] && RefundedOf(db.refunds, i) == RefundedOf(db'.refunds, i)))
  }

  ghost predicate PayoutsFollow(payouts: seq<Payout>, payouts': seq<Payout>, mover: Tx) {
    && |payouts| <= |payouts'|
    && (forall i :: 0 <= i < |payouts| ==> payouts[i] == payouts'[i] || mover.LocksPayout(i))
    && (forall m :: mover.LocksMerchant(m) ||
          ((HasOpen(payouts', m) ==> HasOpen(payouts, m)) && LivePayouts(payouts', m) <= LivePayouts(payouts, m)))
  }

  ghost predicate LedgerFollows(ledger: seq<Entry>, ledger': seq<Entry>) {
    forall m :: Credited(ledger, m) + Granted(ledger, m) <= Credited(ledger', m) + Granted(ledger', m)
  }

  ghost predicate CallbacksFollow(callbacks: seq<Callback>, callbacks': seq<Callback>, mover: Tx) {
    forall i, event :: Queued(callbacks', i, event) ==>
      Queued(callbacks, i, event) || (mover.Notifying? && mover.payment == i && mover.event == event)
  }

  ghost predicate Follows(db: Db, db': Db, mover: Tx) {
    && ((db.payments == db'.payments && db.refunds == db'.refunds) || PaymentsFollow(db, db', mover))
    && (db.payouts == db'.payouts || PayoutsFollow(db.payouts, db'.payouts, mover))
    && (db.ledger == db'.ledger || LedgerFollows(db.ledger, db'.ledger))
    && (db.callbacks == db'.callbacks || CallbacksFollow(db.callbacks, db'.callbacks, mover))
    && db.reports <= db'.reports
  }

  /** A worker compatible with the mover still has its facts. */
  lemma Undisturbed(db: Db, db': Db, mover: Tx, t: Tx)
    requires Follows(db, db', mover) && Compatible(mover, t) && TxOk(db, t)
    requires t.Notifying? ==> Paid in db.payments[t.payment].trail || t.event != Paid
    ensures TxOk(db', t)
  {
    if t.PayoutTx? {
      assert !mover.LocksMerchant(t.m);
    }
  }

  // For each change: the ledger rows, then the sums and the documents, then
  // what the other workers rely on.

  /** The ledger rows stay exact when one row is added for one document. */
  lemma RowAdded(db: Db, db': Db, e: Entry)
    requires RowsOk(db) && db'.ledger == db.ledger + [e]
    requires forall k: Kind :: !k.Adjustment? ==> RowsDue(db', k) == RowsDue(db, k) + if e.kind == k then [e] else []
    ensures RowsOk(db')
  {
    LedgerPush(db.ledger, e);
  }

  /** And when no row is added and no document's due rows change. */
  lemma NoRowAdded(db: Db, db': Db)
    requires RowsOk(db) && db'.ledger == db.ledger
    requires forall k: Kind :: !k.Adjustment? ==> RowsDue(db', k) == RowsDue(db, k)
    ensures RowsOk(db')
  {
  }

  // Create

  lemma CreateDocuments(db: Db, db': Db, merchant: nat, amount: int, fee: int, production: bool, provider: nat)
    requires PaymentsOk(db) && CallbacksOk(db) && amount > 0 && fee >= 0 && (fee > 0 ==> amount <= Fee.MAX_NOMINAL)
    requires db' == AddPayment(db, merchant, amount, fee, production, provider)
    ensures PaymentsOk(db') && CallbacksOk(db')
  {
    SumZero(db.refunds, OfPayment(|db.payments|));
  }

  lemma CreateMerchants(db: Db, db': Db, merchant: nat, amount: int, fee: int, production: bool, provider: nat)
    requires forall m :: MerchantOk(db, m)
    requires db' == AddPayment(db, merchant, amount, fee, production, provider)
    ensures forall m :: MerchantOk(db', m)
  {
    var n := |db.payments|;
    forall m: nat
      ensures MerchantOk(db', m)
    {
      assert MerchantOk(db, m);
      SumPush(db.payments, db'.payments[n], DueOf(m));
    }
  }

  lemma CreateKeeps(db: Db, merchant: nat, amount: int, fee: int, production: bool, provider: nat)
    requires DbOk(db) && amount > 0 && fee >= 0 && (fee > 0 ==> amount <= Fee.MAX_NOMINAL)
    ensures var db' := AddPayment(db, merchant, amount, fee, production, provider); DbOk(db') && Follows(db, db', Idle)
  {
    hide RowsOk, MerchantOk;
    var db' := AddPayment(db, merchant, amount, fee, production, provider);
    NoRowAdded(db, db');
    CreateMerchants(db, db', merchant, amount, fee, production, provider);
    CreateDocuments(db, db', merchant, amount, fee, production, provider);
  }

  // Payouts

  lemma AddPayoutDocuments(db: Db, db': Db, merchant: nat, amount: int)
    requires (forall m :: MerchantOk(db, m)) && PayoutsOk(db.payouts)
    requires TxOk(db, PayoutTx(merchant, amount, PayoutDebitRow)) && db' == AddPayout(db, merchant, amount)
    ensures (forall m :: MerchantOk(db', m)) && PayoutsOk(db'.payouts)
  {
    var n := |db.payouts|;
    LedgerPush(db.ledger, Entry(merchant, PayoutDebit(n), -amount));
    forall m: nat
      ensures MerchantOk(db', m)
    {
      assert MerchantOk(db, m);
      SumPush(db.payouts, db'.payouts[n], LiveOf(m));
    }
  }

  lemma AddPayoutFollows(db: Db, db': Db, merchant: nat, amount: int)
    requires db' == AddPayout(db, merchant, amount)
    ensures Follows(db, db', PayoutTx(merchant, amount, PayoutDebitRow))
  {
    var n := |db.payouts|;
    LedgerPush(db.ledger, Entry(merchant, PayoutDebit(n), -amount));
    forall m: nat
      ensures LivePayouts(db'.payouts, m) == LivePayouts(db.payouts, m) + LiveOf(m)(db'.payouts[n])
    {
      SumPush(db.payouts, db'.payouts[n], LiveOf(m));
    }
  }

  lemma AddPayoutRows(db: Db, db': Db, merchant: nat, amount: int)
    requires RowsOk(db) && db' == AddPayout(db, merchant, amount)
    ensures RowsOk(db')
  {
    RowAdded(db, db', Entry(merchant, PayoutDebit(|db.payouts|), -amount));
  }

  lemma AddPayoutKeeps(db: Db, merchant: nat, amount: int)
    requires DbOk(db) && TxOk(db, PayoutTx(merchant, amount, PayoutDebitRow))
    ensures var db' := AddPayout(db, merchant, amount); DbOk(db') && Follows(db, db', PayoutTx(merchant, amount, PayoutDebitRow))
  {
    hide RowsOk, MerchantOk;
    var db' := AddPayout(db, merchant, amount);
    AddPayoutRows(db, db', merchant, amount);
    AddPayoutDocuments(db, db', merchant, amount);
    AddPayoutFollows(db, db', merchant, amount);
  }

  /** Marking paid or rejecting: the payout row, and for a rejection the reversal. */
  lemma ProcessDocuments(db: Db, db': Db, id: nat)
    requires (forall m :: MerchantOk(db, m)) && PayoutsOk(db.payouts) && id < |db.payouts| && db.payouts[id].status == Requested
    requires db' == PayPayout(db, id) || db' == ReversePayout(db, id)
    ensures (forall m :: MerchantOk(db', m)) && PayoutsOk(db'.payouts)
  {
    var o := db.payouts[id];
    PayoutSet(db.payouts, id, db'.payouts[id]);
    LedgerPush(db.ledger, Entry(o.merchant, PayoutReversal(id), o.amount));
    forall m: nat
      ensures MerchantOk(db', m)
    {
      assert MerchantOk(db, m);
    }
  }

  lemma ProcessFollows(db: Db, db': Db, id: nat)
    requires PayoutsOk(db.payouts) && id < |db.payouts| && db.payouts[id].status == Requested
    requires db' == PayPayout(db, id) || db' == ReversePayout(db, id)
    ensures Follows(db, db', RejectTx(id, true))
  {
    var o := db.payouts[id];
    PayoutSet(db.payouts, id, db'.payouts[id]);
    LedgerPush(db.ledger, Entry(o.merchant, PayoutReversal(id), o.amount));
  }

  lemma PayPayoutKeeps(db: Db, id: nat)
    requires DbOk(db) && id < |db.payouts| && db.payouts[id].status == Requested
    ensures var db' := PayPayout(db, id); DbOk(db') && Follows(db, db', RejectTx(id, true))
  {
    hide RowsOk, MerchantOk;
    var db' := PayPayout(db, id);
    NoRowAdded(db, db');
    ProcessDocuments(db, db', id);
    ProcessFollows(db, db', id);
  }

  lemma ReversePayoutKeeps(db: Db, id: nat)
    requires DbOk(db) && id < |db.payouts| && db.payouts[id].status == Requested
    ensures var db' := ReversePayout(db, id); DbOk(db') && Follows(db, db', RejectTx(id, true))
  {
    hide RowsOk, MerchantOk;
    var db' := ReversePayout(db, id);
    RowAdded(db, db', Entry(db.payouts[id].merchant, PayoutReversal(id), db.payouts[id].amount));
    ProcessDocuments(db, db', id);
    ProcessFollows(db, db', id);
  }

  // Adjustments

  lemma AdjustDocuments(db: Db, merchant: nat, delta: int)
    requires forall m :: MerchantOk(db, m)
    ensures var db' := AddAdjustment(db, merchant, delta); (forall m :: MerchantOk(db', m)) && Follows(db, db', Idle)
  {
    var db' := AddAdjustment(db, merchant, delta);
    LedgerPush(db.ledger, Entry(merchant, Adjustment, delta));
    forall m: nat
      ensures MerchantOk(db', m)
    {
      assert MerchantOk(db, m);
    }
  }

  lemma AdjustKeeps(db: Db, merchant: nat, delta: int)
    requires DbOk(db)
    ensures var db' := AddAdjustment(db, merchant, delta); DbOk(db') && Follows(db, db', Idle)
  {
    hide RowsOk, MerchantOk;
    RowAdded(db, AddAdjustment(db, merchant, delta), Entry(merchant, Adjustment, delta));
    AdjustDocuments(db, merchant, delta);
  }

  // Settlements and other status changes

  lemma SettlePayments(db: Db, t: Tx)
    requires PaymentsOk(db) && t.PaidTx? && TxOk(db, t)
    ensures PaymentsOk(SettlePayment(db, t.payment, t.net))
  {
    var p := db.payments[t.payment];
    assert PaymentOk(p, t.payment, db.reports) && RefundsOk(p, RefundedOf(db.refunds, t.payment));
    Fee.MerchantNetNonNegative(p.amount, p.fee);
  }

  lemma SettleMerchants(db: Db, t: Tx)
    requires (forall m :: MerchantOk(db, m)) && PaymentsOk(db) && t.PaidTx? && TxOk(db, t)
    ensures var db' := SettlePayment(db, t.payment, t.net); forall m :: MerchantOk(db', m)
  {
    var db' := SettlePayment(db, t.payment, t.net);
    var p := db.payments[t.payment];
    assert PaymentOk(p, t.payment, db.reports);
    Fee.MerchantNetNonNegative(p.amount, p.fee);
    PaymentSet(db.payments, t.payment, db'.payments[t.payment]);
    LedgerPush(db.ledger, Entry(p.merchant, PaymentCredit(t.payment), t.net));
    forall m: nat
      ensures MerchantOk(db', m)
    {
      assert MerchantOk(db, m);
    }
  }

  lemma SettleFollows(db: Db, t: Tx)
    requires PaymentsOk(db) && t.PaidTx? && TxOk(db, t)
    ensures Follows(db, SettlePayment(db, t.payment, t.net), t)
  {
    var p := db.payments[t.payment];
    assert PaymentOk(p, t.payment, db.reports);
    PathShape(p.trail);
    LedgerPush(db.ledger, Entry(p.merchant, PaymentCredit(t.payment), t.net));
  }

  lemma SettleCallbacks(db: Db, t: Tx)
    requires PaymentsOk(db) && CallbacksOk(db) && t.PaidTx? && TxOk(db, t)
    ensures var db' := SettlePayment(db, t.payment, t.net);
      && CallbacksOk(db')
      && TxOk(db', Notifying(t.payment, Paid, t.previous == Expired)) && Paid !in db.payments[t.payment].trail
  {
    var p := db.payments[t.payment];
    assert PaymentOk(p, t.payment, db.reports);
    PathShape(p.trail);
  }

  lemma SettleRows(db: Db, id: nat, net: int)
    requires RowsOk(db) && id < |db.payments| && !db.payments[id].Settled()
    ensures RowsOk(SettlePayment(db, id, net))
  {
    hide RowsOk;
    var db' := SettlePayment(db, id, net);
    var p := db.payments[id];
    var e := Entry(p.merchant, PaymentCredit(id), net);
    if p.production && net > 0 {
      forall k: Kind | !k.Adjustment?
        ensures RowsDue(db', k) == RowsDue(db, k) + if e.kind == k then [e] else []
      {
      }
      RowAdded(db, db', e);
    } else {
      NoRowAdded(db, db');
    }
  }

  lemma SettleKeeps(db: Db, t: Tx)
    requires DbOk(db) && t.PaidTx? && TxOk(db, t)
    ensures var db' := SettlePayment(db, t.payment, t.net);
      && DbOk(db') && Follows(db, db', t)
      && TxOk(db', Notifying(t.payment, Paid, t.previous == Expired)) && Paid !in db.payments[t.payment].trail
  {
    hide RowsOk, MerchantOk;
    SettleRows(db, t.payment, t.net);
    SettlePayments(db, t);
    SettleMerchants(db, t);
    SettleCallbacks(db, t);
    SettleFollows(db, t);
  }

  lemma MoveStatusDocuments(db: Db, id: nat, to: Status)
    requires (forall m :: MerchantOk(db, m)) && PaymentsOk(db) && id < |db.payments| && to != Paid && to != Refunded
    requires db.payments[id].status in AllowedSourceStatuses(to)
    ensures var db' := MoveStatus(db, id, to); (forall m :: MerchantOk(db', m)) && PaymentsOk(db')
  {
    var db' := MoveStatus(db, id, to);
    PaymentSet(db.payments, id, db'.payments[id]);
    forall m: nat
      ensures MerchantOk(db', m)
    {
      assert MerchantOk(db, m);
    }
  }

  lemma MoveStatusFollows(db: Db, id: nat, to: Status)
    requires PaymentsOk(db) && CallbacksOk(db) && id < |db.payments| && to != Paid && to != Refunded
    requires db.payments[id].status in AllowedSourceStatuses(to)
    ensures var db' := MoveStatus(db, id, to);
      && CallbacksOk(db') && Follows(db, db', PaidTx(id, Pending, 0, false))
      && TxOk(db', Notifying(id, to, false)) && to !in db.payments[id].trail
  {
    assert PaymentOk(db.payments[id], id, db.reports);
    PathShape(db.payments[id].trail);
  }

  lemma MoveStatusKeeps(db: Db, id: nat, to: Status)
    requires DbOk(db) && id < |db.payments| && to != Paid && to != Refunded
    requires db.payments[id].status in AllowedSourceStatuses(to)
    ensures var db' := MoveStatus(db, id, to);
      && DbOk(db') && Follows(db, db', PaidTx(id, Pending, 0, false))
      && TxOk(db', Notifying(id, to, false)) && to !in db.payments[id].trail
  {
    hide RowsOk, MerchantOk;
    NoRowAdded(db, MoveStatus(db, id, to));
    MoveStatusDocuments(db, id, to);
    MoveStatusFollows(db, id, to);
  }

  // Refunds: closing when the refund exhausts the net

  function Refunding(db: Db, t: Tx, closing: bool): Db
    requires t.RefundTx? && t.payment < |db.payments|
  {
    var added := AddRefund(db, t.payment, t.row.merchant, t.amount);
    if closing then CloseRefunded(added, t.payment) else added
  }

  lemma RefundPush(refunds: seq<Refund>, r: Refund)
    ensures forall m :: Sum(refunds + [r], ToMerchant(m)) == Sum(refunds, ToMerchant(m)) + ToMerchant(m)(r)
    ensures forall i :: Sum(refunds + [r], OfPayment(i)) == Sum(refunds, OfPayment(i)) + OfPayment(i)(r)
  {
    forall x: nat
      ensures Sum(refunds + [r], ToMerchant(x)) == Sum(refunds, ToMerchant(x)) + ToMerchant(x)(r)
      ensures Sum(refunds + [r], OfPayment(x)) == Sum(refunds, OfPayment(x)) + OfPayment(x)(r)
    {
      SumPush(refunds, r, ToMerchant(x));
      SumPush(refunds, r, OfPayment(x));
    }
  }

  lemma RefundMerchants(db: Db, t: Tx, closing: bool)
    requires (forall m :: MerchantOk(db, m)) && t.RefundTx? && TxOk(db, t)
    ensures forall m :: MerchantOk(Refunding(db, t, closing), m)
  {
    var db' := Refunding(db, t, closing);
    var p := db.payments[t.payment];
    LedgerPush(db.ledger, Entry(p.merchant, RefundDebit(t.payment, |db.refunds|), -t.amount));
    PaymentSet(db.payments, t.payment, p.Move(Refunded));
    RefundPush(db.refunds, Refund(t.payment, p.merchant, t.amount));
    forall m: nat
      ensures MerchantOk(db', m)
    {
      assert MerchantOk(db, m);
    }
  }

  lemma RefundPayments(db: Db, t: Tx, closing: bool)
    requires PaymentsOk(db) && t.RefundTx? && TxOk(db, t) && t.refundStage != PaymentLocked
    requires closing <==> t.amount == t.remaining
    ensures PaymentsOk(Refunding(db, t, closing))
  {
    var p := db.payments[t.payment];
    RefundPush(db.refunds, Refund(t.payment, p.merchant, t.amount));
  }

  lemma RefundFollows(db: Db, t: Tx, closing: bool)
    requires PaymentsOk(db) && t.RefundTx? && TxOk(db, t)
    ensures Follows(db, Refunding(db, t, closing), t)
  {
    var p := db.payments[t.payment];
    LedgerPush(db.ledger, Entry(p.merchant, RefundDebit(t.payment, |db.refunds|), -t.amount));
    RefundPush(db.refunds, Refund(t.payment, p.merchant, t.amount));
  }

  lemma RefundCallbacks(db: Db, t: Tx, closing: bool)
    requires PaymentsOk(db) && CallbacksOk(db) && t.RefundTx? && TxOk(db, t)
    ensures var db' := Refunding(db, t, closing);
      && CallbacksOk(db')
      && (closing ==> TxOk(db', Notifying(t.payment, Refunded, false)) && Refunded !in db.payments[t.payment].trail)
  {
    var p := db.payments[t.payment];
    assert PaymentOk(p, t.payment, db.reports);
    PathShape(p.trail);
  }

  lemma RefundRows(db: Db, t: Tx, closing: bool)
    requires RowsOk(db) && t.RefundTx? && t.payment < |db.payments|
    requires t.row == db.payments[t.payment] && t.row.status == Paid
    ensures RowsOk(Refunding(db, t, closing))
  {
    hide RowsOk;
    var db' := Refunding(db, t, closing);
    var e := Entry(t.row.merchant, RefundDebit(t.payment, |db.refunds|), -t.amount);
    forall k: Kind | !k.Adjustment?
      ensures RowsDue(db', k) == RowsDue(db, k) + if e.kind == k then [e] else []
    {
    }
    RowAdded(db, db', e);
  }

  lemma RefundKeeps(db: Db, t: Tx, closing: bool)
    requires DbOk(db) && t.RefundTx? && TxOk(db, t) && t.refundStage != PaymentLocked
    requires closing <==> t.amount == t.remaining
    ensures var db' := Refunding(db, t, closing);
      && DbOk(db') && Follows(db, db', t)
      && (closing ==> TxOk(db', Notifying(t.payment, Refunded, false)) && Refunded !in db.payments[t.payment].trail)
  {
    hide RowsOk, MerchantOk;
    RefundRows(db, t, closing);
    RefundMerchants(db, t, closing);
    RefundPayments(db, t, closing);
    RefundCallbacks(db, t, closing);
    RefundFollows(db, t, closing);
  }

  // Notifications and provider reports

  lemma QueueCallbacks(db: Db, t: Tx)
    requires CallbacksOk(db) && t.Notifying? && TxOk(db, t)
    ensures var db' := Queue(db, Callback(t.payment, t.event, t.late)); CallbacksOk(db') && Follows(db, db', t)
  {
    forall i | 0 <= i < |db.callbacks|
      ensures db.callbacks[i].payment != t.payment || db.callbacks[i].event != t.event
    {
      assert db.callbacks[i] in db.callbacks;
    }
  }

  lemma QueueKeeps(db: Db, t: Tx)
    requires DbOk(db) && t.Notifying? && TxOk(db, t)
    ensures var db' := Queue(db, Callback(t.payment, t.event, t.late)); DbOk(db') && Follows(db, db', t)
  {
    var db' := Queue(db, Callback(t.payment, t.event, t.late));
    NoRowAdded(db, db');
    forall m: nat
      ensures MerchantOk(db', m)
    {
      assert MerchantOk(db, m);
    }
    QueueCallbacks(db, t);
  }

  lemma ReportKeeps(db: Db, report: Report)
    requires DbOk(db)
    ensures var db' := db.(reports := db.reports + {report}); DbOk(db') && Follows(db, db', Idle)
  {
    var db' := db.(reports := db.reports + {report});
    NoRowAdded(db, db');
    forall m: nat
      ensures MerchantOk(db', m)
    {
      assert MerchantOk(db, m);
    }
  }

  // ---------------------------------------------------------- every step keeps

  /** Worker w changes the tables as `mover` and goes on as t. */
  lemma Moved(s: State, w: nat, db': Db, mover: Tx, t: Tx)
    requires Inv(s) && DbOk(db') && Follows(s.db, db', mover) && TxOk(db', t)
    requires forall v :: v in s.tx && v != w ==> Compatible(mover, s.tx[v])
    requires forall v :: v in s.tx && v != w ==> Compatible(t, s.tx[v]) && Compatible(s.tx[v], t)
    ensures Inv(State(db', s.tx[w := t]))
  {
    hide DbOk, Follows;
    var s' := State(db', s.tx[w := t]);
    forall v | v in s'.tx
      ensures TxOk(db', s'.tx[v])
    {
      if v != w {
        Undisturbed(s.db, db', mover, s.tx[v]);
      }
    }
  }

  /** Worker w only changes its own state. */
  lemma Turned(s: State, w: nat, t: Tx)
    requires Inv(s) && TxOk(s.db, t)
    requires forall v :: v in s.tx && v != w ==> Compatible(t, s.tx[v]) && Compatible(s.tx[v], t)
    ensures Inv(s.Put(w, t))
  {
    hide DbOk, Follows;
  }

  /** The tables change and worker w, which is idle, stays idle. */
  lemma Changed(s: State, db': Db, mover: Tx)
    requires Inv(s) && DbOk(db') && Follows(s.db, db', mover)
    requires forall v :: v in s.tx ==> Compatible(mover, s.tx[v])
    ensures Inv(s.(db := db'))
  {
    hide DbOk, Follows;
    forall v | v in s.tx
      ensures TxOk(db', s.tx[v])
    {
      Undisturbed(s.db, db', mover, s.tx[v]);
    }
  }

  /** Nobody else can still owe, or have sent, news of a status the payment
      has not had before. */
  lemma NoticeIsNew(s: State, w: nat, id: nat, event: Status, late: bool)
    requires Inv(s) && id < |s.db.payments| && event !in s.db.payments[id].trail
    ensures forall v :: v in s.tx && v != w ==> Compatible(Notifying(id, event, late), s.tx[v]) && Compatible(s.tx[v], Notifying(id, event, late))
  {
    forall v | v in s.tx
      ensures Compatible(Notifying(id, event, late), s.tx[v])
    {
      assert TxOk(s.db, s.tx[v]);
    }
  }

  lemma PayPayoutBegins(s: State, id: nat)
    requires Inv(s) && id < |s.db.payouts| && !s.PayoutBusy(id) && s.db.payouts[id].status == Requested
    ensures Inv(s.(db := PayPayout(s.db, id)))
  {
    hide DbOk, Follows;
    PayPayoutKeeps(s.db, id);
    Changed(s, PayPayout(s.db, id), RejectTx(id, true));
  }

  lemma UpdateStatusBegins(s: State, w: nat, id: nat, to: Status)
    requires Inv(s) && id < |s.db.payments| && !s.PaymentBusy(id) && to != Paid && to != Refunded
    requires s.db.payments[id].status in AllowedSourceStatuses(to)
    ensures Inv(s.(db := MoveStatus(s.db, id, to)).Put(w, Notifying(id, to, false)))
  {
    hide DbOk, Follows;
    MoveStatusKeeps(s.db, id, to);
    NoticeIsNew(s, w, id, to, false);
    Moved(s, w, MoveStatus(s.db, id, to), PaidTx(id, Pending, 0, false), Notifying(id, to, false));
  }

  lemma BeginKeeps(s: State, w: nat, a: Action)
    requires Inv(s) && s.TxOf(w).Idle? && Begin(s, w, a) != s
    ensures Inv(Begin(s, w, a))
  {
    hide DbOk, Follows;
    var db := s.db;
    match a {
      case Create(m, nominal, customerBears, charge, charged, production, provider) =>
        var (amount, fee) := Fee.StoredAmounts(customerBears, nominal, charge, charged).value;
        CreateKeeps(db, m, amount, fee, production, provider);
        Changed(s, AddPayment(db, m, amount, fee, production, provider), Idle);
      case RequestPayout(m, amount, _) => Turned(s, w, PayoutTx(m, amount, MerchantLocked));
      case MarkPayoutPaid(id) => PayPayoutBegins(s, id);
      case RejectPayout(id) => Turned(s, w, RejectTx(id, false));
      case Adjust(m, delta) =>
        AdjustKeeps(db, m, delta);
        Changed(s, AddAdjustment(db, m, delta), Idle);
      case BeginRefund(id, amount) => Turned(s, w, RefundTx(id, db.payments[id], amount, 0, PaymentLocked));
      case Receive(id, _, hook) => Turned(s, w, Settling(id, db.payments[id], hook));
      case UpdateStatus(id, to) => UpdateStatusBegins(s, w, id, to);
      case _ => assert false;
    }
  }

  lemma AnswerIsHeard(db: Db, t: Tx, settled: bool, reported: Option<int>)
    requires t.Settling? && TxOk(db, t) && Verified(t.row, settled, reported, t.hook)
    ensures TxOk(db.(reports := db.reports + {Report(t.row.provider, t.payment, reported.value)}), Confirmed(t.payment, t.row, t.hook))
  {
    assert t.row.TotalAmount() == db.payments[t.payment].TotalAmount();
  }

  lemma AnswerKeeps(s: State, w: nat, t: Tx, settled: bool, reported: Option<int>)
    requires Inv(s) && t.Settling? && TxOk(s.db, t)
    ensures Inv(Answer(s, w, t, settled, reported))
  {
    hide DbOk, Follows;
    if settled && reported.Some? {
      var report := Report(t.row.provider, t.payment, reported.value);
      ReportKeeps(s.db, report);
      var db' := s.db.(reports := s.db.reports + {report});
      if Verified(t.row, settled, reported, t.hook) {
        AnswerIsHeard(s.db, t, settled, reported);
        Moved(s, w, db', Idle, Confirmed(t.payment, t.row, t.hook));
      } else {
        Moved(s, w, db', Idle, Idle);
      }
    } else {
      Turned(s, w, Idle);
    }
  }

  lemma AdvancePayoutKeeps(s: State, w: nat, m: nat, amount: int, stage: PayoutStage)
    requires Inv(s) && w in s.tx && s.tx[w] == PayoutTx(m, amount, stage)
    ensures Inv(AdvancePayout(s, w, m, amount, stage))
  {
    hide DbOk, Follows;
    var t := s.tx[w];
    match stage {
      case MerchantLocked =>
        Turned(s, w, if HasOpen(s.db.payouts, m) then Idle else PayoutTx(m, amount, NoOpen));
      case NoOpen =>
        BalanceCovers(s.db, m);
        Turned(s, w, if amount > Balance(s.db.ledger, m) then Idle else PayoutTx(m, amount, Funded));
      case Funded =>
        Turned(s, w, if HasOpen(s.db.payouts, m) then Idle else PayoutTx(m, amount, PayoutRow));
      case PayoutRow =>
        Turned(s, w, PayoutTx(m, amount, PayoutDebitRow));
      case PayoutDebitRow =>
        PayoutCommits(s, w, t);
    }
  }

  /** A balance is the sum of its four kinds of rows. */
  lemma BalanceSplits(ledger: seq<Entry>, m: nat)
    ensures Balance(ledger, m) == Credited(ledger, m) - PaidOutNet(ledger, m) - RefundDebits(ledger, m) + Adjustments(ledger, m)
    ensures Adjustments(ledger, m) <= Granted(ledger, m)
  {
    var movements := (e: Entry) => CreditOf(m)(e) + PayoutPart(m)(e);
    var others := (e: Entry) => RefundPart(m)(e) + AdjustmentPart(m)(e);
    SumAdd(ledger, CreditOf(m), PayoutPart(m), movements);
    SumAdd(ledger, RefundPart(m), AdjustmentPart(m), others);
    SumAdd(ledger, movements, others, AmountOf(m));
    SumLe(ledger, AdjustmentPart(m), PositiveAdjustment(m));
  }

  /** What a balance covers is covered by credits and grants alone. */
  lemma BalanceCovers(db: Db, m: nat)
    requires DbOk(db)
    ensures Balance(db.ledger, m) + LivePayouts(db.payouts, m) <= Credited(db.ledger, m) + Granted(db.ledger, m)
  {
    BalanceSplits(db.ledger, m);
    assert MerchantOk(db, m);
    var none := (r: Refund) => 0;
    SumZero(db.refunds, none);
    SumLe(db.refunds, none, ToMerchant(m)) by {
      forall r | r in db.refunds
        ensures none(r) <= ToMerchant(m)(r)
      {
        assert RefundOk(r, db.payments);
      }
    }
  }

  lemma RefundCommits(s: State, w: nat, t: Tx, closing: bool)
    requires Inv(s) && t.RefundTx? && w in s.tx && s.tx[w] == t && t.refundStage != PaymentLocked
    requires TxOk(s.db, t) && (closing <==> t.amount == t.remaining)
    ensures Inv(State(Refunding(s.db, t, closing), s.tx[w := if closing then Notifying(t.payment, Refunded, false) else Idle]))
  {
    hide DbOk, Follows;
    RefundKeeps(s.db, t, closing);
    if closing {
      NoticeIsNew(s, w, t.payment, Refunded, false);
    }
    Moved(s, w, Refunding(s.db, t, closing), t, if closing then Notifying(t.payment, Refunded, false) else Idle);
  }

  lemma AdvanceRefundKeeps(s: State, w: nat, t: Tx)
    requires Inv(s) && t.RefundTx? && w in s.tx && s.tx[w] == t
    ensures Inv(AdvanceRefund(s, w, t))
  {
    hide DbOk, Follows;
    assert TxOk(s.db, t);
    match t.refundStage {
      case PaymentLocked =>
        var remaining := t.row.net - RefundedOf(s.db.refunds, t.payment);
        Turned(s, w, if t.amount > remaining then Idle else t.(remaining := remaining, refundStage := Summed));
      case Summed =>
        Turned(s, w, t.(refundStage := RefundRow));
      case RefundRow =>
        Turned(s, w, t.(refundStage := RefundDebitRow));
      case RefundDebitRow =>
        if t.remaining - t.amount != 0 {
          RefundCommits(s, w, t, false);
        } else {
          Turned(s, w, t.(refundStage := StatusRow));
        }
      case StatusRow =>
        RefundCommits(s, w, t, true);
    }
  }

  lemma BeginMarkPaidKeeps(s: State, w: nat, t: Tx)
    requires Inv(s) && t.Confirmed? && w in s.tx && s.tx[w] == t
    ensures Inv(BeginMarkPaid(s, w, t.payment, Fee.MerchantNetFor(t.row.amount, t.row.fee)))
  {
    hide DbOk, Follows;
    assert TxOk(s.db, t);
    var net := Fee.MerchantNetFor(t.row.amount, t.row.fee);
    if net.None? {
      Turned(s, w, Idle);
    } else if !s.PaymentBusy(t.payment) {
      var previous := s.db.payments[t.payment].status;
      Turned(s, w, if previous in AllowedSourceStatuses(Paid) then PaidTx(t.payment, previous, net.value, false) else Idle);
    }
  }

  lemma RejectCommits(s: State, w: nat, t: Tx)
    requires Inv(s) && t.RejectTx? && t.reversed && w in s.tx && s.tx[w] == t && TxOk(s.db, t)
    ensures Inv(State(ReversePayout(s.db, t.payout), s.tx[w := Idle]))
  {
    hide DbOk, Follows;
    ReversePayoutKeeps(s.db, t.payout);
    Moved(s, w, ReversePayout(s.db, t.payout), t, Idle);
  }

  lemma SettleCommits(s: State, w: nat, t: Tx)
    requires Inv(s) && t.PaidTx? && w in s.tx && s.tx[w] == t && TxOk(s.db, t)
    ensures Inv(State(SettlePayment(s.db, t.payment, t.net), s.tx[w := Notifying(t.payment, Paid, t.previous == Expired)]))
  {
    hide DbOk, Follows;
    SettleKeeps(s.db, t);
    NoticeIsNew(s, w, t.payment, Paid, t.previous == Expired);
    Moved(s, w, SettlePayment(s.db, t.payment, t.net), t, Notifying(t.payment, Paid, t.previous == Expired));
  }

  lemma QueueCommits(s: State, w: nat, t: Tx)
    requires Inv(s) && t.Notifying? && w in s.tx && s.tx[w] == t && TxOk(s.db, t)
    ensures Inv(State(Queue(s.db, Callback(t.payment, t.event, t.late)), s.tx[w := Idle]))
  {
    hide DbOk, Follows;
    QueueKeeps(s.db, t);
    Moved(s, w, Queue(s.db, Callback(t.payment, t.event, t.late)), t, Idle);
  }

  lemma PayoutCommits(s: State, w: nat, t: Tx)
    requires Inv(s) && t.PayoutTx? && t.payoutStage == PayoutDebitRow && w in s.tx && s.tx[w] == t && TxOk(s.db, t)
    ensures Inv(State(AddPayout(s.db, t.m, t.amount), s.tx[w := Idle]))
  {
    hide DbOk, Follows;
    AddPayoutKeeps(s.db, t.m, t.amount);
    Moved(s, w, AddPayout(s.db, t.m, t.amount), t, Idle);
  }

  lemma AdvanceKeeps(s: State, w: nat, t: Tx)
    requires Inv(s) && s.TxOf(w) == t
    ensures Inv(AdvanceTx(s, w, t))
  {
    hide DbOk, Follows;
    if w in s.tx {
      assert TxOk(s.db, t);
      match t {
        case Idle =>
        case Settling(_, _, _) =>
        case PayoutTx(m, amount, stage) => AdvancePayoutKeeps(s, w, m, amount, stage);
        case RejectTx(id, reversed) =>
          if reversed {
            RejectCommits(s, w, t);
          } else {
            Turned(s, w, t.(reversed := true));
          }
        case RefundTx(_, _, _, _, _) => AdvanceRefundKeeps(s, w, t);
        case Confirmed(_, _, _) => BeginMarkPaidKeeps(s, w, t);
        case PaidTx(id, previous, net, credited) =>
          if credited {
            SettleCommits(s, w, t);
          } else {
            Turned(s, w, t.(credited := true));
          }
        case Notifying(_, _, _) => QueueCommits(s, w, t);
      }
    }
  }

  /** No statement of any worker breaks the invariant. */
  lemma StepKeeps(s: State, w: nat, a: Action)
    requires Inv(s)
    ensures Inv(Step(s, w, a))
  {
    hide DbOk, Follows;
    var t := s.TxOf(w);
    if a.Abort? {
      Turned(s, w, Idle);
    } else if a.Advance? {
      AdvanceKeeps(s, w, t);
    } else if a.ProviderSays? {
      if t.Settling? {
        AnswerKeeps(s, w, t, a.settled, a.reported);
      }
    } else if t.Idle? && Begin(s, w, a) != s {
      BeginKeeps(s, w, a);
    }
  }

  /** So it holds after every interleaving. */
  lemma {:induction false} RunKeeps(s: State, events: seq<Event>)
    requires Initial(s)
    ensures Inv(Exec(s, events))
  {
    if |events| > 0 {
      RunKeeps(s, events[..|events| - 1]);
      var last := events[|events| - 1];
      StepKeeps(Exec(s, events[..|events| - 1]), last.worker, last.action);
    }
  }
}
