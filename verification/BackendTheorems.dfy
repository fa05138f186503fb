// What the invariant means for the people whose money it is. Every theorem is
// about every interleaving: any number of workers, any operations and inputs,
// any statement order, and aborts or crashes at any point.

module BackendTheorems {
  import opened Sums
  import opened Options
  import opened PaymentDomain
  import opened Backend
  import opened BackendInvariant
  import Fee

  // ------------------------------------------------------------- conservation

  /** In every committed state a merchant's balance is what its settled
      production payments are worth, less its refunds, less its requested and
      paid payouts, plus its adjustments; and Summary splits it that way. */
  lemma Conservation(s0: State, events: seq<Event>, m: nat)
    requires Initial(s0)
    ensures var db := Exec(s0, events).db;
      && Balance(db.ledger, m) == NetsDue(db.payments, m) - RefundsMade(db.refunds, m)
                                  - LivePayouts(db.payouts, m) + Adjustments(db.ledger, m)
      && SummaryOf(db.ledger, m) == Summary(
           NetsDue(db.payments, m) - RefundsMade(db.refunds, m) - LivePayouts(db.payouts, m) + Adjustments(db.ledger, m),
           NetsDue(db.payments, m), LivePayouts(db.payouts, m), RefundsMade(db.refunds, m))
  {
    RunKeeps(s0, events);
    var db := Exec(s0, events).db;
    assert MerchantOk(db, m);
    BalanceSplits(db.ledger, m);
  }

  /** Document by document: the ledger holds exactly the rows each payment,
      refund and payout calls for, with their merchant and amount, and no
      other row but adjustments. */
  lemma LedgerMatchesDocuments(s0: State, events: seq<Event>, k: Kind)
    requires Initial(s0) && !k.Adjustment?
    ensures var db := Exec(s0, events).db; Rows(db.ledger, k) == RowsDue(db, k)
  {
    RunKeeps(s0, events);
  }

  // ------------------------------------------------------------------ payouts

  /** Although credits, refunds, adjustments and rejections land between a
      request's lock, its balance read and its commit, a merchant's live payouts
      never exceed its credits plus its positive adjustments, and at most one
      is waiting. */
  lemma NoPayoutDoubleSpend(s0: State, events: seq<Event>, m: nat)
    requires Initial(s0)
    ensures var db := Exec(s0, events).db;
      && LivePayouts(db.payouts, m) <= Credited(db.ledger, m) + Granted(db.ledger, m)
      && (forall i, j | 0 <= i < |db.payouts| && 0 <= j < |db.payouts| && db.payouts[i].merchant == db.payouts[j].merchant == m
                        && db.payouts[i].status == db.payouts[j].status == Requested :: i == j)
  {
    RunKeeps(s0, events);
    assert MerchantOk(Exec(s0, events).db, m);
  }

  /** Each payout has exactly one debit, and exactly one reversal when it was
      rejected and none otherwise. */
  lemma OneDebitOneReversal(s0: State, events: seq<Event>, i: nat)
    requires Initial(s0) && i < |Exec(s0, events).db.payouts|
    ensures var db := Exec(s0, events).db; var o := db.payouts[i];
      && o.amount > 0
      && Rows(db.ledger, PayoutDebit(i)) == [Entry(o.merchant, PayoutDebit(i), -o.amount)]
      && Rows(db.ledger, PayoutReversal(i)) ==
           (if o.status == Rejected then [Entry(o.merchant, PayoutReversal(i), o.amount)] else [])
  {
    hide Inv, Exec, Initial;
    RunKeeps(s0, events);
    DebitAndReversal(Exec(s0, events), i);
  }

  lemma DebitAndReversal(s: State, i: nat)
    requires Inv(s) && i < |s.db.payouts|
    ensures var o := s.db.payouts[i];
      && o.amount > 0
      && Rows(s.db.ledger, PayoutDebit(i)) == [Entry(o.merchant, PayoutDebit(i), -o.amount)]
      && Rows(s.db.ledger, PayoutReversal(i)) ==
           (if o.status == Rejected then [Entry(o.merchant, PayoutReversal(i), o.amount)] else [])
  {
    hide Rows, MerchantOk, PaymentsOk, CallbacksOk, TxOk, Compatible;
    assert Rows(s.db.ledger, PayoutDebit(i)) == RowsDue(s.db, PayoutDebit(i));
    assert Rows(s.db.ledger, PayoutReversal(i)) == RowsDue(s.db, PayoutReversal(i));
  }

  /** The unique index on open payouts is a second line of defence only: the
      merchant row lock already keeps it from ever firing. */
  lemma UniqueIndexNeverFires(s0: State, events: seq<Event>, w: nat)
    requires Initial(s0) && Exec(s0, events).TxOf(w).PayoutTx? && Exec(s0, events).TxOf(w).payoutStage == Funded
    ensures var s := Exec(s0, events); Step(s, w, Advance).TxOf(w) == s.TxOf(w).(payoutStage := PayoutRow)
  {
    RunKeeps(s0, events);
    assert TxOk(Exec(s0, events).db, Exec(s0, events).TxOf(w));
  }

  /** A payout is processed at most once and for good: every step of everyone
      leaves its merchant and amount, and its status too unless it was waiting;
      so whatever a second processing is refused for stays true. */
  lemma PayoutIsProcessedOnce(s0: State, events: seq<Event>, w: nat, a: Action, i: nat)
    requires Initial(s0) && i < |Exec(s0, events).db.payouts|
    ensures var s := Exec(s0, events); var payouts := Step(s, w, a).db.payouts; var o := s.db.payouts[i];
      && i < |payouts| && payouts[i].merchant == o.merchant && payouts[i].amount == o.amount
      && (payouts[i].status != o.status ==> o.status == Requested && (a.MarkPayoutPaid? || (a.Advance? && s.TxOf(w).RejectTx?)))
  {
    RunKeeps(s0, events);
    var s := Exec(s0, events);
    assert w in s.tx ==> TxOk(s.db, s.tx[w]);
    hide Inv, Exec, Initial, Step;
    StepProcessesOnce(s, w, a, i);
  }

  lemma StepProcessesOnce(s: State, w: nat, a: Action, i: nat)
    requires i < |s.db.payouts| && (w in s.tx ==> TxOk(s.db, s.tx[w]))
    ensures var payouts := Step(s, w, a).db.payouts; var o := s.db.payouts[i];
      && i < |payouts| && payouts[i].merchant == o.merchant && payouts[i].amount == o.amount
      && (payouts[i].status != o.status ==> o.status == Requested && (a.MarkPayoutPaid? || (a.Advance? && s.TxOf(w).RejectTx?)))
  {
    hide MerchantOk, PaymentOk, RefundsOk, CallbacksOk;
  }

  /** The bound is not on the balance: a debit adjustment that lands between a
      request's balance read and its commit leaves the balance negative. Any
      positive amount and any later debit will do, and no refund is needed. */
  lemma BalanceMayGoNegative(m: nat, amount: int, debit: int)
    requires 0 < amount <= MAX_ADJUSTMENT && 0 < debit <= MAX_ADJUSTMENT
    ensures var s0 := State(Holding(m, []), map[]);
      && Initial(s0) && Balance(Exec(s0, OverdraftRun(m, amount, debit)).db.ledger, m) == -debit
      && Exec(s0, OverdraftRun(m, amount, debit)).db.refunds == []
  {
    hide Step, Exec;
    var s0 := State(Holding(m, []), map[]);
    var credited, debited, payout := Entry(m, Adjustment, amount), Entry(m, Adjustment, -debit), Entry(m, PayoutDebit(0), -amount);
    SumPush([], credited, AmountOf(m));
    SumPush([credited], debited, AmountOf(m));
    SumPush([credited, debited], payout, AmountOf(m));
    assert [] + [credited] == [credited] && [credited] + [debited] == [credited, debited];
    var adjust := [Event(2, Adjust(m, amount))];
    var drain := [Event(2, Adjust(m, -debit))];
    ExecAppend(s0, adjust, RequestEvents(m, amount));
    ExecAppend(s0, adjust + RequestEvents(m, amount), drain);
    ExecAppend(s0, adjust + RequestEvents(m, amount) + drain, FinishEvents());
    AdjustAlone(m, [], map[], amount);
    ExecThree(State(Holding(m, [credited]), map[]), Event(1, RequestPayout(m, amount, 1)), Event(1, Advance), Event(1, Advance));
    ReachFunded(Holding(m, [credited]), 1, m, amount, 1);
    AdjustAlone(m, [credited], map[1 := PayoutTx(m, amount, Funded)], -debit);
    ExecThree(State(Holding(m, [credited, debited]), map[1 := PayoutTx(m, amount, Funded)]),
              Event(1, Advance), Event(1, Advance), Event(1, Advance));
    FinishFunded(Holding(m, [credited, debited]), 1, m, amount);
  }

  function Holding(m: nat, ledger: seq<Entry>): Db { Db(map[m := true], [], [], [], ledger, [], {}) }
  function RequestEvents(m: nat, amount: int): seq<Event> {
    [Event(1, RequestPayout(m, amount, 1)), Event(1, Advance), Event(1, Advance)]
  }
  function FinishEvents(): seq<Event> { [Event(1, Advance), Event(1, Advance), Event(1, Advance)] }
  function OverdraftRun(m: nat, amount: int, debit: int): seq<Event> {
    [Event(2, Adjust(m, amount))] + RequestEvents(m, amount) + [Event(2, Adjust(m, -debit))] + FinishEvents()
  }

  lemma AdjustAlone(m: nat, ledger: seq<Entry>, tx: map<nat, Tx>, delta: int)
    requires delta != 0 && -MAX_ADJUSTMENT <= delta <= MAX_ADJUSTMENT && 2 !in tx
    ensures Exec(State(Holding(m, ledger), tx), [Event(2, Adjust(m, delta))])
         == State(Holding(m, ledger + [Entry(m, Adjustment, delta)]), tx)
  {
    assert Exec(State(Holding(m, ledger), tx), []) == State(Holding(m, ledger), tx);
  }

  lemma {:induction false} ExecAppend(s: State, early: seq<Event>, later: seq<Event>)
    ensures Exec(s, early + later) == Exec(Exec(s, early), later)
  {
    if |later| == 0 {
      assert early + later == early;
    } else {
      ExecAppend(s, early, later[..|later| - 1]);
      assert (early + later)[..|early + later| - 1] == early + later[..|later| - 1];
    }
  }

  lemma ExecThree(s: State, e: Event, f: Event, g: Event)
    ensures Exec(s, [e, f, g])
         == Step(Step(Step(s, e.worker, e.action), f.worker, f.action), g.worker, g.action)
  {
    assert [e, f, g][..2] == [e, f] && [e, f][..1] == [e] && [e][..0] == [];
    assert Exec(s, [e]) == Step(s, e.worker, e.action);
    assert Exec(s, [e, f]) == Step(Exec(s, [e]), f.worker, f.action);
  }

  /** A lone worker's request gets as far as its balance check... */
  lemma ReachFunded(db: Db, w: nat, m: nat, amount: int, minAmount: int)
    requires m in db.accounts && db.accounts[m] && 0 < amount && minAmount <= amount
    requires !HasOpen(db.payouts, m) && amount <= Balance(db.ledger, m)
    ensures Step(Step(Step(State(db, map[]), w, RequestPayout(m, amount, minAmount)), w, Advance), w, Advance)
         == State(db, map[w := PayoutTx(m, amount, Funded)])
  {
    var s1 := Step(State(db, map[]), w, RequestPayout(m, amount, minAmount));
    assert s1 == State(db, map[w := PayoutTx(m, amount, MerchantLocked)]);
    var s2 := Step(s1, w, Advance);
    assert s2 == State(db, map[w := PayoutTx(m, amount, NoOpen)]);
  }

  /** ... and then commits. */
  lemma FinishFunded(db: Db, w: nat, m: nat, amount: int)
    requires !HasOpen(db.payouts, m)
    ensures Step(Step(Step(State(db, map[w := PayoutTx(m, amount, Funded)]), w, Advance), w, Advance), w, Advance)
         == State(AddPayout(db, m, amount), map[w := Idle])
  {
    var s1 := Step(State(db, map[w := PayoutTx(m, amount, Funded)]), w, Advance);
    assert s1 == State(db, map[w := PayoutTx(m, amount, PayoutRow)]);
    var s2 := Step(s1, w, Advance);
    assert s2 == State(db, map[w := PayoutTx(m, amount, PayoutDebitRow)]);
  }

  // ------------------------------------------------------------------ refunds

  /** RefundSummary, as ListRefunds computes it from one snapshot. */
  datatype RefundSummary = RefundSummary(net: int, refunded: int, remaining: int, refundable: bool)

  function RefundView(db: Db, id: nat): RefundSummary
    requires id < |db.payments|
  {
    var p := db.payments[id];
    var refunded := RefundedOf(db.refunds, id);
    var remaining := if p.net - refunded < 0 then 0 else p.net - refunded;
    RefundSummary(p.net, refunded, remaining, p.production && p.status == Paid && remaining > 0)
  }

  /** A refund of this amount, begun now by an idle worker while nobody holds
      the payment, passes its checks and goes on to insert its rows. */
  predicate Accepted(s: State, w: nat, id: nat, amount: int) {
    var s1 := Step(s, w, BeginRefund(id, amount));
    var s2 := Step(s1, w, Advance);
    s1.TxOf(w).RefundTx? && s2.TxOf(w).RefundTx?
  }

  /** The refunds of a payment never exceed its net; its status is refunded
      exactly when they equal a positive net; only credited payments have any. */
  lemma RefundBound(s0: State, events: seq<Event>, i: nat)
    requires Initial(s0) && i < |Exec(s0, events).db.payments|
    ensures var db := Exec(s0, events).db; var p := db.payments[i];
      && 0 <= RefundedOf(db.refunds, i) <= p.net
      && (p.status == Refunded <==> p.net > 0 && RefundedOf(db.refunds, i) == p.net)
      && (RefundedOf(db.refunds, i) > 0 ==> p.Creditable())
  {
    RunKeeps(s0, events);
    var db := Exec(s0, events).db;
    assert RefundsOk(db.payments[i], RefundedOf(db.refunds, i));
  }

  /** ListRefunds is exact: the clamp at zero never fires, an amount is
      accepted exactly when it is positive, within `remaining`, and the payment
      is shown refundable; and refundable says that some amount is. */
  lemma ListRefundsIsExact(s0: State, events: seq<Event>, w: nat, i: nat, amount: int)
    requires Initial(s0) && i < |Exec(s0, events).db.payments|
    requires Exec(s0, events).TxOf(w).Idle? && !Exec(s0, events).PaymentBusy(i)
    ensures var s := Exec(s0, events); var view := RefundView(s.db, i);
      && view.remaining == view.net - view.refunded
      && (Accepted(s, w, i, amount) <==> view.refundable && 0 < amount <= view.remaining)
      && (view.refundable <==> exists x :: Accepted(s, w, i, x))
  {
    RunKeeps(s0, events);
    var s := Exec(s0, events);
    var view := RefundView(s.db, i);
    assert RefundsOk(s.db.payments[i], RefundedOf(s.db.refunds, i));
    forall x
      ensures Accepted(s, w, i, x) <==> view.refundable && 0 < x <= view.remaining
    {
      var s1 := Step(s, w, BeginRefund(i, x));
      if s1.TxOf(w).RefundTx? {
        assert s1.db == s.db;
      }
    }
    if view.refundable {
      assert Accepted(s, w, i, view.remaining);
    }
  }

  // --------------------------------------------------------------- settlement

  /** However webhooks, reconcile runs, expiry and refunds interleave on stale
      reads: a payment is credited at most once, exactly when it is a settled
      production payment with a positive net, with merchantNetFor of its stored
      amounts; it changes status at most three times; each status it reached
      has at most one queued first-attempt callback; and `late` is set exactly
      on the paid callback of a payment that had expired first. */
  lemma ExactlyOnceSettlement(s0: State, events: seq<Event>, i: nat)
    requires Initial(s0) && i < |Exec(s0, events).db.payments|
    ensures var db := Exec(s0, events).db; var p := db.payments[i];
      && Rows(db.ledger, PaymentCredit(i)) == (if p.Creditable() then [Entry(p.merchant, PaymentCredit(i), p.net)] else [])
      && (if p.Settled() then Fee.MerchantNetFor(p.amount, p.fee) == Some(p.net) else p.net == 0)
      && |p.trail| <= 4
      && (forall c, d | 0 <= c < |db.callbacks| && 0 <= d < |db.callbacks| && db.callbacks[c].payment == db.callbacks[d].payment == i
                        && db.callbacks[c].event == db.callbacks[d].event :: c == d)
      && (forall c :: 0 <= c < |db.callbacks| && db.callbacks[c].payment == i ==>
            && db.callbacks[c].event in p.trail
            && (db.callbacks[c].late <==> db.callbacks[c].event == Paid && [Pending, Expired, Paid] <= p.trail))
  {
    RunKeeps(s0, events);
    var db := Exec(s0, events).db;
    var p := db.payments[i];
    assert PaymentOk(p, i, db.reports);
    assert Rows(db.ledger, PaymentCredit(i)) == RowsDue(db, PaymentCredit(i));
    PathShape(p.trail);
    assert p.trail == [Pending, Expired, Paid, Refunded] ==> p.trail[..3] == [Pending, Expired, Paid];
    forall c | 0 <= c < |db.callbacks| && db.callbacks[c].payment == i
      ensures db.callbacks[c].late <==> db.callbacks[c].event == Paid && [Pending, Expired, Paid] <= p.trail
    {
      assert db.callbacks[c].late == Late(p, db.callbacks[c].event);
      if db.callbacks[c].event == Paid {
        assert Paid in p.trail;
      }
    }
  }

  /** The payment is left alone or makes one allowed move, on the record. */
  predicate Records(db: Db, db': Db, i: nat)
    requires i < |db.payments|
  {
    && i < |db'.payments| && db.payments[i].SameOrder(db'.payments[i])
    && (|| db'.payments[i] == db.payments[i]
        || (&& db'.payments[i].trail == db.payments[i].trail + [db'.payments[i].status]
            && db.payments[i].status in AllowedSourceStatuses(db'.payments[i].status)))
  }

  lemma BeginRecords(s: State, w: nat, a: Action, i: nat)
    requires i < |s.db.payments|
    ensures Records(s.db, Begin(s, w, a).db, i)
  {
  }

  lemma AdvanceRecords(s: State, w: nat, t: Tx, i: nat)
    requires i < |s.db.payments| && TxOk(s.db, t)
    ensures Records(s.db, AdvanceTx(s, w, t).db, i)
  {
    hide MerchantOk, PaymentOk, RefundsOk;
  }

  /** The history variable tells the truth: a step leaves a payment's status
      and trail alone or moves both by the same one allowed change, and never
      touches its order columns. */
  lemma TrailRecordsEveryChange(s: State, w: nat, a: Action, i: nat)
    requires Inv(s) && i < |s.db.payments|
    ensures Records(s.db, Step(s, w, a).db, i)
  {
    assert w in s.tx ==> TxOk(s.db, s.tx[w]);
    hide Inv, Begin, AdvanceTx, Records;
    var t := s.TxOf(w);
    if a.Advance? {
      AdvanceRecords(s, w, t, i);
    } else if t.Idle? && !a.Abort? && !a.ProviderSays? {
      BeginRecords(s, w, a, i);
    } else {
      Unmoved(s.db, Step(s, w, a).db, i);
    }
  }

  lemma Unmoved(db: Db, db': Db, i: nat)
    requires i < |db.payments| && db'.payments == db.payments
    ensures Records(db, db', i)
  {
  }

  /** A payment is settled only once the provider that owns it has reported it
      settled with exactly the amount plus fee stored on it. */
  lemma SettledOnlyIfReported(s0: State, events: seq<Event>, i: nat)
    requires Initial(s0) && i < |Exec(s0, events).db.payments|
    ensures var db := Exec(s0, events).db; var p := db.payments[i];
      p.Settled() ==> Report(p.provider, i, p.TotalAmount()) in db.reports
  {
    RunKeeps(s0, events);
    var db := Exec(s0, events).db;
    assert PaymentOk(db.payments[i], i, db.reports);
  }

  /** Only a commit of MarkPaid writes the status paid. */
  lemma OnlyMarkPaidPays(s: State, w: nat, a: Action, i: nat)
    requires w in s.tx ==> TxOk(s.db, s.tx[w])
    requires i < |s.db.payments| && s.db.payments[i].status != Paid
    requires i < |Step(s, w, a).db.payments| && Step(s, w, a).db.payments[i].status == Paid
    ensures a.Advance? && s.TxOf(w).PaidTx? && s.TxOf(w).payment == i
  {
    hide RowsOk, MerchantOk, PaymentsOk, PayoutsOk, CallbacksOk;
    var t := s.TxOf(w);
    if a.Advance? && t.PaidTx? {
      assert t.credited;
    }
  }

  /** A step that makes a payment paid is the commit of a worker that the
      owning provider had confirmed; nothing else can. */
  lemma PaidOnlyByConfirmedWorker(s0: State, events: seq<Event>, w: nat, a: Action, i: nat)
    requires Initial(s0) && i < |Exec(s0, events).db.payments|
    requires Exec(s0, events).db.payments[i].status != Paid
    requires Step(Exec(s0, events), w, a).db.payments[i].status == Paid
    ensures var s := Exec(s0, events); var p := s.db.payments[i]; var t := s.TxOf(w);
      && a.Advance? && t.PaidTx? && t.payment == i && t.previous == p.status
      && Report(p.provider, i, p.TotalAmount()) in s.db.reports
  {
    RunKeeps(s0, events);
    var s := Exec(s0, events);
    hide Step, Exec, Initial;
    TrailRecordsEveryChange(s, w, a, i);
    assert w in s.tx ==> TxOk(s.db, s.tx[w]);
    OnlyMarkPaidPays(s, w, a, i);
  }

  /** A webhook whose amount is not the stored total is dropped whatever the
      provider answers, however stale the row it was read with. */
  lemma WrongWebhookAmountNeverSettles(s0: State, events: seq<Event>, w: nat, settled: bool, reported: Option<int>)
    requires Initial(s0) && Exec(s0, events).TxOf(w).Settling?
    ensures var s := Exec(s0, events); var t := s.TxOf(w);
      && t.payment < |s.db.payments|
      && (t.hook.Some? && t.hook.value != s.db.payments[t.payment].TotalAmount() ==>
            Step(s, w, ProviderSays(settled, reported)).TxOf(w) == Idle)
      && (Step(s, w, ProviderSays(settled, reported)).TxOf(w).Confirmed? <==>
            && settled && reported == Some(s.db.payments[t.payment].TotalAmount())
            && (t.hook.None? || t.hook == reported))
  {
    RunKeeps(s0, events);
    var s := Exec(s0, events);
    var t := s.TxOf(w);
    assert TxOk(s.db, t);
    assert t.row.TotalAmount() == s.db.payments[t.payment].TotalAmount();
    assert Step(s, w, ProviderSays(settled, reported)).TxOf(w)
        == if Verified(t.row, settled, reported, t.hook) then Confirmed(t.payment, t.row, t.hook) else Idle;
  }

  // ----------------------------------------------------------------- liveness

  /** How many of its own statements a worker still has to run before it holds
      no lock. */
  function LockLeft(t: Tx): nat {
    match t
    case PayoutTx(_, _, stage) =>
      (match stage case MerchantLocked => 5 case NoOpen => 4 case Funded => 3 case PayoutRow => 2 case PayoutDebitRow => 1)
    case RefundTx(_, _, _, _, stage) =>
      (match stage case PaymentLocked => 5 case Summed => 4 case RefundRow => 3 case RefundDebitRow => 2 case StatusRow => 1)
    case RejectTx(_, reversed) => if reversed then 1 else 2
    case PaidTx(_, _, _, credited) => if credited then 1 else 2
    case _ => 0
  }

  /** A worker that holds an explicit row lock never waits for another: whatever
      the others hold, its next statement brings it closer to releasing. So locks
      are always released and no cycle of waiting workers can form. The module
      Locks counts the locks that statements take implicitly. */
  lemma LockHoldersNeverWait(s: State, w: nat)
    requires Inv(s) && LockLeft(s.TxOf(w)) > 0
    ensures LockLeft(Step(s, w, Advance).TxOf(w)) < LockLeft(s.TxOf(w))
  {
    assert TxOk(s.db, s.TxOf(w));
    hide Inv, DbOk, PaymentOk, RefundsOk, Begin, Balance, HasOpen, RefundedOf;
  }
}
