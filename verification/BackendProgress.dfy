// What does go through: from any state, whatever the other workers are in the
// middle of, with statuses, conditions and new rows spelled out.

module BackendProgress {
  import opened Options
  import opened PaymentDomain
  import opened Backend
  import opened BackendInvariant
  import opened BackendTheorems
  import opened BackendStore
  import Fee

  // ---------------------------------------------------------------- one worker

  /** n + 1 statements are one and then n. */
  lemma AdvanceFirst(s: State, w: nat, n: nat)
    ensures Advances(s, w, n + 1) == Advances(Step(s, w, Advance), w, n)
  {
  }

  lemma OthersLeaveIt(s: State, v: nat, a: Action, w: nat)
    requires v != w
    ensures Step(s, v, a).TxOf(w) == s.TxOf(w)
  {
  }

  // ------------------------------------------------------------------- payouts

  /** None of the merchant's payouts is waiting. */
  predicate AllProcessed(payouts: seq<Payout>, m: nat) {
    forall i :: 0 <= i < |payouts| && payouts[i].merchant == m ==> payouts[i].status == PaidOut || payouts[i].status == Rejected
  }

  lemma RequestStages(s: State, w: nat, m: nat, amount: int)
    requires AllProcessed(s.db.payouts, m)
    ensures Step(s.Put(w, PayoutTx(m, amount, MerchantLocked)), w, Advance) == s.Put(w, PayoutTx(m, amount, NoOpen))
    ensures amount <= Balance(s.db.ledger, m) ==>
      Step(s.Put(w, PayoutTx(m, amount, NoOpen)), w, Advance) == s.Put(w, PayoutTx(m, amount, Funded))
    ensures Step(s.Put(w, PayoutTx(m, amount, Funded)), w, Advance) == s.Put(w, PayoutTx(m, amount, PayoutRow))
    ensures Step(s.Put(w, PayoutTx(m, amount, PayoutRow)), w, Advance) == s.Put(w, PayoutTx(m, amount, PayoutDebitRow))
    ensures Step(s.Put(w, PayoutTx(m, amount, PayoutDebitRow)), w, Advance) == s.(db := Requesting(s.db, m, amount)).Put(w, Idle)
  {
    assert !HasOpen(s.db.payouts, m);
  }

  function Requesting(db: Db, m: nat, amount: int): Db {
    db.(payouts := db.payouts + [Payout(m, amount, Requested)],
        ledger := db.ledger + [Entry(m, PayoutDebit(|db.payouts|), -amount)])
  }

  /** A request within the balance by a merchant with a complete account goes
      through if and only if none of its payouts is waiting: paid and rejected
      ones are no obstacle. */
  lemma RequestGoesThroughExactlyIf(s: State, w: nat, m: nat, amount: int, minAmount: int)
    requires s.TxOf(w).Idle? && !s.MerchantBusy(m) && m in s.db.accounts && s.db.accounts[m]
    requires 0 < amount && minAmount <= amount <= Balance(s.db.ledger, m)
    ensures Advances(Step(s, w, RequestPayout(m, amount, minAmount)), w, 5).db
         == if AllProcessed(s.db.payouts, m) then Requesting(s.db, m, amount) else s.db
  {
    var s1 := Step(s, w, RequestPayout(m, amount, minAmount));
    assert s1 == s.Put(w, PayoutTx(m, amount, MerchantLocked));
    Unfolded(s1, w);
    if AllProcessed(s.db.payouts, m) {
      hide Step;
      RequestStages(s, w, m, amount);
    } else {
      OpenStops(s, w, m, amount);
      hide Step;
      IdleStays(s.Put(w, Idle), w, 4);
      AdvanceFirst(s1, w, 4);
    }
  }

  lemma OpenStops(s: State, w: nat, m: nat, amount: int)
    requires !AllProcessed(s.db.payouts, m)
    ensures Step(s.Put(w, PayoutTx(m, amount, MerchantLocked)), w, Advance) == s.Put(w, Idle)
  {
    var i :| 0 <= i < |s.db.payouts| && s.db.payouts[i].merchant == m && s.db.payouts[i].status == Requested;
    assert HasOpen(s.db.payouts, m);
  }

  /** In every run: once a merchant's waiting payout is paid or rejected, by
      whomever, none is waiting any more, and its next request within the
      balance goes through. */
  lemma NextRequestGoesThrough(s0: State, events: seq<Event>, w: nat, a: Action, i: nat, v: nat, amount: int, minAmount: int)
    requires Initial(s0) && i < |Exec(s0, events).db.payouts| && Exec(s0, events).db.payouts[i].status == Requested
    requires i < |Step(Exec(s0, events), w, a).db.payouts| && Step(Exec(s0, events), w, a).db.payouts[i].status != Requested
    ensures var s := Step(Exec(s0, events), w, a); var m := s.db.payouts[i].merchant;
      && AllProcessed(s.db.payouts, m)
      && (s.TxOf(v).Idle? && !s.MerchantBusy(m) && m in s.db.accounts && s.db.accounts[m]
          && 0 < amount && minAmount <= amount <= Balance(s.db.ledger, m) ==>
            Advances(Step(s, v, RequestPayout(m, amount, minAmount)), v, 5).db == Requesting(s.db, m, amount))
  {
    RunKeeps(s0, events);
    var s := Exec(s0, events);
    PayoutIsProcessedOnce(s0, events, w, a, i);
    var s1 := Step(s, w, a);
    var m := s1.db.payouts[i].merchant;
    assert PayoutsOk(s.db.payouts);
    hide Exec, Initial, Inv;
    ProcessingAddsNone(s, w, a, i);
    hide Step;
    assert forall j :: 0 <= j < |s.db.payouts| && j != i && s.db.payouts[j].merchant == m ==> s.db.payouts[j].status != Requested;
    if s1.TxOf(v).Idle? && !s1.MerchantBusy(m) && m in s1.db.accounts && s1.db.accounts[m]
       && 0 < amount && minAmount <= amount <= Balance(s1.db.ledger, m) {
      RequestGoesThroughExactlyIf(s1, v, m, amount, minAmount);
    }
  }

  lemma ProcessingAddsNone(s: State, w: nat, a: Action, i: nat)
    requires i < |s.db.payouts| && i < |Step(s, w, a).db.payouts| && Step(s, w, a).db.payouts[i].status != s.db.payouts[i].status
    ensures var payouts := Step(s, w, a).db.payouts;
      |payouts| == |s.db.payouts| && forall j :: 0 <= j < |payouts| && j != i ==> payouts[j] == s.db.payouts[j]
  {
  }

  /** How many of these events are worker w's own. */
  function Own(events: seq<Event>, w: nat): nat {
    if events == [] then 0
    else Own(events[..|events| - 1], w) + if events[|events| - 1].worker == w then 1 else 0
  }

  predicate HasPayout(payouts: seq<Payout>, from: nat, m: nat, amount: int) {
    exists i :: from <= i < |payouts| && payouts[i].merchant == m && payouts[i].amount == amount
  }

  function StageAfter(n: nat): PayoutStage { if n == 0 then Funded else if n == 1 then PayoutRow else PayoutDebitRow }

  /** Whatever the others do meanwhile, refunds and debits included, a request
      that has passed its balance check is committed by the worker's next three
      statements. */
  lemma {:induction false} FundedRequestCommits(s0: State, before: seq<Event>, more: seq<Event>, w: nat, m: nat, amount: int)
    requires Initial(s0) && Exec(s0, before).TxOf(w) == PayoutTx(m, amount, Funded)
    requires forall k :: 0 <= k < |more| && more[k].worker == w ==> more[k].action == Advance
    ensures var s := Exec(s0, before + more); var n := Own(more, w);
      if n < 3 then s.TxOf(w) == PayoutTx(m, amount, StageAfter(n))
      else HasPayout(s.db.payouts, |Exec(s0, before).db.payouts|, m, amount)
    ensures |Exec(s0, before).db.payouts| <= |Exec(s0, before + more).db.payouts|
  {
    if more == [] {
      assert before + more == before;
    } else {
      var k := |more| - 1;
      FundedRequestCommits(s0, before, more[..k], w, m, amount);
      assert (before + more)[..|before + more| - 1] == before + more[..k];
      var s := Exec(s0, before + more[..k]);
      var e := more[k];
      assert Exec(s0, before + more) == Step(s, e.worker, e.action);
      RequestStep(s0, before + more[..k], e, w, m, amount, |Exec(s0, before).db.payouts|, Own(more[..k], w));
      hide Exec;
    }
  }

  lemma RequestStep(s0: State, events: seq<Event>, e: Event, w: nat, m: nat, amount: int, from: nat, n: nat)
    requires Initial(s0) && (e.worker == w ==> e.action == Advance)
    requires from <= |Exec(s0, events).db.payouts|
    requires var s := Exec(s0, events);
      if n < 3 then s.TxOf(w) == PayoutTx(m, amount, StageAfter(n)) else HasPayout(s.db.payouts, from, m, amount)
    ensures var s := Step(Exec(s0, events), e.worker, e.action); var n' := if e.worker == w then n + 1 else n;
      && from <= |s.db.payouts|
      && if n' < 3 then s.TxOf(w) == PayoutTx(m, amount, StageAfter(n')) else HasPayout(s.db.payouts, from, m, amount)
  {
    var s := Exec(s0, events);
    PayoutsStay(s0, events, e.worker, e.action);
    if n >= 3 {
      var i :| from <= i < |s.db.payouts| && s.db.payouts[i].merchant == m && s.db.payouts[i].amount == amount;
      PayoutIsProcessedOnce(s0, events, e.worker, e.action, i);
      hide Exec, Step;
    } else if e.worker != w {
      hide Exec;
      OthersLeaveIt(s, e.worker, e.action, w);
    } else if n == 0 {
      UniqueIndexNeverFires(s0, events, w);
    } else if n == 1 {
      hide Exec;
    } else {
      hide Exec;
      assert Step(s, w, Advance).db.payouts == s.db.payouts + [Payout(m, amount, Requested)];
      assert Step(s, w, Advance).db.payouts[|s.db.payouts|].merchant == m;
    }
  }

  lemma PayoutsStay(s0: State, events: seq<Event>, w: nat, a: Action)
    ensures |Exec(s0, events).db.payouts| <= |Step(Exec(s0, events), w, a).db.payouts|
  {
    hide Exec;
  }

  // ---------------------------------------------------------------- settlement

  function Paying(db: Db, i: nat, net: int): Db
    requires i < |db.payments|
  {
    var p := db.payments[i];
    db.(payments := db.payments[i := p.(status := Paid, net := net, trail := p.trail + [Paid])],
        ledger := db.ledger + (if p.production && net > 0 then [Entry(p.merchant, PaymentCredit(i), net)] else []),
        callbacks := db.callbacks + [Callback(i, Paid, p.status == Expired)])
  }

  /** A confirmed worker takes a pending payment to paid, and an expired one too,
      with the credit row and a callback that says which it was; a payment that
      has any other status by now it leaves alone. */
  lemma ConfirmedWorkerPays(s: State, w: nat, i: nat, row: Payment, hook: Option<int>)
    requires s.TxOf(w) == Confirmed(i, row, hook) && i < |s.db.payments| && !s.PaymentBusy(i)
    requires Fee.MerchantNetFor(row.amount, row.fee).Some?
    ensures Advances(s, w, 4)
         == (if s.db.payments[i].status == Pending || s.db.payments[i].status == Expired
             then s.(db := Paying(s.db, i, Fee.MerchantNetFor(row.amount, row.fee).value)) else s).Put(w, Idle)
  {
    var net := Fee.MerchantNetFor(row.amount, row.fee).value;
    var previous := s.db.payments[i].status;
    AdvanceFirst(s, w, 3);
    ConfirmedBegins(s, w, i, row, hook);
    if previous == Pending || previous == Expired {
      PaidStages(s, w, i, previous, net);
      Unfolded(s.Put(w, PaidTx(i, previous, net, false)), w);
    } else {
      hide Step;
      IdleStays(s.Put(w, Idle), w, 3);
    }
  }

  lemma ConfirmedBegins(s: State, w: nat, i: nat, row: Payment, hook: Option<int>)
    requires s.TxOf(w) == Confirmed(i, row, hook) && i < |s.db.payments| && !s.PaymentBusy(i)
    requires Fee.MerchantNetFor(row.amount, row.fee).Some?
    ensures var previous := s.db.payments[i].status;
      Step(s, w, Advance) == s.Put(w, if previous == Pending || previous == Expired
                                      then PaidTx(i, previous, Fee.MerchantNetFor(row.amount, row.fee).value, false) else Idle)
  {
    hide Fee.MerchantNetFor;
  }

  lemma PaidStages(s: State, w: nat, i: nat, previous: Status, net: int)
    requires i < |s.db.payments| && s.db.payments[i].status == previous
    ensures var s1 := Step(s.Put(w, PaidTx(i, previous, net, false)), w, Advance); var s2 := Step(s1, w, Advance);
      Step(s2, w, Advance) == s.(db := Paying(s.db, i, net)).Put(w, Idle)
  {
    var s1 := Step(s.Put(w, PaidTx(i, previous, net, false)), w, Advance);
    assert s1 == s.Put(w, PaidTx(i, previous, net, true));
    var s2 := Step(s1, w, Advance);
    assert s2 == s.(db := SettlePayment(s.db, i, net)).Put(w, Notifying(i, Paid, previous == Expired));
    var p := s.db.payments[i];
    if !(p.production && net > 0) {
      assert s.db.ledger + [] == s.db.ledger;
    }
  }

  /** From any state: a webhook or a reconcile check of a payment that is pending
      or expired and not being written to settles it, if the provider reports it
      settled with nominal plus fee and the webhook's amount, if any, is that. */
  lemma SettlementGoesThrough(s: State, w: nat, i: nat, hook: Option<int>)
    requires s.TxOf(w).Idle? && i < |s.db.payments| && !s.PaymentBusy(i)
    requires s.db.payments[i].status == Pending || s.db.payments[i].status == Expired
    requires hook.None? || hook.value == s.db.payments[i].amount + s.db.payments[i].fee
    requires Fee.MerchantNetFor(s.db.payments[i].amount, s.db.payments[i].fee).Some?
    ensures var p := s.db.payments[i]; var total := p.amount + p.fee;
      var asked := Step(s, w, Receive(i, p.provider, hook));
      var heard := Step(asked, w, ProviderSays(true, Some(total)));
      Advances(heard, w, 4)
      == s.(db := Paying(s.db, i, Fee.MerchantNetFor(p.amount, p.fee).value).(reports := s.db.reports + {Report(p.provider, i, total)}))
          .Put(w, Idle)
  {
    var p := s.db.payments[i];
    var said := s.(db := s.db.(reports := s.db.reports + {Report(p.provider, i, p.amount + p.fee)}));
    var asked := Step(s, w, Receive(i, p.provider, hook));
    var heard := Step(asked, w, ProviderSays(true, Some(p.amount + p.fee)));
    Confirms(s, w, i, hook);
    hide Step;
    assert !heard.PaymentBusy(i) by { StaysFree(s, said, w, i, Confirmed(i, p, hook)); }
    ConfirmedWorkerPays(heard, w, i, p, hook);
  }

  lemma Confirms(s: State, w: nat, i: nat, hook: Option<int>)
    requires s.TxOf(w).Idle? && i < |s.db.payments|
    requires s.db.payments[i].status == Pending || s.db.payments[i].status == Expired
    requires hook.None? || hook.value == s.db.payments[i].amount + s.db.payments[i].fee
    ensures var p := s.db.payments[i]; var total := p.amount + p.fee;
      Step(Step(s, w, Receive(i, p.provider, hook)), w, ProviderSays(true, Some(total)))
      == s.(db := s.db.(reports := s.db.reports + {Report(p.provider, i, total)})).Put(w, Confirmed(i, p, hook))
  {
    var p := s.db.payments[i];
    assert Step(s, w, Receive(i, p.provider, hook)) == s.Put(w, Settling(i, p, hook));
  }

  lemma StaysFree(s: State, s': State, w: nat, i: nat, t: Tx)
    requires !s.PaymentBusy(i) && s'.tx == s.tx && !t.LocksPayment(i)
    ensures !s'.Put(w, t).PaymentBusy(i)
  {
  }

  /** Other statuses: a payment that is pending and not being written to fails,
      expires or is cancelled when asked to; one with any other status does not. */
  lemma StatusUpdateGoesThrough(s: State, w: nat, i: nat, to: Status)
    requires s.TxOf(w).Idle? && i < |s.db.payments| && !s.PaymentBusy(i) && to in {Expired, Failed, Cancelled}
    ensures var p := s.db.payments[i];
      Step(s, w, UpdateStatus(i, to))
      == if p.status == Pending
         then s.(db := s.db.(payments := s.db.payments[i := p.(status := to, trail := p.trail + [to])])).Put(w, Notifying(i, to, false))
         else s
  {
  }

  // ------------------------------------------------------------------- refunds

  function Refunding(db: Db, i: nat, amount: int): Db
    requires i < |db.payments|
  {
    var p := db.payments[i];
    var all := amount == p.net - RefundedOf(db.refunds, i);
    db.(refunds := db.refunds + [Refund(i, p.merchant, amount)],
        ledger := db.ledger + [Entry(p.merchant, RefundDebit(i, |db.refunds|), -amount)],
        payments := if all then db.payments[i := p.(status := PaymentDomain.Refunded, trail := p.trail + [PaymentDomain.Refunded])] else db.payments,
        callbacks := if all then db.callbacks + [Callback(i, PaymentDomain.Refunded, false)] else db.callbacks)
  }

  /** From any state: any amount up to what is left of the net of a paid
      production payment is refunded; the refund that leaves nothing closes the
      payment and tells the merchant, and no other does. */
  lemma RefundGoesThrough(s: State, w: nat, i: nat, amount: int)
    requires s.TxOf(w).Idle? && i < |s.db.payments| && !s.PaymentBusy(i)
    requires s.db.payments[i].status == Paid && s.db.payments[i].production && s.db.payments[i].net > 0
    requires 0 < amount <= s.db.payments[i].net - RefundedOf(s.db.refunds, i)
    ensures Advances(Step(s, w, BeginRefund(i, amount)), w, 6) == s.(db := Refunding(s.db, i, amount)).Put(w, Idle)
  {
    var p := s.db.payments[i];
    var remaining := p.net - RefundedOf(s.db.refunds, i);
    var s1 := Step(s, w, BeginRefund(i, amount));
    assert s1 == s.Put(w, RefundTx(i, p, amount, 0, PaymentLocked));
    RefundStages(s, w, i, amount, remaining);
    hide Step;
    AdvanceFirst(s1, w, 5);
    var s2 := Step(s1, w, Advance);
    AdvanceFirst(s2, w, 4);
    var s3 := Step(s2, w, Advance);
    AdvanceFirst(s3, w, 3);
    var s4 := Step(s3, w, Advance);
    AdvanceFirst(s4, w, 2);
    var s5 := Step(s4, w, Advance);
    if amount == remaining {
      Unfolded(s5, w);
    } else {
      IdleStays(s5, w, 2);
    }
  }

  lemma RefundStages(s: State, w: nat, i: nat, amount: int, remaining: int)
    requires i < |s.db.payments| && s.db.payments[i].status == Paid
    requires amount <= remaining == s.db.payments[i].net - RefundedOf(s.db.refunds, i)
    ensures var p := s.db.payments[i];
      && Step(s.Put(w, RefundTx(i, p, amount, 0, PaymentLocked)), w, Advance) == s.Put(w, RefundTx(i, p, amount, remaining, Summed))
      && Step(s.Put(w, RefundTx(i, p, amount, remaining, Summed)), w, Advance) == s.Put(w, RefundTx(i, p, amount, remaining, RefundRow))
      && Step(s.Put(w, RefundTx(i, p, amount, remaining, RefundRow)), w, Advance) == s.Put(w, RefundTx(i, p, amount, remaining, RefundDebitRow))
      && RefundEnds(s, w, i, p, amount, remaining)
  {
    var p := s.db.payments[i];
    RefundEndsSo(s, w, i, p, amount, remaining);
    hide RefundEnds;
  }

  predicate RefundEnds(s: State, w: nat, i: nat, p: Payment, amount: int, remaining: int)
    requires i < |s.db.payments|
  {
    var last := Step(s.Put(w, RefundTx(i, p, amount, remaining, RefundDebitRow)), w, Advance);
    if amount != remaining then last == s.(db := Refunding(s.db, i, amount)).Put(w, Idle)
    else Step(Step(last, w, Advance), w, Advance) == s.(db := Refunding(s.db, i, amount)).Put(w, Idle)
  }

  lemma RefundEndsSo(s: State, w: nat, i: nat, p: Payment, amount: int, remaining: int)
    requires i < |s.db.payments| && p == s.db.payments[i] && p.status == Paid && remaining == p.net - RefundedOf(s.db.refunds, i)
    ensures RefundEnds(s, w, i, p, amount, remaining)
  {
    var last := Step(s.Put(w, RefundTx(i, p, amount, remaining, RefundDebitRow)), w, Advance);
    if amount == remaining {
      assert last == s.Put(w, RefundTx(i, p, amount, remaining, StatusRow));
      var closed := Step(last, w, Advance);
      assert closed == s.(db := CloseRefunded(AddRefund(s.db, i, p.merchant, amount), i)).Put(w, Notifying(i, PaymentDomain.Refunded, false));
    }
  }

  // ----------------------------------------------------------------- callbacks

  /** Whoever changes a payment's status goes on to tell the merchant: of this
      payment, of the new status, and as late exactly if it was paid after it had
      expired. */
  lemma StatusChangeIsTold(s: State, w: nat, a: Action, i: nat)
    requires Inv(s) && i < |s.db.payments| && i < |Step(s, w, a).db.payments|
    requires Step(s, w, a).db.payments[i].status != s.db.payments[i].status
    ensures var was, now := s.db.payments[i].status, Step(s, w, a).db.payments[i].status;
      Step(s, w, a).TxOf(w) == Notifying(i, now, was == Expired && now == Paid)
  {
    assert w in s.tx ==> TxOk(s.db, s.tx[w]);
    hide Inv;
    ChangeIsTold(s, w, a, i);
  }

  lemma ChangeIsTold(s: State, w: nat, a: Action, i: nat)
    requires w in s.tx ==> TxOk(s.db, s.tx[w])
    requires i < |s.db.payments| && i < |Step(s, w, a).db.payments|
    requires Step(s, w, a).db.payments[i].status != s.db.payments[i].status
    ensures var was, now := s.db.payments[i].status, Step(s, w, a).db.payments[i].status;
      Step(s, w, a).TxOf(w) == Notifying(i, now, was == Expired && now == Paid)
  {
    hide MerchantOk, PaymentOk, RefundsOk, RowsOk, CallbacksOk;
  }

  /** And its next statement adds exactly that one row, whatever others have done
      in between. */
  lemma NotificationIsQueued(s: State, w: nat, i: nat, event: Status, late: bool)
    requires s.TxOf(w) == Notifying(i, event, late)
    ensures Step(s, w, Advance) == s.(db := s.db.(callbacks := s.db.callbacks + [Callback(i, event, late)])).Put(w, Idle)
  {
  }

  // ------------------------------------------------------------------ creation

  /** A payment is created pending, with the amounts CreatePayment stores: the
      nominal and what was charged on top, or the amount charged and no fee. */
  lemma CreationGoesThrough(s: State, w: nat, m: nat, nominal: int, customerBears: bool, charge: int, charged: int,
                            production: bool, provider: nat)
    requires s.TxOf(w).Idle? && m in s.db.accounts && 1 <= nominal <= 1_000_000_000_000
    ensures var actual := if charged > 0 then charged else charge;
      Step(s, w, Create(m, nominal, customerBears, charge, charged, production, provider))
      == if customerBears && actual < nominal then s
         else s.(db := s.db.(payments := s.db.payments + [Payment(m,
                   if customerBears then nominal else if charged > 0 then charged else nominal,
                   if customerBears then actual - nominal else 0, 0, production, provider, Pending, [Pending])]))
  {
  }
}
