// The repositories as the objects they are: methods that rewrite the tables of
// one database, statement by statement, with their checks in order. Each
// method states outcome and new state outright, and that it is what the worker
// machine of Backend reaches when one worker runs the same statements alone, so
// the theorems about interleavings are about this code.

module BackendStore {
  import opened Sums
  import opened Options
  import opened PaymentDomain
  import opened Backend
  import opened BackendTheorems

  datatype Error =
    | BelowMinimumPayout | MerchantNotFound | PayoutAccountMissing | OpenPayoutExists | InsufficientBalance
    | PayoutNotFound | PayoutAlreadyProcessed
    | ReasonRequired | TextTooLong | InvalidAmount | InvalidAdjustment
    | PaymentNotFound | PaymentNotRefundable | RefundExceedsNet
    | PaymentAlreadyTerminal | InvalidStatusTransition
  datatype Result<+T> = Ok(value: T) | Err(error: Error)

  const MAX_REFERENCE_LEN := 200
  const MAX_REASON_LEN := 500

  // ------------------------------------------------- one worker running alone

  /** n further statements of worker w, nobody else moving. */
  function Advances(s: State, w: nat, n: nat): State
    decreases n
  {
    if n == 0 then s else Advances(Step(s, w, Advance), w, n - 1)
  }

  /** The tables after a lone worker begins with `a` and runs n more statements. */
  function Alone(db: Db, a: Action, n: nat): Db {
    Advances(Step(State(db, map[]), 0, a), 0, n).db
  }

  lemma {:induction false} IdleStays(s: State, w: nat, n: nat)
    requires s.TxOf(w).Idle?
    ensures Advances(s, w, n) == s
  {
    if n > 0 {
      IdleStays(s, w, n - 1);
    }
  }

  lemma Unfolded(s: State, w: nat)
    ensures var s1 := Step(s, w, Advance); var s2 := Step(s1, w, Advance); var s3 := Step(s2, w, Advance);
      && Advances(s, w, 2) == s2 && Advances(s, w, 3) == s3
      && Advances(s, w, 5) == Step(Step(s3, w, Advance), w, Advance)
  {
    hide Step;
    var s1 := Step(s, w, Advance);
    var s2 := Step(s1, w, Advance);
    var s3 := Step(s2, w, Advance);
    var s4 := Step(s3, w, Advance);
    assert Advances(s, w, 5) == Advances(s1, w, 4) == Advances(s2, w, 3) == Advances(s3, w, 2) == Advances(s4, w, 1);
    assert Advances(s, w, 3) == Advances(s1, w, 2) == Advances(s2, w, 1);
  }

  /** The payment is paid, with its net, and the credit row is there exactly for
      a production payment with something to credit. */
  predicate PaidWithCredit(before: Db, after: Db, id: nat, net: int) {
    && id < |before.payments| && |after.payments| == |before.payments|
    && var p := before.payments[id];
    && after.payments == before.payments[id := p.(status := Paid, net := net, trail := p.trail + [Paid])]
    && after.ledger == before.ledger + (if p.production && net > 0 then [Entry(p.merchant, PaymentCredit(id), net)] else [])
    && after.refunds == before.refunds && after.payouts == before.payouts && after.callbacks == before.callbacks
  }

  /** What a payout request must meet, and what a refund must. */
  predicate Requestable(db: Db, m: nat, amount: int, minAmount: int) {
    && 0 < amount && minAmount <= amount && m in db.accounts && db.accounts[m]
    && !HasOpen(db.payouts, m) && amount <= Balance(db.ledger, m)
  }

  predicate Refundable(db: Db, id: nat, amount: int) {
    && 0 < amount && id < |db.payments| && db.payments[id].status == Paid && db.payments[id].production
    && 0 < db.payments[id].net && amount <= db.payments[id].net - RefundedOf(db.refunds, id)
  }

  lemma RequestAlone(db: Db, m: nat, amount: int, minAmount: int)
    ensures Alone(db, RequestPayout(m, amount, minAmount), 5)
         == if Requestable(db, m, amount, minAmount) then AddPayout(db, m, amount) else db
  {
    var s0 := Step(State(db, map[]), 0, RequestPayout(m, amount, minAmount));
    Unfolded(s0, 0);
    if Requestable(db, m, amount, minAmount) {
      ReachFunded(db, 0, m, amount, minAmount);
      FinishFunded(db, 0, m, amount);
    } else {
      var s2 := Step(Step(s0, 0, Advance), 0, Advance);
      assert s2.TxOf(0).Idle? && s2.db == db;
      assert Step(s2, 0, Advance) == s2;
    }
  }

  lemma RejectAlone(db: Db, id: nat)
    ensures Alone(db, RejectPayout(id), 2)
         == if id < |db.payouts| && db.payouts[id].status == Requested then ReversePayout(db, id) else db
  {
    Unfolded(Step(State(db, map[]), 0, RejectPayout(id)), 0);
  }

  /** The tables after a refund that goes through. */
  function AfterRefund(db: Db, id: nat, amount: int): Db
    requires id < |db.payments|
  {
    var added := AddRefund(db, id, db.payments[id].merchant, amount);
    if amount == db.payments[id].net - RefundedOf(db.refunds, id) then CloseRefunded(added, id) else added
  }

  lemma RefundSums(db: Db, id: nat, amount: int)
    requires Refundable(db, id, amount)
    ensures Step(Step(State(db, map[]), 0, BeginRefund(id, amount)), 0, Advance)
         == State(db, map[0 := RefundTx(id, db.payments[id], amount, db.payments[id].net - RefundedOf(db.refunds, id), Summed)])
  {
    assert Step(State(db, map[]), 0, BeginRefund(id, amount))
        == State(db, map[0 := RefundTx(id, db.payments[id], amount, 0, PaymentLocked)]);
  }

  lemma RefundCommits(db: Db, id: nat, amount: int)
    requires Refundable(db, id, amount)
    ensures var summed := State(db, map[0 := RefundTx(id, db.payments[id], amount, db.payments[id].net - RefundedOf(db.refunds, id), Summed)]);
      Step(Step(Step(Step(summed, 0, Advance), 0, Advance), 0, Advance), 0, Advance).db == AfterRefund(db, id, amount)
  {
    var p := db.payments[id];
    var remaining := p.net - RefundedOf(db.refunds, id);
    var s2 := Step(State(db, map[0 := RefundTx(id, p, amount, remaining, Summed)]), 0, Advance);
    assert s2 == State(db, map[0 := RefundTx(id, p, amount, remaining, RefundRow)]);
    var s3 := Step(s2, 0, Advance);
    assert s3 == State(db, map[0 := RefundTx(id, p, amount, remaining, RefundDebitRow)]);
    var s4 := Step(s3, 0, Advance);
    if amount == remaining {
      assert s4 == State(db, map[0 := RefundTx(id, p, amount, remaining, StatusRow)]);
    } else {
      assert s4 == State(AddRefund(db, id, p.merchant, amount), map[0 := Idle]);
    }
  }

  lemma RefundRefused(db: Db, id: nat, amount: int)
    requires !Refundable(db, id, amount)
    ensures var s1 := Step(Step(State(db, map[]), 0, BeginRefund(id, amount)), 0, Advance);
      s1.db == db && Step(s1, 0, Advance) == s1
  {
  }

  lemma RefundAlone(db: Db, id: nat, amount: int)
    ensures Alone(db, BeginRefund(id, amount), 5)
         == if Refundable(db, id, amount) then AfterRefund(db, id, amount) else db
  {
    hide Step;
    Unfolded(Step(State(db, map[]), 0, BeginRefund(id, amount)), 0);
    if Refundable(db, id, amount) {
      RefundSums(db, id, amount);
      RefundCommits(db, id, amount);
    } else {
      RefundRefused(db, id, amount);
    }
  }

  /** MarkPaid by a worker that nobody else disturbs: the guarded update, the
      credit row and the commit. */
  lemma MarkPaidAlone(db: Db, id: nat, net: int)
    requires id < |db.payments|
    ensures Advances(BeginMarkPaid(State(db, map[]), 0, id, Some(net)), 0, 2).db
         == if db.payments[id].status in AllowedSourceStatuses(Paid) then SettlePayment(db, id, net) else db
  {
    Unfolded(BeginMarkPaid(State(db, map[]), 0, id, Some(net)), 0);
  }

  // ------------------------------------------------------------- repositories

  class Store {
    const accounts: map<nat, bool>
    var payments: seq<Payment>
    var refunds: seq<Refund>
    var payouts: seq<Payout>
    var ledger: seq<Entry>
    var callbacks: seq<Callback>
    ghost var reports: set<Report>

    ghost function Tables(): Db
      reads this
    {
      Db(accounts, payments, refunds, payouts, ledger, callbacks, reports)
    }

    constructor (accounts: map<nat, bool>)
      ensures Initial(State(Tables(), map[])) && this.accounts == accounts
    {
      this.accounts := accounts;
      payments, refunds, payouts, ledger, callbacks, reports := [], [], [], [], [], {};
    }

    /** Takes the money off the balance when the payout is requested. */
    method RequestPayoutOf(m: nat, amount: int, minAmount: int) returns (r: Result<nat>)
      modifies this
      ensures Tables() == old(Alone(Tables(), RequestPayout(m, amount, minAmount), 5))
      ensures r.Ok? <==>
        && 0 < amount && minAmount <= amount && m in accounts && accounts[m] && amount <= old(Balance(ledger, m))
        && forall i :: 0 <= i < |old(payouts)| && old(payouts)[i].merchant == m ==> old(payouts)[i].status in {PaidOut, Rejected}
      ensures r.Ok? ==>
        && r.value == |old(payouts)|
        && payouts == old(payouts) + [Payout(m, amount, Requested)]
        && ledger == old(ledger) + [Entry(m, PayoutDebit(r.value), -amount)]
        && Tables() == old(AddPayout(Tables(), m, amount))
      ensures r.Err? ==> Tables() == old(Tables())
      ensures r == Err(InsufficientBalance) ==> amount > old(Balance(ledger, m)) && !old(HasOpen(payouts, m))
      ensures r == Err(OpenPayoutExists) ==> old(HasOpen(payouts, m))
      ensures r == Err(PayoutAccountMissing) ==> m in accounts && !accounts[m]
      ensures r == Err(MerchantNotFound) ==> m !in accounts
      ensures r == Err(BelowMinimumPayout) <==> amount <= 0 || amount < minAmount
      ensures r.Err? ==> r.error in {BelowMinimumPayout, MerchantNotFound, PayoutAccountMissing, OpenPayoutExists, InsufficientBalance}
    {
      RequestAlone(Tables(), m, amount, minAmount);
      if amount <= 0 || amount < minAmount {
        return Err(BelowMinimumPayout);
      }
      if m !in accounts {
        return Err(MerchantNotFound);
      }
      if !accounts[m] {
        return Err(PayoutAccountMissing);
      }
      var open := HasOpen(payouts, m);
      if open {
        return Err(OpenPayoutExists);
      }
      var balance := Balance(ledger, m);
      if amount > balance {
        return Err(InsufficientBalance);
      }
      var payoutId := |payouts|;
      payouts := payouts + [Payout(m, amount, Requested)];
      ledger := ledger + [Entry(m, PayoutDebit(payoutId), -amount)];
      return Ok(payoutId);
    }

    /** Records the transfer; no ledger row, the debit was taken before. */
    method MarkPayoutPaidAs(id: nat, referenceLen: nat) returns (r: Result<nat>)
      modifies this`payouts
      ensures r.Ok? <==> 0 < referenceLen <= 200 && id < |old(payouts)| && old(payouts[id]).status == Requested
      ensures r.Ok? ==> Tables() == old(Alone(Tables(), MarkPayoutPaid(id), 0)) && |payouts| == |old(payouts)|
                        && payouts == old(payouts)[id := old(payouts[id]).(status := PaidOut)]
      ensures r.Err? ==> payouts == old(payouts)
      ensures referenceLen == 0 ==> r == Err(ReasonRequired)
      ensures referenceLen > 200 ==> r == Err(TextTooLong)
      ensures 0 < referenceLen <= 200 && r.Err? ==> r.error in {PayoutNotFound, PayoutAlreadyProcessed}
      ensures r == Err(PayoutNotFound) ==> id >= |old(payouts)|
      ensures r == Err(PayoutAlreadyProcessed) ==> id < |payouts| && payouts[id].status != Requested
    {
      if referenceLen == 0 {
        return Err(ReasonRequired);
      }
      if referenceLen > MAX_REFERENCE_LEN {
        return Err(TextTooLong);
      }
      if id < |payouts| && payouts[id].status == Requested {
        payouts := payouts[id := payouts[id].(status := PaidOut)];
        return Ok(id);
      }
      r := ClassifyUnprocessed(id);
    }

    /** Refuses the payout and returns the money. */
    method RejectPayoutFor(id: nat, reasonLen: nat) returns (r: Result<nat>)
      modifies this
      ensures r.Ok? <==> 0 < reasonLen <= 500 && id < |old(payouts)| && old(payouts[id]).status == Requested
      ensures r.Ok? ==> Tables() == old(Alone(Tables(), RejectPayout(id), 2)) == old(ReversePayout(Tables(), id))
      ensures r.Ok? ==>
        && payouts == old(payouts)[id := Payout(old(payouts)[id].merchant, old(payouts)[id].amount, Rejected)]
        && ledger == old(ledger) + [Entry(old(payouts)[id].merchant, PayoutReversal(id), old(payouts)[id].amount)]
      ensures r.Err? ==> Tables() == old(Tables())
      ensures reasonLen == 0 ==> r == Err(ReasonRequired)
      ensures reasonLen > 500 ==> r == Err(TextTooLong)
      ensures 0 < reasonLen <= 500 && r.Err? ==> r.error in {PayoutNotFound, PayoutAlreadyProcessed}
      ensures r == Err(PayoutNotFound) ==> id >= |old(payouts)|
      ensures r == Err(PayoutAlreadyProcessed) ==> id < |payouts| && payouts[id].status != Requested
    {
      RejectAlone(Tables(), id);
      if reasonLen == 0 {
        return Err(ReasonRequired);
      }
      if reasonLen > MAX_REASON_LEN {
        return Err(TextTooLong);
      }
      if id >= |payouts| || payouts[id].status != Requested {
        r := ClassifyUnprocessed(id);
        return;
      }
      payouts := payouts[id := payouts[id].(status := Rejected)];
      var p := payouts[id];
      ledger := ledger + [Entry(p.merchant, PayoutReversal(id), p.amount)];
      return Ok(id);
    }

    method ClassifyUnprocessed(id: nat) returns (r: Result<nat>)
      ensures r == Err(if id < |payouts| then PayoutAlreadyProcessed else PayoutNotFound)
    {
      if id >= |payouts| {
        return Err(PayoutNotFound);
      }
      return Err(PayoutAlreadyProcessed);
    }

    /** One append-only row; the sign is the admin's. */
    method AdjustBalance(m: nat, amount: int, reasonLen: nat) returns (r: Result<nat>)
      modifies this`ledger
      ensures r.Ok? <==> amount != 0 && -1_000_000_000_000 <= amount <= 1_000_000_000_000 && 0 < reasonLen <= 500 && m in accounts
      ensures r.Ok? ==> r.value == |old(ledger)| && ledger == old(ledger) + [Entry(m, Adjustment, amount)]
                        && Tables() == old(Alone(Tables(), Adjust(m, amount), 0))
      ensures r.Err? ==> ledger == old(ledger)
      ensures r.Err? ==> r.error in {InvalidAdjustment, ReasonRequired, TextTooLong, MerchantNotFound}
      ensures r == Err(InvalidAdjustment) <==> amount == 0 || amount > 1_000_000_000_000 || amount < -1_000_000_000_000
      ensures r == Err(ReasonRequired) ==> reasonLen == 0
      ensures r == Err(TextTooLong) ==> reasonLen > 500
      ensures r == Err(MerchantNotFound) ==> m !in accounts
    {
      if amount == 0 || amount > MAX_ADJUSTMENT || amount < -MAX_ADJUSTMENT {
        return Err(InvalidAdjustment);
      }
      if reasonLen == 0 {
        return Err(ReasonRequired);
      }
      if reasonLen > MAX_REASON_LEN {
        return Err(TextTooLong);
      }
      if m !in accounts {
        return Err(MerchantNotFound);
      }
      r := Ok(|ledger|);
      ledger := ledger + [Entry(m, Adjustment, amount)];
    }

    /** Returns the refund's id, whether it was the last one the net allows,
        and what is left to refund. */
    method RefundWithRemaining(id: nat, amount: int, reasonLen: nat) returns (r: Result<(nat, bool, int)>)
      modifies this
      ensures r.Ok? <==>
        && 0 < reasonLen <= 500 && 0 < amount && id < |old(payments)|
        && old(payments)[id].status == Paid && old(payments)[id].production && 0 < old(payments)[id].net
        && amount <= old(payments)[id].net - old(RefundedOf(refunds, id))
      ensures r.Ok? ==>
        && Tables() == old(Alone(Tables(), BeginRefund(id, amount), 5)) == old(AfterRefund(Tables(), id, amount))
        && r.value.0 == |old(refunds)|
        && refunds == old(refunds) + [Refund(id, old(payments)[id].merchant, amount)]
        && ledger == old(ledger) + [Entry(old(payments)[id].merchant, RefundDebit(id, r.value.0), -amount)]
        && r.value.2 == payments[id].net - RefundedOf(refunds, id) >= 0
        && (r.value.1 <==> r.value.2 == 0) && (r.value.1 <==> payments[id].status == PaymentDomain.Refunded)
      ensures r.Err? ==> Tables() == old(Tables())
      ensures r == Err(PaymentNotFound) ==> id >= |old(payments)|
      ensures r.Err? ==> r.error in {InvalidAmount, ReasonRequired, TextTooLong, PaymentNotFound, PaymentNotRefundable, RefundExceedsNet}
      ensures r == Err(InvalidAmount) <==> amount <= 0
      ensures r == Err(PaymentNotRefundable) ==>
        id < |payments| && (payments[id].status != Paid || !payments[id].production || payments[id].net <= 0)
      ensures r == Err(ReasonRequired) ==> reasonLen == 0
      ensures r == Err(TextTooLong) ==> reasonLen > 500
      ensures r == Err(RefundExceedsNet) ==> id < |payments| && amount > payments[id].net - RefundedOf(refunds, id)
    {
      RefundAlone(Tables(), id, amount);
      if amount <= 0 {
        return Err(InvalidAmount);
      }
      if reasonLen == 0 {
        return Err(ReasonRequired);
      }
      if reasonLen > MAX_REASON_LEN {
        return Err(TextTooLong);
      }
      if id >= |payments| {
        return Err(PaymentNotFound);
      }
      var p := payments[id];
      if p.status != Paid || !p.production || p.net <= 0 {
        return Err(PaymentNotRefundable);
      }
      var already := RefundedOf(refunds, id);
      var remaining := p.net - already;
      if amount > remaining {
        return Err(RefundExceedsNet);
      }
      var refundId := |refunds|;
      SumPush(refunds, Refund(id, p.merchant, amount), OfPayment(id));
      refunds := refunds + [Refund(id, p.merchant, amount)];
      ledger := ledger + [Entry(p.merchant, RefundDebit(id, refundId), -amount)];
      remaining := remaining - amount;
      var full := remaining == 0;
      if full {
        payments := payments[id := p.Move(PaymentDomain.Refunded)];
      }
      return Ok((refundId, full, remaining));
    }

    /** The payment's refunds, newest first, with the figures derived from them. */
    method ListRefunds(id: nat) returns (r: Result<(seq<Refund>, RefundSummary)>)
      ensures r == Err(PaymentNotFound) <==> id >= |payments|
      ensures r.Ok? ==>
        && r.value.0 == Reversed(Filter(refunds, IsOf(id)))
        && r.value.1 == RefundView(Tables(), id)
      ensures r.Err? ==> r == Err(PaymentNotFound)
    {
      hide Filter, Reversed, RefundedOf, IsOf;
      if id >= |payments| {
        return Err(PaymentNotFound);
      }
      var p := payments[id];
      var items: seq<Refund> := [];
      var refunded := 0;
      var i := |refunds|;
      assert refunds[..|refunds|] == refunds;
      assert [] + Reversed(Filter(refunds, IsOf(id))) == Reversed(Filter(refunds, IsOf(id)));
      while i > 0
        invariant 0 <= i <= |refunds|
        invariant RefundedOf(refunds, id) == RefundedOf(refunds[..i], id) + refunded
        invariant items + Reversed(Filter(refunds[..i], IsOf(id))) == Reversed(Filter(refunds, IsOf(id)))
      {
        i := i - 1;
        OneMoreRefund(refunds, i, id);
        ghost var rest := Reversed(Filter(refunds[..i], IsOf(id)));
        assert items + ([refunds[i]] + rest) == (items + [refunds[i]]) + rest && [] + rest == rest;
        if refunds[i].payment == id {
          refunded := refunded + refunds[i].amount;
          items := items + [refunds[i]];
        }
      }
      NoRefunds(id);
      assert refunds[..0] == [] && items + [] == items;
      var remaining := p.net - refunded;
      if remaining < 0 {
        remaining := 0;
      }
      var refundable := p.production && p.status == Paid && remaining > 0;
      return Ok((items, RefundSummary(p.net, refunded, remaining, refundable)));
    }

    /** Moves to paid and writes the credit together; the previous status. */
    method MarkPaid(id: nat, merchantNet: int) returns (r: Result<Status>)
      modifies this
      ensures r == Err(PaymentNotFound) <==> id >= |old(payments)|
      ensures id < |old(payments)| ==>
        && (r.Ok? <==> old(payments)[id].status == Pending || old(payments)[id].status == Expired)
        && Tables() == old(Advances(BeginMarkPaid(State(Tables(), map[]), 0, id, Some(merchantNet)), 0, 2).db)
        && (r.Ok? ==> r.value == old(payments[id]).status && Tables() == old(SettlePayment(Tables(), id, merchantNet)))
        && (r.Ok? ==> PaidWithCredit(old(Tables()), Tables(), id, merchantNet))
        && (r.Err? ==> r.error == PaymentAlreadyTerminal)
      ensures r.Err? ==> Tables() == old(Tables())
    {
      if id >= |payments| {
        return Err(PaymentNotFound);
      }
      MarkPaidAlone(Tables(), id, merchantNet);
      var previous := payments[id].status;
      if previous !in AllowedSourceStatuses(Paid) {
        return Err(if IsTerminalStatus(previous) then PaymentAlreadyTerminal else InvalidStatusTransition);
      }
      payments := payments[id := payments[id].Move(Paid).(net := merchantNet)];
      if payments[id].production && merchantNet > 0 {
        ledger := ledger + [Entry(payments[id].merchant, PaymentCredit(id), merchantNet)];
      }
      return Ok(previous);
    }

    /** Any status but paid and refunded, which have their own transactions. */
    method UpdateStatusTo(id: nat, to: Status) returns (r: Result<Status>)
      modifies this`payments
      ensures r.Ok? <==> to in {Expired, Failed, Cancelled} && id < |old(payments)| && old(payments)[id].status == Pending
      ensures r.Ok? ==> r.value == old(payments[id]).status && Tables() == old(Alone(Tables(), UpdateStatus(id, to), 0))
                        && |payments| == |old(payments)| && payments == old(payments)[id := old(payments[id]).Move(to)]
      ensures r.Err? ==> payments == old(payments)
      ensures r == Err(PaymentAlreadyTerminal) <==>
        to != Paid && to != PaymentDomain.Refunded && id < |old(payments)| && old(payments)[id].status != Pending
      ensures r == Err(PaymentNotFound) <==> to != Paid && to != PaymentDomain.Refunded && id >= |old(payments)|
      ensures r.Err? ==> r.error in {PaymentAlreadyTerminal, PaymentNotFound, InvalidStatusTransition}
    {
      if to == Paid || to == PaymentDomain.Refunded {
        return Err(InvalidStatusTransition);
      }
      if id >= |payments| {
        return Err(PaymentNotFound);
      }
      var previous := payments[id].status;
      if previous in AllowedSourceStatuses(to) {
        payments := payments[id := payments[id].Move(to)];
        return Ok(previous);
      }
      return Err(if IsTerminalStatus(previous) then PaymentAlreadyTerminal else InvalidStatusTransition);
    }
  }

  function IsOf(id: nat): Refund -> bool { (x: Refund) => x.payment == id }

  lemma OneMoreRefund(refunds: seq<Refund>, i: nat, id: nat)
    requires i < |refunds|
    ensures RefundedOf(refunds[..i + 1], id) == RefundedOf(refunds[..i], id) + (if refunds[i].payment == id then refunds[i].amount else 0)
    ensures Reversed(Filter(refunds[..i + 1], IsOf(id)))
         == (if refunds[i].payment == id then [refunds[i]] else []) + Reversed(Filter(refunds[..i], IsOf(id)))
  {
    var before := Filter(refunds[..i], IsOf(id));
    assert refunds[..i + 1][..i] == refunds[..i];
    if refunds[i].payment == id {
      ReversedPush(before, refunds[i]);
    } else {
      assert before + [] == before;
    }
  }

  lemma NoRefunds(id: nat)
    ensures RefundedOf([], id) == 0 && Reversed(Filter([], IsOf(id))) == []
  {
  }

  function Reversed<T>(s: seq<T>): seq<T> {
    if |s| == 0 then [] else [s[|s| - 1]] + Reversed(s[..|s| - 1])
  }

  lemma ReversedPush<T>(s: seq<T>, x: T)
    ensures Reversed(s + [x]) == [x] + Reversed(s)
  {
    assert (s + [x])[..|s|] == s;
  }
}
