// How far a merchant's balance can fall: never below its refunds and debit
// adjustments, and either of them alone can take it there.

module BalanceFloor {
  import opened Options
  import opened Sums
  import opened PaymentDomain
  import opened Backend
  import opened BackendTheorems
  import Fee

  function DebitOf(m: nat): Entry -> int {
    (e: Entry) => if e.merchant == m && e.kind.Adjustment? && e.amount < 0 then -e.amount else 0
  }
  /** The debit adjustments of a merchant, as a positive sum. */
  function Debited(ledger: seq<Entry>, m: nat): int { Sum(ledger, DebitOf(m)) }

  lemma {:induction false} AdjustmentsSplit(ledger: seq<Entry>, m: nat)
    ensures Adjustments(ledger, m) == Granted(ledger, m) - Debited(ledger, m)
    ensures 0 <= Debited(ledger, m)
  {
    if ledger != [] { AdjustmentsSplit(ledger[..|ledger| - 1], m); }
  }

  /** In every run: payouts alone never make a balance negative. */
  lemma BalanceHasFloor(s0: State, events: seq<Event>, m: nat)
    requires Initial(s0)
    ensures var db := Exec(s0, events).db;
      Balance(db.ledger, m) >= -RefundsMade(db.refunds, m) - Debited(db.ledger, m)
  {
    Conservation(s0, events, m);
    NoPayoutDoubleSpend(s0, events, m);
    AdjustmentsSplit(Exec(s0, events).db.ledger, m);
    hide Exec;
    assert Credited(Exec(s0, events).db.ledger, m) == NetsDue(Exec(s0, events).db.payments, m);
  }

  /** Nothing was refunded or debited: these rows are only ever added, so there
      was none in the whole run. */
  predicate NothingTaken(db: Db, m: nat) {
    && (forall r <- db.refunds :: r.merchant != m)
    && (forall e <- db.ledger :: e.merchant == m && e.kind.Adjustment? ==> e.amount >= 0)
  }

  /** A merchant without refunds and debit adjustments never has a negative
      balance. */
  lemma BalanceStaysNonNegative(s0: State, events: seq<Event>, m: nat)
    requires Initial(s0) && NothingTaken(Exec(s0, events).db, m)
    ensures Balance(Exec(s0, events).db.ledger, m) >= 0
  {
    BalanceHasFloor(s0, events, m);
    var db := Exec(s0, events).db;
    hide Exec;
    SumZero(db.refunds, ToMerchant(m));
    SumZero(db.ledger, DebitOf(m));
  }

  // -------------------------------------------- a refund alone is enough

  datatype Plan = Plan(m: nat, nominal: int, refund: int) {
    function Net(): int { Fee.Kept(nominal, Fee.PROVIDER_BASIS_POINTS) }
    predicate Ok() { 1 <= nominal <= Fee.MAX_NOMINAL && 0 < refund < Net() }
  }

  function Start(p: Plan): State { State(Db(map[p.m := true], [], [], [], [], [], {}), map[]) }

  /** The run so far has reached s. */
  ghost predicate Reaches(p: Plan, events: seq<Event>, s: State) { Exec(Start(p), events) == s }

  lemma Goes(p: Plan, events: seq<Event>, s: State, a: Action, s': State) returns (longer: seq<Event>)
    requires Reaches(p, events, s) && Step(s, 0, a) == s'
    ensures Reaches(p, longer, s')
  {
    longer := events + [Event(0, a)];
    assert longer[..|events|] == events;
  }

  function Ordered(p: Plan): Payment { Payment(p.m, p.nominal, 0, 0, true, 0, Pending, [Pending]) }
  function Settled(p: Plan): Payment { Payment(p.m, p.nominal, 0, p.Net(), true, 0, Paid, [Pending, Paid]) }
  function Said(p: Plan): set<Report> { {Report(0, 0, p.nominal)} }
  function Credit(p: Plan): Entry { Entry(p.m, PaymentCredit(0), p.Net()) }

  function OrderedDb(p: Plan): Db { Start(p).db.(payments := [Ordered(p)]) }
  function SaidDb(p: Plan): Db { OrderedDb(p).(reports := Said(p)) }
  function PaidDb(p: Plan): Db { SaidDb(p).(payments := [Settled(p)], ledger := [Credit(p)], callbacks := [Callback(0, Paid, false)]) }
  function PaidOutDb(p: Plan): Db {
    PaidDb(p).(payouts := [Payout(p.m, p.Net(), Requested)], ledger := [Credit(p), Entry(p.m, PayoutDebit(0), -p.Net())])
  }
  function RefundedDb(p: Plan): Db {
    PaidOutDb(p).(refunds := [Refund(0, p.m, p.refund)],
                  ledger := [Credit(p), Entry(p.m, PayoutDebit(0), -p.Net()), Entry(p.m, RefundDebit(0, 0), -p.refund)])
  }

  function With(db: Db, t: Tx): State { State(db, map[0 := t]) }

  lemma Confirms(p: Plan) returns (events: seq<Event>)
    requires p.Ok()
    ensures Reaches(p, events, With(SaidDb(p), Confirmed(0, Ordered(p), None)))
  {
    events := [];
    assert Reaches(p, [], Start(p));
    hide Reaches;
    events := Goes(p, events, Start(p), Create(p.m, p.nominal, false, p.nominal, 0, true, 0), State(OrderedDb(p), map[]));
    events := Goes(p, events, State(OrderedDb(p), map[]), Receive(0, 0, None), With(OrderedDb(p), Settling(0, Ordered(p), None)));
    events := Goes(p, events, With(OrderedDb(p), Settling(0, Ordered(p), None)), ProviderSays(true, Some(p.nominal)),
                   With(SaidDb(p), Confirmed(0, Ordered(p), None)));
  }

  lemma Pays(p: Plan) returns (events: seq<Event>)
    requires p.Ok()
    ensures Reaches(p, events, With(PaidDb(p), Idle))
  {
    hide Reaches;
    events := Confirms(p);
    Fee.NetFitsInt64(p.nominal, Fee.PROVIDER_BASIS_POINTS);
    hide Fee.MerchantNetFor;
    assert Fee.MerchantNetFor(p.nominal, 0) == Some(p.Net()) by { NetIs(p); }
    events := Goes(p, events, With(SaidDb(p), Confirmed(0, Ordered(p), None)), Advance, With(SaidDb(p), PaidTx(0, Pending, p.Net(), false)));
    events := Goes(p, events, With(SaidDb(p), PaidTx(0, Pending, p.Net(), false)), Advance, With(SaidDb(p), PaidTx(0, Pending, p.Net(), true)));
    var unsaid := PaidDb(p).(callbacks := []);
    SettlesTo(p);
    events := Goes(p, events, With(SaidDb(p), PaidTx(0, Pending, p.Net(), true)), Advance, With(unsaid, Notifying(0, Paid, false)));
    events := Goes(p, events, With(unsaid, Notifying(0, Paid, false)), Advance, With(PaidDb(p), Idle));
  }

  lemma SettlesTo(p: Plan)
    requires p.Ok()
    ensures SettlePayment(SaidDb(p), 0, p.Net()) == PaidDb(p).(callbacks := [])
  {
    assert Ordered(p).Move(Paid).(net := p.Net()) == Settled(p);
    assert [Ordered(p)][0 := Settled(p)] == [Settled(p)];
    assert [] + [Credit(p)] == [Credit(p)];
  }

  lemma NetIs(p: Plan)
    requires p.Ok()
    ensures Fee.MerchantNetFor(p.nominal, 0) == Some(p.Net())
  {
    Fee.NetFitsInt64(p.nominal, Fee.PROVIDER_BASIS_POINTS);
  }

  lemma Withdraws(p: Plan) returns (events: seq<Event>)
    requires p.Ok()
    ensures Reaches(p, events, With(PaidOutDb(p), Idle))
  {
    hide Reaches;
    events := Pays(p);
    var db, m, net := PaidDb(p), p.m, p.Net();
    SumPush([], Credit(p), AmountOf(m));
    assert [] + [Credit(p)] == [Credit(p)];
    events := Goes(p, events, With(db, Idle), RequestPayout(m, net, 1), With(db, PayoutTx(m, net, MerchantLocked)));
    events := Goes(p, events, With(db, PayoutTx(m, net, MerchantLocked)), Advance, With(db, PayoutTx(m, net, NoOpen)));
    events := Goes(p, events, With(db, PayoutTx(m, net, NoOpen)), Advance, With(db, PayoutTx(m, net, Funded)));
    events := Goes(p, events, With(db, PayoutTx(m, net, Funded)), Advance, With(db, PayoutTx(m, net, PayoutRow)));
    events := Goes(p, events, With(db, PayoutTx(m, net, PayoutRow)), Advance, With(db, PayoutTx(m, net, PayoutDebitRow)));
    events := Goes(p, events, With(db, PayoutTx(m, net, PayoutDebitRow)), Advance, With(PaidOutDb(p), Idle));
  }

  lemma Refunds(p: Plan) returns (events: seq<Event>)
    requires p.Ok()
    ensures Reaches(p, events, With(RefundedDb(p), Idle))
  {
    hide Reaches;
    events := Withdraws(p);
    var db, row, r, net := PaidOutDb(p), Settled(p), p.refund, p.Net();
    events := Goes(p, events, With(db, Idle), BeginRefund(0, r), With(db, RefundTx(0, row, r, 0, PaymentLocked)));
    events := Goes(p, events, With(db, RefundTx(0, row, r, 0, PaymentLocked)), Advance, With(db, RefundTx(0, row, r, net, Summed)));
    events := Goes(p, events, With(db, RefundTx(0, row, r, net, Summed)), Advance, With(db, RefundTx(0, row, r, net, RefundRow)));
    events := Goes(p, events, With(db, RefundTx(0, row, r, net, RefundRow)), Advance, With(db, RefundTx(0, row, r, net, RefundDebitRow)));
    events := Goes(p, events, With(db, RefundTx(0, row, r, net, RefundDebitRow)), Advance, With(RefundedDb(p), Idle));
  }

  /** A merchant that pays out all it was credited and then refunds any part of
      it owes exactly that part: no adjustment is needed. */
  lemma RefundAloneGoesBelowZero(p: Plan) returns (events: seq<Event>)
    requires p.Ok()
    ensures Initial(Start(p))
    ensures var db := Exec(Start(p), events).db;
      && Balance(db.ledger, p.m) == -p.refund
      && Debited(db.ledger, p.m) == 0 && RefundsMade(db.refunds, p.m) == p.refund
  {
    events := Refunds(p);
    hide Exec, Balance, Debited, RefundsMade, RefundedDb;
    OwesTheRefund(p);
    NoAdjustments(p);
  }

  lemma OwesTheRefund(p: Plan)
    ensures Balance(RefundedDb(p).ledger, p.m) == -p.refund
  {
    var one := [Credit(p)];
    var two := one + [Entry(p.m, PayoutDebit(0), -p.Net())];
    var refund := Entry(p.m, RefundDebit(0, 0), -p.refund);
    assert [] + one == one && two + [refund] == RefundedDb(p).ledger;
    SumPush([], Credit(p), AmountOf(p.m));
    SumPush(one, two[1], AmountOf(p.m));
    SumPush(two, refund, AmountOf(p.m));
  }

  lemma NoAdjustments(p: Plan)
    ensures Debited(RefundedDb(p).ledger, p.m) == 0 && RefundsMade(RefundedDb(p).refunds, p.m) == p.refund
  {
    SumZero(RefundedDb(p).ledger, DebitOf(p.m));
    SumPush([], Refund(0, p.m, p.refund), ToMerchant(p.m));
    assert [] + [Refund(0, p.m, p.refund)] == RefundedDb(p).refunds;
  }
}
