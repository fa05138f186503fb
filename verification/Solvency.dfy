// What the providers remit against what the ledger credits, over whole runs: from
// the amounts a payment is created with to the balance of its merchant.

module Solvency {
  import opened Options
  import opened Sums
  import opened Backend
  import opened BackendInvariant
  import opened BackendTheorems
  import opened Fee

  /** What the provider hands over for a payment: what the customer paid, less its
      rounded-up 0.7%. */
  function Remitted(p: Payment): int { Kept(p.TotalAmount(), PROVIDER_BASIS_POINTS) }

  function QuotedTotal(nominal: int): int
    requires 1 <= nominal <= MAX_NOMINAL
  {
    QuoteIsLeast(nominal, PROVIDER_BASIS_POINTS);
    QuoteTotalBasisPoints(nominal, PROVIDER_BASIS_POINTS).total
  }

  /** The merchant bears the fee, or the customer was charged at least the quote. */
  predicate Covered(p: Payment) {
    p.fee <= 0 || (1 <= p.amount <= MAX_NOMINAL && QuotedTotal(p.amount) <= p.TotalAmount())
  }

  lemma NetOfAmounts(amount: int, fee: int, net: int)
    requires amount > 0 && fee >= 0 && (fee > 0 ==> amount <= MAX_NOMINAL) && MerchantNetFor(amount, fee) == Some(net)
    ensures var kept := Kept(amount + fee, PROVIDER_BASIS_POINTS);
      if fee == 0 then net == kept else net == amount && (net <= kept <==> QuotedTotal(amount) <= amount + fee)
  {
    if fee == 0 {
      NetFitsInt64(amount, PROVIDER_BASIS_POINTS);
    } else {
      QuoteIsLeast(amount, PROVIDER_BASIS_POINTS);
    }
  }

  /** For every settled payment of every run: its provider reported the total it
      takes its share of; with the merchant bearing the fee the credited net is
      exactly what is remitted; otherwise it is the nominal, and it is covered
      exactly if the customer was charged the quote. */
  lemma SettledNetIsCovered(s0: State, events: seq<Event>, i: nat)
    requires Initial(s0) && i < |Exec(s0, events).db.payments| && Exec(s0, events).db.payments[i].Settled()
    ensures var db := Exec(s0, events).db; var p := db.payments[i];
      && Report(p.provider, i, p.TotalAmount()) in db.reports
      && p.fee >= 0
      && (p.fee == 0 ==> p.net == Remitted(p))
      && (p.fee > 0 ==> p.net == p.amount)
      && (p.net <= Remitted(p) <==> Covered(p))
  {
    RunKeeps(s0, events);
    var db := Exec(s0, events).db;
    var p := db.payments[i];
    assert PaymentOk(p, i, db.reports);
    NetOfAmounts(p.amount, p.fee, p.net);
  }

  // ------------------------------------------------------------- per merchant

  /** What the providers remit for the credited payments of a merchant. */
  function RemittedOf(m: nat): Payment -> int { (p: Payment) => if p.merchant == m && p.Creditable() then Remitted(p) else 0 }
  function RemittedTo(payments: seq<Payment>, m: nat): int { Sum(payments, RemittedOf(m)) }

  /** What undercharged payments of a merchant lack. */
  function ShortOf(m: nat): Payment -> int {
    (p: Payment) => if p.merchant == m && p.Creditable() && p.net > Remitted(p) then p.net - Remitted(p) else 0
  }
  function Shortfall(payments: seq<Payment>, m: nat): int { Sum(payments, ShortOf(m)) }

  lemma {:induction false} SumsCover(payments: seq<Payment>, m: nat)
    ensures NetsDue(payments, m) <= RemittedTo(payments, m) + Shortfall(payments, m)
    ensures 0 <= Shortfall(payments, m)
    ensures Shortfall(payments, m) == 0 <==>
      forall p <- payments :: p.merchant == m && p.Creditable() ==> p.net <= Remitted(p)
  {
    if payments != [] {
      var n := |payments| - 1;
      SumsCover(payments[..n], m);
      assert payments == payments[..n] + [payments[n]];
    }
  }

  /** A merchant's payments are all covered. */
  predicate AllCovered(payments: seq<Payment>, m: nat) {
    forall p <- payments :: p.merchant == m && p.Creditable() ==> Covered(p)
  }

  /** In every run, what a merchant is credited, what it holds, and what is
      requested or paid out to it stay within what its providers remit, plus its
      adjustments, plus what undercharged payments lack; and that is nothing
      exactly if its credited payments are all covered. */
  lemma CreditsAreRemitted(s0: State, events: seq<Event>, m: nat)
    requires Initial(s0)
    ensures var db := Exec(s0, events).db;
      var funds := RemittedTo(db.payments, m) + Shortfall(db.payments, m);
      && NetsDue(db.payments, m) <= funds
      && Balance(db.ledger, m) <= funds - RefundsMade(db.refunds, m) - LivePayouts(db.payouts, m) + Adjustments(db.ledger, m)
      && LivePayouts(db.payouts, m) <= funds + Granted(db.ledger, m)
      && (Shortfall(db.payments, m) == 0 <==> AllCovered(db.payments, m))
  {
    var db := Exec(s0, events).db;
    Conservation(s0, events, m);
    NoPayoutDoubleSpend(s0, events, m);
    SumsCover(db.payments, m);
    assert Credited(db.ledger, m) == NetsDue(db.payments, m);
    hide Exec, Initial, Remitted, Covered;
    forall p | p in db.payments && p.merchant == m && p.Creditable()
      ensures p.net <= Remitted(p) <==> Covered(p)
    {
      var i :| 0 <= i < |db.payments| && db.payments[i] == p;
      SettledNetIsCovered(s0, events, i);
    }
  }

  // -------------------------------------------------- from creation to balance

  /** The customer-borne charge that CreatePayment goes by reaches the quote. */
  predicate ChargesEnough(a: Action) {
    a.Create? && a.customerBears && 1 <= a.nominal <= MAX_NOMINAL ==>
      QuotedTotal(a.nominal) <= if a.charged <= 0 then a.charge else a.charged
  }

  /** A stored payment is covered exactly if the charge reaches the quote, or
      adds no fee at all: charged at the nominal, it is settled as if the merchant
      bore the fee. */
  lemma CreatedIsCovered(s: State, w: nat, a: Action)
    requires a.Create? && Begin(s, w, a) != s
    ensures var payments := Begin(s, w, a).db.payments;
      && |payments| == |s.db.payments| + 1
      && payments[..|s.db.payments|] == s.db.payments
      && var p := payments[|s.db.payments|];
      && p.fee >= 0
      && (Covered(p) <==> ChargesEnough(a) || p.fee == 0)
  {
    QuoteIsLeast(a.nominal, PROVIDER_BASIS_POINTS);
  }

  ghost predicate RunCovered(payments: seq<Payment>) { forall i :: 0 <= i < |payments| ==> Covered(payments[i]) }

  /** Only a creation adds a payment. */
  lemma OnlyCreateAdds(s: State, w: nat, a: Action)
    requires Inv(s)
    ensures |Step(s, w, a).db.payments| == |s.db.payments| || (a.Create? && s.TxOf(w).Idle? && Step(s, w, a) == Begin(s, w, a) != s)
  {
    assert w in s.tx ==> TxOk(s.db, s.tx[w]);
    hide Inv;
  }

  lemma StepCovers(s: State, w: nat, a: Action)
    requires Inv(s) && RunCovered(s.db.payments) && ChargesEnough(a)
    ensures RunCovered(Step(s, w, a).db.payments)
  {
    hide Covered;
    var payments := Step(s, w, a).db.payments;
    OnlyCreateAdds(s, w, a);
    forall i | 0 <= i < |payments|
      ensures Covered(payments[i])
    {
      if i < |s.db.payments| {
        TrailRecordsEveryChange(s, w, a, i);
        SameOrderSameCover(s.db.payments[i], payments[i]);
      } else {
        CreatedIsCovered(s, w, a);
      }
    }
  }

  lemma SameOrderSameCover(p: Payment, q: Payment)
    requires p.SameOrder(q)
    ensures Covered(p) <==> Covered(q)
  {
  }

  lemma {:induction false} RunCovers(s0: State, events: seq<Event>)
    requires Initial(s0) && forall k :: 0 <= k < |events| ==> ChargesEnough(events[k].action)
    ensures RunCovered(Exec(s0, events).db.payments)
  {
    if |events| > 0 {
      var n := |events| - 1;
      RunCovers(s0, events[..n]);
      RunKeeps(s0, events[..n]);
      StepCovers(Exec(s0, events[..n]), events[n].worker, events[n].action);
    }
  }

  /** If every customer-borne charge reaches its quote, then in every interleaving
      a merchant's credits never exceed what its providers remit, and its requested
      and paid payouts never exceed that plus its positive adjustments. */
  lemma QuotedRunsAreSolvent(s0: State, events: seq<Event>, m: nat)
    requires Initial(s0) && forall k :: 0 <= k < |events| ==> ChargesEnough(events[k].action)
    ensures var db := Exec(s0, events).db;
      && NetsDue(db.payments, m) <= RemittedTo(db.payments, m)
      && LivePayouts(db.payouts, m) <= RemittedTo(db.payments, m) + Granted(db.ledger, m)
  {
    RunCovers(s0, events);
    CreditsAreRemitted(s0, events, m);
    hide Exec, Covered;
    assert AllCovered(Exec(s0, events).db.payments, m);
  }
}
