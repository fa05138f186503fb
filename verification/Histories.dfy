// Every history that the allowed moves permit is the history of a payment in
// some run, and no other is.

module Histories {
  import opened Options
  import opened PaymentDomain
  import opened Backend
  import opened BackendInvariant
  import opened BackendTheorems
  import opened BackendProgress
  import BackendStore
  import Fee

  function Start(): State { State(Db(map[0 := true], [], [], [], [], [], {}), map[]) }

  /** One production payment of 1000 with this history, and nobody at work on it. */
  predicate Shows(s: State, trail: seq<Status>) {
    && s.tx.Keys <= {0} && s.TxOf(0).Idle? && |s.db.payments| == 1 && trail != []
    && var p := s.db.payments[0];
    && p.SameOrder(Payment(0, 1000, 0, 0, true, 0, Pending, []))
    && p.trail == trail && p.status == trail[|trail| - 1]
    && (p.status == Paid ==> p.net == 993)
    && (p.status != Refunded ==> s.db.refunds == [])
  }

  ghost predicate Reached(events: seq<Event>, s: State) { Exec(Start(), events) == s }

  lemma Then(events: seq<Event>, s: State, a: Action) returns (longer: seq<Event>)
    requires Reached(events, s)
    ensures Reached(longer, Step(s, 0, a))
  {
    longer := events + [Event(0, a)];
    assert longer[..|events|] == events;
  }

  lemma {:induction false} ThenAdvances(events: seq<Event>, s: State, n: nat) returns (longer: seq<Event>)
    requires Reached(events, s)
    ensures Reached(longer, BackendStore.Advances(s, 0, n))
    decreases n
  {
    hide Reached, Step;
    longer := events;
    if n > 0 {
      longer := Then(events, s, Advance);
      longer := ThenAdvances(longer, Step(s, 0, Advance), n - 1);
    }
  }

  lemma Creates() returns (events: seq<Event>, s: State)
    ensures Reached(events, s) && Shows(s, [Pending])
  {
    assert Reached([], Start());
    CreationGoesThrough(Start(), 0, 0, 1000, false, 1000, 0, true, 0);
    events := Then([], Start(), Create(0, 1000, false, 1000, 0, true, 0));
    s := Step(Start(), 0, Create(0, 1000, false, 1000, 0, true, 0));
  }

  lemma Settles(events: seq<Event>, s: State, trail: seq<Status>) returns (longer: seq<Event>, s': State)
    requires Reached(events, s) && Shows(s, trail) && (s.db.payments[0].status == Pending || s.db.payments[0].status == Expired)
    ensures Reached(longer, s') && Shows(s', trail + [Paid])
  {
    hide Reached, Step;
    Fee.MerchantNetIs(1000, 0);
    hide Fee.MerchantNetFor;
    SettlementGoesThrough(s, 0, 0, None);
    longer := Then(events, s, Receive(0, 0, None));
    var asked := Step(s, 0, Receive(0, 0, None));
    longer := Then(longer, asked, ProviderSays(true, Some(1000)));
    longer := ThenAdvances(longer, Step(asked, 0, ProviderSays(true, Some(1000))), 4);
    s' := BackendStore.Advances(Step(asked, 0, ProviderSays(true, Some(1000))), 0, 4);
  }

  lemma Closes(events: seq<Event>, s: State, trail: seq<Status>, to: Status) returns (longer: seq<Event>, s': State)
    requires Reached(events, s) && Shows(s, trail) && s.db.payments[0].status == Pending && to in {Expired, Failed, Cancelled}
    ensures Reached(longer, s') && Shows(s', trail + [to])
  {
    hide Reached, Step;
    StatusUpdateGoesThrough(s, 0, 0, to);
    longer := Then(events, s, UpdateStatus(0, to));
    var noted := Step(s, 0, UpdateStatus(0, to));
    NotificationIsQueued(noted, 0, 0, to, false);
    longer := Then(longer, noted, Advance);
    s' := Step(noted, 0, Advance);
  }

  lemma Refunds(events: seq<Event>, s: State, trail: seq<Status>) returns (longer: seq<Event>, s': State)
    requires Reached(events, s) && Shows(s, trail) && s.db.payments[0].status == Paid
    ensures Reached(longer, s') && Shows(s', trail + [Refunded])
  {
    hide Reached, Step;
    RefundGoesThrough(s, 0, 0, 993);
    longer := Then(events, s, BeginRefund(0, 993));
    longer := ThenAdvances(longer, Step(s, 0, BeginRefund(0, 993)), 6);
    s' := BackendStore.Advances(Step(s, 0, BeginRefund(0, 993)), 0, 6);
  }

  lemma {:induction false} Happens(trail: seq<Status>) returns (events: seq<Event>, s: State)
    requires Path(trail)
    ensures Reached(events, s) && Shows(s, trail)
  {
    var n := |trail| - 1;
    if n == 0 {
      assert trail == [Pending];
      events, s := Creates();
    } else {
      assert trail == trail[..n] + [trail[n]];
      events, s := Happens(trail[..n]);
      assert s.db.payments[0].status == trail[n - 1] && trail[n - 1] in AllowedSourceStatuses(trail[n]);
      hide Reached;
      if trail[n] == Paid {
        events, s := Settles(events, s, trail[..n]);
      } else if trail[n] == Refunded {
        events, s := Refunds(events, s, trail[..n]);
      } else {
        events, s := Closes(events, s, trail[..n], trail[n]);
      }
    }
  }

  ghost predicate IsHistory(trail: seq<Status>) {
    exists s0, events, i: nat :: Initial(s0) && HasTrail(Exec(s0, events).db.payments, i, trail)
  }

  predicate HasTrail(payments: seq<Payment>, i: nat, trail: seq<Status>) { i < |payments| && payments[i].trail == trail }

  /** The histories of payments, over all runs, are exactly these eight. */
  lemma HistoriesAreExact(trail: seq<Status>)
    ensures IsHistory(trail) <==>
      || trail == [Pending]
      || trail == [Pending, Failed] || trail == [Pending, Cancelled] || trail == [Pending, Expired]
      || trail == [Pending, Paid] || trail == [Pending, Expired, Paid]
      || trail == [Pending, Paid, Refunded] || trail == [Pending, Expired, Paid, Refunded]
  {
    PathShape(trail);
    if Path(trail) {
      var events, s := Happens(trail);
      assert Initial(Start()) && HasTrail(Exec(Start(), events).db.payments, 0, trail);
    }
    if IsHistory(trail) {
      var s0, events, i: nat :| Initial(s0) && HasTrail(Exec(s0, events).db.payments, i, trail);
      RunKeeps(s0, events);
      assert PaymentOk(Exec(s0, events).db.payments[i], i, Exec(s0, events).db.reports);
    }
  }
}
