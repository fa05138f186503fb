// What moves a payment from the outside: provider webhooks, the reconcile check
// and the expiry job (internal/service). Each takes the payment row as it was
// read, which may be stale by the time it writes, and what the provider
// answered; each is tied to the worker machine of Backend, so that the theorems
// about interleavings are about this code.

module Settlement {
  import opened Options
  import opened PaymentDomain
  import opened Backend
  import BackendStore
  import Fee

  const EXPIRE_GRACE := 300

  // ------------------------------------------------------------- verification

  datatype Verdict = Settles | NotSettled | ProviderMismatch | WebhookMismatch

  /** What a provider's answer is worth for the payment as it was read. */
  function VerifyProviderPayment(row: Payment, settled: bool, reported: Option<int>, hook: Option<int>): Verdict {
    if !settled then NotSettled
    else if reported != Some(row.TotalAmount()) then ProviderMismatch
    else if hook.Some? && hook.value != row.TotalAmount() then WebhookMismatch
    else Settles
  }

  /** Only an answer the machine accepts settles. The two mismatches differ as
      documented: a webhook that disagrees with the provider leaves the payment
      to reconcile, which settles it on the same answer; a provider that
      disagrees with the stored amounts does so for reconcile too. */
  lemma MismatchKinds(row: Payment, settled: bool, reported: Option<int>, hook: Option<int>)
    ensures var v := VerifyProviderPayment(row, settled, reported, hook);
      && (v == NotSettled <==> !settled)
      && (v == ProviderMismatch <==> settled && (reported.None? || reported.value != row.amount + row.fee))
      && (v == Settles <==> Verified(row, settled, reported, hook))
      && VerifyProviderPayment(row, settled, reported, None) == if v == WebhookMismatch then Settles else v
  {
  }

  // ------------------------------------------------ one worker running alone

  /** The machine's run from a row that was read: the provider answers, MarkPaid
      runs through, and the callback is queued unless that fails. */
  function SettleRun(db: Db, id: nat, row: Payment, hook: Option<int>, settled: bool, reported: Option<int>, queued: bool): Db {
    var asked := State(db, map[0 := Settling(id, row, hook)]);
    var paid := BackendStore.Advances(Step(asked, 0, ProviderSays(settled, reported)), 0, 3);
    Step(paid, 0, if queued then Advance else Abort).db
  }

  /** Likewise for an expiry. */
  function ExpireRun(db: Db, id: nat, queued: bool): Db {
    Step(Step(State(db, map[]), 0, UpdateStatus(id, Expired)), 0, if queued then Advance else Abort).db
  }

  function Heard(db: Db, id: nat, row: Payment, settled: bool, reported: Option<int>): Db {
    if settled && reported.Some? then db.(reports := db.reports + {Report(row.provider, id, reported.value)}) else db
  }

  function Told(db: Db, c: Callback, queued: bool): Db { if queued then Queue(db, c) else db }

  /** The answer settles the payment, and the payment can still be settled. */
  predicate Pays(db: Db, id: nat, row: Payment, hook: Option<int>, settled: bool, reported: Option<int>) {
    && id < |db.payments|
    && Verified(row, settled, reported, hook)
    && Fee.MerchantNetFor(row.amount, row.fee).Some?
    && db.payments[id].status in AllowedSourceStatuses(Paid)
  }

  function Paying(db: Db, id: nat, row: Payment, queued: bool): Db
    requires id < |db.payments| && Fee.MerchantNetFor(row.amount, row.fee).Some?
  {
    Told(SettlePayment(db, id, Fee.MerchantNetFor(row.amount, row.fee).value),
         Callback(id, Paid, db.payments[id].status == Expired), queued)
  }

  function Expiring(db: Db, id: nat, queued: bool): Db
    requires id < |db.payments|
  {
    Told(MoveStatus(db, id, Expired), Callback(id, Expired, false), queued)
  }

  lemma SettleRunIs(db: Db, id: nat, row: Payment, hook: Option<int>, settled: bool, reported: Option<int>, queued: bool)
    requires id < |db.payments|
    ensures var heard := Heard(db, id, row, settled, reported);
      SettleRun(db, id, row, hook, settled, reported, queued)
      == if Pays(db, id, row, hook, settled, reported) then Paying(heard, id, row, queued) else heard
  {
    hide Verified;
    var heard := Heard(db, id, row, settled, reported);
    var s1 := Step(State(db, map[0 := Settling(id, row, hook)]), 0, ProviderSays(settled, reported));
    BackendStore.Unfolded(s1, 0);
    if Verified(row, settled, reported, hook) {
      assert s1 == State(heard, map[0 := Confirmed(id, row, hook)]);
      MarkPaidRun(heard, id, row, hook);
    } else {
      assert s1 == State(heard, map[0 := Idle]);
      BackendStore.IdleStays(s1, 0, 3);
    }
  }

  lemma MarkPaidRun(db: Db, id: nat, row: Payment, hook: Option<int>)
    requires id < |db.payments|
    ensures var net := Fee.MerchantNetFor(row.amount, row.fee);
      BackendStore.Advances(State(db, map[0 := Confirmed(id, row, hook)]), 0, 3)
      == if net.Some? && db.payments[id].status in AllowedSourceStatuses(Paid)
         then State(SettlePayment(db, id, net.value), map[0 := Notifying(id, Paid, db.payments[id].status == Expired)])
         else State(db, map[0 := Idle])
  {
    hide Step;
    var s := State(db, map[0 := Confirmed(id, row, hook)]);
    var net := Fee.MerchantNetFor(row.amount, row.fee);
    BackendStore.Unfolded(s, 0);
    PayingBegins(db, id, row, hook);
    if net.Some? && db.payments[id].status in AllowedSourceStatuses(Paid) {
      PayingEnds(db, id, db.payments[id].status, net.value);
    } else {
      Rests(db);
    }
  }

  lemma PayingBegins(db: Db, id: nat, row: Payment, hook: Option<int>)
    requires id < |db.payments|
    ensures var net := Fee.MerchantNetFor(row.amount, row.fee);
      Step(State(db, map[0 := Confirmed(id, row, hook)]), 0, Advance)
      == State(db, map[0 := if net.Some? && db.payments[id].status in AllowedSourceStatuses(Paid)
                            then PaidTx(id, db.payments[id].status, net.value, false) else Idle])
  {
  }

  lemma PayingEnds(db: Db, id: nat, previous: Status, net: int)
    requires id < |db.payments|
    ensures Step(Step(State(db, map[0 := PaidTx(id, previous, net, false)]), 0, Advance), 0, Advance)
         == State(SettlePayment(db, id, net), map[0 := Notifying(id, Paid, previous == Expired)])
  {
    assert Step(State(db, map[0 := PaidTx(id, previous, net, false)]), 0, Advance)
        == State(db, map[0 := PaidTx(id, previous, net, true)]);
  }

  lemma Rests(db: Db)
    ensures Step(State(db, map[0 := Idle]), 0, Advance) == State(db, map[0 := Idle])
  {
  }

  lemma ExpireRunIs(db: Db, id: nat, queued: bool)
    requires id < |db.payments|
    ensures ExpireRun(db, id, queued) == if db.payments[id].status == Pending then Expiring(db, id, queued) else db
  {
    var s1 := Step(State(db, map[]), 0, UpdateStatus(id, Expired));
    if db.payments[id].status == Pending {
      assert s1 == State(MoveStatus(db, id, Expired), map[0 := Notifying(id, Expired, false)]);
    } else {
      assert s1 == State(db, map[]);
    }
  }

  // --------------------------------------------------------------- the service

  datatype Reply = NoAnswer | Says(settled: bool, amount: Option<int>)

  /** Errored: reported in the result; Broken: returned as an error. */
  datatype Action = Skipped | Errored | Unchanged | Updated | ExpiredLocally | Broken

  /** A webhook after signature check and parsing. */
  datatype Webhook = BadSignature | TestEvent | Unreadable | Reported(status: Status, amount: Option<int>)

  datatype WebhookResult = Processed | Acknowledged | Invalid | UnknownProvider | NotFound | WrongProvider | Ignored
                         | Duplicate | AlreadyTerminal | Mismatch(verdict: Verdict) | NotConfirmed | NoNet | NotWritten

  /** The row a worker read some time ago: the order columns are never rewritten. */
  predicate WasRead(payments: seq<Payment>, id: nat, row: Payment) {
    id < |payments| && row.SameOrder(payments[id])
  }

  /** What is recorded as reported is what the payment's provider said. */
  ghost predicate OnlyHears(before: set<Report>, after: set<Report>, id: nat, row: Payment, reply: Reply) {
    || after == before
    || (reply.Says? && reply.settled && reply.amount.Some? && after == before + {Report(row.provider, id, reply.amount.value)})
  }

  /** The same answer would settle the payment, were it not for the webhook. */
  predicate LeftToReconcile(found: Option<(nat, Payment)>, reply: Reply) {
    found.Some? && reply.Says? && VerifyProviderPayment(found.value.1, reply.settled, reply.amount, None) == Settles
  }

  class PaymentService {
    const store: BackendStore.Store

    constructor (store: BackendStore.Store)
      ensures this.store == store
    {
      this.store := store;
    }

    /** Queues the first attempt; it is skipped when there is nowhere to send
        it or the insert fails. */
    method Notify(id: nat, event: Status, late: bool, queued: bool)
      modifies store`callbacks
      ensures store.callbacks == old(store.callbacks) + if queued then [Callback(id, event, late)] else []
      ensures store.Tables() == old(Told(store.Tables(), Callback(id, event, late), queued))
    {
      if queued {
        store.callbacks := store.callbacks + [Callback(id, event, late)];
      }
    }

    /** The answer is recorded as history, then MarkPaid and the callback.
        `written` says that the database takes the status change. */
    method Settle(id: nat, row: Payment, settled: bool, reported: Option<int>, hook: Option<int>, written: bool, queued: bool)
      returns (paid: bool)
      requires WasRead(store.payments, id, row)
      modifies store
      ensures paid <==> written && old(Pays(store.Tables(), id, row, hook, settled, reported))
      ensures var heard := old(Heard(store.Tables(), id, row, settled, reported));
        store.Tables() == if paid then Paying(heard, id, row, queued) else heard
    {
      ghost var before := store.Tables();
      if settled && reported.Some? {
        store.reports := store.reports + {Report(row.provider, id, reported.value)};
      }
      assert store.Tables() == Heard(before, id, row, settled, reported);
      MismatchKinds(row, settled, reported, hook);
      if VerifyProviderPayment(row, settled, reported, hook) != Settles { return false; }
      var net := Fee.MerchantNetFor(row.amount, row.fee);
      if net.None? || !written { return false; }
      var previous := store.MarkPaid(id, net.value);
      if previous.Err? { return false; }
      Notify(id, Paid, previous.value == Expired, queued);
      return true;
    }

    /** Losing the race to a settlement is not an error. */
    method ExpireLocally(id: nat, written: bool, queued: bool) returns (action: Action)
      requires id < |store.payments|
      modifies store
      ensures action == if !written then Broken else if old(store.payments[id].status) == Pending then ExpiredLocally else Skipped
      ensures store.Tables() == old(if action == ExpiredLocally then Expiring(store.Tables(), id, queued) else store.Tables())
      ensures written ==> store.Tables() == old(ExpireRun(store.Tables(), id, queued))
    {
      ExpireRunIs(store.Tables(), id, queued);
      if !written { return Broken; }
      var previous := store.UpdateStatusTo(id, Expired);
      if previous.Err? { return Skipped; }
      Notify(id, Expired, false, queued);
      return ExpiredLocally;
    }

    /** One payment checked with its provider; `row` is the payment as listed. */
    method ReconcilePaymentData(id: nat, row: Payment, now: int, expiresAt: int, hasReference: bool, registered: bool,
                                reply: Reply, written: bool, queued: bool) returns (action: Action)
      requires WasRead(store.payments, id, row)
      modifies store
      ensures action == Updated <==>
        && row.status in [Pending, Expired] && hasReference && registered && reply.Says? && written
        && old(Pays(store.Tables(), id, row, None, reply.settled, reply.amount))
      ensures action == ExpiredLocally <==>
        && row.status == Pending && now > expiresAt + 300 && old(store.payments[id].status) == Pending && written
        && (!hasReference || (registered && (reply.NoAnswer? || !reply.settled)))
      ensures row.status in {Paid, Failed, Cancelled, PaymentDomain.Refunded} ==> action == Skipped
      ensures row.status in {Pending, Expired} && hasReference && !registered ==> action == Errored
      ensures row.status in {Pending, Expired} && hasReference && registered && !(row.status == Pending && now > expiresAt + 300) ==>
        && (reply.NoAnswer? ==> action == Errored)
        && (reply.Says? && !reply.settled ==> action == Unchanged)
      ensures row.status in {Pending, Expired} && hasReference && registered && reply.Says? && reply.settled ==>
        (reply.amount != Some(row.amount + row.fee) ==> action == Errored)
      ensures action == Broken ==> !written || Fee.MerchantNetFor(row.amount, row.fee).None?
      ensures action == Updated ==>
        store.Tables() == old(SettleRun(store.Tables(), id, row, None, reply.settled, reply.amount, queued))
      ensures action == ExpiredLocally ==> store.Tables() == old(ExpireRun(store.Tables(), id, queued))
      // anything else leaves the payment and the money alone
      ensures action != Updated && action != ExpiredLocally ==>
        store.Tables() == old(store.Tables()).(reports := store.reports)
      ensures OnlyHears(old(store.reports), store.reports, id, row, reply)
    {
      if row.status != Pending && row.status != Expired { return Skipped; }
      var pastExpiry := row.status == Pending && now > expiresAt + EXPIRE_GRACE;
      if !hasReference {
        if pastExpiry {
          action := ExpireLocally(id, written, queued);
          return;
        }
        return Skipped;
      }
      if !registered { return Errored; }
      if reply.NoAnswer? || !reply.settled {
        if pastExpiry {
          action := ExpireLocally(id, written, queued);
          return;
        }
        return if reply.NoAnswer? then Errored else Unchanged;
      }
      SettleRunIs(store.Tables(), id, row, None, reply.settled, reply.amount, queued);
      var paid := Settle(id, row, reply.settled, reply.amount, None, written, queued);
      if paid { return Updated; }
      if VerifyProviderPayment(row, reply.settled, reply.amount, None) != Settles { return Errored; }
      return if Fee.MerchantNetFor(row.amount, row.fee).None? || !written then Broken else Skipped;
    }

    /** A webhook is only a trigger: nothing it says is believed before the
        provider that owns the payment confirms it. `found` is the payment with
        the webhook's reference, as read. */
    method ProcessWebhook(registered: bool, hook: Webhook, from: nat, found: Option<(nat, Payment)>, reply: Reply,
                          written: bool, queued: bool)
      returns (r: WebhookResult)
      requires found.Some? ==> WasRead(store.payments, found.value.0, found.value.1)
      modifies store
      ensures r == Processed <==>
        && registered && hook.Reported? && hook.status == Paid && found.Some? && found.value.1.provider == from
        && found.value.1.status in [Pending, Expired] && reply.Says? && written
        && old(Pays(store.Tables(), found.value.0, found.value.1, hook.amount, reply.settled, reply.amount))
      ensures r == Processed ==>
        store.Tables() == old(SettleRun(store.Tables(), found.value.0, found.value.1, hook.amount, reply.settled, reply.amount, queued))
      ensures r != Processed ==>
        store.Tables() == old(store.Tables()).(reports := store.reports)
      ensures found.None? ==> store.reports == old(store.reports)
      ensures found.Some? ==> OnlyHears(old(store.reports), store.reports, found.value.0, found.value.1, reply)
      ensures r == NotWritten ==> !written
      ensures registered && hook.Reported? && found.Some? ==>
        var row := found.value.1;
        && (r == WrongProvider <==> row.provider != from)
        && (r == Ignored <==> row.provider == from && hook.status != Paid)
        && (r == AlreadyTerminal <==> row.provider == from && hook.status == Paid && row.status in {Failed, Cancelled, PaymentDomain.Refunded})
        && (row.provider == from && hook.status == Paid && row.status == Paid ==> r == Duplicate)
        && (row.provider == from && hook.status == Paid && row.status in {Pending, Expired} && (reply.NoAnswer? || !reply.settled) ==> r == NotConfirmed)
      ensures r == Mismatch(WebhookMismatch) ==> LeftToReconcile(found, reply)
    {
      if !registered { return UnknownProvider; }
      match hook {
        case BadSignature => return Invalid;
        case TestEvent => return Acknowledged;
        case Unreadable => return Invalid;
        case Reported(status, amount) =>
          if found.None? { return NotFound; }
          var (id, row) := found.value;
          if row.provider != from { return WrongProvider; }
          if status != Paid { return Ignored; }
          if row.status == Paid { return Duplicate; }
          if row.status != Pending && row.status != Expired { return AlreadyTerminal; }
          if reply.NoAnswer? { return NotConfirmed; }
          var verdict := VerifyProviderPayment(row, reply.settled, reply.amount, amount);
          SettleRunIs(store.Tables(), id, row, amount, reply.settled, reply.amount, queued);
          MismatchKinds(row, reply.settled, reply.amount, amount);
          var paid := Settle(id, row, reply.settled, reply.amount, amount, written, queued);
          if paid { return Processed; }
          if verdict == NotSettled { return NotConfirmed; }
          if verdict != Settles { return Mismatch(verdict); }
          if Fee.MerchantNetFor(row.amount, row.fee).None? { return NoNet; }
          return if written then Duplicate else NotWritten;
      }
    }

    /** One batch of the expiry job over payments listed earlier. One that was
        settled meanwhile, or whose update fails, is passed over, and the batch
        goes on. */
    method ExpirePayments(ids: seq<nat>, written: nat -> bool, queued: nat -> bool)
      requires forall k :: 0 <= k < |ids| ==> ids[k] < |store.payments|
      modifies store
      ensures |store.payments| == |old(store.payments)|
      ensures store.Tables() == old(ExpireAll(store.Tables(), ids, written, queued))
    {
      ghost var before := store.Tables();
      assert ids[..0] == [];
      for k := 0 to |ids|
        invariant |store.payments| == |before.payments|
        invariant store.Tables() == ExpireAll(before, ids[..k], written, queued)
      {
        assert ids[..k + 1][..k] == ids[..k];
        var action := ExpireLocally(ids[k], written(ids[k]), queued(ids[k]));
        if action != ExpiredLocally { continue; }
      }
      assert ids[..|ids|] == ids;
    }
  }

  /** The machine's runs for one batch, one payment after the other. */
  function ExpireAll(db: Db, ids: seq<nat>, written: nat -> bool, queued: nat -> bool): Db {
    if ids == [] then db
    else
      var id := ids[|ids| - 1];
      var before := ExpireAll(db, ids[..|ids| - 1], written, queued);
      if written(id) then ExpireRun(before, id, queued(id)) else before
  }

  /** A batch expires exactly the listed payments that are still pending and
      whose update goes through, and changes nothing else about any payment, nor
      any money. */
  lemma {:induction false} ExpireAllAt(db: Db, ids: seq<nat>, written: nat -> bool, queued: nat -> bool, i: nat)
    requires i < |db.payments| && forall k :: 0 <= k < |ids| ==> ids[k] < |db.payments|
    ensures var end := ExpireAll(db, ids, written, queued);
      && |end.payments| == |db.payments|
      && end.payments[i] == (if i in ids && written(i) && db.payments[i].status == Pending then db.payments[i].Move(Expired) else db.payments[i])
      && end == db.(payments := end.payments, callbacks := end.callbacks)
  {
    if ids != [] {
      var n := |ids| - 1;
      ExpireAllAt(db, ids[..n], written, queued, i);
      var before := ExpireAll(db, ids[..n], written, queued);
      ExpireRunIs(before, ids[n], queued(ids[n]));
      assert ids == ids[..n] + [ids[n]];
    }
  }
}
