// Every row lock PostgreSQL takes for the workers of Backend, those of foreign
// keys included, in the modes of its documentation (section 13.3.2). The model's
// own steps wait only for the explicit locks; this is why that is enough.

module Locks {
  import opened Backend
  import opened BackendInvariant
  import opened BackendTheorems

  /** Share mode is taken by no statement here. */
  datatype Mode = KeyShare | NoKeyUpdate | Update

  predicate Conflicts(a: Mode, b: Mode) {
    match (a, b)
    case (KeyShare, Update) | (Update, KeyShare) => true
    case (KeyShare, _) | (_, KeyShare) => false
    case _ => true
  }

  /** TheOpenPayout is the entry of the partial unique index on open payouts, which
      an insert holds exclusively until it commits. */
  datatype Thing = TheMerchant(id: nat) | ThePayment(id: nat) | ThePayout(id: nat) | TheOpenPayout(merchant: nat)
  datatype Lock = Lock(thing: Thing, mode: Mode)

  predicate Blocks(a: Lock, b: Lock) { a.thing == b.thing && Conflicts(a.mode, b.mode) }

  /** What an insert into the ledger, the refunds or the payouts takes on the rows
      it refers to. Rows of the worker's own making are invisible to others. */
  function References(merchant: nat, others: set<Thing>): set<Lock> {
    {Lock(TheMerchant(merchant), KeyShare)} + set x | x in others :: Lock(x, KeyShare)
  }

  /** The locks a worker has taken and keeps until it commits. */
  function Held(db: Db, t: Tx): set<Lock> {
    match t
    case PayoutTx(m, _, stage) =>
      {Lock(TheMerchant(m), NoKeyUpdate)}
      + (if stage.PayoutRow? || stage.PayoutDebitRow? then References(m, {}) + {Lock(TheOpenPayout(m), Update)} else {})
    case RejectTx(id, reversed) =>
      {Lock(ThePayout(id), NoKeyUpdate)}
      + (if reversed && id < |db.payouts| then References(db.payouts[id].merchant, {ThePayout(id)}) else {})
    case RefundTx(id, row, _, _, stage) =>
      {Lock(ThePayment(id), Update)}
      + (if stage.RefundRow? || stage.RefundDebitRow? || stage.StatusRow? then References(row.merchant, {ThePayment(id)}) else {})
    case PaidTx(id, _, _, credited) =>
      {Lock(ThePayment(id), Update)}
      + (if credited && id < |db.payments| then References(db.payments[id].merchant, {ThePayment(id)}) else {})
    case _ => {}
  }

  /** The locks the next statement of a worker inside a transaction takes. */
  function Wanted(db: Db, t: Tx): set<Lock> {
    match t
    case PayoutTx(m, _, Funded) => References(m, {}) + {Lock(TheOpenPayout(m), Update)}
    case PayoutTx(m, _, PayoutRow) => References(m, {})
    case RejectTx(id, false) => if id < |db.payouts| then References(db.payouts[id].merchant, {ThePayout(id)}) else {}
    case RefundTx(id, row, _, _, Summed) => References(row.merchant, {ThePayment(id)})
    case RefundTx(id, row, _, _, RefundRow) => References(row.merchant, {ThePayment(id)})
    case RefundTx(id, _, _, _, RefundDebitRow) => {Lock(ThePayment(id), NoKeyUpdate)}
    case PaidTx(id, _, _, false) => if id < |db.payments| then References(db.payments[id].merchant, {ThePayment(id)}) else {}
    case _ => {}
  }

  /** Two workers that hold no common explicit lock do not meet anywhere else:
      references to a merchant pass the lock of a payout request, which is why
      that lock is the weaker one. */
  lemma CompatibleNeverBlock(db: Db, t: Tx, u: Tx)
    requires Compatible(t, u)
    ensures forall a, b :: a in Wanted(db, t) && b in Held(db, u) ==> !Blocks(a, b)
  {
  }

  /** In every run, the next statement of a worker inside a transaction finds none
      of its locks taken by another worker in one: it does not wait, and it brings
      the worker closer to releasing everything it holds. */
  lemma NoWaitingInsideTransactions(s0: State, events: seq<Event>, w: nat)
    requires Initial(s0) && LockLeft(Exec(s0, events).TxOf(w)) > 0
    ensures var s := Exec(s0, events);
      && (forall v, a, b :: v in s.tx && v != w && a in Wanted(s.db, s.TxOf(w)) && b in Held(s.db, s.tx[v]) ==> !Blocks(a, b))
      && LockLeft(Step(s, w, Advance).TxOf(w)) < LockLeft(s.TxOf(w))
  {
    RunKeeps(s0, events);
    var s := Exec(s0, events);
    LockHoldersNeverWait(s, w);
    forall v | v in s.tx && v != w
      ensures forall a, b :: a in Wanted(s.db, s.TxOf(w)) && b in Held(s.db, s.tx[v]) ==> !Blocks(a, b)
    {
      CompatibleNeverBlock(s.db, s.TxOf(w), s.tx[v]);
    }
  }

  /** A full row lock on the merchant would not do: a reference by another
      transaction, a credit's say, would wait for the payout request. */
  lemma FullMerchantLockWouldBlock(db: Db, id: nat, m: nat)
    requires id < |db.payments| && db.payments[id].merchant == m
    ensures exists a :: a in Wanted(db, PaidTx(id, db.payments[id].status, 0, false)) && Blocks(a, Lock(TheMerchant(m), Update))
  {
    assert Lock(TheMerchant(m), KeyShare) in Wanted(db, PaidTx(id, db.payments[id].status, 0, false));
  }
}
