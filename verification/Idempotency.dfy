// Idempotency-Key claims: the idempotency_keys table and the workers that
// claim, complete, release and purge its rows. A worker reads the clock, then
// runs its statement; other workers may act, and time may pass, in between.

module Idempotency {
  import opened Options

  const TTL := 86400              // seconds
  const ABANDONED_AFTER := 120

  datatype Scope = Scope(merchant: nat, sandbox: bool, key: string)

  /** A claim row; its id is fresh for every claim and acts as a fencing token. */
  datatype Rec = Rec(id: nat, hash: nat, payment: Option<nat>, createdAt: int)
  type Table = map<Scope, Rec>

  /** History: a payment made under a key, and the claim it was made under. */
  datatype Made = Made(scope: Scope, hash: nat, claim: nat, claimedAt: int)

  // --------------------------------------------------------------- statements

  /** The ON CONFLICT guard: expired, or abandoned without a payment. */
  predicate Takeable(r: Rec, now: int) {
    r.createdAt < now - TTL || (r.payment.None? && r.createdAt < now - ABANDONED_AFTER)
  }

  predicate Wins(table: Table, scope: Scope, now: int) {
    scope !in table || Takeable(table[scope], now)
  }

  /** The upsert of Claim. */
  function Upsert(table: Table, scope: Scope, id: nat, hash: nat, now: int): Table {
    if Wins(table, scope, now) then table[scope := Rec(id, hash, None, now)] else table
  }

  /** UPDATE ... SET payment_id WHERE id = claim. */
  function CompleteRows(table: Table, claim: nat, payment: nat): Table {
    map k | k in table :: if table[k].id == claim then table[k].(payment := Some(payment)) else table[k]
  }

  /** DELETE ... WHERE id = claim AND payment_id IS NULL. */
  function ReleaseRows(table: Table, claim: nat): Table {
    map k | k in table && !(table[k].id == claim && table[k].payment.None?) :: table[k]
  }

  /** DELETE ... WHERE created_at < cutoff. */
  function PurgeRows(table: Table, cutoff: int): Table {
    map k | k in table && table[k].createdAt >= cutoff :: table[k]
  }

  // ------------------------------------------------------------------ workers

  datatype Worker =
    | Idle
    | Asking(scope: Scope, hash: nat, now: int)                       // clock read, upsert not run
    | Owner(scope: Scope, hash: nat, claim: nat, claimedAt: int)      // creating the payment
    | Created(scope: Scope, claim: nat, claimedAt: int, payment: nat) // payment stored, claim not completed
    | Failed(scope: Scope, claim: nat, claimedAt: int)                // creation failed, claim not released
    | Purging(now: int)
  {
    predicate Holds() { Owner? || Created? || Failed? }
  }

  datatype State = State(table: Table, made: seq<Made>, clock: int, nextId: nat, workers: map<nat, Worker>) {
    function Of(w: nat): Worker { if w in workers then workers[w] else Idle }
    function Put(w: nat, x: Worker): State { this.(workers := workers[w := x]) }
  }

  datatype Action =
    | Tick(seconds: nat)
    | Ask(scope: Scope, hash: nat)
    | Claim
    | CreateSucceeds
    | CreateFails
    | Complete
    | CompleteFails
    | Release
    | ReleaseFails
    | StartPurge
    | Purge
    | Crash

  function Step(s: State, w: nat, a: Action): State {
    var x := s.Of(w);
    match a
    case Tick(seconds) => s.(clock := s.clock + seconds)
    case Ask(scope, hash) => if x.Idle? then s.Put(w, Asking(scope, hash, s.clock)) else s
    case Claim =>
      if !x.Asking? then s
      else if Wins(s.table, x.scope, x.now) then
        s.(table := Upsert(s.table, x.scope, s.nextId, x.hash, x.now), nextId := s.nextId + 1)
         .Put(w, Owner(x.scope, x.hash, s.nextId, x.now))
      else s.Put(w, Idle)
    case CreateSucceeds =>
      if x.Owner? then s.(made := s.made + [Made(x.scope, x.hash, x.claim, x.claimedAt)])
                        .Put(w, Created(x.scope, x.claim, x.claimedAt, |s.made|))
      else s
    case CreateFails => if x.Owner? then s.Put(w, Failed(x.scope, x.claim, x.claimedAt)) else s
    case Complete => if x.Created? then s.(table := CompleteRows(s.table, x.claim, x.payment)).Put(w, Idle) else s
    case CompleteFails => if x.Created? then s.Put(w, Idle) else s
    case Release => if x.Failed? then s.(table := ReleaseRows(s.table, x.claim)).Put(w, Idle) else s
    case ReleaseFails => if x.Failed? then s.Put(w, Idle) else s
    case StartPurge => if x.Idle? then s.Put(w, Purging(s.clock)) else s
    case Purge => if x.Purging? then s.(table := PurgeRows(s.table, x.now - TTL)).Put(w, Idle) else s
    case Crash => s.Put(w, Idle)
  }

  datatype Event = Event(worker: nat, action: Action)

  function Exec(s: State, events: seq<Event>): State {
    if |events| == 0 then s
    else
      var last := events[|events| - 1];
      Step(Exec(s, events[..|events| - 1]), last.worker, last.action)
  }

  predicate Initial(s: State) { s.table == map[] && s.made == [] && s.workers == map[] }
}
