// The claims repository and the claim loop of CreatePaymentIdempotent, as they
// change the table. What other workers do between two statements is a function
// of the table that the caller of these methods knows nothing about.

module IdempotencyStore {
  import opened Options
  import opened Idempotency
  import opened IdempotencyTheorems

  const MAX_CLAIM_ATTEMPTS := 3

  /** Which of the two statements of a claim fails in the database, if any; a
      failing upsert changes nothing. */
  datatype Access = Fine | UpsertFails | ReadFails

  /** One try at a claim: the clock it reads, what happens to the table between
      its two statements, and whether they work. */
  datatype Try = Try(now: int, meanwhile: Table -> Table, access: Access)

  datatype ClaimResult = Won(id: nat) | Taken(row: Rec) | Vanished | Broken

  /** What loading the payment of a replay comes to. */
  datatype Load = Loaded | Missing | LoadFails

  /** Paid: made now, whether or not the claim was still ours to complete. */
  datatype Result = Paid(payment: nat) | CreationFailed | Told(reply: Reply) | Unavailable

  /** A key is free if it has no row, a row more than a day old, or a row without
      a payment more than two minutes old. */
  predicate IsFree(table: Table, scope: Scope, now: int) {
    || scope !in table
    || table[scope].createdAt + 86_400 < now
    || (table[scope].payment.None? && table[scope].createdAt + 120 < now)
  }

  /** The answer to a request that finds this row. */
  function AnswerFrom(row: Rec, hash: nat, load: Load): Result {
    var reply := ReplyTo(row, hash);
    if !reply.Replayed? || load.Loaded? then Told(reply)
    else if load.Missing? then Told(InProgress) else Unavailable
  }

  predicate HasClaim(table: Table, claim: nat) { exists k :: k in table && table[k].id == claim }

  /** Reused for another request; still being worked on, or its payment gone; or
      the payment itself. */
  lemma AnswerIs(row: Rec, hash: nat, load: Load)
    ensures AnswerFrom(row, hash, load)
         == if row.hash != hash then Told(KeyReused)
            else if row.payment.None? || load == Missing then Told(InProgress)
            else if load == LoadFails then Unavailable
            else Told(Replayed(row.payment.value))
  {
  }

  /** How a request's claims end: with the table it owns the key in, with the row
      it is answered from, with the row gone each time, or with an error. */
  datatype Ending = Owns(owned: Table) | Answers(row: Rec, left: Table) | GivesUp(left: Table) | Breaks(left: Table)

  function ClaimLoop(table: Table, id: nat, scope: Scope, hash: nat, tries: seq<Try>): Ending
    decreases |tries|
  {
    if tries == [] then GivesUp(table)
    else
      var t := tries[0];
      if t.access.UpsertFails? then Breaks(table)
      else if Wins(table, scope, t.now) then Owns(Upsert(table, scope, id, hash, t.now))
      else
        var left := t.meanwhile(table);
        if t.access.ReadFails? then Breaks(left)
        else if scope in left then Answers(left[scope], left)
        else ClaimLoop(left, id, scope, hash, tries[1..])
  }

  /** Only a row that vanishes makes a request try again: it owns the key by a
      fresh row of its own, stamped with the clock of the try that won, answers
      only from a row that was there, and gives up only when none is left.
      Undisturbed it comes to one claim. */
  lemma {:induction false} TriesAgainOnlyOnVanishing(table: Table, id: nat, scope: Scope, hash: nat, tries: seq<Try>)
    requires tries != []
    ensures match ClaimLoop(table, id, scope, hash, tries)
      case Owns(owned) => OwnRow(owned, id, scope, hash, if Wins(table, scope, tries[0].now) then tries[..1] else tries[1..])
      case Answers(row, left) => scope in left && left[scope] == row && !Wins(table, scope, tries[0].now)
      case GivesUp(left) => scope !in left && !Wins(table, scope, tries[0].now)
      case Breaks(_) => exists t :: t in tries && !t.access.Fine?
    ensures tries[0].meanwhile(table) == table && tries[0].access.Fine? ==>
      ClaimLoop(table, id, scope, hash, tries)
      == if Wins(table, scope, tries[0].now) then Owns(Upsert(table, scope, id, hash, tries[0].now)) else Answers(table[scope], table)
    decreases |tries|
  {
    var t := tries[0];
    assert t in tries && forall u :: u in tries[1..] ==> u in tries;
    if t.access.Fine? && !Wins(table, scope, t.now) && scope !in t.meanwhile(table) && |tries| > 1 {
      TriesAgainOnlyOnVanishing(t.meanwhile(table), id, scope, hash, tries[1..]);
      assert forall u :: u in tries[1..][..1] ==> u in tries[1..];
      assert forall u :: u in tries[1..][1..] ==> u in tries[1..];
    }
  }

  ghost predicate OwnRow(table: Table, id: nat, scope: Scope, hash: nat, tries: seq<Try>) {
    && scope in table && table[scope].id == id && table[scope].hash == hash && table[scope].payment.None?
    && exists t :: t in tries && table[scope].createdAt == t.now
  }

  class KeyStore {
    var table: Table
    var nextId: nat

    /** The upsert and, when it wins nothing, a second statement that reads the
        row. */
    method Claim(scope: Scope, hash: nat, t: Try) returns (r: ClaimResult)
      modifies this
      ensures r.Won? <==> !t.access.UpsertFails? && IsFree(old(table), scope, t.now)
      ensures r.Won? ==> r.id == old(nextId) && nextId == r.id + 1 && table == old(table)[scope := Rec(r.id, hash, None, t.now)]
      ensures r.Broken? <==> t.access.UpsertFails? || (t.access.ReadFails? && !IsFree(old(table), scope, t.now))
      ensures !r.Won? ==> nextId == old(nextId) && table == if t.access.UpsertFails? then old(table) else t.meanwhile(old(table))
      ensures !r.Won? && !r.Broken? ==> r == if scope in table then Taken(table[scope]) else Vanished
    {
      if t.access.UpsertFails? {
        return Broken;
      }
      var id := nextId;
      if scope !in table {
        table := table[scope := Rec(id, hash, None, t.now)];
        nextId := id + 1;
        return Won(id);
      }
      var row := table[scope];
      if row.createdAt < t.now - TTL || (row.payment.None? && row.createdAt < t.now - ABANDONED_AFTER) {
        table := table[scope := Rec(id, hash, None, t.now)];
        nextId := id + 1;
        return Won(id);
      }
      table := t.meanwhile(table);
      if t.access.ReadFails? {
        return Broken;
      }
      if scope !in table {
        return Vanished;
      }
      return Taken(table[scope]);
    }

    /** False is ErrClaimLost: no row has the id any more. */
    method Complete(claim: nat, payment: nat) returns (kept: bool)
      modifies this`table
      ensures table == CompleteRows(old(table), claim, payment)
      ensures kept <==> exists k :: k in old(table) && old(table)[k].id == claim
      ensures !kept ==> table == old(table)
    {
      kept := exists k :: k in table && table[k].id == claim;
      table := CompleteRows(table, claim, payment);
    }

    method Release(claim: nat)
      modifies this`table
      ensures table == ReleaseRows(old(table), claim)
    {
      table := ReleaseRows(table, claim);
    }

    /** How many rows went. */
    method PurgeOlderThan(cutoff: int) returns (n: nat)
      modifies this`table
      ensures table == PurgeRows(old(table), cutoff)
      ensures forall k :: k in table <==> k in old(table) && old(table)[k].createdAt >= cutoff
      ensures forall k :: k in table ==> table[k] == old(table)[k]
      ensures n == |old(table).Keys - table.Keys| == |old(table)| - |table|
    {
      var before := table;
      table := PurgeRows(table, cutoff);
      n := |before.Keys - table.Keys|;
      assert before.Keys == table.Keys + (before.Keys - table.Keys);
    }

    /** createClaimed: `made` is what CreatePayment came to, `later` what happens
        to the table while it runs, `settles` whether the statement that settles
        the claim works. It changes the answer in no case. */
    method CreateClaimed(claim: nat, made: Option<nat>, later: Table -> Table, settles: bool) returns (r: Result, kept: bool)
      modifies this`table
      ensures r == if made.Some? then Paid(made.value) else CreationFailed
      ensures table == (var left := later(old(table));
        if !settles then left else if made.Some? then CompleteRows(left, claim, made.value) else ReleaseRows(left, claim))
      ensures kept <==> settles && HasClaim(later(old(table)), claim)
    {
      table := later(table);
      if made.None? {
        kept := settles && exists k :: k in table && table[k].id == claim;
        if settles {
          Release(claim);
        }
        return CreationFailed, kept;
      }
      kept := false;
      if settles {
        kept := Complete(claim, made.value);
      }
      return Paid(made.value), kept;
    }

    /** Claims the key and creates, or answers from the row that is there. A row
        that vanishes between the two statements of Claim is tried again, three
        times in all. `seen` is the last row that was read. */
    method CreatePaymentIdempotent(scope: Scope, hash: nat, tries: seq<Try>, load: Load,
                                   made: Option<nat>, later: Table -> Table, settles: bool)
      returns (r: Result, seen: Option<Rec>, attempts: nat)
      requires |tries| == MAX_CLAIM_ATTEMPTS
      modifies this
      ensures 1 <= attempts <= MAX_CLAIM_ATTEMPTS
      ensures match ClaimLoop(old(table), old(nextId), scope, hash, tries)
        case Owns(owned) =>
          && seen.None? && r == (if made.Some? then Paid(made.value) else CreationFailed)
          && table == Settled(later(owned), old(nextId), made, settles)
        case Answers(row, left) => seen == Some(row) && r == AnswerFrom(row, hash, load) && table == left
        case GivesUp(left) => seen.None? && r == Told(InProgress) && attempts == MAX_CLAIM_ATTEMPTS && table == left
        case Breaks(left) => seen.None? && r == Unavailable && table == left
    {
      seen := None;
      attempts := 0;
      while attempts < MAX_CLAIM_ATTEMPTS
        invariant attempts <= MAX_CLAIM_ATTEMPTS && seen.None?
        invariant nextId == old(nextId)
        invariant ClaimLoop(table, nextId, scope, hash, tries[attempts..])
               == ClaimLoop(old(table), nextId, scope, hash, tries)
      {
        assert tries[attempts..][1..] == tries[attempts + 1..];
        var claim := Claim(scope, hash, tries[attempts]);
        attempts := attempts + 1;
        match claim {
          case Broken =>
            r := Unavailable;
            return;
          case Won(id) =>
            var kept;
            r, kept := CreateClaimed(id, made, later, settles);
            return;
          case Vanished =>
          case Taken(row) =>
            seen := Some(row);
            if row.hash != hash {
              r := Told(KeyReused);
            } else if row.payment.None? || load.Missing? {
              r := Told(InProgress);
            } else if load.LoadFails? {
              r := Unavailable;
            } else {
              r := Told(Replayed(row.payment.value));
            }
            return;
        }
      }
      r := Told(InProgress);
    }
  }

  /** The table after a claim is settled, if the statement works. */
  function Settled(table: Table, claim: nat, made: Option<nat>, settles: bool): Table {
    if !settles then table
    else if made.Some? then CompleteRows(table, claim, made.value) else ReleaseRows(table, claim)
  }

  /** ValidateKey: 1 to 128 visible ASCII characters. */
  method ValidateKey(key: string) returns (ok: bool)
    ensures ok <==> 1 <= |key| <= 128 && forall i :: 0 <= i < |key| ==> '!' <= key[i] <= '~'
  {
    if |key| == 0 || |key| > 128 {
      return false;
    }
    for i := 0 to |key|
      invariant forall j :: 0 <= j < i ==> '!' <= key[j] <= '~'
    {
      if key[i] < '!' || key[i] > '~' {
        return false;
      }
    }
    return true;
  }
}
