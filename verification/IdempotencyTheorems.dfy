// What the claims guarantee with no timing assumption at all: fencing, replays
// of the same request only, and a purge that nobody notices.

module IdempotencyTheorems {
  import opened Options
  import opened Idempotency

  // ------------------------------------------------------------------ fencing

  /** Claim ids are handed out once: a row or a holder has an id below nextId,
      and whoever has an id agrees on what it was handed out for. */
  ghost predicate Fenced(s: State) {
    && (forall k :: k in s.table ==> RowOk(s, k))
    && (forall p :: 0 <= p < |s.made| ==> s.made[p].claim < s.nextId)
    && (forall w :: w in s.workers ==> HolderOk(s, s.workers[w]))
    && (forall w, v :: w in s.workers && v in s.workers && w != v && s.workers[w].Holds() && s.workers[v].Holds() ==>
          s.workers[w].claim != s.workers[v].claim)
    && (forall k, l :: k in s.table && l in s.table && s.table[k].id == s.table[l].id ==> k == l)
  }

  /** A completed row names a payment made under this very claim. */
  ghost predicate RowOk(s: State, k: Scope)
    requires k in s.table
  {
    var r := s.table[k];
    && r.id < s.nextId
    && (r.payment.Some? ==> r.payment.value < |s.made| && s.made[r.payment.value] == Made(k, r.hash, r.id, r.createdAt))
  }

  /** A row with a holder's id is the row of the holder's own claim. */
  ghost predicate HolderOk(s: State, x: Worker) {
    x.Holds() ==>
      && x.claim < s.nextId
      && (forall k :: k in s.table && s.table[k].id == x.claim ==>
            k == x.scope && s.table[k].createdAt == x.claimedAt && s.table[k].payment.None?
            && (x.Owner? ==> s.table[k].hash == x.hash)
            && (x.Created? ==> x.payment < |s.made| && s.made[x.payment] == Made(k, s.table[k].hash, x.claim, x.claimedAt)))
  }

  /** Rows may go. */
  lemma Shrinks(s: State, table: Table)
    requires Fenced(s) && forall k :: k in table ==> k in s.table && table[k] == s.table[k]
    ensures Fenced(s.(table := table))
  {
    forall k | k in table
      ensures RowOk(s.(table := table), k)
    {
      assert RowOk(s, k);
    }
    forall v | v in s.workers
      ensures HolderOk(s.(table := table), s.workers[v])
    {
      assert HolderOk(s, s.workers[v]);
    }
  }

  /** A worker goes on with its own claim, or with none. */
  lemma Turns(s: State, w: nat, x: Worker)
    requires Fenced(s) && HolderOk(s, x) && (x.Holds() ==> s.Of(w).Holds() && x.claim == s.Of(w).claim)
    ensures Fenced(s.Put(w, x))
  {
    forall k | k in s.table
      ensures RowOk(s.Put(w, x), k)
    {
      assert RowOk(s, k);
    }
    forall v | v in s.Put(w, x).workers
      ensures HolderOk(s.Put(w, x), s.Put(w, x).workers[v])
    {
      if v != w {
        assert HolderOk(s, s.workers[v]);
      }
    }
  }

  lemma ClaimFenced(s: State, w: nat)
    requires Fenced(s) && s.Of(w).Asking? && Wins(s.table, s.Of(w).scope, s.Of(w).now)
    ensures Fenced(Step(s, w, Claim))
  {
    var s' := Step(s, w, Claim);
    forall k | k in s'.table
      ensures RowOk(s', k)
    {
      assert k in s.table ==> RowOk(s, k);
    }
    forall v | v in s'.workers
      ensures HolderOk(s', s'.workers[v])
    {
      if v != w {
        assert HolderOk(s, s.workers[v]);
      }
    }
  }

  lemma CreateFenced(s: State, w: nat)
    requires Fenced(s) && s.Of(w).Owner?
    ensures Fenced(Step(s, w, CreateSucceeds))
  {
    var x := s.Of(w);
    var s1 := s.(made := s.made + [Made(x.scope, x.hash, x.claim, x.claimedAt)]);
    assert HolderOk(s, x);
    forall k | k in s1.table
      ensures RowOk(s1, k)
    {
      assert RowOk(s, k);
    }
    forall v | v in s1.workers
      ensures HolderOk(s1, s1.workers[v])
    {
      assert HolderOk(s, s.workers[v]);
    }
    Turns(s1, w, Created(x.scope, x.claim, x.claimedAt, |s.made|));
  }

  lemma CompleteFenced(s: State, w: nat)
    requires Fenced(s) && s.Of(w).Created?
    ensures Fenced(Step(s, w, Complete))
  {
    var x := s.Of(w);
    var s' := Step(s, w, Complete);
    assert HolderOk(s, x);
    forall k | k in s'.table
      ensures RowOk(s', k)
    {
      assert RowOk(s, k);
    }
    forall v | v in s'.workers
      ensures HolderOk(s', s'.workers[v])
    {
      if v != w {
        assert HolderOk(s, s.workers[v]);
      }
    }
  }

  lemma StepKeepsFenced(s: State, w: nat, a: Action)
    requires Fenced(s)
    ensures Fenced(Step(s, w, a))
  {
    var s' := Step(s, w, a);
    var x := s.Of(w);
    if s' != s {
      assert HolderOk(s, x);
      match a {
        case Claim =>
          if Wins(s.table, x.scope, x.now) {
            ClaimFenced(s, w);
          } else {
            Turns(s, w, Idle);
          }
        case CreateSucceeds => CreateFenced(s, w);
        case Complete => CompleteFenced(s, w);
        case Release =>
          Shrinks(s, s'.table);
          Turns(s.(table := s'.table), w, Idle);
        case Purge =>
          Shrinks(s, s'.table);
          Turns(s.(table := s'.table), w, Idle);
        case Tick(_) => Waits(s, s'.clock);
        case _ => Turns(s, w, s'.Of(w));
      }
    }
  }

  lemma Waits(s: State, clock: int)
    requires Fenced(s)
    ensures Fenced(s.(clock := clock))
  {
    forall k | k in s.table
      ensures RowOk(s.(clock := clock), k)
    {
      assert RowOk(s, k);
    }
    forall v | v in s.workers
      ensures HolderOk(s.(clock := clock), s.workers[v])
    {
      assert HolderOk(s, s.workers[v]);
    }
  }

  lemma {:induction false} RunKeepsFenced(s: State, events: seq<Event>)
    requires Initial(s)
    ensures Fenced(Exec(s, events))
  {
    if |events| > 0 {
      RunKeepsFenced(s, events[..|events| - 1]);
      var last := events[|events| - 1];
      StepKeepsFenced(Exec(s, events[..|events| - 1]), last.worker, last.action);
    }
  }

  /** A displaced owner's Complete and Release change no row: they act on the
      table exactly when the row of the key still carries the owner's id, and
      then on that row alone. */
  lemma DisplacedOwnerChangesNothing(s0: State, events: seq<Event>, w: nat)
    requires Initial(s0) && Exec(s0, events).Of(w).Holds()
    ensures var s := Exec(s0, events); var x := s.Of(w);
      var own := x.scope in s.table && s.table[x.scope].id == x.claim;
      && (!own ==> Step(s, w, Complete).table == s.table == Step(s, w, Release).table)
      && (own && x.Created? ==> Step(s, w, Complete).table == s.table[x.scope := s.table[x.scope].(payment := Some(x.payment))])
      && (own && x.Failed? ==> Step(s, w, Release).table == s.table - {x.scope})
  {
    RunKeepsFenced(s0, events);
    var s := Exec(s0, events);
    assert HolderOk(s, s.Of(w));
  }

  /** A completed claim stands: no step of anyone releases, completes again or
      otherwise changes it, until a claim or a purge whose own clock reading is
      more than TTL past it. */
  lemma CompletedStandsUntilItExpires(s0: State, events: seq<Event>, w: nat, a: Action, k: Scope)
    requires Initial(s0) && k in Exec(s0, events).table && Exec(s0, events).table[k].payment.Some?
    ensures var s := Exec(s0, events); var x := s.Of(w); var table := Step(s, w, a).table;
      || (k in table && table[k] == s.table[k])
      || (a.Claim? && x.Asking? && x.scope == k && s.table[k].createdAt < x.now - TTL)
      || (a.Purge? && x.Purging? && k !in table && s.table[k].createdAt < x.now - TTL)
  {
    RunKeepsFenced(s0, events);
    var s := Exec(s0, events);
    hide Exec, Initial;
    if a.Complete? && s.Of(w).Created? {
      assert HolderOk(s, s.Of(w));
    }
  }

  /** What a request that did not win the claim is told. */
  datatype Reply = Replayed(payment: nat) | KeyReused | InProgress

  function ReplyTo(r: Rec, hash: nat): Reply {
    if r.hash != hash then KeyReused else if r.payment.None? then InProgress else Replayed(r.payment.value)
  }

  /** A replay only ever returns a payment made under the same merchant,
      environment and key by an owner whose request had the same hash. */
  lemma ReplayIsTheSameRequest(s0: State, events: seq<Event>, k: Scope, hash: nat)
    requires Initial(s0) && k in Exec(s0, events).table && ReplyTo(Exec(s0, events).table[k], hash).Replayed?
    ensures var s := Exec(s0, events); var p := ReplyTo(s.table[k], hash).payment;
      p < |s.made| && s.made[p].scope == k && s.made[p].hash == hash && s.made[p].claim == s.table[k].id
  {
    RunKeepsFenced(s0, events);
    assert RowOk(Exec(s0, events), k);
  }

  // ----------------------------------------------------------------- takeover

  /** Exactly these keys are taken by a claim, and the claimant then owns it by a
      row of its own: no row, a row more than 24 hours old, or a row without a
      payment more than two minutes old. */
  lemma ClaimTakesExactly(s: State, w: nat, scope: Scope, hash: nat, now: int)
    requires s.Of(w) == Asking(scope, hash, now)
    ensures Step(s, w, Claim)
         == if || scope !in s.table
               || s.table[scope].createdAt + 86_400 < now
               || (s.table[scope].payment.None? && s.table[scope].createdAt + 120 < now)
            then State(s.table[scope := Rec(s.nextId, hash, None, now)], s.made, s.clock, s.nextId + 1,
                       s.workers[w := Owner(scope, hash, s.nextId, now)])
            else s.Put(w, Idle)
  {
  }

  /** An abandoned key is not lost: from any state, and whatever became of its
      owner, a request that reads the clock more than two minutes after a claim
      that has no payment gets the key; one that reads it earlier does not. */
  lemma AbandonedKeyIsTakenOver(s: State, w: nat, scope: Scope, hash: nat, wait: nat)
    requires s.Of(w).Idle? && scope in s.table && s.table[scope].payment.None?
    ensures var asked := Step(Step(s, w, Tick(wait)), w, Ask(scope, hash));
      Step(asked, w, Claim).Of(w)
      == if s.table[scope].createdAt + 120 < s.clock + wait then Owner(scope, hash, s.nextId, s.clock + wait) else Idle
  {
    var asked := Step(Step(s, w, Tick(wait)), w, Ask(scope, hash));
    assert asked.Of(w) == Asking(scope, hash, s.clock + wait) && asked.table == s.table;
    ClaimTakesExactly(asked, w, scope, hash, s.clock + wait);
  }

  /** A completed key is free again for good after a day, and no sooner. */
  lemma CompletedKeyExpires(s: State, w: nat, scope: Scope, hash: nat, wait: nat)
    requires s.Of(w).Idle? && scope in s.table && s.table[scope].payment.Some?
    ensures var asked := Step(Step(s, w, Tick(wait)), w, Ask(scope, hash));
      Step(asked, w, Claim).Of(w)
      == if s.table[scope].createdAt + 86_400 < s.clock + wait then Owner(scope, hash, s.nextId, s.clock + wait) else Idle
  {
    var asked := Step(Step(s, w, Tick(wait)), w, Ask(scope, hash));
    assert asked.Of(w) == Asking(scope, hash, s.clock + wait) && asked.table == s.table;
    ClaimTakesExactly(asked, w, scope, hash, s.clock + wait);
  }

  /** A released key is free at once, a purged one is one that had expired, and a
      completed one is answered from. */
  lemma SettlingDoesWhatItSays(s0: State, events: seq<Event>, w: nat)
    requires Initial(s0)
    ensures var s := Exec(s0, events); var x := s.Of(w);
      && (x.Failed? && x.scope in s.table && s.table[x.scope].id == x.claim ==> x.scope !in Step(s, w, Release).table)
      && (x.Created? && x.scope in s.table && s.table[x.scope].id == x.claim ==>
            x.scope in Step(s, w, Complete).table && Step(s, w, Complete).table[x.scope].payment == Some(x.payment))
      && (x.Purging? ==> forall k :: k in Step(s, w, Purge).table <==> k in s.table && s.table[k].createdAt + 86_400 >= x.now)
  {
    RunKeepsFenced(s0, events);
    var s := Exec(s0, events);
    hide Exec, Initial;
    assert HolderOk(s, s.Of(w));
  }

  // -------------------------------------------------------------------- purge

  /** What a claim with this reading comes to, seen by the claimant: whether it
      wins, and the row it is left with or told about. */
  predicate SameOutcome(before: Table, after: Table, scope: Scope, id: nat, hash: nat, now: int) {
    && (Wins(before, scope, now) <==> Wins(after, scope, now))
    && Upsert(before, scope, id, hash, now)[scope] == Upsert(after, scope, id, hash, now)[scope]
  }

  predicate Unseen(purgedAt: int, table: Table, scope: Scope, id: nat, hash: nat, now: int) {
    SameOutcome(table, PurgeRows(table, purgedAt - TTL), scope, id, hash, now)
  }

  /** Purging changes the outcome of no claim on any table. */
  ghost predicate PurgeIsInvisible(purgedAt: int, now: int) {
    forall table, scope, id, hash :: Unseen(purgedAt, table, scope, id, hash, now)
  }

  /** Purging at time t is invisible to claims whose clock reading is at least
      t, and only to those. */
  lemma PurgeInvisibleFromThenOn(purgedAt: int, now: int)
    ensures PurgeIsInvisible(purgedAt, now) <==> purgedAt <= now
  {
    if now < purgedAt {
      var scope := Scope(0, false, "k");
      var table := map[scope := Rec(0, 0, Some(0), purgedAt - TTL - 1)];
      assert !Unseen(purgedAt, table, scope, 1, 0, now);
    }
  }
}
