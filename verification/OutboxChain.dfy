// The attempts of one queued event, when nobody retries by hand: a chain of at
// most five rows of which only the last can still do anything.

module OutboxChain {
  import opened Options
  import opened Sums
  import opened Outbox
  import opened OutboxTheorems

  function OfEvent(e: nat): Row -> int { (r: Row) => if r.event == e then 1 else 0 }

  /** How many delivery rows an event has. */
  function Count(rows: seq<Row>, e: nat): int { Sum(rows, OfEvent(e)) }

  /** Each row's attempt number is its place among its event's rows, none is
      beyond the cap, a retry is scheduled only on a failed row below it, and
      every row that has a successor is failed for good. */
  ghost predicate ChainOk(rows: seq<Row>) {
    && (forall i :: 0 <= i < |rows| ==> RowOk(rows, i))
    && (forall i, j :: 0 <= i < j < |rows| && rows[i].event == rows[j].event ==> rows[i].Closed())
  }

  ghost predicate RowOk(rows: seq<Row>, i: nat)
    requires i < |rows|
  {
    && rows[i].attempt == Count(rows[..i + 1], rows[i].event) <= MAX_ATTEMPTS
    && (rows[i].nextRetry.Some? ==> rows[i].status == Failed && rows[i].attempt < MAX_ATTEMPTS)
  }

  lemma {:induction false} SameEvents(rows: seq<Row>, rows': seq<Row>, e: nat)
    requires |rows| == |rows'| && forall i :: 0 <= i < |rows| ==> rows[i].event == rows'[i].event
    ensures Count(rows, e) == Count(rows', e)
  {
    if |rows| > 0 {
      SameEvents(rows[..|rows| - 1], rows'[..|rows'| - 1], e);
    }
  }

  /** Rows change in place: events and attempts stay, closed rows stay closed. */
  lemma InPlace(rows: seq<Row>, rows': seq<Row>)
    requires ChainOk(rows) && |rows| == |rows'|
    requires forall i :: 0 <= i < |rows| ==>
      && rows[i].event == rows'[i].event && rows[i].attempt == rows'[i].attempt && (rows[i].Closed() ==> rows'[i].Closed())
      && (rows'[i].nextRetry.Some? ==> rows'[i].status == Failed && rows'[i].attempt < MAX_ATTEMPTS)
    ensures ChainOk(rows')
  {
    forall i | 0 <= i < |rows'|
      ensures RowOk(rows', i)
    {
      assert RowOk(rows, i);
      SameEvents(rows[..i + 1], rows'[..i + 1], rows[i].event);
    }
  }

  /** A new row goes to the end of its chain, whose rows are all closed. */
  lemma Append(rows: seq<Row>, r: Row)
    requires ChainOk(rows) && r.attempt == Count(rows, r.event) + 1 <= MAX_ATTEMPTS && r.nextRetry.None?
    requires forall i :: 0 <= i < |rows| && rows[i].event == r.event ==> rows[i].Closed()
    ensures ChainOk(rows + [r])
  {
    var rows' := rows + [r];
    forall i | 0 <= i < |rows'|
      ensures RowOk(rows', i)
    {
      if i < |rows| {
        assert RowOk(rows, i);
        assert rows'[..i + 1] == rows[..i + 1];
      } else {
        assert rows'[..i + 1] == rows + [r];
        SumPush(rows, r, OfEvent(r.event));
      }
    }
  }

  lemma {:induction false} CountUpTo(rows: seq<Row>, i: nat, e: nat)
    requires i <= |rows|
    ensures Count(rows[..i], e) <= Count(rows, e)
    ensures (forall j :: i <= j < |rows| ==> rows[j].event != e) ==> Count(rows[..i], e) == Count(rows, e)
    ensures (exists j :: i <= j < |rows| && rows[j].event == e) ==> Count(rows[..i], e) < Count(rows, e)
  {
    if i == |rows| {
      assert rows[..i] == rows;
    } else {
      var n := |rows| - 1;
      CountUpTo(rows[..n], i, e);
      assert rows[..n][..i] == rows[..i];
    }
  }

  lemma RequeueKeeps(rows: seq<Row>, id: nat, now: int)
    requires ChainOk(rows) && id < |rows| && rows[id].status == Failed && rows[id].nextRetry.Some?
    ensures ChainOk(RequeueRow(rows, id, now))
    ensures Count(RequeueRow(rows, id, now), rows[id].event) == Count(rows, rows[id].event) + 1 <= MAX_ATTEMPTS
  {
    var cleared := rows[id := rows[id].(nextRetry := None, updatedAt := now)];
    var e := rows[id].event;
    assert RowOk(rows, id);
    CountUpTo(rows, id + 1, e);
    assert forall j :: id < j < |rows| ==> rows[j].event != e;
    InPlace(rows, cleared) by {
      forall i | 0 <= i < |rows|
        ensures rows[i].nextRetry.Some? ==> rows[i].status == Failed && rows[i].attempt < MAX_ATTEMPTS
      {
        assert RowOk(rows, i);
      }
    }
    SameEvents(rows, cleared, e);
    Append(cleared, Row(e, rows[id].attempt + 1, Pending, now, None));
    SumPush(cleared, Row(e, rows[id].attempt + 1, Pending, now, None), OfEvent(e));
  }

  lemma EnqueueKeeps(s: State, e: nat)
    requires ChainOk(s.rows) && !s.Queued(e)
    ensures ChainOk(s.rows + [Row(e, 1, Pending, s.clock, None)])
  {
    SumZero(s.rows, OfEvent(e));
    Append(s.rows, Row(e, 1, Pending, s.clock, None));
  }

  predicate ByHand(a: Action) { a.StartRetry? }

  /** Claims, recordings and releases only touch rows that are not closed. */
  lemma TouchKeeps(t: Timing, s: State, w: nat, a: Action)
    requires Inv(t, s) && ChainOk(s.rows) && (a.Claim? || a.Record? || a.RecordFails? || a.Release?) && !s.Of(w).Resending?
    ensures ChainOk(Step(t, s, w, a).rows)
  {
    hide Inv;
    var s' := Step(t, s, w, a);
    HasFacts(t, s, w);
    assert s.Of(w).Delivering? ==> s.rows[s.Of(w).Held()[0]].status == Sending;
    forall i | 0 <= i < |s.rows|
      ensures s.rows[i].nextRetry.Some? ==> s.rows[i].status == Failed && s.rows[i].attempt < MAX_ATTEMPTS
    {
      assert RowOk(s.rows, i);
    }
    InPlace(s.rows, s'.rows);
  }

  /** No worker is in a manual retry. */
  ghost predicate NoRetries(s: State) {
    forall w :: w in s.workers ==> !s.workers[w].Retrying? && !s.workers[w].Resending?
  }

  lemma StepStartsNoRetry(t: Timing, s: State, w: nat, a: Action)
    requires NoRetries(s) && !ByHand(a)
    ensures NoRetries(Step(t, s, w, a))
  {
    assert !s.Of(w).Retrying? && !s.Of(w).Resending?;
  }

  lemma StepKeepsChain(t: Timing, s: State, w: nat, a: Action)
    requires Inv(t, s) && ChainOk(s.rows) && !s.Of(w).Retrying? && !s.Of(w).Resending?
    ensures ChainOk(Step(t, s, w, a).rows)
  {
    hide Inv, ChainOk;
    var s' := Step(t, s, w, a);
    if s'.rows != s.rows {
      match a {
        case Enqueue(e) => EnqueueKeeps(s, e);
        case Requeue(id) => RequeueKeeps(s.rows, id, s.Of(w).stamp);
        case _ => TouchKeeps(t, s, w, a);
      }
    }
  }

  ghost predicate NothingByHand(events: seq<Event>) {
    forall k :: 0 <= k < |events| ==> !ByHand(events[k].action)
  }

  lemma {:induction false} RunKeepsChain(t: Timing, s: State, events: seq<Event>)
    requires t.Margin() && Initial(s) && TimelyRun(t, s, events) && NothingByHand(events)
    ensures ChainOk(Exec(t, s, events).rows) && NoRetries(Exec(t, s, events))
  {
    if |events| > 0 {
      var n := |events| - 1;
      assert forall k :: 0 <= k <= n ==> events[..n][..k] == events[..k];
      RunKeepsChain(t, s, events[..n]);
      RunKeeps(t, s, events[..n]);
      StepStartsNoRetry(t, Exec(t, s, events[..n]), events[n].worker, events[n].action);
      StepKeepsChain(t, Exec(t, s, events[..n]), events[n].worker, events[n].action);
    }
  }

  lemma {:induction false} AttemptExists(rows: seq<Row>, e: nat, a: int) returns (i: nat)
    requires ChainOk(rows) && 1 <= a <= Count(rows, e)
    ensures i < |rows| && rows[i].event == e && rows[i].attempt == a
  {
    var n := |rows| - 1;
    if rows[n].event == e && a == Count(rows, e) {
      assert RowOk(rows, n) && rows[..n + 1] == rows;
      i := n;
    } else {
      forall k | 0 <= k < n
        ensures RowOk(rows[..n], k)
      {
        assert RowOk(rows, k) && rows[..n][..k + 1] == rows[..k + 1];
      }
      i := AttemptExists(rows[..n], e, a);
    }
  }

  lemma PlaceOf(rows: seq<Row>, i: nat)
    requires ChainOk(rows) && i < |rows|
    ensures 1 <= rows[i].attempt <= Count(rows, rows[i].event)
    ensures rows[i].attempt < Count(rows, rows[i].event) ==> rows[i].Closed()
  {
    var e := rows[i].event;
    assert RowOk(rows, i);
    CountUpTo(rows, i + 1, e);
    CountUpTo(rows[..i + 1], 0, e);
    assert rows[..i + 1][i].event == e && rows[..i + 1][..0] == [];
  }

  predicate HasAttempt(rows: seq<Row>, e: nat, a: int) {
    exists i :: 0 <= i < |rows| && rows[i].event == e && rows[i].attempt == a
  }

  /** The rows of an event: attempts 1 to k, once each, with k at most five; all
      but the last have failed for good, so exactly one row, attempt k, can
      still be sent or retried or has succeeded; and a retry is only ever
      scheduled on a failed row below the cap. */
  ghost predicate IsChain(rows: seq<Row>, e: nat) {
    var k := Count(rows, e);
    && k <= MAX_ATTEMPTS
    && (forall a :: 1 <= a <= k ==> HasAttempt(rows, e, a))
    && (forall i, j | 0 <= i < j < |rows| && rows[i].event == rows[j].event == e :: rows[i].attempt != rows[j].attempt)
    && (forall i | 0 <= i < |rows| && rows[i].event == e ::
          && 1 <= rows[i].attempt <= k
          && (rows[i].attempt < k ==> rows[i].Closed())
          && (rows[i].nextRetry.Some? ==> rows[i].status == Failed && rows[i].attempt < MAX_ATTEMPTS))
  }

  lemma AttemptsDiffer(rows: seq<Row>, i: nat, j: nat)
    requires ChainOk(rows) && i < j < |rows| && rows[i].event == rows[j].event
    ensures rows[i].attempt < rows[j].attempt
  {
    var e := rows[j].event;
    assert RowOk(rows, i) && RowOk(rows, j);
    CountUpTo(rows[..j + 1], i + 1, e);
    assert rows[..j + 1][..i + 1] == rows[..i + 1] && rows[..j + 1][j].event == e;
  }

  lemma OkIsChain(rows: seq<Row>, e: nat)
    requires ChainOk(rows)
    ensures IsChain(rows, e)
  {
    hide Count, RowOk;
    forall a | 1 <= a <= Count(rows, e)
      ensures HasAttempt(rows, e, a)
    {
      var i := AttemptExists(rows, e, a);
    }
    if Count(rows, e) > 0 {
      var i := AttemptExists(rows, e, Count(rows, e));
      Capped(rows, i);
    }
    forall i | 0 <= i < |rows| && rows[i].event == e
      ensures 1 <= rows[i].attempt <= Count(rows, e) && (rows[i].attempt < Count(rows, e) ==> rows[i].Closed())
      ensures rows[i].nextRetry.Some? ==> rows[i].status == Failed && rows[i].attempt < MAX_ATTEMPTS
    {
      Capped(rows, i);
      PlaceOf(rows, i);
    }
    forall i, j | 0 <= i < j < |rows| && rows[i].event == rows[j].event == e
      ensures rows[i].attempt != rows[j].attempt
    {
      AttemptsDiffer(rows, i, j);
    }
  }

  lemma Capped(rows: seq<Row>, i: nat)
    requires ChainOk(rows) && i < |rows|
    ensures rows[i].attempt <= MAX_ATTEMPTS
    ensures rows[i].nextRetry.Some? ==> rows[i].status == Failed && rows[i].attempt < MAX_ATTEMPTS
  {
    assert RowOk(rows, i);
  }

  /** In every run that is on time and has no manual retry, the rows of every
      event form such a chain. */
  lemma Chain(t: Timing, s0: State, events: seq<Event>, e: nat)
    requires t.Margin() && Initial(s0) && TimelyRun(t, s0, events) && NothingByHand(events)
    ensures IsChain(Exec(t, s0, events).rows, e)
  {
    RunKeepsChain(t, s0, events);
    OkIsChain(Exec(t, s0, events).rows, e);
  }

  /** Requeueing terminates: each one takes a row from what is left of its
      event's five attempts and nothing from another event's. */
  lemma RequeueUsesUpAttempts(t: Timing, s0: State, events: seq<Event>, w: nat, id: nat, e: nat)
    requires t.Margin() && Initial(s0) && TimelyRun(t, s0, events) && NothingByHand(events)
    requires Step(t, Exec(t, s0, events), w, Requeue(id)) != Exec(t, s0, events)
    ensures var rows := Exec(t, s0, events).rows; var rows' := Step(t, Exec(t, s0, events), w, Requeue(id)).rows;
      && id < |rows|
      && 0 <= MAX_ATTEMPTS - Count(rows', e)
      && MAX_ATTEMPTS - Count(rows', e) == MAX_ATTEMPTS - Count(rows, e) - if rows[id].event == e then 1 else 0
  {
    RunKeepsChain(t, s0, events);
    var s := Exec(t, s0, events);
    RequeueKeeps(s.rows, id, s.Of(w).stamp);
    Chain(t, s0, events, e);
    var cleared := s.rows[id := s.rows[id].(nextRetry := None, updatedAt := s.Of(w).stamp)];
    SameEvents(s.rows, cleared, e);
    SumPush(cleared, Row(s.rows[id].event, s.rows[id].attempt + 1, Pending, s.Of(w).stamp, None), OfEvent(e));
  }
}
