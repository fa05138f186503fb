// What becomes of a callback: which outcome leaves which row, which event counts
// as delivered, and that a refused attempt is neither lost nor retried early.

module OutboxOutcomes {
  import opened Options
  import opened Outbox
  import opened OutboxTheorems

  // ---------------------------------------------------------------- statements

  /** The row a worker is sending, if it is at that point. */
  function Sent(s: State, w: nat): Option<nat> {
    var x := s.Of(w);
    if x.Delivering? && x.todo != [] && x.todo[0] < |s.rows| then Some(x.todo[0])
    else if x.Resending? && x.row < |s.rows| then Some(x.row)
    else None
  }

  /** A new event gets one pending first attempt; an event that has one, nothing. */
  lemma EventIsQueued(t: Timing, s: State, w: nat, event: nat)
    ensures Step(t, s, w, Enqueue(event)).rows
         == if exists i :: 0 <= i < |s.rows| && s.rows[i].event == event then s.rows else s.rows + [Row(event, 1, Pending, s.clock, None)]
  {
  }

  /** Recording an outcome: a delivery is a success, with no retry; a refusal is a
      failure, retried after five minutes up to the fifth attempt; a hopeless one
      is a failure for good. No other row changes. */
  lemma OutcomeIsRecorded(t: Timing, s: State, w: nat, outcome: Outcome)
    requires Sent(s, w).Some?
    ensures var id := Sent(s, w).value; var row := s.rows[id]; var rows := Step(t, s, w, Record(outcome)).rows;
      && |rows| == |s.rows| && (forall i :: 0 <= i < |rows| && i != id ==> rows[i] == s.rows[i])
      && rows[id].event == row.event && rows[id].attempt == row.attempt && rows[id].updatedAt == s.clock
      && (outcome == Delivered ==> rows[id].status == Success && rows[id].nextRetry == None)
      && (outcome == Refused ==> rows[id].status == Failed && rows[id].nextRetry == if row.attempt < 5 then Some(s.clock + 300) else None)
      && (outcome == Hopeless ==> rows[id].status == Failed && rows[id].nextRetry == None)
  {
  }

  predicate IsDue(row: Row, now: int, stale: int) {
    row.status == Pending || (row.status == Sending && row.updatedAt + stale <= now)
  }

  /** A claim takes any rows it names, up to 50 different ones, exactly if each is
      pending, or has been sending since the stale window or longer. */
  lemma ClaimTakesDueRows(t: Timing, s: State, w: nat, ids: seq<nat>)
    requires s.Of(w).Running?
    ensures var stamp := s.Of(w).stamp; var s' := Step(t, s, w, Claim(ids));
      if |ids| <= 50 && Distinct(ids) && forall k :: 0 <= k < |ids| ==> ids[k] < |s.rows| && IsDue(s.rows[ids[k]], stamp, t.stale) then
        && s'.Of(w) == Claimed(stamp, ids) && |s'.rows| == |s.rows|
        && forall i :: 0 <= i < |s.rows| ==>
             s'.rows[i] == if i in ids then s.rows[i].(status := Sending, updatedAt := stamp) else s.rows[i]
      else s' == s
  {
    var stamp := s.Of(w).stamp;
    if ClaimFits(s, stamp, t.stale, ids) {
      forall i | 0 <= i < |s.rows| && i in ids
        ensures s.rows[i].status in {Pending, Sending}
      {
        var k :| 0 <= k < |ids| && ids[k] == i;
        assert IsDue(s.rows[ids[k]], stamp, t.stale);
      }
    }
  }

  /** A requeue: exactly once the failed row's time has come, its schedule goes
      and the next attempt of its event is queued. */
  lemma RequeueWhenDue(t: Timing, s: State, w: nat, id: nat)
    requires s.Of(w).Running? && id < |s.rows| && s.rows[id].status == Failed && s.rows[id].nextRetry.Some?
    ensures var row := s.rows[id]; var stamp := s.Of(w).stamp;
      Step(t, s, w, Requeue(id)).rows
      == if row.nextRetry.value <= stamp
         then s.rows[id := row.(nextRetry := None, updatedAt := stamp)] + [Row(row.event, row.attempt + 1, Pending, stamp, None)]
         else s.rows
  {
  }

  /** A manual retry of any row: its schedule, if it has one, goes, and the next
      attempt is there already being sent. */
  lemma RetryIsSent(t: Timing, s: State, w: nat, id: nat)
    requires s.Of(w).Resting? && id < |s.rows|
    ensures var row := s.rows[id];
      var s3 := Step(t, Step(t, Step(t, s, w, StartRetry(id)), w, ClearSchedule), w, InsertRetry);
      && Sent(s3, w) == Some(|s.rows|)
      && s3.rows == (if row.status == Failed && row.nextRetry.Some? then s.rows[id := row.(nextRetry := None, updatedAt := s.clock)] else s.rows)
                    + [Row(row.event, row.attempt + 1, Sending, s.clock, None)]
  {
    var s1 := Step(t, s, w, StartRetry(id));
    assert s1 == s.Put(w, Retrying(s.clock, id, false));
    var s2 := Step(t, s1, w, ClearSchedule);
    assert s2.Of(w) == Retrying(s.clock, id, true);
  }

  // ---------------------------------------------------------------- deliveries

  predicate HasSuccess(rows: seq<Row>, event: nat) {
    exists i :: 0 <= i < |rows| && rows[i].event == event && rows[i].status == Success
  }

  /** This step records a delivery of the event. */
  predicate Delivers(s: State, w: nat, a: Action, event: nat) {
    a == Record(Delivered) && Sent(s, w).Some? && s.rows[Sent(s, w).value].event == event
  }

  lemma StepDelivers(t: Timing, s: State, w: nat, a: Action, event: nat)
    requires Inv(t, s)
    ensures HasSuccess(Step(t, s, w, a).rows, event) <==> HasSuccess(s.rows, event) || Delivers(s, w, a, event)
  {
    var rows := Step(t, s, w, a).rows;
    if i :| 0 <= i < |s.rows| && s.rows[i].event == event && s.rows[i].status == Success {
      FinishedStands(t, s, w, a, i);
      assert rows[i].event == event && rows[i].status == Success;
    }
    if Delivers(s, w, a, event) {
      OutcomeIsRecorded(t, s, w, Delivered);
      assert rows[Sent(s, w).value].event == event && rows[Sent(s, w).value].status == Success;
    }
    hide Inv;
    if i :| 0 <= i < |rows| && rows[i].event == event && rows[i].status == Success {
      SuccessIsOld(t, s, w, a, i);
    }
  }

  /** A success is new only where a delivery has just been recorded. */
  lemma SuccessIsOld(t: Timing, s: State, w: nat, a: Action, i: nat)
    requires i < |Step(t, s, w, a).rows| && Step(t, s, w, a).rows[i].status == Success
    ensures (i < |s.rows| && s.rows[i].status == Success && s.rows[i].event == Step(t, s, w, a).rows[i].event)
         || Delivers(s, w, a, Step(t, s, w, a).rows[i].event)
  {
  }

  ghost predicate WasDelivered(t: Timing, s0: State, events: seq<Event>, event: nat) {
    exists k :: 0 <= k < |events| && DeliveredAt(t, s0, events, k, event)
  }

  ghost predicate DeliveredAt(t: Timing, s0: State, events: seq<Event>, k: nat, event: nat)
    requires k < |events|
  {
    Delivers(Exec(t, s0, events[..k]), events[k].worker, events[k].action, event)
  }

  /** In every run on time, an event has a row that says success exactly if a send
      of it was answered with success and recorded. */
  lemma {:induction false} SuccessExactlyIfDelivered(t: Timing, s0: State, events: seq<Event>, event: nat)
    requires t.Margin() && Initial(s0) && TimelyRun(t, s0, events)
    ensures HasSuccess(Exec(t, s0, events).rows, event) <==> WasDelivered(t, s0, events, event)
  {
    if |events| > 0 {
      var n := |events| - 1;
      assert forall k :: 0 <= k <= n ==> events[..n][..k] == events[..k];
      SuccessExactlyIfDelivered(t, s0, events[..n], event);
      RunKeeps(t, s0, events[..n]);
      StepDelivers(t, Exec(t, s0, events[..n]), events[n].worker, events[n].action, event);
      DeliveredLater(t, s0, events, event);
    }
  }

  lemma DeliveredLater(t: Timing, s0: State, events: seq<Event>, event: nat)
    requires |events| > 0
    ensures WasDelivered(t, s0, events, event)
       <==> WasDelivered(t, s0, events[..|events| - 1], event) || DeliveredAt(t, s0, events, |events| - 1, event)
  {
    var n := |events| - 1;
    assert forall k :: 0 <= k <= n ==> events[..n][..k] == events[..k];
    if k :| 0 <= k < n && DeliveredAt(t, s0, events, k, event) {
      assert DeliveredAt(t, s0, events[..n], k, event);
    }
    if k :| 0 <= k < n && DeliveredAt(t, s0, events[..n], k, event) {
      assert DeliveredAt(t, s0, events, k, event);
    }
  }

  // ------------------------------------------------------------------- retries

  /** The failed row is still due at that time, or the next attempt is there. */
  predicate Owed(rows: seq<Row>, id: nat, due: int) {
    && id < |rows| && rows[id].status == Failed
    && (rows[id].nextRetry == Some(due) || HasNext(rows, rows[id].event, rows[id].attempt + 1))
  }

  predicate HasNext(rows: seq<Row>, event: nat, attempt: int) {
    exists j :: 0 <= j < |rows| && rows[j].event == event && rows[j].attempt == attempt
  }

  lemma StepKeepsOwed(t: Timing, s: State, w: nat, a: Action, id: nat, due: int)
    requires Inv(t, s) && Owed(s.rows, id, due) && !a.ClearSchedule?
    ensures Owed(Step(t, s, w, a).rows, id, due)
  {
    var rows := Step(t, s, w, a).rows;
    FinishedStands(t, s, w, a, id);
    SentIsSending(t, s, w);
    hide Inv;
    var event, next := s.rows[id].event, s.rows[id].attempt + 1;
    if j :| 0 <= j < |s.rows| && s.rows[j].event == event && s.rows[j].attempt == next {
      RowsKeepTheirPlace(t, s, w, a, j);
      assert rows[j].event == event && rows[j].attempt == next;
    } else {
      ScheduleIsUsedOrKept(t, s, w, a, id, due);
    }
  }

  lemma SentIsSending(t: Timing, s: State, w: nat)
    requires Inv(t, s)
    ensures Sent(s, w).Some? ==> s.rows[Sent(s, w).value].status == Sending
  {
    hide Inv;
    HasFacts(t, s, w);
    assert Sent(s, w).Some? ==> Sent(s, w).value == s.Of(w).Held()[0];
  }

  lemma RowsKeepTheirPlace(t: Timing, s: State, w: nat, a: Action, j: nat)
    requires j < |s.rows|
    ensures var rows := Step(t, s, w, a).rows; j < |rows| && rows[j].event == s.rows[j].event && rows[j].attempt == s.rows[j].attempt
  {
  }

  lemma ScheduleIsUsedOrKept(t: Timing, s: State, w: nat, a: Action, id: nat, due: int)
    requires id < |s.rows| && s.rows[id].status == Failed && s.rows[id].nextRetry == Some(due) && !a.ClearSchedule?
    requires id < |Step(t, s, w, a).rows| && Step(t, s, w, a).rows[id].status == Failed
    requires Step(t, s, w, a).rows[id].nextRetry == Some(due) || Step(t, s, w, a).rows[id].nextRetry.None?
    requires Sent(s, w) != Some(id)
    ensures var rows := Step(t, s, w, a).rows; rows[id].nextRetry == Some(due) || HasNext(rows, s.rows[id].event, s.rows[id].attempt + 1)
  {
    var rows := Step(t, s, w, a).rows;
    if a == Requeue(id) && rows != s.rows {
      assert rows[|s.rows|].event == s.rows[id].event && rows[|s.rows|].attempt == s.rows[id].attempt + 1;
    }
  }

  /** Event k records that the attempt being sent was refused, and it was not the
      fifth; nobody clears a schedule by hand afterwards. */
  ghost predicate RefusedAt(t: Timing, s0: State, events: seq<Event>, k: nat) {
    && k < |events| && events[k].action == Record(Refused)
    && var s := Exec(t, s0, events[..k]);
    && Sent(s, events[k].worker).Some? && s.rows[Sent(s, events[k].worker).value].attempt < 5
    && forall j :: k < j < |events| ==> !events[j].action.ClearSchedule?
  }

  /** The refused row is still scheduled for five minutes after it was recorded,
      or the next attempt of its event is there. */
  ghost predicate StillOwed(t: Timing, s0: State, events: seq<Event>, k: nat)
    requires RefusedAt(t, s0, events, k)
  {
    var s := Exec(t, s0, events[..k]);
    Owed(Exec(t, s0, events).rows, Sent(s, events[k].worker).value, s.clock + 300)
  }

  /** No refused attempt below the fifth is lost: in every run on time and whatever
      happens next short of a manual retry, it stays scheduled for five minutes
      after it was recorded until the next attempt of its event is there. */
  lemma {:induction false} RefusedAttemptIsRetried(t: Timing, s0: State, events: seq<Event>, k: nat)
    requires t.Margin() && Initial(s0) && TimelyRun(t, s0, events) && RefusedAt(t, s0, events, k)
    ensures StillOwed(t, s0, events, k)
  {
    assert k < |events|;
    hide Exec, TimelyRun, Initial, RefusedAt, StillOwed, Inv;
    if k == |events| - 1 {
      RefusedLast(t, s0, events);
    } else {
      RefusedBefore(t, s0, events, k);
      RefusedAttemptIsRetried(t, s0, events[..|events| - 1], k);
      RunKeeps(t, s0, events[..|events| - 1]);
      RefusedNext(t, s0, events, k);
    }
  }

  lemma RefusedLast(t: Timing, s0: State, events: seq<Event>)
    requires events != [] && RefusedAt(t, s0, events, |events| - 1)
    ensures StillOwed(t, s0, events, |events| - 1)
  {
    var k := |events| - 1;
    var s, w := Exec(t, s0, events[..k]), events[k].worker;
    assert Exec(t, s0, events) == Step(t, s, w, Record(Refused));
    hide Step, Sent, Owed, Exec;
    RefusedIsOwed(t, s, w);
  }

  lemma RefusedNext(t: Timing, s0: State, events: seq<Event>, k: nat)
    requires k < |events| - 1 && RefusedAt(t, s0, events, k) && RefusedAt(t, s0, events[..|events| - 1], k)
    requires Inv(t, Exec(t, s0, events[..|events| - 1])) && StillOwed(t, s0, events[..|events| - 1], k)
    ensures StillOwed(t, s0, events, k)
  {
    var n := |events| - 1;
    var s, last := Exec(t, s0, events[..k]), Exec(t, s0, events[..n]);
    assert events[..n][..k] == events[..k];
    assert Exec(t, s0, events) == Step(t, last, events[n].worker, events[n].action);
    hide Step, Sent, Owed, Exec, Inv;
    StepKeepsOwed(t, last, events[n].worker, events[n].action, Sent(s, events[k].worker).value, s.clock + 300);
  }

  lemma RefusedBefore(t: Timing, s0: State, events: seq<Event>, k: nat)
    requires TimelyRun(t, s0, events) && RefusedAt(t, s0, events, k) && k < |events| - 1
    ensures var n := |events| - 1;
      && TimelyRun(t, s0, events[..n]) && RefusedAt(t, s0, events[..n], k)
      && events[..n][..k] == events[..k] && events[..n][k] == events[k]
      && !events[n].action.ClearSchedule?
  {
    hide Exec, Step, Sent, Timely;
    var n := |events| - 1;
    assert forall j :: 0 <= j <= n ==> events[..n][..j] == events[..j];
  }

  lemma RefusedIsOwed(t: Timing, s: State, w: nat)
    requires Sent(s, w).Some? && s.rows[Sent(s, w).value].attempt < 5
    ensures Owed(Step(t, s, w, Record(Refused)).rows, Sent(s, w).value, s.clock + 300)
  {
    OutcomeIsRecorded(t, s, w, Refused);
  }

  /** A worker that starts once a failed row is due can requeue it at once. */
  lemma DueRowCanBeRequeued(t: Timing, s: State, v: nat, id: nat, due: int)
    requires s.Of(v).Resting? && id < |s.rows| && s.rows[id].status == Failed && s.rows[id].nextRetry == Some(due)
    ensures var row := s.rows[id]; var rows := Step(t, Step(t, s, v, StartRun), v, Requeue(id)).rows;
      if due <= s.clock
      then rows == s.rows[id := row.(nextRetry := None, updatedAt := s.clock)] + [Row(row.event, row.attempt + 1, Pending, s.clock, None)]
      else rows == s.rows
  {
    assert Step(t, s, v, StartRun) == s.Put(v, Running(s.clock));
    RequeueWhenDue(t, s.Put(v, Running(s.clock)), v, id);
  }
}
