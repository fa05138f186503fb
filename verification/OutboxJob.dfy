// DeliverMerchantCallbacks as the loop it is, tied to the worker machine.

module OutboxJob {
  import opened Options
  import opened Outbox

  /** What one pass of the loop meets: whether the job is being shut down, the
      clock at the check, what sending came to (None: the result could not be
      written), and the clock when that was over. */
  datatype Pass = Pass(shutdown: bool, checkAt: int, outcome: Option<Outcome>, doneAt: int) {
    predicate Stops(start: int, budget: int) { shutdown || checkAt - start > budget }
  }

  /** A row after its pass. */
  function After(row: Row, pass: Pass): Row {
    if pass.outcome.None? then row else Recorded(row, pass.outcome.value, pass.doneAt)
  }

  /** An unsent row after the pass that ended the batch. */
  function HandedBack(row: Row, pass: Pass, ok: bool): Row {
    if ok then row.(status := Pending, updatedAt := pass.doneAt) else row
  }

  ghost predicate InOrder(passes: seq<Pass>, start: int) {
    && (forall k :: 0 <= k < |passes| ==> start <= passes[k].checkAt <= passes[k].doneAt)
    && (forall k :: 0 < k < |passes| ==> passes[k - 1].doneAt <= passes[k].checkAt)
  }

  lemma Extend(t: Timing, s: State, events: seq<Event>, e: Event)
    ensures Exec(t, s, events + [e]) == Step(t, Exec(t, s, events), e.worker, e.action)
  {
    assert (events + [e])[..|events|] == events;
  }

  /** One pass of the machine's loop that sends its row. */
  lemma SendsOne(t: Timing, s: State, events: seq<Event>, x: Worker, pass: Pass) returns (longer: seq<Event>)
    requires x.Looping? && |x.todo| > 0 && x.todo[0] < |s.rows| && !pass.Stops(x.start, t.budget)
    requires Exec(t, s, events).workers == map[0 := x] && |Exec(t, s, events).rows| == |s.rows|
    requires Exec(t, s, events).clock <= pass.checkAt <= pass.doneAt
    ensures var rows := Exec(t, s, events).rows;
      Exec(t, s, longer) == State(
        if pass.outcome.None? then rows else rows[x.todo[0] := After(rows[x.todo[0]], pass)],
        pass.doneAt, map[0 := Looping(x.stamp, x.start, x.todo[1..], pass.checkAt)])
  {
    hide Exec;
    var s0 := Exec(t, s, events);
    var record := if pass.outcome.None? then RecordFails else Record(pass.outcome.value);
    var wait, send := Event(0, Tick(pass.checkAt - s0.clock)), Event(0, Tick(pass.doneAt - pass.checkAt));
    Extend(t, s, events, wait);
    Extend(t, s, events + [wait], Event(0, Check(false)));
    Extend(t, s, events + [wait] + [Event(0, Check(false))], send);
    Extend(t, s, events + [wait] + [Event(0, Check(false))] + [send], Event(0, record));
    longer := events + [wait] + [Event(0, Check(false))] + [send] + [Event(0, record)];
  }

  /** The four steps of the machine that end a batch early. */
  lemma StopsAndReleases(t: Timing, s: State, x: Worker, pass: Pass, ok: bool)
    requires x.Looping? && |x.todo| > 0 && pass.Stops(x.start, t.budget)
    requires s.workers == map[0 := x] && s.clock <= pass.checkAt <= pass.doneAt
    ensures var s1 := Step(t, s, 0, Tick(pass.checkAt - s.clock));
      var s2 := Step(t, s1, 0, Check(pass.shutdown));
      var s3 := Step(t, s2, 0, Tick(pass.doneAt - pass.checkAt));
      Step(t, s3, 0, if ok then Release else ReleaseFails) == State(
        if ok then Restamp(s.rows, x.todo, {Sending}, Pending, pass.doneAt) else s.rows, pass.doneAt, map[0 := Resting])
  {
    hide Restamp;
    var releasing := Releasing(x.stamp, x.start, x.todo, x.checkedAt);
    var s2 := Step(t, Step(t, s, 0, Tick(pass.checkAt - s.clock)), 0, Check(pass.shutdown));
    assert s2 == State(s.rows, pass.checkAt, map[0 := releasing]);
  }

  /** The pass of the machine's loop that stops it. */
  lemma ReleasesRest(t: Timing, s: State, events: seq<Event>, x: Worker, pass: Pass, ok: bool) returns (longer: seq<Event>)
    requires x.Looping? && |x.todo| > 0 && pass.Stops(x.start, t.budget)
    requires Exec(t, s, events).workers == map[0 := x] && Exec(t, s, events).clock <= pass.checkAt <= pass.doneAt
    ensures var rows := Exec(t, s, events).rows;
      Exec(t, s, longer) == State(
        if ok then Restamp(rows, x.todo, {Sending}, Pending, pass.doneAt) else rows, pass.doneAt, map[0 := Resting])
  {
    hide Exec, Restamp, Step;
    var s0 := Exec(t, s, events);
    var wait, late := Event(0, Tick(pass.checkAt - s0.clock)), Event(0, Tick(pass.doneAt - pass.checkAt));
    StopsAndReleases(t, s0, x, pass, ok);
    Extend(t, s, events, wait);
    longer := events + [wait];
    Extend(t, s, longer, Event(0, Check(pass.shutdown)));
    longer := longer + [Event(0, Check(pass.shutdown))];
    Extend(t, s, longer, late);
    longer := longer + [late];
    Extend(t, s, longer, Event(0, if ok then Release else ReleaseFails));
    longer := longer + [Event(0, if ok then Release else ReleaseFails)];
  }

  lemma EndsBatch(t: Timing, s: State, events: seq<Event>, x: Worker)
    requires x.Looping? && |x.todo| == 0 && Exec(t, s, events).workers == map[0 := x]
    ensures Exec(t, s, events + [Event(0, Check(false))]) == Exec(t, s, events).(workers := map[0 := Resting])
  {
    Extend(t, s, events, Event(0, Check(false)));
  }

  /** The rows after the first n passes over the claimed ids. */
  function AfterPasses(rows: seq<Row>, due: seq<nat>, passes: seq<Pass>, n: nat): seq<Row>
    requires n <= |due| <= |passes| && forall k :: 0 <= k < |due| ==> due[k] < |rows|
    ensures |AfterPasses(rows, due, passes, n)| == |rows|
  {
    if n == 0 then rows
    else
      var before := AfterPasses(rows, due, passes, n - 1);
      before[due[n - 1] := After(before[due[n - 1]], passes[n - 1])]
  }

  /** Each row is changed by its own pass only. */
  lemma {:induction false} AfterPassesAt(rows: seq<Row>, due: seq<nat>, passes: seq<Pass>, n: nat)
    requires n <= |due| <= |passes| && Distinct(due) && forall k :: 0 <= k < |due| ==> due[k] < |rows|
    ensures var done := AfterPasses(rows, due, passes, n);
      && (forall k :: 0 <= k < n ==> done[due[k]] == After(rows[due[k]], passes[k]))
      && (forall k :: n <= k < |due| ==> done[due[k]] == rows[due[k]])
      && (forall i :: 0 <= i < |rows| && i !in due ==> done[i] == rows[i])
  {
    if n > 0 {
      AfterPassesAt(rows, due, passes, n - 1);
    }
  }

  /** The rows once the batch is over: sent rows recorded, the rest handed back. */
  function AfterBatch(rows: seq<Row>, due: seq<nat>, passes: seq<Pass>, n: nat, ok: bool): seq<Row>
    requires n <= |due| <= |passes| && forall k :: 0 <= k < |due| ==> due[k] < |rows|
  {
    var done := AfterPasses(rows, due, passes, n);
    if n < |due| && ok then Restamp(done, due[n..], {Sending}, Pending, passes[n].doneAt) else done
  }

  lemma AfterBatchAt(rows: seq<Row>, due: seq<nat>, passes: seq<Pass>, n: nat, ok: bool)
    requires n <= |due| <= |passes| && Distinct(due)
    requires forall k :: 0 <= k < |due| ==> due[k] < |rows| && rows[due[k]].status == Sending
    ensures var end := AfterBatch(rows, due, passes, n, ok);
      && |end| == |rows|
      && (forall k :: 0 <= k < n ==> end[due[k]] == After(rows[due[k]], passes[k]))
      && (forall k :: n <= k < |due| ==> end[due[k]] == HandedBack(rows[due[k]], passes[n], ok))
      && (forall i :: 0 <= i < |rows| && i !in due ==> end[i] == rows[i])
  {
    AfterPassesAt(rows, due, passes, n);
    assert forall k :: n <= k < |due| ==> due[k] == due[n..][k - n];
  }

  /** The machine's loop over the first n claimed rows. */
  lemma {:induction false} LoopRun(t: Timing, rows: seq<Row>, due: seq<nat>, stamp: int, start: int, passes: seq<Pass>, n: nat)
    returns (events: seq<Event>, checkedAt: int)
    requires n <= |due| == |passes| && InOrder(passes, start)
    requires (forall k :: 0 <= k < |due| ==> due[k] < |rows|) && forall k :: 0 <= k < n ==> !passes[k].Stops(start, t.budget)
    ensures Exec(t, State(rows, start, map[0 := Looping(stamp, start, due, start)]), events)
         == State(AfterPasses(rows, due, passes, n), if n == 0 then start else passes[n - 1].doneAt,
                  map[0 := Looping(stamp, start, due[n..], checkedAt)])
  {
    var s := State(rows, start, map[0 := Looping(stamp, start, due, start)]);
    if n == 0 {
      events, checkedAt := [], start;
      assert due[0..] == due;
    } else {
      events, checkedAt := LoopRun(t, rows, due, stamp, start, passes, n - 1);
      hide Exec, Step, After;
      events := SendsOne(t, s, events, Looping(stamp, start, due[n - 1..], checkedAt), passes[n - 1]);
      checkedAt := passes[n - 1].checkAt;
      assert due[n - 1..][1..] == due[n..];
      SentRow(AfterPasses(rows, due, passes, n - 1), due[n - 1], passes[n - 1]);
    }
  }

  lemma SentRow(rows: seq<Row>, id: nat, pass: Pass)
    requires id < |rows|
    ensures pass.outcome.None? ==> rows[id := After(rows[id], pass)] == rows
  {
  }

  /** The machine's run of a whole batch of which n rows are sent. */
  lemma BatchRun(t: Timing, rows: seq<Row>, due: seq<nat>, stamp: int, start: int, passes: seq<Pass>, n: nat, ok: bool)
    returns (events: seq<Event>)
    requires n <= |due| == |passes| && InOrder(passes, start)
    requires (forall k :: 0 <= k < |due| ==> due[k] < |rows|) && forall k :: 0 <= k < n ==> !passes[k].Stops(start, t.budget)
    requires n < |due| ==> passes[n].Stops(start, t.budget)
    ensures var end := Exec(t, State(rows, start, map[0 := Looping(stamp, start, due, start)]), events);
      end.rows == AfterBatch(rows, due, passes, n, ok) && end.workers == map[0 := Resting]
  {
    hide Exec, Step, AfterPasses, Restamp;
    var s := State(rows, start, map[0 := Looping(stamp, start, due, start)]);
    var checkedAt;
    events, checkedAt := LoopRun(t, rows, due, stamp, start, passes, n);
    if n == |due| {
      EndsBatch(t, s, events, Looping(stamp, start, due[n..], checkedAt));
      events := events + [Event(0, Check(false))];
    } else {
      events := ReleasesRest(t, s, events, Looping(stamp, start, due[n..], checkedAt), passes[n], ok);
    }
  }

  /** What the row says after sending: delivered is a success without a retry; a
      refusal is a failure, retried five minutes later unless it was the fifth
      attempt; a hopeless one is a failure for good; and nothing changes where
      the result cannot be written. */
  predicate Shows(before: Row, after: Row, pass: Pass) {
    && after.event == before.event && after.attempt == before.attempt
    && match pass.outcome
       case None => after == before
       case Some(Delivered) => after.status == Success && after.nextRetry == None && after.updatedAt == pass.doneAt
       case Some(Refused) =>
         && after.status == Failed && after.updatedAt == pass.doneAt
         && after.nextRetry == if before.attempt < 5 then Some(pass.doneAt + 300) else None
       case Some(Hopeless) => after.status == Failed && after.nextRetry == None && after.updatedAt == pass.doneAt
  }

  lemma AfterShows(row: Row, pass: Pass)
    ensures Shows(row, After(row, pass), pass)
  {
  }

  class Deliveries {
    var rows: seq<Row>

    /** UpdateResult: no guard on the row's status. */
    method UpdateResult(id: nat, outcome: Outcome, now: int)
      requires id < |rows|
      modifies this
      ensures rows == old(rows)[id := Recorded(old(rows)[id], outcome, now)]
    {
      rows := rows[id := Recorded(rows[id], outcome, now)];
    }

    /** Only rows still sending go back to pending. */
    method ReleaseClaimed(ids: seq<nat>, now: int)
      modifies this
      ensures rows == Restamp(old(rows), ids, {Sending}, Pending, now)
    {
      rows := Restamp(rows, ids, {Sending}, Pending, now);
    }

    /** Sends the claimed rows one by one until the batch is done, the budget is
        spent or the job is shut down; whatever was not sent goes back to
        pending, unless even that fails. */
    method DeliverClaimed(t: Timing, due: seq<nat>, stamp: int, start: int, passes: seq<Pass>, releaseOk: bool)
      returns (sent: nat, ghost events: seq<Event>)
      requires |passes| == |due| && InOrder(passes, start)
      requires Distinct(due) && forall k :: 0 <= k < |due| ==> due[k] < |rows| && rows[due[k]].status == Sending
      modifies this
      ensures sent <= |due| && |rows| == |old(rows)|
      ensures forall k :: 0 <= k < sent ==> !passes[k].shutdown && passes[k].checkAt - start <= t.budget
      ensures sent < |due| ==> passes[sent].shutdown || passes[sent].checkAt - start > t.budget
      ensures forall k :: 0 <= k < sent ==> Shows(old(rows)[due[k]], rows[due[k]], passes[k])
      ensures forall k :: sent <= k < |due| ==>
        rows[due[k]] == if releaseOk then old(rows)[due[k]].(status := Pending, updatedAt := passes[sent].doneAt) else old(rows)[due[k]]
      ensures forall i :: 0 <= i < |rows| && i !in due ==> rows[i] == old(rows[i])
      // and this is the worker machine's own run of the loop
      ensures var end := Exec(t, State(old(rows), start, map[0 := Looping(stamp, start, due, start)]), events);
        end.rows == rows && end.workers == map[0 := Resting]
    {
      sent := 0;
      while sent < |due| && !passes[sent].Stops(start, t.budget)
        invariant sent <= |due|
        invariant forall k :: 0 <= k < sent ==> !passes[k].Stops(start, t.budget)
        invariant rows == AfterPasses(old(rows), due, passes, sent)
      {
        var pass := passes[sent];
        if pass.outcome.Some? {
          UpdateResult(due[sent], pass.outcome.value, pass.doneAt);
        }
        sent := sent + 1;
      }
      if sent < |due| && releaseOk {
        ReleaseClaimed(due[sent..], passes[sent].doneAt);
      }
      AfterBatchAt(old(rows), due, passes, sent, releaseOk);
      forall k | 0 <= k < sent
        ensures Shows(old(rows)[due[k]], rows[due[k]], passes[k])
      {
        AfterShows(old(rows)[due[k]], passes[k]);
      }
      hide AfterPasses, Exec;
      events := BatchRun(t, old(rows), due, stamp, start, passes, sent, releaseOk);
    }
  }
}
