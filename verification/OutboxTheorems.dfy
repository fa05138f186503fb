// Exclusion on the callback queue follows from the timing margin alone: the
// statement that records a result is unguarded. The chain of attempts of an
// event follows from exclusion.

module OutboxTheorems {
  import opened Options
  import opened Outbox

  // ---------------------------------------------------------------- exclusion

  predicate Holds(x: Worker, id: nat) { id in x.Held() }

  /** The time that k steps may take. */
  function Steps(t: Timing, k: int): int { k * t.step }

  lemma StepsGrow(t: Timing, j: int, k: int)
    requires 0 <= t.step && j <= k
    ensures Steps(t, j) <= Steps(t, k) && Steps(t, k + 1) == Steps(t, k) + t.step && Steps(t, 0) == 0
  {
    assert k * t.step == j * t.step + (k - j) * t.step;
  }

  /** The last passed check is within the budget, and no later than the rows of
      a full batch that are already through allow. */
  predicate Within(t: Timing, start: int, checkedAt: int, through: int) {
    checkedAt <= start + t.budget && checkedAt <= start + Steps(t, through)
  }

  /** A holder's rows are being sent under its own timestamp, and its clock
      readings are in order. */
  ghost predicate WorkerOk(t: Timing, s: State, x: Worker) {
    && (forall k :: 0 <= k < |x.Held()| ==>
          x.Held()[k] < |s.rows| && s.rows[x.Held()[k]].status == Sending && s.rows[x.Held()[k]].updatedAt == x.stamp)
    && Distinct(x.Held())
    && (!x.Resting? ==> x.stamp <= s.clock)
    && |x.Held()| <= BATCH_SIZE
    && (x.Looping? || x.Releasing? ==>
          x.start <= x.stamp + t.delay && Within(t, x.start, x.checkedAt, BATCH_SIZE - |x.todo|))
    && (x.Delivering? ==>
          x.start <= x.stamp + t.delay && Within(t, x.start, x.checkedAt, BATCH_SIZE - |x.todo| + 1))
    && (x.Delivering? ==> |x.todo| > 0)
    && (x.Retrying? ==> x.source < |s.rows|)
  }

  predicate Apart(x: Worker, y: Worker) {
    forall k, l :: 0 <= k < |x.Held()| && 0 <= l < |y.Held()| ==> x.Held()[k] != y.Held()[l]
  }

  ghost predicate Inv(t: Timing, s: State) {
    && (forall w :: w in s.workers ==> WorkerOk(t, s, s.workers[w]))
    && (forall w, v :: w in s.workers && v in s.workers && w != v ==> Apart(s.workers[w], s.workers[v]))
  }

  /** While a worker on time holds a row, the row's timestamp is fresh. */
  lemma HeldIsFresh(t: Timing, s: State, x: Worker, k: nat)
    requires t.Margin() && WorkerOk(t, s, x) && OnTime(t, x, s.clock) && k < |x.Held()|
    ensures s.clock < s.rows[x.Held()[k]].updatedAt + t.stale
  {
    StepsGrow(t, BATCH_SIZE - |x.Held()|, BATCH_SIZE);
    StepsGrow(t, BATCH_SIZE - |x.Held()| + 1, BATCH_SIZE);
  }

  /** The rows change as worker w goes on as x: others keep what they hold when
      none of their rows changed. */
  lemma Moved(t: Timing, s: State, w: nat, rows: seq<Row>, x: Worker)
    requires Inv(t, s) && |s.rows| <= |rows|
    requires WorkerOk(t, s.(rows := rows), x)
    requires forall v :: v in s.workers && v != w ==> Apart(x, s.workers[v]) && Apart(s.workers[v], x)
    requires forall v :: v in s.workers && v != w ==>
      forall k :: 0 <= k < |s.workers[v].Held()| ==> rows[s.workers[v].Held()[k]] == s.rows[s.workers[v].Held()[k]]
    ensures Inv(t, s.(rows := rows).Put(w, x))
  {
    hide Within, Steps, OnTime;
    var s' := s.(rows := rows).Put(w, x);
    forall v | v in s'.workers
      ensures WorkerOk(t, s', s'.workers[v])
    {
      if v != w {
        assert WorkerOk(t, s, s.workers[v]);
        StillOk(t, s, rows, s.workers[v]);
      }
    }
  }

  lemma StillOk(t: Timing, s: State, rows: seq<Row>, x: Worker)
    requires WorkerOk(t, s, x) && |s.rows| <= |rows|
    requires forall k :: 0 <= k < |x.Held()| ==> rows[x.Held()[k]] == s.rows[x.Held()[k]]
    ensures WorkerOk(t, s.(rows := rows), x)
  {
  }

  lemma ClaimedAreFree(t: Timing, s: State, w: nat, ids: seq<nat>)
    requires t.Margin() && Inv(t, s) && Timely(t, s) && s.Of(w).Running? && ClaimFits(s, s.Of(w).stamp, t.stale, ids)
    ensures forall v, k :: v in s.workers && v != w && 0 <= k < |s.workers[v].Held()| ==> s.workers[v].Held()[k] !in ids
    ensures WorkerOk(t, s, s.Of(w))
  {
    assert WorkerOk(t, s, s.Of(w));
    forall v, k | v in s.workers && v != w && 0 <= k < |s.workers[v].Held()|
      ensures s.workers[v].Held()[k] !in ids
    {
      HeldIsFresh(t, s, s.workers[v], k);
    }
  }

  lemma ClaimKeeps(t: Timing, s: State, w: nat, ids: seq<nat>)
    requires t.Margin() && Inv(t, s) && Timely(t, s) && s.Of(w).Running? && ClaimFits(s, s.Of(w).stamp, t.stale, ids)
    ensures Inv(t, Step(t, s, w, Claim(ids)))
  {
    hide Inv;
    var stamp := s.Of(w).stamp;
    var rows := Restamp(s.rows, ids, {Pending, Sending}, Sending, stamp);
    ClaimedAreFree(t, s, w, ids);
    Moved(t, s, w, rows, Claimed(stamp, ids)) by {
      forall v, k | v in s.workers && v != w && 0 <= k < |s.workers[v].Held()|
        ensures s.workers[v].Held()[k] < |s.rows|
      {
        OthersHoldRows(t, s, v, k);
      }
    }
  }

  lemma OthersHoldRows(t: Timing, s: State, v: nat, k: nat)
    requires Inv(t, s) && v in s.workers && k < |s.workers[v].Held()|
    ensures s.workers[v].Held()[k] < |s.rows|
  {
    assert WorkerOk(t, s, s.workers[v]);
  }

  /** A worker that touches only rows it holds, and goes on holding only such
      rows, disturbs nobody. */
  lemma OwnRowsOnly(t: Timing, s: State, w: nat, rows: seq<Row>, x: Worker)
    requires Inv(t, s) && |rows| == |s.rows|
    requires forall i :: 0 <= i < |rows| && i !in s.Of(w).Held() ==> rows[i] == s.rows[i]
    requires forall k :: 0 <= k < |x.Held()| ==> x.Held()[k] in s.Of(w).Held()
    requires WorkerOk(t, s.(rows := rows), x)
    ensures Inv(t, s.(rows := rows).Put(w, x))
  {
    hide WorkerOk, Inv;
    forall v | v in s.workers && v != w
      ensures Apart(x, s.workers[v]) && Apart(s.workers[v], x)
      ensures forall k :: 0 <= k < |s.workers[v].Held()| ==>
        s.workers[v].Held()[k] < |s.rows| && rows[s.workers[v].Held()[k]] == s.rows[s.workers[v].Held()[k]]
    {
      ApartFrom(t, s, w, v);
      forall k | 0 <= k < |s.workers[v].Held()|
        ensures s.workers[v].Held()[k] < |s.rows| && s.workers[v].Held()[k] !in s.Of(w).Held()
      {
        OthersHoldRows(t, s, v, k);
      }
    }
    Moved(t, s, w, rows, x);
  }

  lemma ApartFrom(t: Timing, s: State, w: nat, v: nat)
    requires Inv(t, s) && v in s.workers && v != w
    ensures forall k :: 0 <= k < |s.workers[v].Held()| ==> s.workers[v].Held()[k] !in s.Of(w).Held()
  {
    assert w in s.workers ==> Apart(s.workers[w], s.workers[v]);
  }

  lemma RecordKeeps(t: Timing, s: State, w: nat, outcome: Option<Outcome>)
    requires Inv(t, s)
    ensures Inv(t, RecordBy(s, w, s.Of(w), outcome))
  {
    hide Inv;
    var x := s.Of(w);
    HasFacts(t, s, w);
    if x.Delivering? || x.Resending? {
      var id := x.Held()[0];
      var rows := if outcome.None? then s.rows else s.rows[id := Recorded(s.rows[id], outcome.value, s.clock)];
      assert x.Delivering? ==> forall k :: 0 <= k < |x.todo[1..]| ==> x.todo[1..][k] == x.Held()[k + 1];
      OwnRowsOnly(t, s, w, rows, if x.Delivering? then Looping(x.stamp, x.start, x.todo[1..], x.checkedAt) else Resting);
    }
  }

  lemma RestampLeaves(rows: seq<Row>, ids: seq<nat>, from: set<DeliveryStatus>, to: DeliveryStatus, now: int)
    ensures var rows' := Restamp(rows, ids, from, to, now);
      |rows'| == |rows| && forall i :: 0 <= i < |rows| && i !in ids ==> rows'[i] == rows[i]
  {
  }

  lemma ReleaseStep(t: Timing, s: State, w: nat)
    requires s.Of(w).Releasing?
    ensures Step(t, s, w, Release) == s.(rows := Restamp(s.rows, s.Of(w).todo, {Sending}, Pending, s.clock)).Put(w, Resting)
  {
    hide Restamp;
  }

  lemma ReleaseKeeps(t: Timing, s: State, w: nat)
    requires Inv(t, s) && s.Of(w).Releasing?
    ensures Inv(t, Step(t, s, w, Release))
  {
    hide Inv, Restamp, Step;
    var todo := s.Of(w).todo;
    RestampLeaves(s.rows, todo, {Sending}, Pending, s.clock);
    ReleaseStep(t, s, w);
    OwnRowsOnly(t, s, w, Restamp(s.rows, todo, {Sending}, Pending, s.clock), Resting);
  }

  /** Rows that nobody can hold may change, and rows may be added. */
  lemma RowsChange(t: Timing, s: State, rows: seq<Row>)
    requires Inv(t, s) && |s.rows| <= |rows|
    requires forall i :: 0 <= i < |s.rows| && s.rows[i].status == Sending ==> rows[i] == s.rows[i]
    ensures Inv(t, s.(rows := rows))
  {
    forall v | v in s.workers
      ensures WorkerOk(t, s.(rows := rows), s.workers[v])
    {
      assert WorkerOk(t, s, s.workers[v]);
    }
  }

  /** A worker goes on with what it held, or with nothing. */
  lemma Goes(t: Timing, s: State, w: nat, x: Worker)
    requires Inv(t, s) && WorkerOk(t, s, x) && (x.Held() == s.Of(w).Held() || x.Held() == [])
    ensures Inv(t, s.Put(w, x))
  {
    var s' := s.Put(w, x);
    forall v | v in s'.workers
      ensures WorkerOk(t, s', s'.workers[v])
    {
      if v != w {
        assert WorkerOk(t, s, s.workers[v]);
      }
    }
    assert w in s.workers || s.Of(w).Held() == [];
  }

  lemma TickKeeps(t: Timing, s: State, seconds: nat)
    requires Inv(t, s)
    ensures Inv(t, s.(clock := s.clock + seconds))
  {
    forall v | v in s.workers
      ensures WorkerOk(t, s.(clock := s.clock + seconds), s.workers[v])
    {
      assert WorkerOk(t, s, s.workers[v]);
    }
  }

  lemma ClearKeeps(t: Timing, s: State, w: nat)
    requires Inv(t, s)
    ensures Inv(t, Step(t, s, w, ClearSchedule))
  {
    hide Inv;
    var x := s.Of(w);
    var s' := Step(t, s, w, ClearSchedule);
    if x.Retrying? && s' != s {
      HasFacts(t, s, w);
      RowsChange(t, s, s'.rows);
      HasFacts(t, s.(rows := s'.rows), w);
      Goes(t, s.(rows := s'.rows), w, x.(cleared := true));
    }
  }

  lemma InsertKeeps(t: Timing, s: State, w: nat)
    requires Inv(t, s) && s.Of(w).Retrying? && s.Of(w).cleared && s.Of(w).source < |s.rows|
    ensures Inv(t, Step(t, s, w, InsertRetry))
  {
    hide Inv;
    var x := s.Of(w);
    HasFacts(t, s, w);
    var row := s.rows[x.source];
    NewRowIsFree(t, s, w, Resending(x.stamp, |s.rows|));
    Moved(t, s, w, s.rows + [Row(row.event, row.attempt + 1, Sending, x.stamp, None)], Resending(x.stamp, |s.rows|));
  }

  lemma NewRowIsFree(t: Timing, s: State, w: nat, x: Worker)
    requires Inv(t, s) && x.Resending? && x.row == |s.rows|
    ensures forall v :: v in s.workers && v != w ==> Apart(x, s.workers[v]) && Apart(s.workers[v], x)
    ensures forall v :: v in s.workers ==> forall k :: 0 <= k < |s.workers[v].Held()| ==> s.workers[v].Held()[k] < |s.rows|
  {
    hide Inv;
    forall v | v in s.workers
      ensures Apart(x, s.workers[v]) && Apart(s.workers[v], x)
      ensures forall k :: 0 <= k < |s.workers[v].Held()| ==> s.workers[v].Held()[k] < |s.rows|
    {
      forall k | 0 <= k < |s.workers[v].Held()|
        ensures s.workers[v].Held()[k] < |s.rows|
      {
        OthersHoldRows(t, s, v, k);
      }
    }
  }

  lemma StepKeeps(t: Timing, s: State, w: nat, a: Action)
    requires t.Margin() && Inv(t, s) && Timely(t, s)
    ensures Inv(t, Step(t, s, w, a))
  {
    hide Inv;
    var s' := Step(t, s, w, a);
    if s' != s {
      match a {
        case Tick(seconds) => TickKeeps(t, s, seconds);
        case Enqueue(_) => RowsChange(t, s, s'.rows);
        case Requeue(_) => RowsChange(t, s, s'.rows);
        case Claim(ids) => ClaimKeeps(t, s, w, ids);
        case Record(outcome) => RecordKeeps(t, s, w, Some(outcome));
        case RecordFails => RecordKeeps(t, s, w, None);
        case Release => ReleaseKeeps(t, s, w);
        case ClearSchedule => ClearKeeps(t, s, w);
        case InsertRetry => InsertKeeps(t, s, w);
        case Crash => Goes(t, s, w, Resting);
        case _ => WorkerGoes(t, s, w, a);
      }
    }
  }

  /** The actions that move only the worker. */
  lemma WorkerGoes(t: Timing, s: State, w: nat, a: Action)
    requires t.Margin() && Inv(t, s) && Timely(t, s) && Step(t, s, w, a) != s
    requires a.StartRun? || a.ReadStart? || a.Check? || a.ReleaseFails? || a.StartRetry?
    ensures Inv(t, Step(t, s, w, a))
  {
    var x := s.Of(w);
    hide Inv;
    HasFacts(t, s, w);
    assert w in s.workers ==> OnTime(t, x, s.clock);
    if x.Claimed? || x.Looping? {
      StepsGrow(t, 0, BATCH_SIZE - |x.todo|);
      hide Steps;
    }
    Goes(t, s, w, Step(t, s, w, a).Of(w));
  }

  /** If claim delay, batch budget and one delivery together stay below the
      stale window, the invariant holds in every run that is on time. */
  lemma {:induction false} RunKeeps(t: Timing, s: State, events: seq<Event>)
    requires t.Margin() && Initial(s) && TimelyRun(t, s, events)
    ensures Inv(t, Exec(t, s, events))
  {
    if |events| > 0 {
      var n := |events| - 1;
      assert forall k :: 0 <= k <= n ==> events[..n][..k] == events[..k];
      RunKeeps(t, s, events[..n]);
      StepKeeps(t, Exec(t, s, events[..n]), events[n].worker, events[n].action);
    }
  }

  /** No two workers ever hold the same delivery, and whoever holds one holds it
      under its own claim: no other batch or manual retry can write to it. */
  lemma Exclusion(t: Timing, s0: State, events: seq<Event>, w: nat, v: nat, id: nat)
    requires t.Margin() && Initial(s0) && TimelyRun(t, s0, events) && w != v
    ensures var s := Exec(t, s0, events); !(Holds(s.Of(w), id) && Holds(s.Of(v), id))
    ensures var s := Exec(t, s0, events); Holds(s.Of(w), id) ==> id < |s.rows| && s.rows[id].status == Sending
  {
    RunKeeps(t, s0, events);
    var s := Exec(t, s0, events);
    if Holds(s.Of(w), id) {
      assert WorkerOk(t, s, s.workers[w]);
      assert v in s.workers ==> Apart(s.workers[w], s.workers[v]);
    }
  }

  /** A recorded success or failure stands: whatever is done next, manual
      retries included, the row keeps its status, event and attempt, and its
      retry schedule can only be cleared. */
  lemma ResultsStand(t: Timing, s0: State, events: seq<Event>, w: nat, a: Action, id: nat)
    requires t.Margin() && Initial(s0) && TimelyRun(t, s0, events)
    requires id < |Exec(t, s0, events).rows| && Exec(t, s0, events).rows[id].Finished()
    ensures var s := Exec(t, s0, events); Stands(s.rows, Step(t, s, w, a).rows, id)
  {
    RunKeeps(t, s0, events);
    FinishedStands(t, Exec(t, s0, events), w, a, id);
  }

  /** Under the margin the guard of the release never leaves a row behind: every
      row the worker hands back is still being sent under its own claim, held by
      no one else, and comes back pending; no other row changes. */
  lemma ReleaseFreesExactlyItsRows(t: Timing, s0: State, events: seq<Event>, w: nat, i: nat)
    requires t.Margin() && Initial(s0) && TimelyRun(t, s0, events)
    requires Exec(t, s0, events).Of(w).Releasing? && i < |Exec(t, s0, events).rows|
    ensures var s := Exec(t, s0, events); var rows := Step(t, s, w, Release).rows; var held := i in s.Of(w).todo;
      && |rows| == |s.rows|
      && rows[i] == (if held then s.rows[i].(status := Pending, updatedAt := s.clock) else s.rows[i])
      && (held ==> s.rows[i].status == Sending && forall v :: v != w ==> !Holds(s.Of(v), i))
  {
    RunKeeps(t, s0, events);
    var s := Exec(t, s0, events);
    HasFacts(t, s, w);
    ReleaseStep(t, s, w);
    hide Exec, Step;
    if i in s.Of(w).todo {
      assert Holds(s.Of(w), i);
      forall v | v != w
        ensures !Holds(s.Of(v), i)
      {
        Exclusion(t, s0, events, w, v, i);
      }
    }
  }

  predicate Stands(before: seq<Row>, after: seq<Row>, id: nat) {
    && id < |before| && id < |after| && after[id].status == before[id].status
    && after[id].event == before[id].event && after[id].attempt == before[id].attempt
    && (after[id].nextRetry == before[id].nextRetry || after[id].nextRetry.None?)
  }

  lemma FinishedStands(t: Timing, s: State, w: nat, a: Action, id: nat)
    requires Inv(t, s) && id < |s.rows| && s.rows[id].Finished()
    ensures Stands(s.rows, Step(t, s, w, a).rows, id)
  {
    hide Inv;
    var x := s.Of(w);
    if x.Delivering? || x.Resending? {
      assert WorkerOk(t, s, x) by {
        HasFacts(t, s, w);
      }
      assert s.rows[x.Held()[0]].status == Sending;
    }
  }

  lemma HasFacts(t: Timing, s: State, w: nat)
    requires Inv(t, s)
    ensures WorkerOk(t, s, s.Of(w))
  {
  }
}
