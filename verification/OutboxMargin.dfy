// The timing margin of the callback queue is exact: without it there is a run,
// on time throughout, in which two workers hold the same delivery.

module OutboxMargin {
  import opened Options
  import opened Outbox
  import opened OutboxTheorems

  // ----------------------------------------------------------------- the claim

  /** In this run two workers hold one row at the end. */
  ghost predicate Clash(t: Timing, s0: State, events: seq<Event>) {
    && Initial(s0) && TimelyRun(t, s0, events)
    && exists w, v, id | w != v :: Holds(Exec(t, s0, events).Of(w), id) && Holds(Exec(t, s0, events).Of(v), id)
  }

  ghost predicate Exclusive(t: Timing) {
    forall s0, events :: !Clash(t, s0, events)
  }

  // ------------------------------------------------------------ building a run

  /** The run so far is on time and has reached s. */
  ghost predicate Reaches(t: Timing, events: seq<Event>, s: State) {
    TimelyRun(t, State([], 0, map[]), events) && Exec(t, State([], 0, map[]), events) == s
  }

  lemma Starts(t: Timing)
    ensures Reaches(t, [], State([], 0, map[]))
  {
  }

  lemma Goes(t: Timing, events: seq<Event>, s: State, w: nat, a: Action) returns (longer: seq<Event>)
    requires Reaches(t, events, s) && Timely(t, Step(t, s, w, a))
    ensures Reaches(t, longer, Step(t, s, w, a))
  {
    longer := events + [Event(w, a)];
    assert longer[..|events|] == events;
    forall k | 0 <= k <= |longer|
      ensures Timely(t, Exec(t, State([], 0, map[]), longer[..k]))
    {
      if k <= |events| {
        assert longer[..k] == events[..k];
      } else {
        assert longer[..k] == longer;
      }
    }
  }

  // -------------------------------------------------------- a batch that crawls

  function Ids(k: nat): seq<nat>
    requires k <= BATCH_SIZE
  {
    seq(BATCH_SIZE - k, (i: nat) requires i < BATCH_SIZE - k => k + i)
  }

  function Fresh(n: nat, status: DeliveryStatus): seq<Row> {
    seq(n, (i: nat) requires i < n => Row(i, 1, status, 0, None))
  }

  lemma Enqueues(t: Timing, n: nat) returns (events: seq<Event>)
    ensures Reaches(t, events, State(Fresh(n, Pending), 0, map[]))
  {
    if n == 0 {
      Starts(t);
      events := [];
      assert Fresh(0, Pending) == [];
    } else {
      events := Enqueues(t, n - 1);
      events := Goes(t, events, State(Fresh(n - 1, Pending), 0, map[]), 1, Enqueue(n - 1));
      assert Fresh(n, Pending) == Fresh(n - 1, Pending) + [Row(n - 1, 1, Pending, 0, None)];
    }
  }

  lemma ClaimsAll(t: Timing) returns (events: seq<Event>)
    requires t.NonNegative()
    ensures Reaches(t, events, State(Fresh(BATCH_SIZE, Sending), 0, map[1 := Claimed(0, Ids(0))]))
  {
    hide Reaches;
    events := Enqueues(t, BATCH_SIZE);
    events := Goes(t, events, State(Fresh(BATCH_SIZE, Pending), 0, map[]), 1, StartRun);
    var s := State(Fresh(BATCH_SIZE, Pending), 0, map[1 := Running(0)]);
    assert Restamp(s.rows, Ids(0), {Pending, Sending}, Sending, 0) == Fresh(BATCH_SIZE, Sending) by {
      forall i | 0 <= i < BATCH_SIZE ensures i in Ids(0) { assert Ids(0)[i] == i; }
    }
    assert ClaimFits(s, 0, t.stale, Ids(0));
    var end := State(Fresh(BATCH_SIZE, Sending), 0, map[1 := Claimed(0, Ids(0))]);
    assert Step(t, s, 1, Claim(Ids(0))) == end;
    events := Goes(t, events, s, 1, Claim(Ids(0)));
  }

  /** How much of the budget the first k steps use, at most t.step each. */
  function Used(t: Timing, k: nat): int {
    if k * t.step <= t.budget then k * t.step else t.budget
  }

  lemma UsedGrows(t: Timing, k: nat)
    requires t.NonNegative()
    ensures 0 <= Used(t, k) <= Used(t, k + 1) <= Used(t, k) + t.step && Used(t, k + 1) <= t.budget
  {
    assert (k + 1) * t.step == k * t.step + t.step;
  }

  /** The loop is about to check row k. Only what matters of the rows: the unsent
      ones are as they were claimed. */
  predicate Crawling(t: Timing, s: State, k: nat, checkedAt: int)
    requires k < BATCH_SIZE
  {
    && |s.rows| == BATCH_SIZE
    && (forall i :: k <= i < BATCH_SIZE ==> s.rows[i] == Row(i, 1, Sending, 0, None))
    && s.clock == t.delay + Used(t, k + 1)
    && s.workers == map[1 := Looping(0, t.delay, Ids(k), checkedAt)]
    && s.clock <= checkedAt + t.step
  }

  /** Even the first check comes a whole step after start. */
  lemma StartsLoop(t: Timing) returns (events: seq<Event>, s: State)
    requires t.NonNegative()
    ensures Reaches(t, events, s) && Crawling(t, s, 0, t.delay)
  {
    hide Reaches, Used, Ids;
    UsedGrows(t, 0);
    assert Used(t, 0) == 0 by { UsedStarts(t); }
    events := ClaimsAll(t);
    var claimed := State(Fresh(BATCH_SIZE, Sending), 0, map[1 := Claimed(0, Ids(0))]);
    events := Goes(t, events, claimed, 1, Tick(t.delay));
    var later := claimed.(clock := t.delay);
    var looping := later.(workers := map[1 := Looping(0, t.delay, Ids(0), t.delay)]);
    assert Step(t, later, 1, ReadStart) == looping;
    events := Goes(t, events, later, 1, ReadStart);
    events := Goes(t, events, looping, 1, Tick(Used(t, 1)));
    s := looping.(clock := t.delay + Used(t, 1));
  }

  lemma UsedStarts(t: Timing)
    requires t.NonNegative()
    ensures Used(t, 0) == 0
  {
  }

  lemma SendsOne(t: Timing, events: seq<Event>, s: State, k: nat, checkedAt: int)
    returns (longer: seq<Event>, s': State, checkedAt': int)
    requires t.NonNegative() && k + 1 < BATCH_SIZE && Crawling(t, s, k, checkedAt) && Reaches(t, events, s)
    ensures Reaches(t, longer, s') && Crawling(t, s', k + 1, checkedAt')
  {
    hide Reaches, Used;
    UsedGrows(t, k);
    UsedGrows(t, k + 1);
    var pause := Used(t, k + 2) - Used(t, k + 1);
    checkedAt' := s.clock;
    longer := Goes(t, events, s, 1, Check(false));
    var sending := s.(workers := map[1 := Delivering(0, t.delay, Ids(k), checkedAt')]);
    assert Step(t, s, 1, Check(false)) == sending;
    var slow := sending.(clock := s.clock + pause);
    longer := Goes(t, longer, sending, 1, Tick(pause));
    assert Step(t, sending, 1, Tick(pause)) == slow;
    assert Ids(k)[0] == k && Ids(k)[1..] == Ids(k + 1);
    s' := Step(t, slow, 1, Record(Delivered));
    assert s' == State(s.rows[k := Recorded(s.rows[k], Delivered, slow.clock)], slow.clock, map[1 := Looping(0, t.delay, Ids(k + 1), checkedAt')]);
    longer := Goes(t, longer, slow, 1, Record(Delivered));
  }

  lemma {:induction false} SendsMany(t: Timing, k: nat) returns (events: seq<Event>, s: State, checkedAt: int)
    requires t.NonNegative() && k < BATCH_SIZE
    ensures Reaches(t, events, s) && Crawling(t, s, k, checkedAt)
  {
    if k == 0 {
      events, s := StartsLoop(t);
      checkedAt := t.delay;
    } else {
      events, s, checkedAt := SendsMany(t, k - 1);
      events, s, checkedAt := SendsOne(t, events, s, k - 1, checkedAt);
    }
  }

  /** The last row of the batch is being sent when it looks stale to another worker. */
  lemma BatchClashes(t: Timing)
    requires t.NonNegative() && t.stale <= t.delay + t.Reach() + t.step
    ensures !Exclusive(t)
  {
    hide Reaches, Used;
    var last := BATCH_SIZE - 1;
    var events, s, checkedAt := SendsMany(t, last);
    assert Used(t, BATCH_SIZE) == t.Reach() <= t.budget by { UsesReach(t); }
    events := Goes(t, events, s, 1, Check(false));
    var sending := s.(workers := map[1 := Delivering(0, t.delay, Ids(last), s.clock)]);
    events := Goes(t, events, sending, 1, Tick(t.step));
    var late := sending.(clock := s.clock + t.step);
    assert Ids(last) == [last];
    TakenAgain(t, events, late, last, Delivering(0, t.delay, [last], s.clock));
  }

  lemma UsesReach(t: Timing)
    requires t.NonNegative()
    ensures Used(t, BATCH_SIZE) == t.Reach() <= t.budget
  {
  }

  /** A second worker claims a row that the first still holds. */
  lemma TakenAgain(t: Timing, events: seq<Event>, s: State, id: nat, x: Worker)
    requires Reaches(t, events, s) && s.workers == map[1 := x] && x.Held() == [id] && OnTime(t, x, s.clock)
    requires 0 <= t.delay
    requires id < |s.rows| && s.rows[id].status == Sending && s.rows[id].updatedAt <= s.clock - t.stale
    ensures !Exclusive(t)
  {
    hide Reaches;
    var longer := Goes(t, events, s, 2, StartRun);
    var running := s.(workers := map[1 := x, 2 := Running(s.clock)]);
    assert Step(t, s, 2, StartRun) == running;
    assert ClaimFits(running, s.clock, t.stale, [id]);
    var end := Step(t, running, 2, Claim([id]));
    assert end.workers == map[1 := x, 2 := Claimed(s.clock, [id])];
    longer := Goes(t, longer, running, 2, Claim([id]));
    assert Holds(end.Of(1), id) && Holds(end.Of(2), id);
    IsClash(t, longer, end, id);
  }

  lemma IsClash(t: Timing, events: seq<Event>, s: State, id: nat)
    requires Reaches(t, events, s) && Holds(s.Of(1), id) && Holds(s.Of(2), id)
    ensures !Exclusive(t)
  {
    assert Clash(t, State([], 0, map[]), events);
  }

  // ------------------------------------------------------ a retry that crawls

  lemma RetryClashes(t: Timing)
    requires 0 <= t.delay && 0 <= t.manual && t.stale <= t.manual
    ensures !Exclusive(t)
  {
    hide Reaches;
    var events := Retries(t);
    var sending := State([Source(), Again()], 0, map[1 := Resending(0, 1)]);
    events := Goes(t, events, sending, 1, Tick(t.manual));
    TakenAgain(t, events, sending.(clock := t.manual), 1, Resending(0, 1));
  }

  function Source(): Row { Row(0, 1, Pending, 0, None) }
  function Again(): Row { Row(0, 2, Sending, 0, None) }

  lemma StartsRetry(t: Timing) returns (events: seq<Event>)
    ensures Reaches(t, events, State([Source()], 0, map[1 := Retrying(0, 0, false)]))
  {
    hide Reaches;
    Starts(t);
    var s0 := State([], 0, map[]);
    events := Goes(t, [], s0, 1, Enqueue(0));
    assert Step(t, s0, 1, Enqueue(0)) == State([Source()], 0, map[]);
    events := Goes(t, events, State([Source()], 0, map[]), 1, StartRetry(0));
  }

  lemma Retries(t: Timing) returns (events: seq<Event>)
    requires 0 <= t.manual
    ensures Reaches(t, events, State([Source(), Again()], 0, map[1 := Resending(0, 1)]))
  {
    hide Reaches;
    events := StartsRetry(t);
    var started := State([Source()], 0, map[1 := Retrying(0, 0, false)]);
    var cleared := State([Source()], 0, map[1 := Retrying(0, 0, true)]);
    assert Step(t, started, 1, ClearSchedule) == cleared;
    events := Goes(t, events, started, 1, ClearSchedule);
    assert Step(t, cleared, 1, InsertRetry) == State([Source(), Again()], 0, map[1 := Resending(0, 1)]);
    events := Goes(t, events, cleared, 1, InsertRetry);
  }

  // ------------------------------------------------------------------ the theorem

  /** For every timing: exclusion holds in all runs that are on time exactly if
      claim delay, what a batch can use of its budget, and one delivery together
      stay below the stale window, and so does a manual retry. */
  lemma MarginIsExact(t: Timing)
    requires t.NonNegative()
    ensures Exclusive(t) <==> t.Margin()
  {
    if t.Margin() {
      forall s0, events
        ensures !Clash(t, s0, events)
      {
        if Clash(t, s0, events) {
          var w, v, id :| w != v && Holds(Exec(t, s0, events).Of(w), id) && Holds(Exec(t, s0, events).Of(v), id);
          Exclusion(t, s0, events, w, v, id);
          assert false;
        }
      }
    } else if t.stale <= t.manual {
      RetryClashes(t);
    } else {
      BatchClashes(t);
    }
  }

  /** The deployed window and budget leave 20 seconds for claim delay and one
      delivery, or more only where deliveries take at most a second each, so that
      50 of them cannot use up the budget. The 30 seconds a delivery is allowed
      are too many. */
  lemma DeployedMargin(delay: nat, step: nat, manual: nat)
    ensures Exclusive(Timing(120, 100, delay, step, manual))
       <==> (if step >= 2 then delay + step < 20 else delay + 51 * step < 120) && manual < 120
  {
    MarginIsExact(Timing(120, 100, delay, step, manual));
  }
}
