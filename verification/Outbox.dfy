// The merchant callback queue: rows of merchant_callback_deliveries and the
// workers that requeue, claim, send, record, release and manually retry them.
// Each worker action is one clock reading, one check or one SQL statement;
// between any two of them other workers may act and time may pass.

module Outbox {
  import opened Options

  const MAX_ATTEMPTS := 5
  const RETRY_AFTER := 300  // seconds, nextRetryAt
  const BATCH_SIZE := 50

  datatype DeliveryStatus = Pending | Sending | Success | Failed

  /** `event` identifies the queued event the attempt belongs to. */
  datatype Row = Row(event: nat, attempt: int, status: DeliveryStatus, updatedAt: int, nextRetry: Option<int>) {
    predicate Finished() { status == Success || status == Failed }
    predicate Closed() { status == Failed && nextRetry.None? }
  }

  /** What sending came to: 2xx; a failure worth retrying; one that is not. */
  datatype Outcome = Delivered | Refused | Hopeless

  function NextRetryAt(attempt: int, now: int): Option<int> {
    if attempt >= MAX_ATTEMPTS then None else Some(now + RETRY_AFTER)
  }

  /** UpdateResult: rewrites the row whatever its status is. */
  function Recorded(row: Row, outcome: Outcome, now: int): Row {
    match outcome
    case Delivered => row.(status := Success, nextRetry := None, updatedAt := now)
    case Refused => row.(status := Failed, nextRetry := NextRetryAt(row.attempt, now), updatedAt := now)
    case Hopeless => row.(status := Failed, nextRetry := None, updatedAt := now)
  }

  // ------------------------------------------------------------------ workers

  /** A worker is within DeliverMerchantCallbacks or a manual retry. `stamp` is
      the clock reading its rows are stamped with, `checkedAt` its last passed
      budget check. */
  datatype Worker =
    | Resting
    | Running(stamp: int)                                              // now read; may requeue, will claim
    | Claimed(stamp: int, todo: seq<nat>)                              // start not read yet
    | Looping(stamp: int, start: int, todo: seq<nat>, checkedAt: int)  // about to check the next row
    | Delivering(stamp: int, start: int, todo: seq<nat>, checkedAt: int)  // todo[0] is being sent
    | Releasing(stamp: int, start: int, todo: seq<nat>, checkedAt: int)
    | Retrying(stamp: int, source: nat, cleared: bool)
    | Resending(stamp: int, row: nat)
  {
    /** The rows it may still write to. */
    function Held(): seq<nat> {
      match this
      case Claimed(_, todo) => todo
      case Looping(_, _, todo, _) => todo
      case Delivering(_, _, todo, _) => todo
      case Releasing(_, _, todo, _) => todo
      case Resending(_, row) => [row]
      case _ => []
    }
  }

  /** The timing of one deployment. `delay`: from the claim timestamp to start.
      `step`: from start or a passed check to the next check, recording or
      release included. `manual`: a whole manual retry. */
  datatype Timing = Timing(stale: int, budget: int, delay: int, step: int, manual: int) {
    /** How late after start a check may still pass: when the budget is spent, or
        when a full batch has been through as many steps as it has rows. */
    function Reach(): int { if budget < BATCH_SIZE * step then budget else BATCH_SIZE * step }
    predicate NonNegative() { 0 <= budget && 0 <= delay && 0 <= step && 0 <= manual }
    predicate Margin() { 0 <= budget && 0 <= step && delay + Reach() + step < stale && manual < stale }
  }

  datatype State = State(rows: seq<Row>, clock: int, workers: map<nat, Worker>) {
    function Of(w: nat): Worker { if w in workers then workers[w] else Resting }
    function Put(w: nat, x: Worker): State { this.(workers := workers[w := x]) }
    predicate Queued(event: nat) { exists i :: 0 <= i < |rows| && rows[i].event == event }
  }

  datatype Action =
    | Tick(seconds: nat)
    | Enqueue(event: nat)                 // NotifyMerchantPaymentEvent
    | StartRun
    | Requeue(id: nat)                    // one row of RequeueDueFailed
    | Claim(ids: seq<nat>)                // ClaimDue
    | ReadStart
    | Check(shutdown: bool)
    | Record(outcome: Outcome)
    | RecordFails                         // the result could not be written
    | Release
    | ReleaseFails
    | StartRetry(source: nat)
    | ClearSchedule
    | InsertRetry
    | Crash

  /** Which rows a claim with this timestamp may take: any of them, since the
      statement skips locked rows and the order of RETURNING is unspecified. */
  predicate Claimable(row: Row, stamp: int, stale: int) {
    row.status == Pending || (row.status == Sending && row.updatedAt <= stamp - stale)
  }

  predicate Distinct(ids: seq<nat>) { forall i, j :: 0 <= i < j < |ids| ==> ids[i] != ids[j] }

  predicate ClaimFits(s: State, stamp: int, stale: int, ids: seq<nat>) {
    && |ids| <= BATCH_SIZE && Distinct(ids)
    && (forall k :: 0 <= k < |ids| ==> ids[k] < |s.rows| && Claimable(s.rows[ids[k]], stamp, stale))
  }

  /** Sets status and updated_at of the given rows. */
  function Restamp(rows: seq<Row>, ids: seq<nat>, from: set<DeliveryStatus>, to: DeliveryStatus, now: int): seq<Row> {
    seq(|rows|, (i: nat) requires i < |rows| =>
      if i in ids && rows[i].status in from then rows[i].(status := to, updatedAt := now) else rows[i])
  }

  /** One failed row whose time has come: schedule cleared, next attempt queued. */
  function RequeueRow(rows: seq<Row>, id: nat, now: int): seq<Row>
    requires id < |rows|
  {
    var failed := rows[id];
    rows[id := failed.(nextRetry := None, updatedAt := now)] + [Row(failed.event, failed.attempt + 1, Pending, now, None)]
  }

  function Step(t: Timing, s: State, w: nat, a: Action): State {
    var x := s.Of(w);
    match a
    case Tick(seconds) => s.(clock := s.clock + seconds)
    case Enqueue(event) => if s.Queued(event) then s else s.(rows := s.rows + [Row(event, 1, Pending, s.clock, None)])
    case StartRun => if x.Resting? then s.Put(w, Running(s.clock)) else s
    case Requeue(id) =>
      if x.Running? && id < |s.rows| && s.rows[id].status == Failed && s.rows[id].nextRetry.Some? && s.rows[id].nextRetry.value <= x.stamp
      then s.(rows := RequeueRow(s.rows, id, x.stamp)) else s
    case Claim(ids) =>
      if x.Running? && ClaimFits(s, x.stamp, t.stale, ids)
      then s.(rows := Restamp(s.rows, ids, {Pending, Sending}, Sending, x.stamp)).Put(w, Claimed(x.stamp, ids)) else s
    case ReadStart => if x.Claimed? then s.Put(w, Looping(x.stamp, s.clock, x.todo, s.clock)) else s
    case Check(shutdown) =>
      if !x.Looping? then s
      else if |x.todo| == 0 then s.Put(w, Resting)
      else if shutdown || s.clock - x.start > t.budget then s.Put(w, Releasing(x.stamp, x.start, x.todo, x.checkedAt))
      else s.Put(w, Delivering(x.stamp, x.start, x.todo, s.clock))
    case Record(outcome) => RecordBy(s, w, x, Some(outcome))
    case RecordFails => RecordBy(s, w, x, None)
    case Release =>
      if x.Releasing? then s.(rows := Restamp(s.rows, x.todo, {Sending}, Pending, s.clock)).Put(w, Resting) else s
    case ReleaseFails => if x.Releasing? then s.Put(w, Resting) else s
    case StartRetry(source) => if x.Resting? && source < |s.rows| then s.Put(w, Retrying(s.clock, source, false)) else s
    case ClearSchedule =>
      if x.Retrying? && !x.cleared && x.source < |s.rows| then
        var row := s.rows[x.source];
        var rows := if row.status == Failed && row.nextRetry.Some?
                    then s.rows[x.source := row.(nextRetry := None, updatedAt := x.stamp)] else s.rows;
        s.(rows := rows).Put(w, x.(cleared := true))
      else s
    // The row is stamped with the retry's first reading. The insert reads the clock
    // again for updated_at, so a real row only looks fresh for longer.
    case InsertRetry =>
      if x.Retrying? && x.cleared && x.source < |s.rows| then
        var row := s.rows[x.source];
        s.(rows := s.rows + [Row(row.event, row.attempt + 1, Sending, x.stamp, None)]).Put(w, Resending(x.stamp, |s.rows|))
      else s
    case Crash => s.Put(w, Resting)
  }

  /** The end of one delivery, of a batch or of a manual retry. */
  function RecordBy(s: State, w: nat, x: Worker, outcome: Option<Outcome>): State {
    if x.Delivering? && |x.todo| > 0 && x.todo[0] < |s.rows| then
      var rows := if outcome.None? then s.rows else s.rows[x.todo[0] := Recorded(s.rows[x.todo[0]], outcome.value, s.clock)];
      s.(rows := rows).Put(w, Looping(x.stamp, x.start, x.todo[1..], x.checkedAt))
    else if x.Resending? && x.row < |s.rows| then
      var rows := if outcome.None? then s.rows else s.rows[x.row := Recorded(s.rows[x.row], outcome.value, s.clock)];
      s.(rows := rows).Put(w, Resting)
    else s
  }

  // --------------------------------------------------------------------- runs

  datatype Event = Event(worker: nat, action: Action)

  function Exec(t: Timing, s: State, events: seq<Event>): State {
    if |events| == 0 then s
    else
      var last := events[|events| - 1];
      Step(t, Exec(t, s, events[..|events| - 1]), last.worker, last.action)
  }

  /** The timing hypothesis: no worker that holds rows is later than the bounds
      say. A worker that stopped for good has crashed and holds nothing. */
  predicate OnTime(t: Timing, x: Worker, clock: int) {
    match x
    case Claimed(stamp, _) => clock <= stamp + t.delay
    case Looping(_, _, _, checkedAt) => clock <= checkedAt + t.step
    case Delivering(_, _, _, checkedAt) => clock <= checkedAt + t.step
    case Releasing(_, _, _, checkedAt) => clock <= checkedAt + t.step
    case Resending(stamp, _) => clock <= stamp + t.manual
    case _ => true
  }

  ghost predicate Timely(t: Timing, s: State) {
    forall w :: w in s.workers ==> OnTime(t, s.workers[w], s.clock)
  }

  ghost predicate TimelyRun(t: Timing, s: State, events: seq<Event>) {
    forall k :: 0 <= k <= |events| ==> Timely(t, Exec(t, s, events[..k]))
  }

  predicate Initial(s: State) { s.rows == [] && s.workers == map[] }
}
