// At most one payment per key: no two workers ever hold the same key, and
// payments made under one key lie apart as far as the clocks allow.

module IdempotencyOnce {
  import opened Options
  import opened Idempotency
  import opened IdempotencyTheorems

  // The owners are on time: each settles its claim within ABANDONED_AFTER of the
  // reading it claimed with. Whoever has made a payment completes its claim: it
  // neither crashes nor fails before that.

  ghost predicate TimelyBy(s: State, deadline: int) {
    forall w :: w in s.workers && s.workers[w].Holds() ==> s.clock <= s.workers[w].claimedAt + deadline
  }

  ghost predicate Timely(s: State) { TimelyBy(s, ABANDONED_AFTER) }

  ghost predicate TimelyRun(s: State, events: seq<Event>) {
    forall k :: 0 <= k <= |events| ==> Timely(Exec(s, events[..k]))
  }

  predicate SettlingStep(s: State, w: nat, a: Action) {
    !((a.Crash? || a.CompleteFails?) && s.Of(w).Created?)
  }

  ghost predicate Settling(s: State, events: seq<Event>) {
    forall k :: 0 <= k < |events| ==> SettlingStep(Exec(s, events[..k]), events[k].worker, events[k].action)
  }

  /** Which statements that delete rows occur in a run. */
  datatype Deletions = Deletions(purges: bool, releases: bool) {
    predicate Allow(a: Action) { (a.Purge? ==> purges) && (a.Release? ==> releases) }
    predicate Any() { purges || releases }
  }

  ghost predicate Deletes(events: seq<Event>, d: Deletions) {
    forall k :: 0 <= k < |events| ==> d.Allow(events[k].action)
  }

  /** A claim that wins does so at most `lag` after its clock reading. */
  predicate PromptStep(s: State, w: nat, a: Action, lag: int) {
    a.Claim? && s.Of(w).Asking? && Wins(s.table, s.Of(w).scope, s.Of(w).now) ==> s.clock <= s.Of(w).now + lag
  }

  ghost predicate Prompt(s: State, events: seq<Event>, lag: int) {
    forall k :: 0 <= k < |events| ==> PromptStep(Exec(s, events[..k]), events[k].worker, events[k].action, lag)
  }

  predicate HasRow(s: State, scope: Scope, claim: nat) { scope in s.table && s.table[scope].id == claim }

  ghost predicate Seated(s: State, x: Worker) {
    && (x.Holds() ==> HasRow(s, x.scope, x.claim) && x.claimedAt <= s.clock)
    && (x.Asking? || x.Purging? ==> x.now <= s.clock)
    && (x.Owner? || x.Failed? ==> forall p :: 0 <= p < |s.made| ==> s.made[p].claim != x.claim)
  }

  /** Every holder still has the row of its key. */
  ghost predicate AllSeated(s: State) {
    forall w :: w in s.workers ==> Seated(s, s.workers[w])
  }

  /** Long past: the clock is more than TTL past the payment's claim and, where
      no row is ever deleted, so is the row that stands in its place. */
  predicate Past(s: State, m: Made, kept: bool) {
    if kept then m.scope in s.table && s.table[m.scope].createdAt > m.claimedAt + TTL
    else s.clock > m.claimedAt + TTL
  }

  /** A payment blocks its key until then: its row stands and is completed, or
      its creator is about to complete it. */
  ghost predicate Blocks(s: State, p: nat, kept: bool)
    requires p < |s.made|
  {
    var m := s.made[p];
    && m.claimedAt <= s.clock
    && (|| Past(s, m, kept)
        || (HasRow(s, m.scope, m.claim) && s.table[m.scope].createdAt == m.claimedAt
            && (s.table[m.scope].payment == Some(p) || exists w :: w in s.workers && CreatorOf(s.workers[w], m, p))))
  }

  predicate CreatorOf(x: Worker, m: Made, p: nat) { x.Created? && x.scope == m.scope && x.claim == m.claim && x.payment == p }

  predicate Later(m: Made, scope: Scope, claimedAt: int, lag: int) {
    m.scope == scope ==> claimedAt > m.claimedAt + TTL - lag
  }

  ghost predicate Spaced(s: State, lag: int, kept: bool) {
    && (forall p :: 0 <= p < |s.made| ==> Blocks(s, p, kept))
    && (forall w, p :: w in s.workers && s.workers[w].Owner? && 0 <= p < |s.made| ==>
          Later(s.made[p], s.workers[w].scope, s.workers[w].claimedAt, lag))
    && (forall p, q :: 0 <= p < q < |s.made| ==> Later(s.made[p], s.made[q].scope, s.made[q].claimedAt, lag))
  }

  /** The key of a holder that is on time cannot be claimed or purged. */
  lemma SeatIsSafe(s: State, x: Worker, now: int)
    requires Fenced(s) && x.Holds() && Seated(s, x) && HolderOk(s, x) && s.clock <= x.claimedAt + ABANDONED_AFTER && now <= s.clock
    ensures !Wins(s.table, x.scope, now) && s.table[x.scope].createdAt >= now - TTL
  {
  }

  lemma ClaimSeats(s: State, w: nat)
    requires Fenced(s) && AllSeated(s) && Timely(s) && s.Of(w).Asking? && Wins(s.table, s.Of(w).scope, s.Of(w).now)
    ensures AllSeated(Step(s, w, Claim))
  {
    var s' := Step(s, w, Claim);
    assert Seated(s, s.Of(w));
    forall v | v in s'.workers
      ensures Seated(s', s'.workers[v])
    {
      if v != w {
        assert Seated(s, s.workers[v]) && HolderOk(s, s.workers[v]);
        if s.workers[v].Holds() {
          SeatIsSafe(s, s.workers[v], s.Of(w).now);
        }
      }
    }
  }

  lemma PurgeSeats(s: State, w: nat)
    requires Fenced(s) && AllSeated(s) && Timely(s) && s.Of(w).Purging?
    ensures AllSeated(Step(s, w, Purge))
  {
    var s' := Step(s, w, Purge);
    assert Seated(s, s.Of(w));
    forall v | v in s'.workers
      ensures Seated(s', s'.workers[v])
    {
      if v != w {
        assert Seated(s, s.workers[v]) && HolderOk(s, s.workers[v]);
        if s.workers[v].Holds() {
          SeatIsSafe(s, s.workers[v], s.Of(w).now);
        }
      }
    }
  }

  lemma StepSeats(s: State, w: nat, a: Action)
    requires Fenced(s) && AllSeated(s) && Timely(s)
    ensures AllSeated(Step(s, w, a))
  {
    var s' := Step(s, w, a);
    if a.Claim? && s.Of(w).Asking? && Wins(s.table, s.Of(w).scope, s.Of(w).now) {
      ClaimSeats(s, w);
    } else if a.Purge? && s.Of(w).Purging? {
      PurgeSeats(s, w);
    } else {
      OtherSeats(s, w, a);
    }
  }

  lemma OtherSeats(s: State, w: nat, a: Action)
    requires Fenced(s) && AllSeated(s) && !(a.Claim? && s.Of(w).Asking? && Wins(s.table, s.Of(w).scope, s.Of(w).now)) && !(a.Purge? && s.Of(w).Purging?)
    ensures AllSeated(Step(s, w, a))
  {
    var s' := Step(s, w, a);
    assert Seated(s, s.Of(w));
    forall v | v in s'.workers
      ensures Seated(s', s'.workers[v])
    {
      if v != w {
        assert Seated(s, s.workers[v]);
      }
    }
  }

  /** No two workers ever hold the same key. */
  lemma SeatsAreApart(s: State, w: nat, v: nat)
    requires Fenced(s) && AllSeated(s) && w != v && s.Of(w).Holds() && s.Of(v).Holds()
    ensures s.Of(w).scope != s.Of(v).scope
  {
    assert Seated(s, s.workers[w]) && Seated(s, s.workers[v]);
  }

  // ------------------------------------------------------------------ spacing

  /** A payment that does not block its key is more than TTL old; one that does
      has the key's row, which only expiry frees for others. */
  lemma ClaimIsLater(s: State, w: nat, p: nat, lag: int, kept: bool)
    requires Fenced(s) && AllSeated(s) && Timely(s) && s.Of(w).Asking? && Wins(s.table, s.Of(w).scope, s.Of(w).now)
    requires p < |s.made| && Blocks(s, p, kept) && s.made[p].scope == s.Of(w).scope && 0 <= lag
    requires kept || s.clock <= s.Of(w).now + lag
    ensures s.Of(w).now > s.made[p].claimedAt + TTL - lag
    ensures if kept then s.Of(w).now > s.made[p].claimedAt + TTL else s.clock > s.made[p].claimedAt + TTL
  {
    var m := s.made[p];
    assert Seated(s, s.Of(w));
    if !Past(s, m, kept) && s.table[m.scope].payment != Some(p) {
      var v :| v in s.workers && CreatorOf(s.workers[v], m, p);
      assert Seated(s, s.workers[v]) && HolderOk(s, s.workers[v]);
      SeatIsSafe(s, s.workers[v], s.Of(w).now);
      assert false;
    }
  }

  lemma ClaimSpaced(s: State, w: nat, lag: int, kept: bool)
    requires Fenced(s) && AllSeated(s) && Timely(s) && Spaced(s, lag, kept) && 0 <= lag
    requires s.Of(w).Asking? && Wins(s.table, s.Of(w).scope, s.Of(w).now) && (kept || s.clock <= s.Of(w).now + lag)
    ensures Spaced(Step(s, w, Claim), lag, kept)
  {
    var s' := Step(s, w, Claim);
    forall p | 0 <= p < |s.made|
      ensures Blocks(s', p, kept) && Later(s.made[p], s.Of(w).scope, s.Of(w).now, lag)
    {
      assert Blocks(s, p, kept);
      if s.made[p].scope == s.Of(w).scope {
        ClaimIsLater(s, w, p, lag, kept);
      } else {
        StillCreator(s, s', w, p);
      }
    }
  }

  /** A creator other than w is still there after w's step. */
  lemma StillCreator(s: State, s': State, w: nat, p: nat)
    requires p < |s.made| && (forall v :: v in s.workers && v != w ==> v in s'.workers && s'.workers[v] == s.workers[v])
    requires w in s.workers ==> !CreatorOf(s.workers[w], s.made[p], p)
    ensures (exists v :: v in s.workers && CreatorOf(s.workers[v], s.made[p], p))
        ==> (exists v :: v in s'.workers && CreatorOf(s'.workers[v], s.made[p], p))
  {
    if v :| v in s.workers && CreatorOf(s.workers[v], s.made[p], p) {
      assert CreatorOf(s'.workers[v], s.made[p], p);
    }
  }

  lemma CreateSpaced(s: State, w: nat, lag: int, kept: bool)
    requires Fenced(s) && AllSeated(s) && Spaced(s, lag, kept) && s.Of(w).Owner?
    ensures Spaced(Step(s, w, CreateSucceeds), lag, kept)
  {
    var s' := Step(s, w, CreateSucceeds);
    var x := s.Of(w);
    assert Seated(s, x) && HolderOk(s, x);
    forall p | 0 <= p < |s'.made|
      ensures Blocks(s', p, kept)
    {
      if p < |s.made| {
        assert Blocks(s, p, kept);
        StillCreator(s, s', w, p);
      } else {
        assert CreatorOf(s'.workers[w], s'.made[p], p);
      }
    }
    forall v, p | v in s'.workers && s'.workers[v].Owner? && 0 <= p < |s'.made|
      ensures Later(s'.made[p], s'.workers[v].scope, s'.workers[v].claimedAt, lag)
    {
      if p == |s.made| {
        SeatsAreApart(s, w, v);
      }
    }
  }

  lemma CompleteSpaced(s: State, w: nat, lag: int, kept: bool)
    requires Fenced(s) && AllSeated(s) && Spaced(s, lag, kept) && s.Of(w).Created?
    ensures Spaced(Step(s, w, Complete), lag, kept)
  {
    var s' := Step(s, w, Complete);
    var x := s.Of(w);
    assert Seated(s, x) && HolderOk(s, x);
    forall p | 0 <= p < |s.made|
      ensures Blocks(s', p, kept)
    {
      assert Blocks(s, p, kept);
      var m := s.made[p];
      if m.claim == x.claim && HasRow(s, m.scope, m.claim) && !Past(s, m, kept) {
        assert s.table[m.scope].payment.None?;
        var v :| v in s.workers && CreatorOf(s.workers[v], m, p);
        assert v == w;
      } else if m.claim != x.claim {
        StillCreator(s, s', w, p);
      }
    }
  }

  /** Rows that go do not block any more: they were not completed, or are old. */
  lemma ShrinkSpaced(s: State, w: nat, a: Action, lag: int, kept: bool)
    requires Fenced(s) && AllSeated(s) && Spaced(s, lag, kept) && !kept && ((a.Release? && s.Of(w).Failed?) || (a.Purge? && s.Of(w).Purging?))
    ensures Spaced(Step(s, w, a), lag, kept)
  {
    var s' := Step(s, w, a);
    assert Seated(s, s.Of(w));
    forall p | 0 <= p < |s.made|
      ensures Blocks(s', p, kept)
    {
      assert Blocks(s, p, kept);
      StillCreator(s, s', w, p);
    }
  }

  lemma OtherSpaced(s: State, w: nat, a: Action, lag: int, kept: bool)
    requires Spaced(s, lag, kept) && Step(s, w, a).table == s.table && Step(s, w, a).made == s.made
    requires SettlingStep(s, w, a) && !(a.Complete? && s.Of(w).Created?)
    requires !(a.Claim? && s.Of(w).Asking? && Wins(s.table, s.Of(w).scope, s.Of(w).now))
    ensures Spaced(Step(s, w, a), lag, kept)
  {
    var s' := Step(s, w, a);
    if s' != s {
      forall p | 0 <= p < |s.made|
        ensures Blocks(s', p, kept)
      {
        assert Blocks(s, p, kept);
        if w in s.workers && CreatorOf(s.workers[w], s.made[p], p) {
          assert s'.workers[w] == s.workers[w];
        } else {
          StillCreator(s, s', w, p);
        }
      }
    }
  }

  lemma StepSpaced(s: State, w: nat, a: Action, lag: int, kept: bool)
    requires Fenced(s) && AllSeated(s) && Timely(s) && Spaced(s, lag, kept) && 0 <= lag
    requires kept || PromptStep(s, w, a, lag)
    requires kept ==> !a.Purge? && !a.Release?
    requires SettlingStep(s, w, a)
    ensures Spaced(Step(s, w, a), lag, kept)
  {
    hide Fenced, AllSeated, Spaced, Timely;
    var x := s.Of(w);
    if a.Claim? && x.Asking? && Wins(s.table, x.scope, x.now) {
      ClaimSpaced(s, w, lag, kept);
    } else if a.CreateSucceeds? && x.Owner? {
      CreateSpaced(s, w, lag, kept);
    } else if a.Complete? && x.Created? {
      CompleteSpaced(s, w, lag, kept);
    } else if (a.Release? && x.Failed?) || (a.Purge? && x.Purging?) {
      ShrinkSpaced(s, w, a, lag, kept);
    } else {
      OtherSpaced(s, w, a, lag, kept);
    }
  }

  lemma {:induction false} RunSeats(s: State, events: seq<Event>)
    requires Initial(s) && TimelyRun(s, events)
    ensures AllSeated(Exec(s, events))
  {
    if |events| > 0 {
      var n := |events| - 1;
      assert forall k :: 0 <= k <= n ==> events[..n][..k] == events[..k];
      RunSeats(s, events[..n]);
      RunKeepsFenced(s, events[..n]);
      StepSeats(Exec(s, events[..n]), events[n].worker, events[n].action);
    }
  }

  lemma {:induction false} RunSpaced(s: State, events: seq<Event>, lag: int, d: Deletions)
    requires Initial(s) && TimelyRun(s, events) && Settling(s, events) && Deletes(events, d) && 0 <= lag
    requires d.Any() ==> Prompt(s, events, lag)
    ensures Spaced(Exec(s, events), lag, !d.Any())
  {
    if |events| > 0 {
      var n := |events| - 1;
      assert forall k :: 0 <= k <= n ==> events[..n][..k] == events[..k];
      RunSpaced(s, events[..n], lag, d);
      RunSeats(s, events[..n]);
      RunKeepsFenced(s, events[..n]);
      StepSpaced(Exec(s, events[..n]), events[n].worker, events[n].action, lag, !d.Any());
    }
  }

  /** No two workers ever hold the same (merchant, environment, key). */
  lemma OneHolderPerKey(s0: State, events: seq<Event>, w: nat, v: nat)
    requires Initial(s0) && TimelyRun(s0, events) && w != v
    requires Exec(s0, events).Of(w).Holds() && Exec(s0, events).Of(v).Holds()
    ensures Exec(s0, events).Of(w).scope != Exec(s0, events).Of(v).scope
  {
    RunSeats(s0, events);
    RunKeepsFenced(s0, events);
    SeatsAreApart(Exec(s0, events), w, v);
  }

  // ---------------------------------------------------- the deadline is exact

  ghost predicate RunBy(s: State, events: seq<Event>, deadline: int) {
    forall k :: 0 <= k <= |events| ==> TimelyBy(Exec(s, events[..k]), deadline)
  }

  /** Two workers hold one key at the end of a run in which every owner keeps to
      the deadline. */
  ghost predicate Shared(s0: State, events: seq<Event>, deadline: int) {
    && Initial(s0) && RunBy(s0, events, deadline)
    && exists w, v | w != v :: HoldsSame(Exec(s0, events).Of(w), Exec(s0, events).Of(v))
  }

  predicate HoldsSame(x: Worker, y: Worker) { x.Holds() && y.Holds() && x.scope == y.scope }

  ghost predicate NeverShared(deadline: int) {
    forall s0, events :: !Shared(s0, events, deadline)
  }

  /** Owners who settle within a deadline never share a key if and only if the
      deadline is at most two minutes: the moment from which others take the key
      over. */
  lemma DeadlineIsExact(deadline: int)
    ensures NeverShared(deadline) <==> deadline <= 120
  {
    if deadline <= 120 {
      forall s0, events
        ensures !Shared(s0, events, deadline)
      {
        if Shared(s0, events, deadline) {
          var w, v :| w != v && HoldsSame(Exec(s0, events).Of(w), Exec(s0, events).Of(v));
          assert TimelyRun(s0, events) by {
            forall k | 0 <= k <= |events|
              ensures Timely(Exec(s0, events[..k]))
            {
              assert TimelyBy(Exec(s0, events[..k]), deadline);
            }
          }
          OneHolderPerKey(s0, events, w, v);
          assert false;
        }
      }
    } else {
      LateOwnerShares(deadline);
    }
  }

  /** An owner that is not done after 121 seconds, and another request then. */
  lemma LateOwnerShares(deadline: int)
    requires deadline >= 121
    ensures !NeverShared(deadline)
  {
    hide RunTo;
    var k := Scope(0, false, "k");
    var s2 := State(map[k := Rec(0, 0, None, 0)], [], 0, 1, map[1 := Owner(k, 0, 0, 0)]);
    var s3 := s2.(clock := 121);
    var s4 := s3.(workers := s3.workers[2 := Asking(k, 0, 121)]);
    var s5 := State(map[k := Rec(1, 0, None, 121)], [], 121, 2, map[1 := Owner(k, 0, 0, 0), 2 := Owner(k, 0, 1, 121)]);
    var events := OwnsInTime(deadline, k);
    events := GoesBy(deadline, events, s2, Event(1, Tick(121)), s3);
    events := GoesBy(deadline, events, s3, Event(2, Ask(k, 0)), s4);
    events := GoesBy(deadline, events, s4, Event(2, Claim), s5);
    SharesNow(deadline, events, s5);
  }

  lemma SharesNow(deadline: int, events: seq<Event>, s: State)
    requires RunTo(deadline, events, s) && HoldsSame(s.Of(1), s.Of(2))
    ensures !NeverShared(deadline)
  {
    assert Shared(State(map[], [], 0, 0, map[]), events, deadline);
  }

  lemma OwnsInTime(deadline: int, k: Scope) returns (events: seq<Event>)
    requires deadline >= 0
    ensures RunTo(deadline, events, State(map[k := Rec(0, 0, None, 0)], [], 0, 1, map[1 := Owner(k, 0, 0, 0)]))
  {
    var s0 := State(map[], [], 0, 0, map[]);
    var s1 := State(map[], [], 0, 0, map[1 := Asking(k, 0, 0)]);
    assert RunTo(deadline, [], s0);
    hide RunTo;
    events := GoesBy(deadline, [], s0, Event(1, Ask(k, 0)), s1);
    events := GoesBy(deadline, events, s1, Event(1, Claim), State(map[k := Rec(0, 0, None, 0)], [], 0, 1, map[1 := Owner(k, 0, 0, 0)]));
  }

  ghost predicate RunTo(deadline: int, events: seq<Event>, s: State) {
    RunBy(State(map[], [], 0, 0, map[]), events, deadline) && Exec(State(map[], [], 0, 0, map[]), events) == s
  }

  lemma GoesBy(deadline: int, events: seq<Event>, s: State, e: Event, s': State) returns (longer: seq<Event>)
    requires RunTo(deadline, events, s) && Step(s, e.worker, e.action) == s' && TimelyBy(s', deadline)
    ensures RunTo(deadline, longer, s')
  {
    hide Step, TimelyBy;
    longer := events + [e];
    assert longer[..|events|] == events;
    forall k | 0 <= k <= |longer|
      ensures TimelyBy(Exec(State(map[], [], 0, 0, map[]), longer[..k]), deadline)
    {
      if k <= |events| {
        assert longer[..k] == events[..k];
      } else {
        assert longer[..k] == longer;
      }
    }
  }

  function Lesser(a: nat, b: nat): nat { if a < b then a else b }

  /** By how much two claims may be less than TTL apart: by the time a winning
      claim ran after its own clock reading, if any row is deleted in the run. */
  function Slack(lag: nat, d: Deletions): nat { if d.Any() then Lesser(lag, ABANDONED_AFTER) else 0 }

  /** Two payments made under one key come from claims more than TTL apart, less
      only that slack. */
  lemma PaymentsUnderOneKeyAreApart(s0: State, events: seq<Event>, lag: nat, d: Deletions, p: nat, q: nat)
    requires Initial(s0) && TimelyRun(s0, events) && Settling(s0, events) && Prompt(s0, events, lag) && Deletes(events, d)
    requires p < q < |Exec(s0, events).made| && Exec(s0, events).made[p].scope == Exec(s0, events).made[q].scope
    ensures Exec(s0, events).made[q].claimedAt > Exec(s0, events).made[p].claimedAt + TTL - Slack(lag, d)
  {
    TimelyIsPrompt(s0, events);
    RunSpaced(s0, events, Slack(lag, d), d);
    var s := Exec(s0, events);
    assert Later(s.made[p], s.made[q].scope, s.made[q].claimedAt, Slack(lag, d));
  }

  /** A winner that is on time has not waited longer than ABANDONED_AFTER, so
      with no further assumption the distance is TTL less that. */
  lemma TimelyIsPrompt(s0: State, events: seq<Event>)
    requires TimelyRun(s0, events)
    ensures Prompt(s0, events, ABANDONED_AFTER)
  {
    forall k | 0 <= k < |events|
      ensures PromptStep(Exec(s0, events[..k]), events[k].worker, events[k].action, ABANDONED_AFTER)
    {
      var s, w, a := Exec(s0, events[..k]), events[k].worker, events[k].action;
      assert events[..k + 1][..k] == events[..k] && Exec(s0, events[..k + 1]) == Step(s, w, a);
      assert Timely(Step(s, w, a));
      if a.Claim? && s.Of(w).Asking? && Wins(s.table, s.Of(w).scope, s.Of(w).now) {
        assert Step(s, w, a).workers[w] == Owner(s.Of(w).scope, s.Of(w).hash, s.nextId, s.Of(w).now);
      }
    }
  }

  // ------------------------------------------------------ the bound is exact

  /** A run within the hypotheses, deleting only as d says, with two payments
      under one key at most `distance` apart. */
  ghost predicate TooClose(s0: State, events: seq<Event>, lag: nat, d: Deletions, distance: int) {
    && Initial(s0) && TimelyRun(s0, events) && Settling(s0, events) && Prompt(s0, events, lag) && Deletes(events, d)
    && HasPairWithin(Exec(s0, events).made, distance)
  }

  predicate HasPairWithin(made: seq<Made>, distance: int) {
    exists p, q :: 0 <= p < q < |made| && made[p].scope == made[q].scope && made[q].claimedAt <= made[p].claimedAt + distance
  }

  ghost predicate AlwaysApart(lag: nat, d: Deletions, distance: int) {
    forall s0, events :: !TooClose(s0, events, lag, d, distance)
  }

  /** The exact distance. "More than TTL apart" holds where claims run at their
      own clock reading, or where no row is ever deleted, and in no other case:
      the row of a first payment can go by a purge that read its clock later, and
      as well, with no purge at all, by a takeover whose creation fails and is
      released. Then the distance is TTL less the staleness, and no more. */
  lemma DistanceIsExact(lag: nat, d: Deletions, distance: int)
    ensures AlwaysApart(lag, d, distance) <==> distance <= TTL - Slack(lag, d)
    ensures AlwaysApart(lag, d, TTL) <==> lag == 0 || !d.Any()
  {
    DistanceWithin(lag, d, distance);
    DistanceWithin(lag, d, TTL);
    if distance > TTL - Slack(lag, d) { Closest(lag, d, distance); }
    if TTL > TTL - Slack(lag, d) { Closest(lag, d, TTL); }
  }

  /** The input: for every staleness a claim can have there is a run, whichever
      of the two deletions it is confined to, in which the first payment's row is
      gone and the second payment is that much too early. */
  lemma StaleReadingBreaksTTL(lag: nat, d: Deletions)
    requires 1 <= lag <= ABANDONED_AFTER && d.Any()
    ensures !AlwaysApart(lag, d, TTL - lag + 1)
  {
    Closest(lag, d, TTL - lag + 1);
  }

  lemma DistanceWithin(lag: nat, d: Deletions, distance: int)
    ensures distance <= TTL - Slack(lag, d) ==> AlwaysApart(lag, d, distance)
  {
    forall s0, events | TooClose(s0, events, lag, d, distance)
      ensures distance > TTL - Slack(lag, d)
    {
      var made := Exec(s0, events).made;
      var p, q :| 0 <= p < q < |made| && made[p].scope == made[q].scope && made[q].claimedAt <= made[p].claimedAt + distance;
      PaymentsUnderOneKeyAreApart(s0, events, lag, d, p, q);
    }
  }

  /** A run of each kind with two payments one second further apart than that. */
  lemma Closest(lag: nat, d: Deletions, distance: int)
    requires distance > TTL - Slack(lag, d)
    ensures !AlwaysApart(lag, d, distance)
  {
    hide Reaches, TooClose, AlwaysApart;
    var slack := Slack(lag, d);
    var scope := Scope(0, false, "k");
    var r := Run(lag, d);
    var end;
    var events := PaysOnce(r, scope);
    events := ReadsLater(r, scope, events, slack);
    if d.purges {
      events := IsPurged(r, scope, events, TTL + 1 - slack);
      events, end := PaysAgain(r, scope, events, map[], 1, slack);
    } else if d.releases {
      events := IsTakenOver(r, scope, events, TTL + 1 - slack);
      events := IsReleased(r, scope, events, TTL + 1 - slack);
      events, end := PaysAgain(r, scope, events, map[], 2, slack);
    } else {
      events, end := PaysAgain(r, scope, events, PaidRow(scope), 1, slack);
    }
    IsTooClose(r, scope, events, end, slack, distance);
  }

  /** What the runs below keep to. */
  datatype Run = Run(lag: nat, d: Deletions)

  function Empty(): State { State(map[], [], 0, 0, map[]) }

  /** The run so far keeps to the hypotheses and has reached this state. */
  ghost predicate Reaches(r: Run, events: seq<Event>, s: State) {
    && TimelyRun(Empty(), events) && Settling(Empty(), events) && Prompt(Empty(), events, r.lag) && Deletes(events, r.d)
    && Exec(Empty(), events) == s
  }

  lemma Starts(r: Run)
    ensures Reaches(r, [], Empty())
  {
  }

  lemma Extend(r: Run, events: seq<Event>, s: State, w: nat, a: Action, s': State) returns (longer: seq<Event>)
    requires Reaches(r, events, s) && Step(s, w, a) == s' && Timely(s')
    requires SettlingStep(s, w, a) && PromptStep(s, w, a, r.lag) && r.d.Allow(a)
    ensures Reaches(r, longer, s')
  {
    longer := events + [Event(w, a)];
    assert longer[..|events|] == events;
    hide Step, SettlingStep, PromptStep, Timely;
    forall k | 0 <= k <= |longer|
      ensures Timely(Exec(Empty(), longer[..k]))
    {
      if k <= |events| {
        assert longer[..k] == events[..k];
      } else {
        assert longer[..k] == longer;
      }
    }
    forall k | 0 <= k < |longer|
      ensures SettlingStep(Exec(Empty(), longer[..k]), longer[k].worker, longer[k].action)
      ensures PromptStep(Exec(Empty(), longer[..k]), longer[k].worker, longer[k].action, r.lag)
    {
      assert longer[..k] == events[..k];
    }
  }

  /** A second payment under the key of the first, claimed at `reading`. */
  predicate PaidAgain(s: State, scope: Scope, reading: int) {
    |s.made| == 2 && s.made[0] == Made(scope, 0, 0, 0) && s.made[1].scope == scope && s.made[1].claimedAt == reading
  }

  lemma IsTooClose(r: Run, scope: Scope, events: seq<Event>, s: State, slack: int, distance: int)
    requires Reaches(r, events, s) && PaidAgain(s, scope, TTL + 1 - slack) && distance >= TTL - slack + 1
    ensures !AlwaysApart(r.lag, r.d, distance)
  {
    assert Initial(Empty());
    assert s.made[0].scope == s.made[1].scope && s.made[1].claimedAt <= s.made[0].claimedAt + distance;
    assert TooClose(Empty(), events, r.lag, r.d, distance);
  }

  function PaidRow(scope: Scope): Table { map[scope := Rec(0, 0, Some(0), 0)] }
  function First(scope: Scope): seq<Made> { [Made(scope, 0, 0, 0)] }

  function Claiming(scope: Scope): State { State(map[], [], 0, 0, map[1 := Asking(scope, 0, 0)]) }
  function Owning(scope: Scope): State { State(map[scope := Rec(0, 0, None, 0)], [], 0, 1, map[1 := Owner(scope, 0, 0, 0)]) }
  function Creating(scope: Scope): State { State(map[scope := Rec(0, 0, None, 0)], First(scope), 0, 1, map[1 := Created(scope, 0, 0, 0)]) }
  function HasPaid(scope: Scope): State { State(PaidRow(scope), First(scope), 0, 1, map[1 := Idle]) }

  lemma OwnsFirst(r: Run, scope: Scope) returns (events: seq<Event>)
    ensures Reaches(r, events, Owning(scope))
  {
    hide Reaches;
    Starts(r);
    events := Extend(r, [], Empty(), 1, Ask(scope, 0), Claiming(scope));
    events := Extend(r, events, Claiming(scope), 1, Claim, Owning(scope));
  }

  /** A first payment, claimed at time 0 and completed. */
  lemma PaysOnce(r: Run, scope: Scope) returns (events: seq<Event>)
    ensures Reaches(r, events, HasPaid(scope))
  {
    hide Reaches;
    events := OwnsFirst(r, scope);
    events := Extend(r, events, Owning(scope), 1, CreateSucceeds, Creating(scope));
    assert CompleteRows(Owning(scope).table, 0, 0) == PaidRow(scope);
    events := Extend(r, events, Creating(scope), 1, Complete, HasPaid(scope));
  }

  /** Worker 2 has read its clock; the table and worker 1 are given. */
  function Waiting(scope: Scope, table: Table, id: nat, first: Worker, clock: int, reading: int): State {
    State(table, First(scope), clock, id, map[1 := first, 2 := Asking(scope, 0, reading)])
  }

  /** A second worker reads its clock, and time passes before its statement. */
  lemma ReadsLater(r: Run, scope: Scope, events: seq<Event>, slack: nat) returns (longer: seq<Event>)
    requires slack <= ABANDONED_AFTER && Reaches(r, events, HasPaid(scope))
    ensures Reaches(r, longer, Waiting(scope, PaidRow(scope), 1, Idle, TTL + 1, TTL + 1 - slack))
  {
    hide Reaches;
    var reading := TTL + 1 - slack;
    var late := HasPaid(scope).(clock := reading);
    longer := Extend(r, events, HasPaid(scope), 2, Tick(reading), late);
    var asked := Waiting(scope, PaidRow(scope), 1, Idle, reading, reading);
    longer := Extend(r, longer, late, 2, Ask(scope, 0), asked);
    longer := Extend(r, longer, asked, 2, Tick(slack), asked.(clock := TTL + 1));
  }

  /** Meanwhile a purge that read its clock after that removes the expired row. */
  lemma IsPurged(r: Run, scope: Scope, events: seq<Event>, reading: int) returns (longer: seq<Event>)
    requires r.d.purges && Reaches(r, events, Waiting(scope, PaidRow(scope), 1, Idle, TTL + 1, reading))
    ensures Reaches(r, longer, Waiting(scope, map[], 1, Idle, TTL + 1, reading))
  {
    hide Reaches;
    var purging := Waiting(scope, PaidRow(scope), 1, Purging(TTL + 1), TTL + 1, reading);
    longer := Extend(r, events, Waiting(scope, PaidRow(scope), 1, Idle, TTL + 1, reading), 1, StartPurge, purging);
    assert PurgeRows(PaidRow(scope), 1) == map[];
    longer := Extend(r, longer, purging, 1, Purge, Waiting(scope, map[], 1, Idle, TTL + 1, reading));
  }

  /** Or another request takes the expired key over... */
  lemma IsTakenOver(r: Run, scope: Scope, events: seq<Event>, reading: int) returns (longer: seq<Event>)
    requires Reaches(r, events, Waiting(scope, PaidRow(scope), 1, Idle, TTL + 1, reading))
    ensures Reaches(r, longer, Waiting(scope, map[scope := Rec(1, 0, None, TTL + 1)], 2, Owner(scope, 0, 1, TTL + 1), TTL + 1, reading))
  {
    hide Reaches;
    var asking := Waiting(scope, PaidRow(scope), 1, Asking(scope, 0, TTL + 1), TTL + 1, reading);
    longer := Extend(r, events, Waiting(scope, PaidRow(scope), 1, Idle, TTL + 1, reading), 1, Ask(scope, 0), asking);
    var taken := Waiting(scope, map[scope := Rec(1, 0, None, TTL + 1)], 2, Owner(scope, 0, 1, TTL + 1), TTL + 1, reading);
    longer := Extend(r, longer, asking, 1, Claim, taken);
  }

  /** ... fails, and releases it. */
  lemma IsReleased(r: Run, scope: Scope, events: seq<Event>, reading: int) returns (longer: seq<Event>)
    requires r.d.releases
    requires Reaches(r, events, Waiting(scope, map[scope := Rec(1, 0, None, TTL + 1)], 2, Owner(scope, 0, 1, TTL + 1), TTL + 1, reading))
    ensures Reaches(r, longer, Waiting(scope, map[], 2, Idle, TTL + 1, reading))
  {
    hide Reaches;
    var table := map[scope := Rec(1, 0, None, TTL + 1)];
    var failed := Waiting(scope, table, 2, Failed(scope, 1, TTL + 1), TTL + 1, reading);
    longer := Extend(r, events, Waiting(scope, table, 2, Owner(scope, 0, 1, TTL + 1), TTL + 1, reading), 1, CreateFails, failed);
    assert ReleaseRows(table, 1) == map[];
    longer := Extend(r, longer, failed, 1, Release, Waiting(scope, map[], 2, Idle, TTL + 1, reading));
  }

  /** The second worker's statement then wins under its old reading. */
  lemma PaysAgain(r: Run, scope: Scope, events: seq<Event>, table: Table, id: nat, slack: nat)
    returns (longer: seq<Event>, end: State)
    requires slack <= r.lag && slack <= ABANDONED_AFTER && Wins(table, scope, TTL + 1 - slack)
    requires Reaches(r, events, Waiting(scope, table, id, Idle, TTL + 1, TTL + 1 - slack))
    ensures Reaches(r, longer, end) && PaidAgain(end, scope, TTL + 1 - slack)
  {
    hide Reaches;
    var reading := TTL + 1 - slack;
    var asked := Waiting(scope, table, id, Idle, TTL + 1, reading);
    var owned := State(table[scope := Rec(id, 0, None, reading)], First(scope), TTL + 1, id + 1,
                       map[1 := Idle, 2 := Owner(scope, 0, id, reading)]);
    longer := Extend(r, events, asked, 2, Claim, owned);
    end := Step(owned, 2, CreateSucceeds);
    longer := Extend(r, longer, owned, 2, CreateSucceeds, end);
  }
}
