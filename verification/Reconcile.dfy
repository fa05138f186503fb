// The reconcile job's rotating scan (internal/service/payment_service.go and
// internal/repository/payment_repository.go).
//
// Every run lists one batch of candidates in the total order (created_at DESC,
// id DESC), starting strictly after an in-memory cursor, and then moves the
// cursor to the last row of a full batch or drops it after a short one. Between
// two runs the payments change arbitrarily.

module Reconcile {
  import opened Options
  import opened PaymentDomain

  const DEFAULT_LIMIT := 50
  const PENDING_WINDOW := 24 * 3600
  const EXPIRED_WINDOW := 6 * 3600

  // ---------------------------------------------------------------- the query

  /** A payment as the candidate query sees it. `mismatched` says that an
      `amount_mismatch` event was recorded for it. */
  datatype Row = Row(id: nat, createdAt: int, production: bool, hasProviderReference: bool,
                     status: Status, expiresAt: int, mismatched: bool)

  datatype Key = Key(createdAt: int, id: nat)

  function KeyOf(r: Row): Key { Key(r.createdAt, r.id) }

  /** a comes strictly after b in the scan: (a.created_at, a.id) < (b.created_at, b.id). */
  predicate Below(a: Key, b: Key) {
    a.createdAt < b.createdAt || (a.createdAt == b.createdAt && a.id < b.id)
  }

  predicate Past(after: Option<Key>, k: Key) {
    after.Some? ==> Below(k, after.value)
  }

  predicate Eligible(r: Row, now: int) {
    && r.production
    && r.hasProviderReference
    && ((r.status == Pending && r.createdAt >= now - PENDING_WINDOW)
        || (r.status == Expired && r.expiresAt >= now - EXPIRED_WINDOW))
    && !r.mismatched
  }

  ghost function Candidates(rows: seq<Row>, now: int): set<Key> {
    set r | r in rows && Eligible(r, now) :: KeyOf(r)
  }

  /** id is the primary key. */
  predicate DistinctIds(rows: seq<Row>) {
    forall i, j :: 0 <= i < j < |rows| ==> rows[i].id != rows[j].id
  }

  predicate Descending(s: seq<Key>) {
    forall i, j :: 0 <= i < j < |s| ==> Below(s[j], s[i])
  }

  function Insert(k: Key, s: seq<Key>): seq<Key> {
    if s == [] || Below(s[0], k) then [k] + s else [s[0]] + Insert(k, s[1..])
  }

  function Ordered(rows: seq<Row>, now: int): seq<Key> {
    if rows == [] then []
    else
      var rest := Ordered(rows[1..], now);
      if Eligible(rows[0], now) then Insert(KeyOf(rows[0]), rest) else rest
  }

  function DropUntilPast(s: seq<Key>, after: Option<Key>): seq<Key> {
    if s == [] || Past(after, s[0]) then s else DropUntilPast(s[1..], after)
  }

  /** WHERE … AND (created_at, id) < cursor ORDER BY created_at DESC, id DESC LIMIT limit */
  function List(rows: seq<Row>, now: int, limit: int, after: Option<Key>): seq<Key> {
    var rest := DropUntilPast(Ordered(rows, now), after);
    var n := if limit <= 0 then DEFAULT_LIMIT else limit;
    if |rest| <= n then rest else rest[..n]
  }

  /** What a page is, without saying how it is computed: candidates past the
      cursor, in strictly descending order, at most `limit` of them, and a
      candidate is left out only behind a full page. */
  ghost predicate IsPage(page: seq<Key>, candidates: set<Key>, limit: nat, after: Option<Key>) {
    && Descending(page)
    && |page| <= limit
    && (forall k <- page :: k in candidates && Past(after, k))
    && (forall k <- candidates :: Past(after, k) && k !in page ==> |page| == limit && forall m <- page :: Below(k, m))
  }

  lemma {:induction false} InsertKeeps(k: Key, s: seq<Key>)
    requires Descending(s) && k !in s
    ensures Descending(Insert(k, s))
    ensures forall m :: m in Insert(k, s) <==> m == k || m in s
  {
    if s != [] && !Below(s[0], k) {
      InsertKeeps(k, s[1..]);
      assert s == [s[0]] + s[1..];
      var t := Insert(k, s[1..]);
      forall i | 0 <= i < |t| ensures Below(t[i], s[0]) {
        assert t[i] in t;
        if t[i] != k { assert t[i] in s[1..]; }
      }
    }
  }

  lemma {:induction false} OrderedIsSorted(rows: seq<Row>, now: int)
    requires DistinctIds(rows)
    ensures Descending(Ordered(rows, now))
    ensures forall k :: k in Ordered(rows, now) <==> k in Candidates(rows, now)
  {
    if rows != [] {
      OrderedIsSorted(rows[1..], now);
      assert rows == [rows[0]] + rows[1..];
      var k := KeyOf(rows[0]);
      assert k !in Candidates(rows[1..], now) by {
        assert forall r <- rows[1..] :: r.id != rows[0].id;
      }
      assert Candidates(rows, now) == Candidates(rows[1..], now) + (if Eligible(rows[0], now) then {k} else {});
      if Eligible(rows[0], now) { InsertKeeps(k, Ordered(rows[1..], now)); }
    }
  }

  lemma {:induction false} DropKeeps(s: seq<Key>, after: Option<Key>)
    requires Descending(s)
    ensures Descending(DropUntilPast(s, after))
    ensures forall k :: k in DropUntilPast(s, after) <==> k in s && Past(after, k)
  {
    if s != [] {
      assert s == [s[0]] + s[1..];
      if Past(after, s[0]) {
        forall k | k in s ensures Past(after, k) {
          var i :| 0 <= i < |s| && s[i] == k;
          if i > 0 { assert Below(s[i], s[0]); }
        }
      } else {
        DropKeeps(s[1..], after);
      }
    }
  }

  lemma ListIsPage(rows: seq<Row>, now: int, limit: nat, after: Option<Key>)
    requires DistinctIds(rows)
    ensures IsPage(List(rows, now, limit, after), Candidates(rows, now), if limit == 0 then 50 else limit, after)
  {
    PageOf(rows, now, if limit == 0 then 50 else limit, after);
  }

  /** Newest first, and among payments of the same time the higher id first; past
      the cursor means older than it, or as old with a lower id. */
  lemma PageIsNewestFirst(page: seq<Key>, candidates: set<Key>, limit: nat, after: Option<Key>, i: nat, j: nat)
    requires IsPage(page, candidates, limit, after) && i < j < |page|
    ensures page[i].createdAt > page[j].createdAt || (page[i].createdAt == page[j].createdAt && page[i].id > page[j].id)
    ensures after.Some? ==>
      page[i].createdAt < after.value.createdAt || (page[i].createdAt == after.value.createdAt && page[i].id < after.value.id)
  {
    assert Below(page[j], page[i]) && page[i] in page;
  }

  lemma PageOf(rows: seq<Row>, now: int, limit: nat, after: Option<Key>)
    requires DistinctIds(rows) && limit > 0
    ensures IsPage(List(rows, now, limit, after), Candidates(rows, now), limit, after)
  {
    OrderedIsSorted(rows, now);
    var s := Ordered(rows, now);
    DropKeeps(s, after);
    var rest := DropUntilPast(s, after);
    var page := List(rows, now, limit, after);
    assert forall k <- page :: k in rest;
    forall k | k in rest && k !in page
      ensures |page| == limit && forall m <- page :: Below(k, m)
    {
      var i :| 0 <= i < |rest| && rest[i] == k;
      assert |rest| > limit && page == rest[..limit];
      assert forall x :: 0 <= x < limit ==> rest[x] in page;
    }
  }

  lemma NewAt(s: seq<Key>, n: nat)
    requires Descending(s) && n < |s|
    ensures s[n] in s && s[n] !in s[..n]
  {
    forall i | 0 <= i < n ensures s[..n][i] != s[n] { assert Below(s[n], s[i]); }
  }

  /** The definition leaves no freedom: the candidates, the limit and the cursor
      determine the page. */
  lemma {:induction false} PageIsUnique(p: seq<Key>, q: seq<Key>, candidates: set<Key>, limit: nat, after: Option<Key>)
    requires IsPage(p, candidates, limit, after) && IsPage(q, candidates, limit, after)
    ensures p == q
  {
    PrefixesAgree(p, q, candidates, limit, after, if |p| <= |q| then |p| else |q|);
    if |p| < |q| {
      assert p == q[..|p|];
      NewAt(q, |p|);
    } else if |q| < |p| {
      assert q == p[..|q|];
      NewAt(p, |q|);
    } else {
      assert p == p[..|p|] && q == q[..|p|];
    }
  }

  lemma {:induction false} PrefixesAgree(p: seq<Key>, q: seq<Key>, candidates: set<Key>, limit: nat, after: Option<Key>, n: nat)
    requires IsPage(p, candidates, limit, after) && IsPage(q, candidates, limit, after)
    requires n <= |p| && n <= |q|
    ensures p[..n] == q[..n]
  {
    if n > 0 {
      PrefixesAgree(p, q, candidates, limit, after, n - 1);
      NotAbove(p, q, candidates, limit, after, n - 1);
      NotAbove(q, p, candidates, limit, after, n - 1);
      assert p[..n] == p[..n - 1] + [p[n - 1]] && q[..n] == q[..n - 1] + [q[n - 1]];
    }
  }

  lemma NotAbove(p: seq<Key>, q: seq<Key>, candidates: set<Key>, limit: nat, after: Option<Key>, n: nat)
    requires IsPage(p, candidates, limit, after) && IsPage(q, candidates, limit, after)
    requires n < |p| && n < |q| && p[..n] == q[..n]
    ensures !Below(q[n], p[n])
  {
    var k := p[n];
    NewAt(p, n);
    assert k in p && q[n] in q;
    if Below(q[n], k) {
      forall i | 0 <= i < |q| ensures q[i] != k {
        if i < n { assert q[i] == q[..n][i]; }
        if i > n { assert Below(q[i], q[n]); }
      }
    }
  }

  // ---------------------------------------------------------------- the runs

  /** The payments and the clock one run reads. */
  datatype Snapshot = Snapshot(rows: seq<Row>, now: int)

  ghost predicate Snapshots(runs: seq<Snapshot>) {
    forall r <- runs :: DistinctIds(r.rows)
  }

  function NextCursor(page: seq<Key>, batch: nat): Option<Key>
    requires batch > 0
  {
    if |page| < batch then None else Some(page[|page| - 1])
  }

  /** The cursor before run i, and the batch run i checks, of a job that starts
      at a reset. */
  function CursorAt(batch: nat, runs: seq<Snapshot>, i: nat): Option<Key>
    requires batch > 0 && i <= |runs|
    decreases i, 0
  {
    if i == 0 then None else NextCursor(PageAt(batch, runs, i - 1), batch)
  }

  function PageAt(batch: nat, runs: seq<Snapshot>, i: nat): seq<Key>
    requires batch > 0 && i < |runs|
    decreases i, 1
  {
    List(runs[i].rows, runs[i].now, batch, CursorAt(batch, runs, i))
  }

  ghost predicate NoReset(batch: nat, runs: seq<Snapshot>, n: nat)
    requires batch > 0 && n <= |runs|
  {
    forall i :: 0 < i <= n ==> CursorAt(batch, runs, i).Some?
  }

  /** The runs from one reset of the cursor to the next. */
  ghost predicate Cycle(batch: nat, runs: seq<Snapshot>)
    requires batch > 0
  {
    && |runs| > 0
    && NoReset(batch, runs, |runs| - 1)
    && CursorAt(batch, runs, |runs|) == None
  }

  ghost function CandidatesAt(runs: seq<Snapshot>, i: nat): set<Key>
    requires i < |runs|
  {
    Candidates(runs[i].rows, runs[i].now)
  }

  lemma PageAtIsPage(batch: nat, runs: seq<Snapshot>, i: nat)
    requires batch > 0 && Snapshots(runs) && i < |runs|
    ensures IsPage(PageAt(batch, runs, i), CandidatesAt(runs, i), batch, CursorAt(batch, runs, i))
  {
    ListIsPage(runs[i].rows, runs[i].now, batch, CursorAt(batch, runs, i));
  }

  /** Between two resets the cursor only moves down: what is past a later cursor
      is past every earlier one. */
  lemma {:induction false} CursorsDescend(batch: nat, runs: seq<Snapshot>, i: nat, j: nat, k: Key)
    requires batch > 0 && Snapshots(runs) && i <= j < |runs|
    requires NoReset(batch, runs, j)
    requires Past(CursorAt(batch, runs, j), k)
    ensures Past(CursorAt(batch, runs, i), k)
  {
    if i < j {
      PageAtIsPage(batch, runs, j - 1);
      assert CursorAt(batch, runs, j).Some?;
      var page := PageAt(batch, runs, j - 1);
      assert page[|page| - 1] in page;
      CursorsDescend(batch, runs, i, j - 1, k);
    }
  }

  /** A key checked by run i is not past any later cursor of the cycle. */
  lemma CheckedIsBehind(batch: nat, runs: seq<Snapshot>, i: nat, j: nat, k: Key)
    requires batch > 0 && Snapshots(runs) && i < j < |runs|
    requires NoReset(batch, runs, j)
    requires k in PageAt(batch, runs, i)
    ensures !Past(CursorAt(batch, runs, j), k)
  {
    PageAtIsPage(batch, runs, i);
    assert CursorAt(batch, runs, i + 1).Some?;
    var page := PageAt(batch, runs, i);
    var x :| 0 <= x < |page| && page[x] == k;
    assert x < |page| - 1 ==> Below(page[|page| - 1], page[x]);
    if Past(CursorAt(batch, runs, j), k) {
      CursorsDescend(batch, runs, i + 1, j, k);
    }
  }

  /** Run i is the one whose stretch of the order holds k. */
  ghost predicate Responsible(batch: nat, runs: seq<Snapshot>, i: nat, k: Key)
    requires batch > 0 && i < |runs|
  {
    && Past(CursorAt(batch, runs, i), k)
    && (i + 1 < |runs| ==> !Past(CursorAt(batch, runs, i + 1), k))
  }

  lemma {:induction false} SomeRunIsResponsible(batch: nat, runs: seq<Snapshot>, n: nat, k: Key) returns (i: nat)
    requires batch > 0 && n < |runs|
    requires n + 1 < |runs| ==> !Past(CursorAt(batch, runs, n + 1), k)
    ensures i <= n && Responsible(batch, runs, i, k)
  {
    if n == 0 || Past(CursorAt(batch, runs, n), k) {
      i := n;
    } else {
      i := SomeRunIsResponsible(batch, runs, n - 1, k);
    }
  }

  lemma ResponsibleRunChecks(batch: nat, runs: seq<Snapshot>, i: nat, k: Key)
    requires batch > 0 && Snapshots(runs) && Cycle(batch, runs) && i < |runs|
    requires Responsible(batch, runs, i, k)
    ensures k in PageAt(batch, runs, i) <==> k in CandidatesAt(runs, i)
  {
    PageAtIsPage(batch, runs, i);
    var page := PageAt(batch, runs, i);
    if |page| == batch {
      assert page[batch - 1] in page;
      assert CursorAt(batch, runs, i + 1) == Some(page[batch - 1]);
    }
  }

  /** Coverage. In every cycle there is one run, fixed by the key's place in the
      order, that checks the payment exactly if it is a candidate then; no other
      run of the cycle checks it. So a payment that stays a candidate from one
      reset to the next is checked exactly once, whatever else enters or leaves. */
  lemma CheckedExactlyOncePerCycle(batch: nat, runs: seq<Snapshot>, k: Key) returns (i: nat)
    requires batch > 0 && Snapshots(runs) && Cycle(batch, runs)
    ensures i < |runs|
    ensures k in PageAt(batch, runs, i) <==> k in CandidatesAt(runs, i)
    ensures forall j :: 0 <= j < |runs| && k in PageAt(batch, runs, j) ==> j == i
    ensures Descending(PageAt(batch, runs, i))
  {
    i := SomeRunIsResponsible(batch, runs, |runs| - 1, k);
    ResponsibleRunChecks(batch, runs, i, k);
    PageAtIsPage(batch, runs, i);
    forall j | 0 <= j < |runs| && k in PageAt(batch, runs, j) ensures j == i {
      PageAtIsPage(batch, runs, j);
      if j > i { CursorsDescend(batch, runs, i + 1, j, k); }
      if j < i { CheckedIsBehind(batch, runs, j, i, k); }
    }
  }

  // ---------------------------------------------------------------- which payments

  /** Due for a check: a production payment its provider knows, without a recorded
      mismatch, that is pending and was created in the last 24 hours, or has
      expired with its deadline in the last 6. */
  predicate IsDue(r: Row, now: int) {
    && r.production && r.hasProviderReference && !r.mismatched
    && match r.status
       case Pending => now - r.createdAt <= 24 * 60 * 60
       case Expired => now - r.expiresAt <= 6 * 60 * 60
       case _ => false
  }

  /** What a run checks is due: no mismatched payment, no sandbox payment, none
      outside its window, whatever else is in the tables. */
  lemma CheckedIsDue(batch: nat, runs: seq<Snapshot>, i: nat, k: Key)
    requires batch > 0 && Snapshots(runs) && i < |runs| && k in PageAt(batch, runs, i)
    ensures exists r :: r in runs[i].rows && KeyOf(r) == k && IsDue(r, runs[i].now)
  {
    PageAtIsPage(batch, runs, i);
    assert k in CandidatesAt(runs, i);
    var r :| r in runs[i].rows && Eligible(r, runs[i].now) && KeyOf(r) == k;
    assert IsDue(r, runs[i].now);
  }

  /** And a payment that is due at every run from one reset of the cursor to the
      next is checked in exactly one of them. */
  lemma DueIsCheckedOnce(batch: nat, runs: seq<Snapshot>, k: Key) returns (i: nat)
    requires batch > 0 && Snapshots(runs) && Cycle(batch, runs)
    requires forall j :: 0 <= j < |runs| ==> HasDue(runs[j], k)
    ensures i < |runs| && k in PageAt(batch, runs, i)
    ensures forall j :: 0 <= j < |runs| && k in PageAt(batch, runs, j) ==> j == i
  {
    i := CheckedExactlyOncePerCycle(batch, runs, k);
    assert HasDue(runs[i], k);
    var r :| r in runs[i].rows && KeyOf(r) == k && IsDue(r, runs[i].now);
    assert Eligible(r, runs[i].now);
  }

  ghost predicate HasDue(snapshot: Snapshot, k: Key) {
    exists r :: r in snapshot.rows && KeyOf(r) == k && IsDue(r, snapshot.now)
  }

  // ---------------------------------------------------------------- how long a cycle is

  /** Everything the first n runs checked. */
  ghost function Checked(batch: nat, runs: seq<Snapshot>, n: nat): set<Key>
    requires batch > 0 && n <= |runs|
  {
    if n == 0 then {} else Checked(batch, runs, n - 1) + KeySet(PageAt(batch, runs, n - 1))
  }

  ghost function KeySet(s: seq<Key>): set<Key> { set k | k in s }

  lemma {:induction false} KeySetSize(s: seq<Key>)
    requires Descending(s)
    ensures |KeySet(s)| == |s|
  {
    if s != [] {
      var n := |s| - 1;
      KeySetSize(s[..n]);
      assert s == s[..n] + [s[n]];
      assert KeySet(s) == KeySet(s[..n]) + {s[n]};
      NewAt(s, n);
    } else {
      assert KeySet(s) == {};
    }
  }

  lemma {:induction false} CheckedByRun(batch: nat, runs: seq<Snapshot>, n: nat, k: Key)
    requires batch > 0 && n <= |runs|
    ensures k in Checked(batch, runs, n) <==> exists i :: 0 <= i < n && k in PageAt(batch, runs, i)
  {
    if n > 0 {
      CheckedByRun(batch, runs, n - 1, k);
      assert k in Checked(batch, runs, n) <==> k in Checked(batch, runs, n - 1) || k in PageAt(batch, runs, n - 1);
      if i :| 0 <= i < n && k in PageAt(batch, runs, i) && i < n - 1 { }
    }
  }

  lemma FullPage(batch: nat, runs: seq<Snapshot>, m: nat)
    requires batch > 0 && Snapshots(runs) && m < |runs| && CursorAt(batch, runs, m + 1).Some?
    ensures |KeySet(PageAt(batch, runs, m))| == batch
  {
    PageAtIsPage(batch, runs, m);
    KeySetSize(PageAt(batch, runs, m));
  }

  /** Full batches never repeat a payment, so n of them check n * batch payments. */
  lemma {:induction false} FullRunsCheck(batch: nat, runs: seq<Snapshot>, n: nat)
    requires batch > 0 && Snapshots(runs) && n <= |runs| && NoReset(batch, runs, n)
    ensures |Checked(batch, runs, n)| == n * batch
  {
    if n > 0 {
      var m := n - 1;
      hide PageAt, CursorAt, KeySet;
      FullRunsCheck(batch, runs, m);
      FullPage(batch, runs, m);
      RunAddsNew(batch, runs, m);
      UnionSize(Checked(batch, runs, m), KeySet(PageAt(batch, runs, m)));
      assert n * batch == m * batch + batch;
    }
  }

  lemma UnionSize<T>(a: set<T>, b: set<T>)
    requires a !! b
    ensures |a + b| == |a| + |b|
  {
  }

  lemma RunAddsNew(batch: nat, runs: seq<Snapshot>, m: nat)
    requires batch > 0 && Snapshots(runs) && m < |runs| && NoReset(batch, runs, m)
    ensures Checked(batch, runs, m) !! KeySet(PageAt(batch, runs, m))
  {
    PageAtIsPage(batch, runs, m);
    forall k | k in Checked(batch, runs, m) ensures k !in PageAt(batch, runs, m) {
      CheckedByRun(batch, runs, m, k);
      var i :| 0 <= i < m && k in PageAt(batch, runs, i);
      CheckedIsBehind(batch, runs, i, m, k);
    }
  }

  /** However candidates come and go, a cycle of n runs has checked at least
      (n - 1) * batch different payments: the scan cannot go on without new ones. */
  lemma CycleIsBounded(batch: nat, runs: seq<Snapshot>, all: set<Key>)
    requires batch > 0 && Snapshots(runs) && Cycle(batch, runs)
    requires forall i :: 0 <= i < |runs| ==> CandidatesAt(runs, i) <= all
    ensures |runs| <= |all| / batch + 1
  {
    var n := |runs| - 1;
    FullRunsCheck(batch, runs, n);
    forall k | k in Checked(batch, runs, n) ensures k in all {
      CheckedByRun(batch, runs, n, k);
      var i :| 0 <= i < n && k in PageAt(batch, runs, i);
      PageAtIsPage(batch, runs, i);
    }
    SubsetSize(Checked(batch, runs, n), all);
    DivAtLeast(|all|, batch, n);
  }

  lemma {:induction false} SubsetSize(a: set<Key>, b: set<Key>)
    requires a <= b
    ensures |a| <= |b|
  {
    assert b == a + (b - a);
  }

  lemma MulMonotone(m: nat, n: nat, b: nat)
    requires m <= n
    ensures m * b <= n * b
  {
    assert n * b == m * b + (n - m) * b;
  }

  lemma DivAtLeast(a: nat, b: nat, n: nat)
    requires b > 0 && n * b <= a
    ensures n <= a / b
  {
    assert (a / b + 1) * b == a / b * b + b;
    if n > a / b { MulMonotone(a / b + 1, n, b); }
  }

  lemma DivMod(a: nat, b: nat)
    requires b > 0
    ensures a == a / b * b + a % b
  {}

  lemma DivBelow(a: nat, b: nat, n: nat)
    requires b > 0 && a < (n + 1) * b
    ensures a / b <= n
  {
    assert a >= a / b * b;
    if a / b > n { MulMonotone(n + 1, a / b, b); }
  }

  ghost predicate Fixed(runs: seq<Snapshot>, all: set<Key>) {
    forall i :: 0 <= i < |runs| ==> CandidatesAt(runs, i) == all
  }

  /** What the runs so far did not check is exactly what is past the cursor. */
  lemma RemainderIsPast(batch: nat, runs: seq<Snapshot>, all: set<Key>, n: nat, k: Key)
    requires batch > 0 && Snapshots(runs) && Fixed(runs, all) && n < |runs| && NoReset(batch, runs, n)
    requires k in all
    ensures k in Checked(batch, runs, n) <==> !Past(CursorAt(batch, runs, n), k)
    decreases n
  {
    hide List, Candidates;
    CheckedByRun(batch, runs, n, k);
    if n > 0 {
      RemainderIsPast(batch, runs, all, n - 1, k);
      CheckedByRun(batch, runs, n - 1, k);
      PageAtIsPage(batch, runs, n - 1);
      assert CandidatesAt(runs, n - 1) == all;
      assert CursorAt(batch, runs, n).Some?;
      var page := PageAt(batch, runs, n - 1);
      assert page[|page| - 1] in page;
      if k in page { CheckedIsBehind(batch, runs, n - 1, n, k); }
    }
  }

  lemma PageSize(batch: nat, runs: seq<Snapshot>, all: set<Key>, n: nat)
    requires batch > 0 && Snapshots(runs) && Fixed(runs, all) && n < |runs| && NoReset(batch, runs, n)
    ensures n * batch + |PageAt(batch, runs, n)| <= |all|
  {
    hide List, Candidates;
    PageAtIsPage(batch, runs, n);
    FullRunsCheck(batch, runs, n);
    RunAddsNew(batch, runs, n);
    var page := PageAt(batch, runs, n);
    var seen := Checked(batch, runs, n) + KeySet(page);
    KeySetSize(page);
    assert |seen| == n * batch + |page|;
    forall k | k in seen ensures k in all {
      CheckedByRun(batch, runs, n + 1, k);
      var i :| 0 <= i < n + 1 && k in PageAt(batch, runs, i);
      PageAtIsPage(batch, runs, i);
      assert CandidatesAt(runs, i) == all;
    }
    SubsetSize(seen, all);
  }

  /** With N fixed candidates the run after n full ones is full exactly if at
      least batch of them are left. */
  lemma RunIsFull(batch: nat, runs: seq<Snapshot>, all: set<Key>, n: nat)
    requires batch > 0 && Snapshots(runs) && Fixed(runs, all) && n < |runs| && NoReset(batch, runs, n)
    ensures CursorAt(batch, runs, n + 1).Some? <==> n < |all| / batch
  {
    PageAtIsPage(batch, runs, n);
    FullRunsCheck(batch, runs, n);
    assert CandidatesAt(runs, n) == all;
    PageSize(batch, runs, all, n);
    var page := PageAt(batch, runs, n);
    assert (n + 1) * batch == n * batch + batch;
    if |page| == batch {
      DivAtLeast(|all|, batch, n + 1);
    } else {
      var seen := Checked(batch, runs, n) + KeySet(page);
      KeySetSize(page);
      forall k | k in all ensures k in seen {
        RemainderIsPast(batch, runs, all, n, k);
      }
      SubsetSize(all, seen);
      DivBelow(|all|, batch, n);
    }
  }

  lemma {:induction false} NoResetUpTo(batch: nat, runs: seq<Snapshot>, all: set<Key>, n: nat)
    requires batch > 0 && Snapshots(runs) && Fixed(runs, all) && n <= |runs| && n <= |all| / batch
    ensures NoReset(batch, runs, n)
  {
    if n > 0 {
      NoResetUpTo(batch, runs, all, n - 1);
      RunIsFull(batch, runs, all, n - 1);
    }
  }

  /** With N fixed candidates and batches of b, runs form a cycle exactly if there
      are floor(N / b) + 1 of them. This is ceil(N / b) only if b does not divide
      N: when it does, the last run finds nothing and only then drops the cursor. */
  lemma CycleLength(batch: nat, runs: seq<Snapshot>, all: set<Key>)
    requires batch > 0 && Snapshots(runs) && Fixed(runs, all)
    ensures Cycle(batch, runs) <==> |runs| == |all| / batch + 1
    ensures Cycle(batch, runs) && |all| % batch == 0 ==> PageAt(batch, runs, |runs| - 1) == []
  {
    var q := |all| / batch;
    if |runs| == q + 1 {
      NoResetUpTo(batch, runs, all, q);
      RunIsFull(batch, runs, all, q);
      FullRunsCheck(batch, runs, q);
      LastRun(batch, runs, all);
    } else if |runs| > q + 1 {
      NoResetUpTo(batch, runs, all, q);
      RunIsFull(batch, runs, all, q);
    } else if |runs| > 0 {
      NoResetUpTo(batch, runs, all, |runs|);
    }
  }

  lemma LastRun(batch: nat, runs: seq<Snapshot>, all: set<Key>)
    requires batch > 0 && Snapshots(runs) && Fixed(runs, all)
    requires |runs| == |all| / batch + 1 && NoReset(batch, runs, |all| / batch)
    ensures |all| % batch == 0 ==> PageAt(batch, runs, |runs| - 1) == []
  {
    hide List, Candidates, IsPage;
    var n := |all| / batch;
    PageSize(batch, runs, all, n);
    DivMod(|all|, batch);
  }

  // ---------------------------------------------------------------- the job

  /** What checking one payment with its provider did. */
  datatype Outcome = Failed | Unchanged | Updated | ExpiredLocally

  function CountChanged(page: seq<Key>, outcomes: map<Key, Outcome>): nat {
    if page == [] then 0
    else CountChanged(page[..|page| - 1], outcomes) + Changes(page[|page| - 1], outcomes)
  }

  /** How many places of the page hold a payment that was updated or expired. */
  lemma {:induction false} CountIs(page: seq<Key>, outcomes: map<Key, Outcome>)
    ensures CountChanged(page, outcomes)
         == |set i | 0 <= i < |page| && page[i] in outcomes && (outcomes[page[i]] == Updated || outcomes[page[i]] == ExpiredLocally)|
  {
    var places := set i | 0 <= i < |page| && page[i] in outcomes && (outcomes[page[i]] == Updated || outcomes[page[i]] == ExpiredLocally);
    if page == [] {
      assert places == {};
    } else {
      var n := |page| - 1;
      var before := page[..n];
      CountIs(before, outcomes);
      var earlier := set i | 0 <= i < |before| && before[i] in outcomes && (outcomes[before[i]] == Updated || outcomes[before[i]] == ExpiredLocally);
      assert places == earlier + if Changes(page[n], outcomes) == 1 then {n} else {};
    }
  }

  function Changes(k: Key, outcomes: map<Key, Outcome>): nat {
    if k in outcomes && outcomes[k] in {Updated, ExpiredLocally} then 1 else 0
  }

  class Job {
    const batch: nat
    var cursor: Option<Key>

    constructor (batch: nat)
      requires batch > 0
      ensures this.batch == batch && cursor == None
    {
      this.batch := batch;
      cursor := None;
    }

    /** `rows` is None when the query fails. The outcomes are the provider's: a
        payment that fails never stops the batch. */
    method ReconcileRecentPayments(rows: Option<seq<Row>>, now: int, outcomes: map<Key, Outcome>)
      returns (checked: seq<Key>, changed: nat, ok: bool)
      requires batch > 0
      requires rows.Some? ==> DistinctIds(rows.value)
      modifies this
      ensures ok == rows.Some?
      ensures !ok ==> cursor == old(cursor) && checked == [] && changed == 0
      ensures ok ==> IsPage(checked, Candidates(rows.value, now), batch, old(cursor))
      ensures ok ==> cursor == NextCursor(checked, batch)
      ensures ok ==> changed == CountChanged(checked, outcomes)
    {
      if rows.None? { return [], 0, false; }
      var page := List(rows.value, now, batch, cursor);
      ListIsPage(rows.value, now, batch, cursor);
      if |page| < batch {
        cursor := None;
      } else {
        cursor := Some(page[|page| - 1]);
      }
      changed := 0;
      checked := [];
      for i := 0 to |page|
        invariant checked == page[..i]
        invariant changed == CountChanged(page[..i], outcomes)
      {
        assert page[..i + 1][..i] == page[..i];
        checked := checked + [page[i]];
        if page[i] !in outcomes || outcomes[page[i]] == Outcome.Failed { continue; }
        if outcomes[page[i]] in {Updated, ExpiredLocally} { changed := changed + 1; }
      }
      assert page[..|page|] == page;
      ok := true;
    }
  }

  /** The job's runs are the ones the theorems speak of: from a reset, its cursor
      and its batches are CursorAt and PageAt. */
  lemma JobFollows(batch: nat, runs: seq<Snapshot>, i: nat, checked: seq<Key>)
    requires batch > 0 && Snapshots(runs) && i < |runs|
    requires IsPage(checked, CandidatesAt(runs, i), batch, CursorAt(batch, runs, i))
    ensures checked == PageAt(batch, runs, i)
    ensures NextCursor(checked, batch) == CursorAt(batch, runs, i + 1)
  {
    PageAtIsPage(batch, runs, i);
    PageIsUnique(checked, PageAt(batch, runs, i), CandidatesAt(runs, i), batch, CursorAt(batch, runs, i));
  }
}
