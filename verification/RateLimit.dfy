// The per-IP rate limiter (internal/middleware/rate_limit.go): one token bucket
// a client, refilled at a steady rate, and a cleanup job that evicts buckets
// nobody used for a while. Times are seconds and token counts are reals.

module RateLimit {
  import opened Options

  type Ip = string

  datatype Bucket = Bucket(tokens: real, lastRefill: real)

  type Buckets = map<Ip, Bucket>

  /** burst is at least 1 and rate positive in every accepted configuration;
      rate is requests_per_minute / 60. */
  datatype Config = Config(burst: nat, rate: real, idleAfter: real)

  predicate Accepted(c: Config) {
    c.burst >= 1 && c.rate > 0.0 && c.idleAfter >= 0.0
  }

  // ---------------------------------------------------------------- one call

  function Min(a: real, b: real): real { if a < b then a else b }

  function Refilled(c: Config, b: Bucket, now: real): Bucket {
    if now > b.lastRefill
    then Bucket(Min(b.tokens + c.rate * (now - b.lastRefill), c.burst as real), now)
    else b
  }

  /** The bucket a request at `now` finds, after the refill. */
  function Found(c: Config, m: Buckets, ip: Ip, now: real): Bucket {
    if ip in m then Refilled(c, m[ip], now) else Bucket(c.burst as real, now)
  }

  predicate Allowed(c: Config, m: Buckets, ip: Ip, now: real) {
    Found(c, m, ip, now).tokens >= 1.0
  }

  function Asked(c: Config, m: Buckets, ip: Ip, now: real): Buckets {
    var b := Found(c, m, ip, now);
    m[ip := if b.tokens < 1.0 then b else b.(tokens := b.tokens - 1.0)]
  }

  function Evicted(m: Buckets, cutoff: real): Buckets {
    map ip | ip in m && m[ip].lastRefill >= cutoff :: m[ip]
  }

  class IPRateLimiter {
    const c: Config
    var buckets: Buckets

    constructor (c: Config)
      ensures this.c == c && buckets == map[]
    {
      this.c := c;
      buckets := map[];
    }

    method Allow(ip: Ip, now: real) returns (ok: bool)
      modifies this
      ensures ok == Allowed(c, old(buckets), ip, now)
      ensures buckets == Asked(c, old(buckets), ip, now)
    {
      if ip !in buckets {
        buckets := buckets[ip := Bucket(c.burst as real, now)];
      }
      var elapsed := now - buckets[ip].lastRefill;
      if elapsed > 0.0 {
        var tokens := buckets[ip].tokens + c.rate * elapsed;
        if tokens > c.burst as real { tokens := c.burst as real; }
        buckets := buckets[ip := Bucket(tokens, now)];
      }
      if buckets[ip].tokens < 1.0 { return false; }
      buckets := buckets[ip := buckets[ip].(tokens := buckets[ip].tokens - 1.0)];
      return true;
    }

    /** Go visits the map in no fixed order. */
    method Cleanup(now: real)
      modifies this
      ensures buckets == Evicted(old(buckets), now - c.idleAfter)
      ensures forall ip :: ip in buckets <==> ip in old(buckets) && old(buckets)[ip].lastRefill + c.idleAfter >= now
      ensures forall ip :: ip in buckets ==> buckets[ip] == old(buckets)[ip]
    {
      var cutoff := now - c.idleAfter;
      ghost var was := buckets;
      var todo := buckets.Keys;
      while todo != {}
        invariant todo <= buckets.Keys
        invariant buckets.Keys <= was.Keys
        invariant forall ip <- buckets :: buckets[ip] == was[ip]
        invariant forall ip <- was :: ip in buckets <==> ip in todo || was[ip].lastRefill >= cutoff
        decreases |todo|
      {
        var ip :| ip in todo;
        todo := todo - {ip};
        if buckets[ip].lastRefill < cutoff {
          buckets := buckets - {ip};
        }
      }
    }
  }

  // ---------------------------------------------------------------- runs

  /** Requests read the clock under the lock; a cleanup read it before taking the
      lock, so `at` may be older than the requests it follows. */
  datatype Event = Request(ip: Ip, at: real) | Cleanup(at: real)

  /** The clock is monotonic: nothing is older than what came before a request. */
  predicate Clocked(run: seq<Event>) {
    forall i, j :: 0 <= i < j < |run| && run[j].Request? ==> run[i].at <= run[j].at
  }

  function Init(run: seq<Event>): seq<Event>
    requires run != []
  {
    run[..|run| - 1]
  }

  function Last(run: seq<Event>): Event
    requires run != []
  {
    run[|run| - 1]
  }

  /** The buckets after a run, by a limiter that evicts or by one that never does. */
  function After(c: Config, evicting: bool, run: seq<Event>): Buckets {
    if run == [] then map[]
    else
      var m := After(c, evicting, Init(run));
      match Last(run)
      case Request(ip, at) => Asked(c, m, ip, at)
      case Cleanup(at) => if evicting then Evicted(m, at - c.idleAfter) else m
  }

  /** Whether the last event of the run is a request that is let through. */
  predicate LetThrough(c: Config, evicting: bool, run: seq<Event>)
    requires run != []
  {
    Last(run).Request? && Allowed(c, After(c, evicting, Init(run)), Last(run).ip, Last(run).at)
  }

  /** Requests of ip let through between s and t. */
  function Count(c: Config, evicting: bool, run: seq<Event>, ip: Ip, s: real, t: real): nat {
    if run == [] then 0
    else
      Count(c, evicting, Init(run), ip, s, t)
      + if LetThrough(c, evicting, run) && Last(run).ip == ip && s <= Last(run).at <= t then 1 else 0
  }

  /** What a client may get in a time: a burst plus the refill. */
  function Allowance(c: Config, time: real): real { c.burst as real + c.rate * time }

  /** No client ever gets more than a burst plus the refill of the time it used. */
  ghost predicate Bounded(c: Config, evicting: bool) {
    forall run, ip, s, t :: Clocked(run) && s <= t ==>
      Count(c, evicting, run, ip, s, t) as real <= Allowance(c, t - s)
  }

  /** Eviction changes no decision on any run. */
  ghost predicate Transparent(c: Config) {
    forall run :: Clocked(run) && run != [] ==> (LetThrough(c, true, run) <==> LetThrough(c, false, run))
  }

  // ---------------------------------------------------------------- the bound without eviction

  function Level(c: Config, m: Buckets, ip: Ip, u: real): real { Found(c, m, ip, u).tokens }

  lemma MulAdd(r: real, a: real, b: real)
    ensures r * (a + b) == r * a + r * b
  {}

  lemma MulPos(r: real, a: real)
    requires r >= 0.0 && a >= 0.0
    ensures r * a >= 0.0
  {}

  /** Asking at x and looking at u: a granted request costs one token of what the
      bucket would have held. */
  lemma LevelAfterAsking(c: Config, m: Buckets, ip: Ip, asking: Ip, x: real, u: real)
    requires Accepted(c) && x <= u
    requires ip in m ==> m[ip].lastRefill <= x && m[ip].tokens <= c.burst as real
    ensures Level(c, Asked(c, m, asking, x), ip, u) <= Level(c, m, ip, u)
    ensures asking == ip && Allowed(c, m, ip, x) ==>
              Level(c, Asked(c, m, ip, x), ip, u) <= Level(c, m, ip, x) - 1.0 + c.rate * (u - x)
  {
    if asking == ip {
      MulPos(c.rate, u - x);
      if ip in m {
        var l := m[ip].lastRefill;
        assert (u - x) + (x - l) == u - l;
        MulAdd(c.rate, u - x, x - l);
      }
    }
  }

  predicate Sane(c: Config, m: Buckets, now: real) {
    forall ip <- m :: 0.0 <= m[ip].tokens <= c.burst as real && m[ip].lastRefill <= now
  }

  lemma FoundIsSane(c: Config, m: Buckets, ip: Ip, now: real)
    requires Accepted(c) && Sane(c, m, now)
    ensures 0.0 <= Found(c, m, ip, now).tokens <= c.burst as real
    ensures Found(c, m, ip, now).lastRefill <= now
  {
    if ip in m {
      var b := m[ip];
      var gap := now - b.lastRefill;
      MulPos(c.rate, gap);
      assert c.rate * gap >= 0.0;
      assert 0.0 <= b.tokens <= c.burst as real;
      assert gap > 0.0 ==> Refilled(c, b, now).tokens == Min(b.tokens + c.rate * gap, c.burst as real);
    }
  }

  lemma {:induction false} StaysSane(c: Config, evicting: bool, run: seq<Event>, now: real)
    requires Accepted(c) && Clocked(run)
    requires forall e <- run :: e.Request? ==> e.at <= now
    ensures Sane(c, After(c, evicting, run), now)
  {
    if run != [] {
      if Last(run).Request? {
        var x := Last(run).at;
        forall e | e in Init(run) && e.Request? ensures e.at <= x {
          var i :| 0 <= i < |Init(run)| && Init(run)[i] == e;
          assert run[i] == e;
        }
        StaysSane(c, evicting, Init(run), x);
        var m := After(c, evicting, Init(run));
        FoundIsSane(c, m, Last(run).ip, x);
      } else {
        StaysSane(c, evicting, Init(run), now);
      }
    }
  }

  lemma AllowanceIsPositive(c: Config, time: real)
    requires Accepted(c) && time >= 0.0
    ensures Allowance(c, time) >= c.burst as real
  {
    MulPos(c.rate, time);
  }

  lemma AllowanceGrows(c: Config, s: real, x: real, u: real)
    ensures Allowance(c, u - s) == Allowance(c, x - s) + c.rate * (u - x)
  {
    assert (u - x) + (x - s) == u - s;
    MulAdd(c.rate, u - x, x - s);
  }

  lemma {:induction false} CountAndLevel(c: Config, run: seq<Event>, ip: Ip, s: real, t: real, u: real)
    requires Accepted(c) && Clocked(run) && s <= u
    requires forall e <- run :: e.Request? ==> e.at <= u
    ensures Count(c, false, run, ip, s, t) as real + Level(c, After(c, false, run), ip, u)
            <= Allowance(c, u - s)
  {
    AllowanceIsPositive(c, u - s);
    hide Allowance;
    if run != [] && Last(run).Request? {
      var x := Last(run).at;
      var m := After(c, false, Init(run));
      forall e | e in Init(run) && e.Request? ensures e.at <= x {
        var i :| 0 <= i < |Init(run)| && Init(run)[i] == e;
        assert run[i] == e;
      }
      StaysSane(c, false, Init(run), x);
      LevelAfterAsking(c, m, ip, Last(run).ip, x, u);
      if LetThrough(c, false, run) && Last(run).ip == ip && s <= x <= t {
        CountAndLevel(c, Init(run), ip, s, t, x);
        AllowanceGrows(c, s, x, u);
      } else {
        CountAndLevel(c, Init(run), ip, s, t, u);
      }
    } else if run != [] {
      CountAndLevel(c, Init(run), ip, s, t, u);
    }
  }

  /** Without eviction the bound always holds. */
  lemma {:induction false} BoundedOn(c: Config, run: seq<Event>, ip: Ip, s: real, t: real)
    requires Accepted(c) && Clocked(run) && s <= t
    ensures Count(c, false, run, ip, s, t) as real <= Allowance(c, t - s)
  {
    hide Allowance, Found;
    if run == [] {
      AllowanceIsPositive(c, t - s);
    } else if Last(run).Request? && Last(run).at <= t {
      forall e | e in run && e.Request? ensures e.at <= t {
        var i :| 0 <= i < |run| && run[i] == e;
      }
      CountAndLevel(c, run, ip, s, t, t);
      StaysSane(c, false, run, t);
      FoundIsSane(c, After(c, false, run), ip, t);
    } else {
      BoundedOn(c, Init(run), ip, s, t);
    }
  }

  lemma BoundedWithoutEviction(c: Config)
    requires Accepted(c)
    ensures Bounded(c, false)
  {
    forall run, ip, s, t | Clocked(run) && s <= t
      ensures Count(c, false, run, ip, s, t) as real <= Allowance(c, t - s)
    {
      BoundedOn(c, run, ip, s, t);
    }
  }

  // ---------------------------------------------------------------- eviction

  /** With `evicting` a bucket is the same, or is gone and idle for so long that
      it is full again by any time from `now` on. */
  predicate SameOrIdle(c: Config, with: Buckets, without: Buckets, now: real) {
    && with.Keys <= without.Keys
    && (forall ip <- with :: with[ip] == without[ip])
    && (forall ip <- without :: ip !in with ==> without[ip].lastRefill + c.idleAfter < now)
  }

  lemma SameFound(c: Config, with: Buckets, without: Buckets, ip: Ip, now: real)
    requires Accepted(c) && c.burst as real <= c.rate * c.idleAfter
    requires SameOrIdle(c, with, without, now) && Sane(c, without, now)
    ensures Found(c, with, ip, now) == Found(c, without, ip, now)
  {
    if ip in without && ip !in with {
      var gap := now - without[ip].lastRefill;
      assert c.idleAfter + (gap - c.idleAfter) == gap;
      MulAdd(c.rate, c.idleAfter, gap - c.idleAfter);
      MulPos(c.rate, gap - c.idleAfter);
    }
  }

  lemma {:induction false} EvictionKeeps(c: Config, run: seq<Event>, now: real)
    requires Accepted(c) && c.burst as real <= c.rate * c.idleAfter
    requires Clocked(run) && forall e <- run :: e.at <= now
    ensures SameOrIdle(c, After(c, true, run), After(c, false, run), now)
  {
    if run != [] {
      var with, without := After(c, true, Init(run)), After(c, false, Init(run));
      var x := Last(run).at;
      assert Last(run) in run;
      if Last(run).Request? {
        forall e | e in Init(run) ensures e.at <= x {
          var i :| 0 <= i < |Init(run)| && Init(run)[i] == e;
          assert run[i] == e;
        }
        EvictionKeeps(c, Init(run), x);
        StaysSane(c, false, Init(run), x);
        SameFound(c, with, without, Last(run).ip, x);
      } else {
        EvictionKeeps(c, Init(run), now);
      }
    }
  }

  /** An idle time that refills a whole burst makes eviction unobservable. */
  lemma TransparentWhenIdleRefills(c: Config)
    requires Accepted(c) && c.burst as real <= c.rate * c.idleAfter
    ensures Transparent(c)
  {
    forall run | Clocked(run) && run != []
      ensures LetThrough(c, true, run) <==> LetThrough(c, false, run)
    {
      if Last(run).Request? {
        var x := Last(run).at;
        forall e | e in Init(run) ensures e.at <= x {
          var i :| 0 <= i < |Init(run)| && Init(run)[i] == e;
          assert run[i] == e;
        }
        EvictionKeeps(c, Init(run), x);
        StaysSane(c, false, Init(run), x);
        SameFound(c, After(c, true, Init(run)), After(c, false, Init(run)), Last(run).ip, x);
      }
    }
  }

  lemma {:induction false} SameCount(c: Config, run: seq<Event>, ip: Ip, s: real, t: real)
    requires Transparent(c) && Clocked(run)
    ensures Count(c, true, run, ip, s, t) == Count(c, false, run, ip, s, t)
  {
    if run != [] {
      SameCount(c, Init(run), ip, s, t);
      assert LetThrough(c, true, run) <==> LetThrough(c, false, run);
    }
  }

  lemma BoundedWhenTransparent(c: Config)
    requires Accepted(c) && Transparent(c)
    ensures Bounded(c, true)
  {
    forall run, ip, s, t | Clocked(run) && s <= t
      ensures Count(c, true, run, ip, s, t) as real <= Allowance(c, t - s)
    {
      SameCount(c, run, ip, s, t);
      BoundedOn(c, run, ip, s, t);
    }
  }

  // ---------------------------------------------------------------- who gets through

  /** A request is let through exactly if the client has no bucket, or its tokens
      and what has been refilled since come to one. */
  lemma LetThroughExactly(c: Config, m: Buckets, ip: Ip, now: real)
    requires Accepted(c) && Sane(c, m, now)
    ensures Allowed(c, m, ip, now) <==> ip !in m || m[ip].tokens + c.rate * (now - m[ip].lastRefill) >= 1.0
  {
    if ip in m {
      var b := m[ip];
      assert 0.0 <= b.tokens <= c.burst as real;
      var gap := now - b.lastRefill;
      MulPos(c.rate, gap);
      assert gap == 0.0 ==> c.rate * gap == 0.0;
      var full := b.tokens + c.rate * gap;
      assert Found(c, m, ip, now).tokens == Min(full, c.burst as real);
      hide Found, Refilled;
    }
  }

  /** A client's requests are at least the refill time of one token apart. */
  predicate Patient(c: Config, run: seq<Event>, ip: Ip) {
    forall i, j :: 0 <= i < j < |run| && IsRequest(run[i], ip) && IsRequest(run[j], ip) ==> c.rate * (run[j].at - run[i].at) >= 1.0
  }

  predicate IsRequest(e: Event, ip: Ip) { e.Request? && e.ip == ip }

  /** A bucket was last refilled no later than some request of its client. */
  lemma {:induction false} RefilledByRequest(c: Config, evicting: bool, run: seq<Event>, ip: Ip) returns (i: nat)
    requires Accepted(c) && Clocked(run) && ip in After(c, evicting, run)
    ensures i < |run| && IsRequest(run[i], ip) && After(c, evicting, run)[ip].lastRefill <= run[i].at
  {
    if IsRequest(Last(run), ip) {
      i := |run| - 1;
      StaysSaneUpTo(c, evicting, run);
    } else {
      i := RefilledByRequest(c, evicting, Init(run), ip);
    }
  }

  lemma StaysSaneUpTo(c: Config, evicting: bool, run: seq<Event>)
    requires Accepted(c) && Clocked(run) && run != [] && Last(run).Request?
    ensures Sane(c, After(c, evicting, Init(run)), Last(run).at)
    ensures Sane(c, After(c, evicting, run), Last(run).at)
  {
    var x := Last(run).at;
    forall e | e in run && e.Request? ensures e.at <= x {
      var i :| 0 <= i < |run| && run[i] == e;
    }
    StaysSane(c, evicting, run, x);
    forall e | e in Init(run) && e.Request? ensures e.at <= x {
      var i :| 0 <= i < |Init(run)| && Init(run)[i] == e;
      assert run[i] == e;
    }
    StaysSane(c, evicting, Init(run), x);
  }

  /** A client that asks no faster than the rate is never refused, whatever other
      clients do and whatever is evicted. */
  lemma PatientClientIsNeverRefused(c: Config, evicting: bool, run: seq<Event>, ip: Ip)
    requires Accepted(c) && Clocked(run) && Patient(c, run, ip) && run != [] && IsRequest(Last(run), ip)
    ensures LetThrough(c, evicting, run)
  {
    hide After, Found, Allowed;
    var m, x := After(c, evicting, Init(run)), Last(run).at;
    StaysSaneUpTo(c, evicting, run);
    LetThroughExactly(c, m, ip, x);
    if ip in m {
      var i := RefilledByRequest(c, evicting, Init(run), ip);
      assert run[i] == Init(run)[i];
      var earlier := run[i].at;
      assert c.rate * (x - earlier) >= 1.0;
      assert m[ip].tokens >= 0.0;
      Refills(c.rate, m[ip].tokens, m[ip].lastRefill, earlier, x);
    }
  }

  lemma Refills(rate: real, tokens: real, last: real, earlier: real, now: real)
    requires rate > 0.0 && tokens >= 0.0 && last <= earlier && rate * (now - earlier) >= 1.0
    ensures tokens + rate * (now - last) >= 1.0
  {
    assert (now - earlier) + (earlier - last) == now - last;
    MulAdd(rate, now - earlier, earlier - last);
    MulPos(rate, earlier - last);
  }

  /** A whole burst at once is let through for a client nobody has seen. */
  lemma FreshClientGetsABurst(c: Config, before: seq<Event>, ip: Ip, at: real, n: nat)
    requires Accepted(c) && 1 <= n <= c.burst && ip !in After(c, true, before)
    ensures LetThrough(c, true, before + Burst(ip, at, n))
  {
    BurstPasses(c, before, ip, at, n - 1, at, at);
    var run := before + Burst(ip, at, n);
    assert Init(run) == before + Burst(ip, at, n - 1) && Last(run) == Request(ip, at);
  }

  // ---------------------------------------------------------------- too short an idle time

  function Burst(ip: Ip, at: real, n: nat): seq<Event> { seq(n, _ => Request(ip, at)) }

  /** A full bucket after n requests at once. */
  function LeftOver(c: Config, n: nat, at: real): Bucket
    requires n <= c.burst
  {
    Bucket((c.burst - n) as real, at)
  }

  /** A client with a full bucket, or none, gets a whole burst at once. */
  lemma {:induction false} BurstPasses(c: Config, before: seq<Event>, ip: Ip, at: real, n: nat, s: real, t: real)
    requires n <= c.burst && s <= at <= t
    requires ip !in After(c, true, before)
    ensures var run := before + Burst(ip, at, n);
      && Count(c, true, run, ip, s, t) == Count(c, true, before, ip, s, t) + n
      && Found(c, After(c, true, run), ip, at) == LeftOver(c, n, at)
      && (n > 0 ==> ip in After(c, true, run) && After(c, true, run)[ip] == LeftOver(c, n, at))
  {
    var run := before + Burst(ip, at, n);
    if n == 0 {
      assert run == before;
    } else {
      BurstPasses(c, before, ip, at, n - 1, s, t);
      assert Init(run) == before + Burst(ip, at, n - 1) && Last(run) == Request(ip, at);
      AskedOnce(c, After(c, true, Init(run)), ip, at, n);
      OneMore(c, run, ip, at, s, t);
    }
  }

  lemma OneMore(c: Config, run: seq<Event>, ip: Ip, at: real, s: real, t: real)
    requires run != [] && Last(run) == Request(ip, at) && s <= at <= t && Allowed(c, After(c, true, Init(run)), ip, at)
    ensures After(c, true, run) == Asked(c, After(c, true, Init(run)), ip, at)
    ensures Count(c, true, run, ip, s, t) == Count(c, true, Init(run), ip, s, t) + 1
  {
    hide Asked, Allowed, Found;
  }

  lemma AskedOnce(c: Config, m: Buckets, ip: Ip, at: real, n: nat)
    requires 1 <= n <= c.burst && Found(c, m, ip, at) == LeftOver(c, n - 1, at)
    ensures Allowed(c, m, ip, at)
    ensures var after := Asked(c, m, ip, at); ip in after && after[ip] == Found(c, after, ip, at) == LeftOver(c, n, at)
  {
  }

  /** A time just after the idle time, refilling less than a burst. */
  lemma JustAfter(c: Config) returns (t: real)
    requires Accepted(c) && c.burst as real > c.rate * c.idleAfter
    ensures t > c.idleAfter && c.rate * t < c.burst as real
  {
    var full := c.burst as real / c.rate;
    MulDiv(c.burst as real, c.rate);
    assert full > c.idleAfter by {
      if full <= c.idleAfter { MulPos(c.rate, c.idleAfter - full); MulAdd(c.rate, full, c.idleAfter - full); }
    }
    t := (full + c.idleAfter) / 2.0;
    MulLess(c.rate, t, full);
  }

  lemma MulDiv(a: real, b: real)
    requires b > 0.0
    ensures b * (a / b) == a
  {}

  lemma MulLess(r: real, a: real, b: real)
    requires r > 0.0 && a < b
    ensures r * a < r * b
  {}

  lemma BurstThenEvicted(c: Config, ip: Ip, t: real)
    requires Accepted(c) && t > c.idleAfter
    ensures var run := Burst(ip, 0.0, c.burst) + [Cleanup(t)];
      ip !in After(c, true, run) && Count(c, true, run, ip, 0.0, t) == c.burst
  {
    var first := Burst(ip, 0.0, c.burst);
    BurstPasses(c, [], ip, 0.0, c.burst, 0.0, t);
    assert [] + first == first;
    assert Init(first + [Cleanup(t)]) == first;
  }

  lemma Ordered(ip: Ip, t: real, n: nat)
    requires t >= 0.0
    ensures Clocked(Burst(ip, 0.0, n) + [Cleanup(t)] + Burst(ip, t, n))
  {
  }

  lemma Doubled(c: Config, t: real)
    requires c.rate * t < c.burst as real
    ensures (c.burst + c.burst) as real > Allowance(c, t)
  {
  }

  /** A burst, an eviction just after the idle time, and a second burst: twice the
      burst in a time that refills less than one. */
  lemma TwoBursts(c: Config, ip: Ip, t: real) returns (run: seq<Event>)
    requires Accepted(c) && t > c.idleAfter && c.rate * t < c.burst as real
    ensures Clocked(run)
    ensures Count(c, true, run, ip, 0.0, t) as real > Allowance(c, t)
  {
    var cleaned := Burst(ip, 0.0, c.burst) + [Cleanup(t)];
    run := cleaned + Burst(ip, t, c.burst);
    Ordered(ip, t, c.burst);
    BurstThenEvicted(c, ip, t);
    BurstPasses(c, cleaned, ip, t, c.burst, 0.0, t);
    Doubled(c, t);
    hide Allowance, Clocked;
  }

  lemma NotBounded(c: Config, t: real)
    requires Accepted(c) && t > c.idleAfter && c.rate * t < c.burst as real
    ensures !Bounded(c, true)
  {
    var run := TwoBursts(c, "", t);
    hide Count, Allowance, Clocked;
    assert t - 0.0 == t && 0.0 <= t;
    assert Count(c, true, run, "", 0.0, t) as real > Allowance(c, t - 0.0);
  }

  /** The exact condition. Eviction keeps the limit, and changes no decision,
      exactly if a bucket refills completely within the idle time. */
  lemma LimitHoldsExactlyIf(c: Config)
    requires Accepted(c)
    ensures Bounded(c, true) <==> c.burst as real <= c.rate * c.idleAfter
    ensures Transparent(c) <==> c.burst as real <= c.rate * c.idleAfter
  {
    if c.burst as real <= c.rate * c.idleAfter {
      TransparentWhenIdleRefills(c);
      BoundedWhenTransparent(c);
    } else {
      var t := JustAfter(c);
      NotBounded(c, t);
      hide Bounded, Transparent;
      if Transparent(c) { BoundedWhenTransparent(c); }
    }
  }

  /** The cleanup job's idle time is 30 minutes, so a configured limiter keeps
      its limit exactly if its burst is at most 30 times its requests per minute. */
  lemma DeployedLimit(requestsPerMinute: nat, burst: nat)
    requires requestsPerMinute > 0 && burst > 0
    ensures Bounded(Config(burst, requestsPerMinute as real / 60.0, 1800.0), true) <==> burst <= 30 * requestsPerMinute
  {
    LimitHoldsExactlyIf(Config(burst, requestsPerMinute as real / 60.0, 1800.0));
    assert (requestsPerMinute as real / 60.0) * 1800.0 == (30 * requestsPerMinute) as real;
  }

  // ---------------------------------------------------------------- whose bucket

  /** An address after ParseAddr and Unmap. */
  type Addr = nat

  datatype Client = Peer | Forwarded(addr: Addr)

  /** What the limiter knows about addresses: how a text parses, trimmed, if it
      does, and which addresses are trusted proxies. */
  datatype Network = Network(parse: string -> Option<Addr>, trusted: Addr -> bool) {
    predicate Trusts(text: string) { parse(text).Some? && trusted(parse(text).value) }
    predicate AllTrusted(entries: seq<string>) { forall e <- entries :: Trusts(e) }

    /** Entry i does not parse or is no trusted proxy, and all after it are. */
    predicate Decides(entries: seq<string>, i: nat)
      requires i < |entries|
    {
      !Trusts(entries[i]) && AllTrusted(entries[i + 1..])
    }
  }

  /** strings.Split(s, ","): as many parts as commas, and one more. */
  function Split(s: string): (parts: seq<string>)
    ensures parts != []
  {
    if s == "" then [""]
    else
      var parts := Split(s[1..]);
      if s[0] == ',' then [""] + parts else [[s[0]] + parts[0]] + parts[1..]
  }

  function Joined(parts: seq<string>): string
    requires parts != []
  {
    if |parts| == 1 then parts[0] else parts[0] + "," + Joined(parts[1..])
  }

  /** Splitting loses nothing: the parts hold no comma, and joined by commas they
      are the text again. */
  lemma {:induction false} SplitIsExact(s: string)
    ensures Joined(Split(s)) == s
    ensures forall part <- Split(s) :: ',' !in part
  {
    if s != "" {
      SplitIsExact(s[1..]);
      var parts := Split(s[1..]);
      if s[0] == ',' {
        assert ([""] + parts)[1..] == parts;
        assert s == "" + "," + s[1..];
      } else {
        var first := [s[0]] + parts[0];
        assert ([first] + parts[1..])[1..] == parts[1..];
        assert s == [s[0]] + s[1..];
      }
    }
  }

  /** The entries of all X-Forwarded-For headers, left to right. */
  function Entries(headers: seq<string>): seq<string> {
    if headers == [] then [] else Entries(headers[..|headers| - 1]) + Split(headers[|headers| - 1])
  }

  /** `host` is the remote address without its port. */
  method ClientIP(net: Network, host: string, headers: seq<string>) returns (r: Client)
    ensures !net.Trusts(host) ==> r == Peer
    ensures net.Trusts(host) ==>
              forall i :: 0 <= i < |Entries(headers)| && net.Decides(Entries(headers), i) ==>
                r == match net.parse(Entries(headers)[i])
                     case Some(addr) => Forwarded(addr)
                     case None => Peer
    ensures net.AllTrusted(Entries(headers)) ==> r == Peer
  {
    if net.parse(host).None? || !net.trusted(net.parse(host).value) { return Peer; }
    var entries: seq<string> := [];
    for k := 0 to |headers|
      invariant entries == Entries(headers[..k])
    {
      assert headers[..k + 1][..k] == headers[..k];
      entries := entries + Split(headers[k]);
    }
    assert headers[..|headers|] == headers;
    var n := |entries|;
    while n > 0
      invariant 0 <= n <= |entries|
      invariant net.AllTrusted(entries[n..])
    {
      n := n - 1;
      var addr := net.parse(entries[n]);
      if addr.None? || !net.trusted(addr.value) {
        forall i | 0 <= i < |entries| && net.Decides(entries, i) ensures i == n {
          OneDecides(net, entries, i, n);
        }
        assert entries[n] in entries;
        return if addr.None? then Peer else Forwarded(addr.value);
      }
      assert entries[n..] == [entries[n]] + entries[n + 1..];
    }
    assert entries[0..] == entries;
    assert forall i :: 0 <= i < |entries| ==> entries[i] in entries;
    return Peer;
  }

  lemma InTail<T>(s: seq<T>, i: nat, j: nat)
    requires i < j < |s|
    ensures s[j] in s[i + 1..]
  {
    assert s[j] == s[i + 1..][j - i - 1];
  }

  lemma OneDecides(net: Network, entries: seq<string>, i: nat, j: nat)
    requires i < |entries| && j < |entries| && net.Decides(entries, i) && net.Decides(entries, j)
    ensures i == j
  {
    if i < j { InTail(entries, i, j); }
    if j < i { InTail(entries, j, i); }
  }

  lemma {:induction false} SplitsAtComma(a: string, b: string)
    ensures Split(a + "," + b) == Split(a) + Split(b)
  {
    var s := a + "," + b;
    if a == "" {
      assert s[1..] == b;
    } else {
      SplitsAtComma(a[1..], b);
      assert s[1..] == a[1..] + "," + b && s[0] == a[0];
      SplitStep(s);
      SplitStep(a);
      Regroup(a[0], Split(a[1..]), Split(b));
      hide Split;
    }
  }

  lemma SplitStep(s: string)
    requires s != ""
    ensures Split(s) == With(s[0], Split(s[1..]))
  {
  }

  function With(c: char, parts: seq<string>): seq<string>
    requires parts != []
  {
    if c == ',' then [""] + parts else [[c] + parts[0]] + parts[1..]
  }

  lemma Regroup(c: char, a: seq<string>, b: seq<string>)
    requires a != []
    ensures With(c, a + b) == With(c, a) + b
  {
  }

  lemma {:induction false} EntriesJoin(a: seq<string>, b: seq<string>)
    ensures Entries(a + b) == Entries(a) + Entries(b)
  {
    if b == [] {
      assert a + b == a;
    } else {
      EntriesJoin(a, b[..|b| - 1]);
      assert (a + b)[..|a + b| - 1] == a + b[..|b| - 1];
    }
  }

  /** What a client puts to the left of what the proxies append, as whole headers
      before or as text before a comma in the same header, changes nothing: the
      same entry decides, and comes to the same client. */
  lemma ForgedEntriesDoNotMatter(net: Network, forged: seq<string>, text: string, first: string, rest: seq<string>, i: nat)
    requires i < |Entries([first] + rest)|
    ensures var honest, all := Entries([first] + rest), Entries(forged + [text + "," + first] + rest);
      var shift := |all| - |honest|;
      && shift >= 0
      && all[shift + i] == honest[i]
      && (net.Decides(honest, i) <==> net.Decides(all, shift + i))
  {
    var honest, all := Entries([first] + rest), Entries(forged + [text + "," + first] + rest);
    var left := Entries(forged) + Split(text);
    EntriesWithForged(forged, text, first, rest);
    assert all == left + honest;
    Shifted(net, left, honest, i);
  }

  lemma EntriesWithForged(forged: seq<string>, text: string, first: string, rest: seq<string>)
    ensures Entries(forged + [text + "," + first] + rest) == Entries(forged) + Split(text) + Entries([first] + rest)
  {
    hide Entries, Split;
    EntriesJoin(forged + [text + "," + first], rest);
    EntriesJoin(forged, [text + "," + first]);
    EntriesJoin([first], rest);
    OneHeader(first);
    OneHeader(text + "," + first);
    SplitsAtComma(text, first);
  }

  lemma Shifted(net: Network, left: seq<string>, honest: seq<string>, i: nat)
    requires i < |honest|
    ensures (left + honest)[|left| + i] == honest[i]
    ensures net.Decides(honest, i) <==> net.Decides(left + honest, |left| + i)
  {
    assert (left + honest)[|left| + i + 1..] == honest[i + 1..];
  }

  lemma OneHeader(header: string)
    ensures Entries([header]) == Split(header)
  {
    assert [header][..0] == [];
  }
}
