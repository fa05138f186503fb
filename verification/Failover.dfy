// Which provider a new payment goes to (internal/provider/adapter.go and the
// creation part of internal/service/payment_service.go): the provider registry,
// the merchant's candidate list, and the loop that asks one candidate after the
// other until one answers.

module Failover {
  import opened Options
  import opened Fee

  // ---------------------------------------------------------------- keys

  predicate IsSpace(c: char) { c in " \t\n\r" }

  predicate IsUpper(c: char) { 'A' <= c <= 'Z' }

  predicate IsKey(s: string) {
    && (forall c <- s :: !IsUpper(c))
    && (s != "" ==> !IsSpace(s[0]) && !IsSpace(s[|s| - 1]))
  }

  function TrimLeft(s: string): (r: string)
    ensures r != "" ==> !IsSpace(r[0]) && s != "" && r[|r| - 1] == s[|s| - 1]
    ensures s == "" || !IsSpace(s[0]) ==> r == s
  {
    if s != "" && IsSpace(s[0]) then TrimLeft(s[1..]) else s
  }

  function TrimRight(s: string): (r: string)
    ensures r != "" ==> !IsSpace(r[|r| - 1]) && s != "" && r[0] == s[0]
    ensures s == "" || !IsSpace(s[|s| - 1]) ==> r == s
  {
    if s != "" && IsSpace(s[|s| - 1]) then TrimRight(s[..|s| - 1]) else s
  }

  function ToLower(s: string): (r: string)
    ensures |r| == |s|
    ensures forall i :: 0 <= i < |s| ==> r[i] == if IsUpper(s[i]) then (s[i] as int + 32) as char else s[i]
  {
    seq(|s|, i requires 0 <= i < |s| => if IsUpper(s[i]) then (s[i] as int + 32) as char else s[i])
  }

  function NormalizeKey(s: string): string { ToLower(TrimRight(TrimLeft(s))) }

  /** Normalising is a projection: a normalised name is its own key. */
  lemma KeysAreNormal(s: string)
    ensures IsKey(NormalizeKey(s))
    ensures IsKey(s) ==> NormalizeKey(s) == s
  {
    var t := TrimRight(TrimLeft(s));
    if t != "" { assert !IsSpace(t[0]) && !IsSpace(t[|t| - 1]); }
  }

  // ---------------------------------------------------------------- the registry

  /** A provider quotes customer-borne fees at `bps`, or not at all. */
  datatype Provider = Provider(name: string, bps: Option<int>)

  datatype Health = Healthy | Degraded | Unhealthy

  datatype Registry = Registry(providers: map<string, Provider>, methods: map<string, seq<string>>,
                               healths: map<string, Health>)

  const SANDBOX := "sandbox"

  datatype Error = InvalidAmount | MerchantInactive | MerchantNotLoaded | ConfigsNotLoaded
                 | UnsupportedPaymentMethod | ProviderNotAvailable | NoSandbox | FeeNotSupported
                 | QuoteRefused | ProviderFailed | NoResponse | ChargedBelowNominal | NotSaved

  datatype Result<T> = Ok(value: T) | Err(error: Error)

  predicate Available(g: Registry, key: string) {
    key in g.providers && (key in g.healths ==> g.healths[key] != Unhealthy)
  }

  /** The providers of the available keys, in the order of the list. */
  function Chosen(g: Registry, keys: seq<string>): seq<Provider> {
    if keys == [] then []
    else
      var n := |keys| - 1;
      Chosen(g, keys[..n]) + if Available(g, keys[n]) then [g.providers[keys[n]]] else []
  }

  predicate NoDuplicates<T(==)>(s: seq<T>) {
    forall i, j :: 0 <= i < j < |s| ==> s[i] != s[j]
  }

  ghost predicate ValidRegistry(g: Registry) {
    && (forall m <- g.methods :: NoDuplicates(g.methods[m]) && forall k <- g.methods[m] :: IsKey(k))
    && (forall k <- g.providers :: NormalizeKey(g.providers[k].name) == k)
  }

  class ProviderRouter {
    var g: Registry

    constructor ()
      ensures g == Registry(map[], map[], map[]) && ValidRegistry(g)
    {
      g := Registry(map[], map[], map[]);
    }

    method RegisterProvider(p: Provider)
      requires ValidRegistry(g)
      modifies this
      ensures ValidRegistry(g)
      ensures g.methods == old(g.methods)
      ensures g.providers == old(g.providers)[NormalizeKey(p.name) := p]
      ensures g.healths == if NormalizeKey(p.name) in old(g.healths) then old(g.healths)
                           else old(g.healths)[NormalizeKey(p.name) := Healthy]
    {
      var key := NormalizeKey(p.name);
      g := g.(providers := g.providers[key := p]);
      if key !in g.healths { g := g.(healths := g.healths[key := Healthy]); }
    }

    /** Registering twice keeps the first place. */
    method RegisterPaymentMethodProvider(paymentMethod: string, providerName: string)
      requires ValidRegistry(g)
      modifies this
      ensures ValidRegistry(g)
      ensures g.providers == old(g.providers) && g.healths == old(g.healths)
      ensures var m, k := NormalizeKey(paymentMethod), NormalizeKey(providerName);
        var was := if m in old(g.methods) then old(g.methods)[m] else [];
        g.methods == if k in was then old(g.methods) else old(g.methods)[m := was + [k]]
    {
      hide NormalizeKey, IsKey;
      var m, k := NormalizeKey(paymentMethod), NormalizeKey(providerName);
      KeysAreNormal(providerName);
      var existing := if m in g.methods then g.methods[m] else [];
      for i := 0 to |existing|
        invariant k !in existing[..i]
      {
        if existing[i] == k { return; }
        assert existing[..i + 1] == existing[..i] + [existing[i]];
      }
      assert existing[..|existing|] == existing;
      g := g.(methods := g.methods[m := existing + [k]]);
    }

    method SetProviderHealth(providerName: string, health: Health)
      requires ValidRegistry(g)
      modifies this
      ensures ValidRegistry(g)
      ensures g == old(g).(healths := old(g.healths)[NormalizeKey(providerName) := health])
    {
      g := g.(healths := g.healths[NormalizeKey(providerName) := health]);
    }

    method SelectProviders(paymentMethod: string) returns (r: Result<seq<Provider>>)
      requires ValidRegistry(g)
      ensures r.Ok? <==> NormalizeKey(paymentMethod) in g.methods
                         && exists k :: k in g.methods[NormalizeKey(paymentMethod)] && Available(g, k)
      ensures r.Ok? ==> r.value == Chosen(g, g.methods[NormalizeKey(paymentMethod)])
      ensures r.Err? ==> r.error == if NormalizeKey(paymentMethod) in g.methods then ProviderNotAvailable
                                    else UnsupportedPaymentMethod
    {
      var m := NormalizeKey(paymentMethod);
      if m !in g.methods { return Err(UnsupportedPaymentMethod); }
      var names := g.methods[m];
      var selected: seq<Provider> := [];
      for i := 0 to |names|
        invariant selected == Chosen(g, names[..i])
      {
        hide NormalizeKey, IsKey, NoDuplicates;
        KeysAreNormal(names[i]);
        DefaultStep(g, names, i);
        var key := NormalizeKey(names[i]);
        if key !in g.providers { continue; }
        if key in g.healths && g.healths[key] == Unhealthy { continue; }
        selected := selected + [g.providers[key]];
      }
      assert names[..|names|] == names;
      NoneChosen(g, names);
      if selected == [] { return Err(ProviderNotAvailable); }
      return Ok(selected);
    }
  }

  // ---------------------------------------------------------------- the candidates

  /** One enabled provider configuration of the merchant, already in priority order. */
  datatype Config = Config(providerName: string, failover: bool)

  /** What the merchant prefers, as normalised keys: its configurations, or else
      the method's registered providers with failover enabled throughout. */
  function Preferred(g: Registry, configs: seq<Config>, paymentMethod: string): seq<Config> {
    var m := NormalizeKey(paymentMethod);
    if configs != [] then seq(|configs|, i requires 0 <= i < |configs| => Config(NormalizeKey(configs[i].providerName), configs[i].failover))
    else if m in g.methods then AllFailover(g.methods[m])
    else []
  }

  function AllFailover(keys: seq<string>): seq<Config> {
    seq(|keys|, i requires 0 <= i < |keys| => Config(keys[i], true))
  }

  datatype Candidate = Candidate(provider: Provider, failover: bool)

  predicate Usable(g: Registry, key: string) {
    Available(g, key) && g.providers[key].name != SANDBOX
  }

  function UsableOf(g: Registry, prefer: seq<Config>): seq<Candidate> {
    if prefer == [] then []
    else
      var n := |prefer| - 1;
      UsableOf(g, prefer[..n])
      + if Usable(g, prefer[n].providerName) then [Candidate(g.providers[prefer[n].providerName], prefer[n].failover)] else []
  }

  /** The candidates are the usable preferences, all of them, in order. */
  ghost predicate Places(g: Registry, prefer: seq<Config>, candidates: seq<Candidate>, at: seq<nat>) {
    && |at| == |candidates|
    && (forall i, j :: 0 <= i < j < |at| ==> at[i] < at[j])
    && (forall i :: 0 <= i < |at| ==>
          && at[i] < |prefer|
          && Usable(g, prefer[at[i]].providerName)
          && candidates[i] == Candidate(g.providers[prefer[at[i]].providerName], prefer[at[i]].failover))
    && (forall p :: 0 <= p < |prefer| && Usable(g, prefer[p].providerName) ==> p in at)
  }

  lemma PlacesStep(g: Registry, prefer: seq<Config>, before: seq<nat>, at: seq<nat>)
    requires prefer != []
    requires Places(g, prefer[..|prefer| - 1], UsableOf(g, prefer[..|prefer| - 1]), before)
    requires at == if Usable(g, prefer[|prefer| - 1].providerName) then before + [|prefer| - 1] else before
    ensures Places(g, prefer, UsableOf(g, prefer), at)
  {
    hide Usable;
    var n := |prefer| - 1;
    forall i | 0 <= i < |before| ensures before[i] < n && prefer[before[i]] == prefer[..n][before[i]] {}
    forall p | 0 <= p < |prefer| && Usable(g, prefer[p].providerName) ensures p in at {
      if p < n { assert prefer[..n][p] == prefer[p]; assert p in before; }
    }
  }

  lemma {:induction false} UsableInOrder(g: Registry, prefer: seq<Config>) returns (at: seq<nat>)
    ensures Places(g, prefer, UsableOf(g, prefer), at)
  {
    at := [];
    if prefer != [] {
      var n := |prefer| - 1;
      var before := UsableInOrder(g, prefer[..n]);
      at := if Usable(g, prefer[n].providerName) then before + [n] else before;
      PlacesStep(g, prefer, before, at);
    }
  }

  /** Taking a provider out of service removes it from every candidate list and
      changes nothing else. */
  lemma {:induction false} UnhealthyIsSkipped(g: Registry, key: string, prefer: seq<Config>)
    ensures var down := g.(healths := g.healths[key := Unhealthy]);
      UsableOf(down, prefer) == UsableOf(g, Without(prefer, key))
  {
    if prefer != [] {
      var n := |prefer| - 1;
      UnhealthyIsSkipped(g, key, prefer[..n]);
      var w := Without(prefer[..n], key);
      if prefer[n].providerName != key {
        assert (w + [prefer[n]])[..|w|] == w;
      } else {
        assert Without(prefer, key) == w;
      }
    }
  }

  function Without(prefer: seq<Config>, key: string): seq<Config> {
    if prefer == [] then []
    else
      var n := |prefer| - 1;
      Without(prefer[..n], key) + if prefer[n].providerName == key then [] else [prefer[n]]
  }

  /** What the default list turns into: the registry's choice without the sandbox. */
  lemma {:induction false} DefaultStep(g: Registry, keys: seq<string>, i: nat)
    requires i < |keys|
    ensures Chosen(g, keys[..i + 1]) == Chosen(g, keys[..i]) + if Available(g, keys[i]) then [g.providers[keys[i]]] else []
  {
    assert keys[..i + 1][..i] == keys[..i];
  }

  function NotSandbox(ps: seq<Provider>): seq<Candidate> {
    if ps == [] then []
    else
      var n := |ps| - 1;
      NotSandbox(ps[..n]) + if ps[n].name == SANDBOX then [] else [Candidate(ps[n], true)]
  }

  lemma {:induction false} DefaultsAreUsable(g: Registry, keys: seq<string>)
    ensures NotSandbox(Chosen(g, keys)) == UsableOf(g, AllFailover(keys))
  {
    if keys != [] {
      var n := |keys| - 1;
      DefaultsAreUsable(g, keys[..n]);
      var all := AllFailover(keys);
      assert all[..n] == AllFailover(keys[..n]);
      assert all[n] == Config(keys[n], true);
      var c := Chosen(g, keys[..n]);
      if Available(g, keys[n]) {
        assert (c + [g.providers[keys[n]]])[..|c|] == c;
      } else {
        assert Chosen(g, keys) == c;
      }
    }
  }

  method ResolveDefaults(router: ProviderRouter, paymentMethod: string) returns (r: Result<seq<Candidate>>)
    requires ValidRegistry(router.g)
    ensures var usable := UsableOf(router.g, Preferred(router.g, [], paymentMethod));
      if usable == [] then r.Err? && r.error in {ProviderNotAvailable, UnsupportedPaymentMethod} else r == Ok(usable)
  {
    hide NormalizeKey, IsKey, NoDuplicates, ValidRegistry;
    var g := router.g;
    var m := NormalizeKey(paymentMethod);
    var defaults := router.SelectProviders(paymentMethod);
    if m !in g.methods {
      assert Preferred(g, [], paymentMethod) == [];
      return Err(defaults.error);
    }
    assert Preferred(g, [], paymentMethod) == AllFailover(g.methods[m]);
    DefaultsAreUsable(g, g.methods[m]);
    NoneChosen(g, g.methods[m]);
    if defaults.Err? { return Err(defaults.error); }
    hide Preferred, AllFailover;
    var candidates: seq<Candidate> := [];
    for i := 0 to |defaults.value|
      invariant candidates == NotSandbox(defaults.value[..i])
    {
      assert defaults.value[..i + 1][..i] == defaults.value[..i];
      if defaults.value[i].name == SANDBOX { continue; }
      candidates := candidates + [Candidate(defaults.value[i], true)];
    }
    assert defaults.value[..|defaults.value|] == defaults.value;
    if candidates == [] { return Err(ProviderNotAvailable); }
    return Ok(candidates);
  }

  /** configs is None when the merchant's configurations cannot be read. */
  method ResolveProviders(router: ProviderRouter, configs: Option<seq<Config>>, paymentMethod: string)
    returns (r: Result<seq<Candidate>>)
    requires ValidRegistry(router.g)
    ensures configs.None? <==> r == Err(ConfigsNotLoaded)
    ensures configs.Some? ==>
              var usable := UsableOf(router.g, Preferred(router.g, configs.value, paymentMethod));
              if usable == [] then r.Err? && r.error in {ProviderNotAvailable, UnsupportedPaymentMethod} else r == Ok(usable)
  {
    hide NormalizeKey, IsKey, NoDuplicates, ValidRegistry;
    if configs.None? { return Err(ConfigsNotLoaded); }
    if configs.value == [] {
      r := ResolveDefaults(router, paymentMethod);
      return r;
    }
    var g := router.g;
    ghost var prefer := Preferred(g, configs.value, paymentMethod);
    var selected: seq<Candidate> := [];
    for i := 0 to |configs.value|
      invariant selected == UsableOf(g, prefer[..i])
    {
      assert prefer[..i + 1][..i] == prefer[..i];
      var key := NormalizeKey(configs.value[i].providerName);
      if key !in g.providers { continue; }
      if g.providers[key].name == SANDBOX { continue; }
      if key in g.healths && g.healths[key] == Unhealthy { continue; }
      selected := selected + [Candidate(g.providers[key], configs.value[i].failover)];
    }
    assert prefer[..|prefer|] == prefer;
    if selected == [] { return Err(ProviderNotAvailable); }
    return Ok(selected);
  }

  lemma {:induction false} NoneChosen(g: Registry, keys: seq<string>)
    ensures Chosen(g, keys) == [] <==> forall k <- keys :: !Available(g, k)
  {
    if keys != [] {
      var n := |keys| - 1;
      NoneChosen(g, keys[..n]);
      assert keys == keys[..n] + [keys[n]];
    }
  }

  // ---------------------------------------------------------------- the loop

  /** What a provider returns when it is asked for a payment. */
  datatype Answer = ApiError | Nothing | Response(name: string, amount: int)

  /** A provider call the service makes. */
  datatype Call = Call(provider: string, charge: int)

  function ChargeFor(p: Provider, customerBears: bool, nominal: int): Result<int> {
    if !customerBears then Ok(nominal)
    else if p.bps.None? then Err(FeeNotSupported)
    else match QuoteTotalBasisPoints(nominal, p.bps.value)
      case Quoted(total, _) => Ok(total)
      case Refused(_) => Err(QuoteRefused)
  }

  /** What is fixed while the loop runs: the candidates, who bears the fee, the
      nominal, and what each candidate answers if it is asked. */
  datatype Request = Request(candidates: seq<Candidate>, customerBears: bool, nominal: int, answers: seq<Answer>)

  predicate ValidRequest(q: Request) { |q.answers| == |q.candidates| }

  function Charge(q: Request, i: nat): Result<int>
    requires i < |q.candidates|
  {
    ChargeFor(q.candidates[i].provider, q.customerBears, q.nominal)
  }

  predicate Succeeds(q: Request, i: nat)
    requires ValidRequest(q) && i < |q.candidates|
  {
    Charge(q, i).Ok? && q.answers[i].Response?
  }

  /** The first candidate that succeeds, reached because every earlier one failed
      with failover enabled. */
  predicate IsWinner(q: Request, w: int)
    requires ValidRequest(q)
  {
    && 0 <= w < |q.candidates|
    && Succeeds(q, w)
    && forall j :: 0 <= j < w ==> !Succeeds(q, j) && q.candidates[j].failover
  }

  /** The calls made while the first n candidates are tried: one to each that can
      quote, for its own charge. */
  function Calls(q: Request, n: nat): seq<Call>
    requires n <= |q.candidates|
  {
    if n == 0 then []
    else Calls(q, n - 1) + match Charge(q, n - 1)
      case Ok(charge) => [Call(q.candidates[n - 1].provider.name, charge)]
      case Err(_) => []
  }

  /** How far the loop gets: past every candidate that fails with failover enabled. */
  predicate Reaches(q: Request, n: nat)
    requires ValidRequest(q) && n <= |q.candidates|
  {
    forall j :: 0 <= j < n ==> !Succeeds(q, j) && q.candidates[j].failover
  }

  /** n candidates are tried: the last one is the first to end the loop, if any does. */
  predicate Tries(q: Request, n: nat)
    requires ValidRequest(q)
  {
    && n <= |q.candidates|
    && (n > 0 ==> Reaches(q, n - 1))
    && (n < |q.candidates| ==> n > 0 && !Reaches(q, n))
  }

  /** Why a candidate that does not succeed failed. */
  function FailureOf(q: Request, i: nat): Error
    requires ValidRequest(q) && i < |q.candidates|
  {
    match Charge(q, i)
    case Err(error) => error
    case Ok(_) => if q.answers[i].ApiError? then ProviderFailed else NoResponse
  }

  /** The error of a request that tried n candidates without success: the last one's. */
  predicate IsFailure(q: Request, n: nat, error: Error)
    requires ValidRequest(q) && n <= |q.candidates|
  {
    if n == 0 then error in {ProviderNotAvailable, UnsupportedPaymentMethod} else error == FailureOf(q, n - 1)
  }

  method TryCandidates(q: Request) returns (winner: Option<nat>, charge: int, calls: seq<Call>, failure: Error)
    requires ValidRequest(q)
    ensures winner.Some? ==> IsWinner(q, winner.value) && Charge(q, winner.value) == Ok(charge) && calls == Calls(q, winner.value + 1)
    ensures winner.None? ==> forall w :: !IsWinner(q, w)
    ensures exists n :: Tries(q, n) && calls == Calls(q, n) && (winner.None? ==> IsFailure(q, n, failure))
  {
    calls := [];
    charge := q.nominal;
    failure := ProviderNotAvailable;
    for i := 0 to |q.candidates|
      invariant Reaches(q, i)
      invariant calls == Calls(q, i)
      invariant IsFailure(q, i, failure)
    {
      var c := q.candidates[i];
      var quoted := ChargeFor(c.provider, q.customerBears, q.nominal);
      if quoted.Err? {
        failure := quoted.error;
        if !c.failover {
          assert Tries(q, i + 1);
          return None, charge, calls, failure;
        }
        continue;
      }
      calls := calls + [Call(c.provider.name, quoted.value)];
      if q.answers[i].Response? {
        assert Tries(q, i + 1);
        return Some(i), quoted.value, calls, failure;
      }
      failure := if q.answers[i].ApiError? then ProviderFailed else NoResponse;
      if !c.failover {
        assert Tries(q, i + 1);
        return None, charge, calls, failure;
      }
    }
    assert Tries(q, |q.candidates|);
    return None, charge, calls, failure;
  }

  lemma OneWinner(q: Request, v: int, w: int)
    requires ValidRequest(q) && IsWinner(q, v) && IsWinner(q, w)
    ensures v == w
  {}

  /** A payment can be created exactly if some candidate succeeds and none before
      it forbids failover; whether those before it fail does not matter. */
  lemma {:induction false} WinnerExists(q: Request, i: nat)
    requires ValidRequest(q) && i < |q.candidates| && Succeeds(q, i)
    requires forall j :: 0 <= j < i ==> q.candidates[j].failover
    ensures exists w :: w <= i && IsWinner(q, w)
    decreases i
  {
    if j :| 0 <= j < i && Succeeds(q, j) {
      WinnerExists(q, j);
    } else {
      assert IsWinner(q, i);
    }
  }

  /** What candidates after the winner are or answer makes no difference. */
  lemma LaterCandidatesDoNotMatter(q: Request, p: Request, w: nat)
    requires ValidRequest(q) && ValidRequest(p) && IsWinner(q, w)
    requires p.customerBears == q.customerBears && p.nominal == q.nominal
    requires w < |p.candidates| && p.candidates[..w + 1] == q.candidates[..w + 1] && p.answers[..w + 1] == q.answers[..w + 1]
    ensures IsWinner(p, w)
    ensures Calls(p, w + 1) == Calls(q, w + 1)
  {
    forall j | 0 <= j <= w ensures p.candidates[j] == q.candidates[j] && p.answers[j] == q.answers[j] {
      assert p.candidates[j] == p.candidates[..w + 1][j] && q.candidates[j] == q.candidates[..w + 1][j];
      assert p.answers[j] == p.answers[..w + 1][j] && q.answers[j] == q.answers[..w + 1][j];
    }
    SameCalls(q, p, w + 1);
  }

  lemma {:induction false} SameCalls(q: Request, p: Request, n: nat)
    requires n <= |q.candidates| && n <= |p.candidates|
    requires p.customerBears == q.customerBears && p.nominal == q.nominal
    requires forall j :: 0 <= j < n ==> p.candidates[j] == q.candidates[j]
    ensures Calls(p, n) == Calls(q, n)
  {
    if n > 0 { SameCalls(q, p, n - 1); }
  }

  // ---------------------------------------------------------------- what is charged

  /** The provider can be asked: the merchant bears the fee, or it quotes at a
      rate below 100%. */
  predicate CanCharge(p: Provider, customerBears: bool) {
    !customerBears || (p.bps.Some? && 0 <= p.bps.value < 10_000)
  }

  /** What the customer is asked to pay: exactly the nominal when the merchant
      bears the fee; otherwise the least total that leaves the nominal after the
      provider's own rate, rounded up. */
  predicate FairCharge(p: Provider, customerBears: bool, nominal: int, charge: int) {
    if !customerBears then charge == nominal
    else p.bps.Some? && Kept(charge, p.bps.value) >= nominal > Kept(charge - 1, p.bps.value)
  }

  lemma ChargeIsFair(p: Provider, customerBears: bool, nominal: int)
    requires 1 <= nominal <= 1_000_000_000_000
    ensures ChargeFor(p, customerBears, nominal).Ok? <==> CanCharge(p, customerBears)
    ensures CanCharge(p, customerBears) ==> FairCharge(p, customerBears, nominal, ChargeFor(p, customerBears, nominal).value)
    ensures !CanCharge(p, customerBears) ==> ChargeFor(p, customerBears, nominal) in {Err(FeeNotSupported), Err(QuoteRefused)}
  {
    if customerBears && CanCharge(p, customerBears) {
      QuoteIsLeast(nominal, p.bps.value);
      var total := QuoteTotalBasisPoints(nominal, p.bps.value).total;
      assert !(nominal <= Kept(total - 1, p.bps.value));
    }
  }

  /** There is one fair charge. */
  lemma FairChargeIsUnique(p: Provider, customerBears: bool, nominal: int, c: int, d: int)
    requires CanCharge(p, customerBears) && FairCharge(p, customerBears, nominal, c) && FairCharge(p, customerBears, nominal, d)
    ensures c == d
  {
    if customerBears {
      KeptGrows(c, d - 1, p.bps.value);
      KeptGrows(d, c - 1, p.bps.value);
    }
  }

  lemma {:induction false} KeptGrows(g: int, h: int, b: int)
    requires 0 <= b < 10_000
    ensures g <= h ==> Kept(g, b) <= Kept(h, b)
    decreases if g <= h then h - g else 0
  {
    if g < h {
      KeptGrows(g, h - 1, b);
      assert h * b == (h - 1) * b + b;
    }
  }

  /** A candidate succeeds exactly if it can be charged and answers with a payment,
      whatever amount it reports. */
  lemma SucceedsMeans(q: Request, i: nat)
    requires ValidRequest(q) && i < |q.candidates| && 1 <= q.nominal <= 1_000_000_000_000
    ensures Succeeds(q, i) <==> CanCharge(q.candidates[i].provider, q.customerBears) && q.answers[i].Response?
  {
    ChargeIsFair(q.candidates[i].provider, q.customerBears, q.nominal);
  }

  /** at lists which candidates the calls went to: all of the first n that can be
      charged and no others, in order, each asked for its own fair charge. */
  ghost predicate CallsAre(q: Request, n: nat, calls: seq<Call>, at: seq<nat>)
    requires n <= |q.candidates|
  {
    && |at| == |calls|
    && (forall i, j :: 0 <= i < j < |at| ==> at[i] < at[j])
    && (forall i :: 0 <= i < n ==> (i in at <==> CanCharge(q.candidates[i].provider, q.customerBears)))
    && (forall k :: 0 <= k < |at| ==>
          && at[k] < n
          && calls[k].provider == q.candidates[at[k]].provider.name
          && FairCharge(q.candidates[at[k]].provider, q.customerBears, q.nominal, calls[k].charge))
  }

  /** Every call of a creation is for exactly the nominal if the merchant bears the
      fee, and otherwise for the least total that leaves the nominal at that
      candidate's own rate; a candidate that cannot quote is not called. */
  lemma {:induction false} CallsAreFair(q: Request, n: nat) returns (at: seq<nat>)
    requires n <= |q.candidates| && 1 <= q.nominal <= 1_000_000_000_000
    ensures CallsAre(q, n, Calls(q, n), at)
  {
    at := [];
    if n > 0 {
      var before := CallsAreFair(q, n - 1);
      var c := q.candidates[n - 1].provider;
      ChargeIsFair(c, q.customerBears, q.nominal);
      CallsStep(q, n);
      hide ChargeFor, CanCharge, FairCharge, Calls;
      if CanCharge(c, q.customerBears) {
        at := before + [n - 1];
        OneMoreCall(q, n, Calls(q, n - 1), Calls(q, n)[|Calls(q, n - 1)|], before);
      } else {
        at := before;
        NoMoreCall(q, n, Calls(q, n - 1), before);
      }
    }
  }

  lemma CallsStep(q: Request, n: nat)
    requires 0 < n <= |q.candidates|
    ensures Calls(q, n) == Calls(q, n - 1)
      + if Charge(q, n - 1).Ok? then [Call(q.candidates[n - 1].provider.name, Charge(q, n - 1).value)] else []
  {
  }

  lemma OneMoreCall(q: Request, n: nat, calls: seq<Call>, call: Call, before: seq<nat>)
    requires 0 < n <= |q.candidates| && CallsAre(q, n - 1, calls, before)
    requires var c := q.candidates[n - 1].provider;
      CanCharge(c, q.customerBears) && call.provider == c.name && FairCharge(c, q.customerBears, q.nominal, call.charge)
    ensures CallsAre(q, n, calls + [call], before + [n - 1])
  {
    hide CanCharge, FairCharge;
    var at := before + [n - 1];
    forall i | 0 <= i < n
      ensures i in at <==> CanCharge(q.candidates[i].provider, q.customerBears)
    {
      assert i < n - 1 ==> (i in at <==> i in before);
    }
  }

  lemma NoMoreCall(q: Request, n: nat, calls: seq<Call>, at: seq<nat>)
    requires 0 < n <= |q.candidates| && CallsAre(q, n - 1, calls, at)
    requires !CanCharge(q.candidates[n - 1].provider, q.customerBears)
    ensures CallsAre(q, n, calls, at)
  {
    hide CanCharge, FairCharge;
    assert forall k :: 0 <= k < |at| ==> at[k] < n - 1;
  }

  /** The stored amounts, in the winner's own words: with the customer bearing the
      fee, the nominal and what was charged on top; otherwise what was charged and
      no fee. A winner that reports what it was asked for, or nothing, leaves
      amount and fee together equal to the charge of its call. */
  lemma StoredIsCharged(q: Request, w: nat, p: Stored)
    requires ValidRequest(q) && IsWinner(q, w) && IsWinnersPayment(q, w, p) && 1 <= q.nominal <= 1_000_000_000_000
    ensures var reported := q.answers[w].amount; var charge := Calls(q, w + 1)[|Calls(q, w + 1)| - 1].charge;
      && |Calls(q, w + 1)| > 0
      && FairCharge(q.candidates[w].provider, q.customerBears, q.nominal, charge)
      && p.provider == q.answers[w].name
      && p.amount + p.fee == (if reported > 0 then reported else charge)
      && (q.customerBears ==> p.amount == q.nominal && p.fee >= 0)
      && (!q.customerBears ==> p.fee == 0)
  {
    ChargeIsFair(q.candidates[w].provider, q.customerBears, q.nominal);
  }

  // ---------------------------------------------------------------- who is asked

  /** Which entries are usable: a registered provider that is not the sandbox and
      not marked unhealthy. One without a health record, or a degraded one, is. */
  lemma UsableMeans(g: Registry, key: string)
    ensures Usable(g, key) <==>
      && key in g.providers && g.providers[key].name != "sandbox"
      && (key !in g.healths || g.healths[key] == Healthy || g.healths[key] == Degraded)
  {
  }

  /** Where the preferences come from: the merchant's own configurations, each with
      its own failover setting, if it has any; otherwise the providers registered
      for the payment method, all with failover. */
  lemma PreferredMeans(g: Registry, configs: seq<Config>, paymentMethod: string, i: nat)
    ensures configs != [] ==>
      && |Preferred(g, configs, paymentMethod)| == |configs|
      && (i < |configs| ==> Preferred(g, configs, paymentMethod)[i] == Config(NormalizeKey(configs[i].providerName), configs[i].failover))
    ensures configs == [] && NormalizeKey(paymentMethod) in g.methods ==>
      var keys := g.methods[NormalizeKey(paymentMethod)];
      && |Preferred(g, configs, paymentMethod)| == |keys|
      && (i < |keys| ==> Preferred(g, configs, paymentMethod)[i] == Config(keys[i], true))
    ensures configs == [] && NormalizeKey(paymentMethod) !in g.methods ==> Preferred(g, configs, paymentMethod) == []
  {
  }

  /** Names that differ in case and in surrounding space are the same name. */
  lemma SpellingDoesNotMatter(left: string, name: string, right: string)
    requires (forall c <- left :: IsSpace(c)) && (forall c <- right :: IsSpace(c))
    requires IsKey(ToLower(name)) && (name != "" ==> !IsSpace(name[0]) && !IsSpace(name[|name| - 1]))
    ensures NormalizeKey(left + name + right) == ToLower(name)
  {
    if name == "" {
      AllSpace(left + name + right);
    } else {
      TrimsLeft(left, name + right);
      assert left + name + right == left + (name + right);
      TrimsRight(name, right);
    }
  }

  lemma {:induction false} AllSpace(s: string)
    requires forall c <- s :: IsSpace(c)
    ensures TrimLeft(s) == ""
  {
    if s != "" { AllSpace(s[1..]); }
  }

  lemma {:induction false} TrimsLeft(left: string, rest: string)
    requires (forall c <- left :: IsSpace(c)) && rest != "" && !IsSpace(rest[0])
    ensures TrimLeft(left + rest) == rest
  {
    if left == "" {
      assert left + rest == rest;
    } else {
      TrimsLeft(left[1..], rest);
      assert (left + rest)[1..] == left[1..] + rest;
    }
  }

  lemma {:induction false} TrimsRight(rest: string, right: string)
    requires (forall c <- right :: IsSpace(c)) && rest != "" && !IsSpace(rest[|rest| - 1])
    ensures TrimRight(rest + right) == rest
  {
    if right == "" {
      assert rest + right == rest;
    } else {
      var n := |right| - 1;
      TrimsRight(rest, right[..n]);
      assert (rest + right)[..|rest + right| - 1] == rest + right[..n];
      assert (rest + right)[|rest + right| - 1] == right[n];
    }
  }

  /** Every call goes to a registered provider that is neither the sandbox nor
      marked unhealthy. */
  lemma {:induction false} OnlyUsableContacted(g: Registry, prefer: seq<Config>, q: Request, n: nat, call: Call)
    requires q.candidates == UsableOf(g, prefer) && n <= |q.candidates|
    requires call in Calls(q, n)
    ensures call.provider != SANDBOX
    ensures exists key :: Available(g, key) && g.providers[key].name == call.provider
  {
    if Charge(q, n - 1).Ok? && call == Call(q.candidates[n - 1].provider.name, Charge(q, n - 1).value) {
      var at := UsableInOrder(g, prefer);
      assert Available(g, prefer[at[n - 1]].providerName);
    } else {
      OnlyUsableContacted(g, prefer, q, n - 1, call);
    }
  }

  /** The refinement, in terms of the merchant's own list: the winner's entry is
      usable and succeeds, and every usable entry before it failed with failover
      enabled. Unusable entries are passed over even with failover disabled. */
  lemma WinnerInPreferredOrder(g: Registry, prefer: seq<Config>, q: Request, w: nat) returns (at: seq<nat>)
    requires ValidRequest(q) && q.candidates == UsableOf(g, prefer)
    requires IsWinner(q, w)
    ensures Places(g, prefer, q.candidates, at)
    ensures Succeeds(q, w) && Usable(g, prefer[at[w]].providerName)
    ensures forall p :: 0 <= p < at[w] && Usable(g, prefer[p].providerName) ==>
              prefer[p].failover && exists i :: 0 <= i < w && at[i] == p && !Succeeds(q, i)
  {
    at := UsableInOrder(g, prefer);
    assert forall x :: w < x < |at| ==> at[w] < at[x];
    forall p | 0 <= p < at[w] && Usable(g, prefer[p].providerName)
      ensures prefer[p].failover && exists i :: 0 <= i < w && at[i] == p && !Succeeds(q, i)
    {
      var i :| 0 <= i < |at| && at[i] == p;
      assert q.candidates[i].failover;
    }
  }

  // ---------------------------------------------------------------- creating a payment

  datatype Merchant = Found(active: bool, customerBears: bool) | Unknown | LoadFailed

  datatype Stored = Stored(provider: string, amount: int, fee: int)

  predicate Admitted(amount: int, merchant: Merchant) {
    1 <= amount <= MAX_NOMINAL && merchant != LoadFailed && (merchant.Found? ==> merchant.active)
  }

  /** Who may create: any amount from 1 to a trillion, by a merchant that is active
      or not known here; an inactive one may not, and none whose load failed. */
  lemma AdmittedMeans(amount: int, merchant: Merchant)
    ensures Admitted(amount, merchant) <==>
      0 < amount <= 1_000_000_000_000
      && match merchant
         case Found(active, _) => active
         case Unknown => true
         case LoadFailed => false
  {
  }

  class PaymentService {
    var payments: seq<Stored>
    const router: ProviderRouter
    const sandbox: Option<Provider>

    constructor (router: ProviderRouter, sandbox: Option<Provider>)
      ensures this.router == router && this.sandbox == sandbox && payments == []
    {
      this.router := router;
      this.sandbox := sandbox;
      payments := [];
    }

    /** `answers` is what the candidates say if asked, `saved` whether the insert
        succeeds. The calls made to production providers are returned. */
    method CreateProduction(amount: int, merchant: Merchant, configs: Option<seq<Config>>, paymentMethod: string,
                            answers: seq<Answer>, saved: bool)
      returns (r: Result<Stored>, calls: seq<Call>)
      requires ValidRegistry(router.g)
      requires configs.Some? ==> |answers| == |UsableOf(router.g, Preferred(router.g, configs.value, paymentMethod))|
      modifies this`payments
      ensures payments == if r.Ok? then old(payments) + [r.value] else old(payments)
      ensures !Admitted(amount, merchant) || configs.None? ==> r.Err? && calls == []
      ensures Admitted(amount, merchant) && configs.Some? ==>
                var q := Request(UsableOf(router.g, Preferred(router.g, configs.value, paymentMethod)),
                                 merchant.Found? && merchant.customerBears, amount, answers);
                Creates(q, saved, r, calls)
    {
      hide NormalizeKey, ValidRegistry, Preferred, UsableOf;
      calls := [];
      if amount <= 0 || amount > MAX_NOMINAL { return Err(InvalidAmount), calls; }
      if merchant.LoadFailed? { return Err(MerchantNotLoaded), calls; }
      if merchant.Found? && !merchant.active { return Err(MerchantInactive), calls; }
      var customerBears := merchant.Found? && merchant.customerBears;
      var resolved := ResolveProviders(router, configs, paymentMethod);
      if resolved.Err? {
        assert configs.Some? ==> var none := Request([], customerBears, amount, answers);
          Tries(none, 0) && IsFailure(none, 0, resolved.error);
        return Err(resolved.error), calls;
      }
      var q := Request(resolved.value, customerBears, amount, answers);
      var winner, charge, failure;
      winner, charge, calls, failure := TryCandidates(q);
      if winner.None? { return Err(failure), calls; }
      forall w | IsWinner(q, w) ensures w == winner.value { OneWinner(q, w, winner.value); }
      hide Calls, Tries, IsFailure, Decided, IsWinner;
      r := StoreWinner(q, winner.value, charge, saved);
    }

    /** The amounts from the winner's answer, and the insert. */
    method StoreWinner(q: Request, w: nat, charge: int, saved: bool) returns (r: Result<Stored>)
      requires ValidRequest(q) && IsWinner(q, w) && Charge(q, w) == Ok(charge)
      modifies this`payments
      ensures payments == if r.Ok? then old(payments) + [r.value] else old(payments)
      ensures Decided(q, w, saved, r)
    {
      var resp := q.answers[w];
      var charged := if resp.amount <= 0 then charge else resp.amount;
      var stored := Stored(resp.name, q.nominal, 0);
      if q.customerBears {
        if charged < q.nominal { return Err(ChargedBelowNominal); }
        stored := stored.(fee := charged - q.nominal);
      } else if resp.amount > 0 {
        stored := stored.(amount := resp.amount);
      }
      if !saved { return Err(NotSaved); }
      payments := payments + [stored];
      return Ok(stored);
    }

    /** Sandbox payments ask the sandbox alone; `answer` is None when it fails. */
    method CreateSandbox(amount: int, merchant: Merchant, answer: Option<(string, int)>, saved: bool)
      returns (r: Result<Stored>)
      modifies this`payments
      ensures payments == if r.Ok? then old(payments) + [r.value] else old(payments)
      ensures r.Ok? <==>
                && Admitted(amount, merchant) && sandbox.Some? && answer.Some? && saved
                && var bears := merchant.Found? && merchant.customerBears;
                && ChargeFor(sandbox.value, bears, amount).Ok?
                && StoredAmounts(bears, amount, ChargeFor(sandbox.value, bears, amount).value, answer.value.1).Some?
      ensures r.Ok? ==> var bears := merchant.Found? && merchant.customerBears;
                Some((r.value.amount, r.value.fee))
                == StoredAmounts(bears, amount, ChargeFor(sandbox.value, bears, amount).value, answer.value.1)
    {
      if amount <= 0 || amount > MAX_NOMINAL { return Err(InvalidAmount); }
      if merchant.LoadFailed? { return Err(MerchantNotLoaded); }
      if merchant.Found? && !merchant.active { return Err(MerchantInactive); }
      var customerBears := merchant.Found? && merchant.customerBears;
      if sandbox.None? { return Err(NoSandbox); }
      var charge := ChargeFor(sandbox.value, customerBears, amount);
      if charge.Err? { return Err(charge.error); }
      if answer.None? { return Err(ProviderFailed); }
      var reported := answer.value.1;
      var charged := if reported <= 0 then charge.value else reported;
      var stored := Stored(answer.value.0, amount, 0);
      if customerBears {
        if charged < amount { return Err(ChargedBelowNominal); }
        stored := stored.(fee := charged - amount);
      } else if reported > 0 {
        stored := stored.(amount := reported);
      }
      if !saved { return Err(NotSaved); }
      payments := payments + [stored];
      return Ok(stored);
    }
  }

  /** What creation comes to, given the candidates: the winner's answer decides,
      with its own charge behind the stored amounts, and without a winner nothing
      is stored and the last failure is reported. */
  ghost predicate Creates(q: Request, saved: bool, r: Result<Stored>, calls: seq<Call>)
    requires ValidRequest(q)
  {
    && (exists n :: Tries(q, n) && calls == Calls(q, n)
                    && ((forall w :: !IsWinner(q, w)) ==> r.Err? && IsFailure(q, n, r.error)))
    && (forall w | IsWinner(q, w) :: calls == Calls(q, w + 1) && Decided(q, w, saved, r))
  }

  /** What the winner's answer comes to. */
  predicate Decided(q: Request, w: nat, saved: bool, r: Result<Stored>)
    requires ValidRequest(q) && IsWinner(q, w)
  {
    if ChargesTooLittle(q, w) then r == Err(ChargedBelowNominal)
    else if !saved then r == Err(NotSaved)
    else r.Ok? && IsWinnersPayment(q, w, r.value)
  }

  predicate ChargesTooLittle(q: Request, w: nat)
    requires ValidRequest(q) && IsWinner(q, w)
  {
    StoredAmounts(q.customerBears, q.nominal, Charge(q, w).value, q.answers[w].amount).None?
  }

  predicate IsWinnersPayment(q: Request, w: nat, p: Stored)
    requires ValidRequest(q) && IsWinner(q, w)
  {
    && p.provider == q.answers[w].name
    && StoredAmounts(q.customerBears, q.nominal, Charge(q, w).value, q.answers[w].amount) == Some((p.amount, p.fee))
  }

  /** A winner's payment is stored exactly if the insert succeeds and the winner
      does not report, for a customer-borne payment, less than the nominal. */
  lemma StoredExactlyIf(q: Request, w: nat, saved: bool, r: Result<Stored>)
    requires ValidRequest(q) && IsWinner(q, w) && Decided(q, w, saved, r) && 1 <= q.nominal <= 1_000_000_000_000
    ensures r.Ok? <==> saved && !(q.customerBears && 0 < q.answers[w].amount < q.nominal)
  {
    if q.customerBears {
      QuoteIsLeast(q.nominal, q.candidates[w].provider.bps.value);
    }
  }

  /** End to end: a winner that quotes 0.7% and charges at least its own quote
      leaves a payment whose merchant net is the nominal, and remits at least that. */
  lemma CreatedPaymentIsSolvent(q: Request, w: nat, p: Stored)
    requires ValidRequest(q) && IsWinner(q, w) && IsWinnersPayment(q, w, p)
    requires 1 <= q.nominal <= MAX_NOMINAL && q.customerBears
    requires q.candidates[w].provider.bps == Some(PROVIDER_BASIS_POINTS)
    requires q.answers[w].amount <= 0 || q.answers[w].amount >= Charge(q, w).value
    ensures p.fee > 0 && MerchantNetFor(p.amount, p.fee) == Some(q.nominal)
    ensures Kept(p.amount + p.fee, PROVIDER_BASIS_POINTS) >= q.nominal
  {
    SolventWhenCustomerBears(q.nominal, q.answers[w].amount);
  }
}
