// The provider fee in whole rupiah (internal/fee, payment_net.go) and what it
// means for who ends up with which money.

module Fee {
  import opened Options

  const DENOMINATOR := 10000
  const PROVIDER_BASIS_POINTS := 70
  const MAX_NOMINAL := 1_000_000_000_000
  const MIN_INT64 := -0x8000_0000_0000_0000
  const MAX_INT64 := 0x7fff_ffff_ffff_ffff

  datatype FeeError = InvalidNominal | InvalidRate
  datatype Quote = Quoted(total: int, fee: int) | Refused(error: FeeError)
  datatype Net = Net(net: int, fee: int) | NoNet(error: FeeError)

  /** What int64 arithmetic makes of an exact result: two's complement wrap. */
  function Int64(x: int): int {
    (x - MIN_INT64) % 0x1_0000_0000_0000_0000 + MIN_INT64
  }

  /** The smallest total whose net is at least nominal, in int64 arithmetic. */
  function QuoteTotalBasisPoints(nominal: int, bps: int): Quote {
    if nominal < 1 || nominal > MAX_NOMINAL then Refused(InvalidNominal)
    else if bps < 0 || bps >= DENOMINATOR then Refused(InvalidRate)
    else if bps == 0 then Quoted(nominal, 0)
    else
      var denom := Int64(DENOMINATOR - bps);
      var g := Int64(Int64(Int64(nominal * DENOMINATOR) + denom) - 1) / denom;
      Quoted(g, Int64(g - nominal))
  }

  /** What a merchant who bears the fee keeps, in int64 arithmetic. */
  function MerchantNetBasisPoints(nominal: int, bps: int): Net {
    if nominal < 1 || nominal > MAX_NOMINAL then NoNet(InvalidNominal)
    else if bps < 0 || bps >= DENOMINATOR then NoNet(InvalidRate)
    else
      var fee := Int64(Int64(Int64(nominal * bps) + DENOMINATOR) - 1) / DENOMINATOR;
      Net(Int64(nominal - fee), fee)
  }

  /** The provider's percentage, rounded up: the exact integer with
      ceil(g*b/D) = -floor(-g*b/D). */
  function CeilShare(g: int, b: int): int {
    -((-(g * b)) / DENOMINATOR)
  }

  /** What is left of a gross amount after the rounded-up fee. */
  function Kept(g: int, b: int): int {
    g - CeilShare(g, b)
  }

  // ---------------------------------------------------------------- exactness

  /** Keeping at least n of g is the linear condition g*(D-b) >= n*D. */
  lemma KeptAtLeast(g: int, b: int, n: int)
    ensures Kept(g, b) >= n <==> g * (DENOMINATOR - b) >= n * DENOMINATOR
  {
    var share := g * b;
    assert g * (DENOMINATOR - b) == g * DENOMINATOR - share;
  }

  lemma Scale(x: int, y: int, d: nat)
    requires x <= y
    ensures x * d <= y * d
  {
  }

  predicate FitsInt64(x: int) { MIN_INT64 <= x <= MAX_INT64 }

  lemma InRange(x: int)
    requires FitsInt64(x)
    ensures Int64(x) == x
  {
  }

  /** The closed form (x+d-1)/d is the ceiling of x/d. */
  lemma CeilDiv(x: int, d: int, g: int)
    requires 0 < d && g == (x + d - 1) / d
    ensures x <= g * d && (g - 1) * d < x
  {
    var y := x + d - 1;
    assert y == (y / d) * d + y % d;
    assert (g - 1) * d == g * d - d;
  }

  /** The quoted total G lies in [n, n*D] and is the ceiling of n*D/(D-b). */
  lemma QuoteBounds(n: int, b: int, g: int)
    requires 1 <= n <= MAX_NOMINAL && 0 <= b < DENOMINATOR
    requires g == (n * DENOMINATOR + (DENOMINATOR - b) - 1) / (DENOMINATOR - b)
    ensures g * (DENOMINATOR - b) >= n * DENOMINATOR > (g - 1) * (DENOMINATOR - b)
    ensures n <= g <= n * DENOMINATOR
  {
    var d := DENOMINATOR - b;
    CeilDiv(n * DENOMINATOR, d, g);
    Scale(d, DENOMINATOR, n);
    assert (n - 1) * d == n * d - d;
    if g < n {
      Scale(g, n - 1, d);
    }
    if g > n * DENOMINATOR {
      Scale(n * DENOMINATOR, g - 1, d);
      Scale(1, d, n * DENOMINATOR);
    }
  }

  /** No product, sum or difference in the two functions leaves int64. */
  lemma QuoteFitsInt64(n: int, b: int)
    requires 1 <= n <= MAX_NOMINAL && 0 < b < DENOMINATOR
    ensures var g := (n * DENOMINATOR + (DENOMINATOR - b) - 1) / (DENOMINATOR - b);
      && QuoteTotalBasisPoints(n, b) == Quoted(g, g - n)
      && FitsInt64(DENOMINATOR - b) && FitsInt64(n * DENOMINATOR) && FitsInt64(n * DENOMINATOR + (DENOMINATOR - b))
      && FitsInt64(n * DENOMINATOR + (DENOMINATOR - b) - 1) && FitsInt64(g) && FitsInt64(g - n)
  {
    var g := (n * DENOMINATOR + (DENOMINATOR - b) - 1) / (DENOMINATOR - b);
    QuoteBounds(n, b, g);
    InRange(DENOMINATOR - b);
    InRange(n * DENOMINATOR);
    InRange(n * DENOMINATOR + (DENOMINATOR - b));
    InRange(n * DENOMINATOR + (DENOMINATOR - b) - 1);
    InRange(g - n);
  }

  lemma NetFitsInt64(n: int, b: int)
    requires 1 <= n <= MAX_NOMINAL && 0 <= b < DENOMINATOR
    ensures MerchantNetBasisPoints(n, b) == Net(Kept(n, b), CeilShare(n, b))
    ensures 0 <= Kept(n, b) <= n
    ensures FitsInt64(n * b) && FitsInt64(n * b + DENOMINATOR) && FitsInt64(n * b + DENOMINATOR - 1)
    ensures FitsInt64(CeilShare(n, b)) && FitsInt64(n - CeilShare(n, b))
  {
    Scale(0, b, n);
    Scale(b, DENOMINATOR - 1, n);
    var x := n * b;
    assert 0 <= x <= n * (DENOMINATOR - 1);
    InRange(x);
    InRange(x + DENOMINATOR);
    InRange(x + DENOMINATOR - 1);
    var share := (x + DENOMINATOR - 1) / DENOMINATOR;
    assert share == -((-x) / DENOMINATOR);
    InRange(n - share);
  }

  /** The closed form is the least total that leaves the merchant whole, for
      every nominal and rate the function accepts; it leaves exactly n. */
  lemma QuoteIsLeast(n: int, b: int)
    requires 1 <= n <= MAX_NOMINAL && 0 <= b < DENOMINATOR
    ensures QuoteTotalBasisPoints(n, b).Quoted?
    ensures var q := QuoteTotalBasisPoints(n, b);
      && q.fee == q.total - n >= 0
      && Kept(q.total, b) == n
      && forall g :: n <= Kept(g, b) <==> q.total <= g
  {
    var d := DENOMINATOR - b;
    var total := (n * DENOMINATOR + d - 1) / d;
    QuoteBounds(n, b, total);
    if b > 0 {
      QuoteFitsInt64(n, b);
    } else {
      assert total == n;
    }
    forall g
      ensures n <= Kept(g, b) <==> total <= g
    {
      LeastAt(n, b, total, g);
    }
    assert n <= Kept(total, b);
    KeptStep(total - 1, b);
    assert !(n <= Kept(total - 1, b));
  }

  lemma LeastAt(n: int, b: int, total: int, g: int)
    requires 0 <= b < DENOMINATOR
    requires total * (DENOMINATOR - b) >= n * DENOMINATOR > (total - 1) * (DENOMINATOR - b)
    ensures n <= Kept(g, b) <==> total <= g
  {
    KeptAtLeast(g, b, n);
    if total <= g {
      Scale(total, g, DENOMINATOR - b);
    } else {
      Scale(g, total - 1, DENOMINATOR - b);
    }
  }

  /** One more rupiah of gross is at most one more rupiah of net. */
  lemma KeptStep(g: int, b: int)
    requires 0 <= b < DENOMINATOR
    ensures Kept(g + 1, b) <= Kept(g, b) + 1
  {
    assert (g + 1) * b == g * b + b;
  }

  /** Were the provider to round its fee down, the merchant would be at most
      one rupiah ahead. */
  lemma RoundingDownGainsAtMostOne(n: int, b: int)
    requires 1 <= n <= MAX_NOMINAL && 0 <= b < DENOMINATOR
    ensures QuoteTotalBasisPoints(n, b).Quoted?
    ensures var g := QuoteTotalBasisPoints(n, b).total; n <= g - (g * b) / DENOMINATOR <= n + 1
  {
    QuoteIsLeast(n, b);
    var g := QuoteTotalBasisPoints(n, b).total;
    var x := g * b;
  }

  // ----------------------------------------------------------------- solvency

  /** The amount and fee columns CreatePayment stores: `reported` is what the
      provider says it charges, `requested` what it was asked to charge. None
      when a customer-borne charge is below the nominal. */
  function StoredAmounts(customerBears: bool, nominal: int, requested: int, reported: int): Option<(int, int)> {
    var charged := if reported <= 0 then requested else reported;
    if customerBears then
      if charged < nominal then None else Some((nominal, charged - nominal))
    else if reported > 0 then Some((reported, 0))
    else Some((nominal, 0))
  }

  /** merchantNetFor: what the merchant is credited, decided by the stored
      amounts; None where the fee function refuses. */
  function MerchantNetFor(amount: int, fee: int): Option<int> {
    if fee > 0 then Some(amount)
    else match MerchantNetBasisPoints(amount, PROVIDER_BASIS_POINTS)
      case Net(net, _) => Some(net)
      case NoNet(_) => None
  }

  /** What merchantNetFor credits, for every amount that can be stored: the
      nominal when the customer paid a fee on top, and otherwise the amount less
      0.7% of it rounded up; nothing above a trillion. */
  lemma MerchantNetIs(amount: int, fee: int)
    requires amount > 0
    ensures fee > 0 ==> MerchantNetFor(amount, fee) == Some(amount)
    ensures fee <= 0 && amount <= 1_000_000_000_000 ==> MerchantNetFor(amount, fee) == Some(amount - (amount * 70 + 9_999) / 10_000)
    ensures fee <= 0 && amount > 1_000_000_000_000 ==> MerchantNetFor(amount, fee) == None
  {
    if fee <= 0 && amount <= MAX_NOMINAL {
      NetFitsInt64(amount, PROVIDER_BASIS_POINTS);
      var x := amount * 70;
      assert (x + 9_999) / 10_000 == -((-x) / 10_000);
    }
  }

  lemma MerchantNetNonNegative(amount: int, fee: int)
    requires amount > 0
    ensures MerchantNetFor(amount, fee).Some? ==> 0 <= MerchantNetFor(amount, fee).value <= amount
  {
    if fee <= 0 && amount <= MAX_NOMINAL {
      NetFitsInt64(amount, PROVIDER_BASIS_POINTS);
    }
  }

  /** A provider that charges at least the quoted total remits, after keeping
      its rounded-up 0.7% of everything the customer paid, at least what the
      merchant is credited. The stored fee is positive, so the customer-borne
      branch of MerchantNetFor is the one taken. */
  lemma SolventWhenCustomerBears(n: int, reported: int)
    requires 1 <= n <= MAX_NOMINAL
    requires QuoteTotalBasisPoints(n, PROVIDER_BASIS_POINTS).Quoted?
    requires reported <= 0 || reported >= QuoteTotalBasisPoints(n, PROVIDER_BASIS_POINTS).total
    ensures var requested := QuoteTotalBasisPoints(n, PROVIDER_BASIS_POINTS).total;
      var stored := StoredAmounts(true, n, requested, reported);
      && stored.Some? && stored.value.1 > 0
      && MerchantNetFor(stored.value.0, stored.value.1) == Some(n)
      && Kept(stored.value.0 + stored.value.1, PROVIDER_BASIS_POINTS) >= n
  {
    QuoteIsLeast(n, PROVIDER_BASIS_POINTS);
    assert Kept(n, PROVIDER_BASIS_POINTS) < n;
  }

  /** When the merchant bears the fee, the provider remits exactly the net that
      is credited, whatever amount it reports; an amount above MAX_NOMINAL is
      never credited at all. */
  lemma SolventWhenMerchantBears(n: int, reported: int)
    requires 1 <= n <= MAX_NOMINAL
    ensures var stored := StoredAmounts(false, n, n, reported);
      && stored.Some? && stored.value.1 == 0
      && MerchantNetFor(stored.value.0, 0) ==
           if stored.value.0 <= MAX_NOMINAL then Some(Kept(stored.value.0 + stored.value.1, PROVIDER_BASIS_POINTS)) else None
  {
    var amount := StoredAmounts(false, n, n, reported).value.0;
    if amount <= MAX_NOMINAL {
      NetFitsInt64(amount, PROVIDER_BASIS_POINTS);
    }
  }

  /** The hypothesis of SolventWhenCustomerBears is needed, and exactly:
      below the quote the provider remits less than it takes to pay out the
      nominal. The code lets such a charge through down to the nominal itself;
      at the nominal the fee column is 0 and the merchant branch is taken. */
  lemma UnderchargeIsInsolvent(n: int, reported: int)
    requires 1 <= n <= MAX_NOMINAL && reported > 0
    requires QuoteTotalBasisPoints(n, PROVIDER_BASIS_POINTS).Quoted?
    ensures var requested := QuoteTotalBasisPoints(n, PROVIDER_BASIS_POINTS).total;
      var stored := StoredAmounts(true, n, requested, reported);
      && (stored.None? <==> reported < n)
      && (reported == n ==> MerchantNetFor(n, stored.value.1) == Some(Kept(n, PROVIDER_BASIS_POINTS)))
      && (n < reported ==>
            (MerchantNetFor(n, stored.value.1).value <= Kept(reported, PROVIDER_BASIS_POINTS) <==> requested <= reported))
  {
    QuoteIsLeast(n, PROVIDER_BASIS_POINTS);
    NetFitsInt64(n, PROVIDER_BASIS_POINTS);
  }
}
