// The payment statuses and the moves between them (internal/domain/payment).

module PaymentDomain {

  datatype Status = Pending | Paid | Expired | Failed | Cancelled | Refunded

  /** The statuses a payment may move to newStatus from. */
  function AllowedSourceStatuses(newStatus: Status): seq<Status> {
    match newStatus
    case Paid => [Pending, Expired]
    case Expired | Failed | Cancelled => [Pending]
    case Refunded => [Paid]
    case Pending => []
  }

  predicate IsTerminalStatus(status: Status) {
    status == Paid || status == Expired || status == Failed || status == Cancelled || status == Refunded
  }

  /** The source's loop over the allowed sources. */
  method CanTransitionTo(current: Status, newStatus: Status) returns (ok: bool)
    ensures ok <==> current in AllowedSourceStatuses(newStatus)
    ensures ok <==>
      || (newStatus == Paid && (current == Pending || current == Expired))
      || (newStatus == Expired && current == Pending)
      || (newStatus == Failed && current == Pending)
      || (newStatus == Cancelled && current == Pending)
      || (newStatus == Refunded && current == Paid)
  {
    var sources := AllowedSourceStatuses(newStatus);
    for i := 0 to |sources|
      invariant current !in sources[..i]
    {
      if sources[i] == current {
        return true;
      }
    }
    return false;
  }

  /** A history of statuses in which every move is an allowed one. */
  ghost predicate Path(trail: seq<Status>) {
    && |trail| > 0
    && trail[0] == Pending
    && forall i :: 0 < i < |trail| ==> trail[i - 1] in AllowedSourceStatuses(trail[i])
  }

  /** How far along the lifecycle a status is; every allowed move goes up. */
  function Rank(s: Status): nat {
    match s
    case Pending => 0
    case Expired => 1
    case Paid => 2
    case Failed | Cancelled | Refunded => 3
  }

  lemma {:induction false} RanksClimb(trail: seq<Status>, i: nat, j: nat)
    requires Path(trail) && i < j < |trail|
    ensures Rank(trail[i]) + (j - i) <= Rank(trail[j])
  {
    assert trail[j - 1] in AllowedSourceStatuses(trail[j]);
    if i < j - 1 {
      RanksClimb(trail, i, j - 1);
    }
  }

  /** Whatever moves are made, a payment changes status at most three times and
      never comes back to a status it has left, although "terminal" statuses
      (expired, paid) do have ways on. */
  lemma AtMostThreeChanges(trail: seq<Status>)
    requires Path(trail)
    ensures |trail| - 1 <= 3
    ensures forall i, j :: 0 <= i < j < |trail| ==> trail[i] != trail[j]
  {
    forall i, j | 0 <= i < j < |trail|
      ensures trail[i] != trail[j]
    {
      RanksClimb(trail, i, j);
    }
    if |trail| > 1 {
      RanksClimb(trail, 0, |trail| - 1);
    }
  }

  /** The histories a payment can have are exactly these eight: Expired before
      Paid is the way of a late settlement, and nothing follows Failed, Cancelled
      or Refunded. */
  lemma PathShape(trail: seq<Status>)
    ensures Path(trail) <==>
      || trail == [Pending]
      || trail == [Pending, Failed] || trail == [Pending, Cancelled] || trail == [Pending, Expired]
      || trail == [Pending, Paid] || trail == [Pending, Expired, Paid]
      || trail == [Pending, Paid, Refunded] || trail == [Pending, Expired, Paid, Refunded]
  {
    if Path(trail) {
      AtMostThreeChanges(trail);
      assert |trail| > 1 ==> trail[0] in AllowedSourceStatuses(trail[1]);
      assert |trail| > 2 ==> trail[1] in AllowedSourceStatuses(trail[2]);
      assert |trail| > 3 ==> trail[2] in AllowedSourceStatuses(trail[3]);
    }
  }
}
