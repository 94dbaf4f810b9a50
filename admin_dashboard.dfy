/**
 * The admin dashboard: six figures computed from the lists of users,
 * activities and donations. The three lists are fetched together, so one
 * failed fetch leaves the figures as they were.
 */
module AdminDashboard {
  import opened Http
  import opened Entities

  datatype Stats = Stats(users: nat, activities: nat, donations: nat, amount: real, active: nat, closed: nat)

  /** The figures before anything is loaded. */
  const NoStats: Stats := Stats(0, 0, 0, 0.0, 0, 0)

  /** The figures of the three lists. */
  function ComputeStats(users: seq<User>, acts: seq<Activity>, donations: seq<Donation>): (s: Stats)
    ensures s.users == |users| && s.activities == |acts| && s.donations == |donations|
    ensures s.amount == TotalAmount(donations)
    ensures s.active == CountStatus(acts, Open) && s.closed == CountStatus(acts, Closed)
    ensures s.active + s.closed == s.activities
  {
    OpenPlusClosed(acts);
    Stats(|users|, |acts|, |donations|, TotalAmount(donations),
          CountStatus(acts, Open), CountStatus(acts, Closed))
  }

  /** With positive amounts, money shows exactly when a donation does. */
  lemma AmountShowsDonations(users: seq<User>, acts: seq<Activity>, donations: seq<Donation>)
    requires forall k :: 0 <= k < |donations| ==> donations[k].amount > 0.0
    ensures ComputeStats(users, acts, donations).amount > 0.0 <==> ComputeStats(users, acts, donations).donations > 0
  {
    TotalAmountPositive(donations);
  }

  /** What the three fetches bring back together. */
  datatype Lists = Lists(users: seq<User>, activities: seq<Activity>, donations: seq<Donation>)

  class Dashboard {
    var loading: bool
    var stats: Stats

    constructor ()
      ensures loading && stats == NoStats
    {
      loading := true;
      stats := NoStats;
    }

    method StartLoad()
      modifies this
      ensures loading && stats == old(stats)
    {
      loading := true;
    }

    /** The three fetches settled: the figures are computed from the lists,
        or left as they were when any fetch failed; loading ends either way. */
    method LoadReply(reply: Reply<Lists>)
      modifies this
      ensures reply.Ok? ==> stats == ComputeStats(reply.value.users, reply.value.activities, reply.value.donations)
      ensures reply.Fail? ==> stats == old(stats)
      ensures !loading
      ensures stats.active + stats.closed == stats.activities || stats == old(stats)
    {
      match reply {
        case Ok(lists) =>
          stats := ComputeStats(lists.users, lists.activities, lists.donations);
        case Fail(_) =>
      }
      loading := false;
    }
  }
}
