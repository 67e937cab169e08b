/** The admin dashboard home (app/admin/dashboard/page.tsx): three product
    counters filled from a select of the `is_active` column. */
module DashboardHome {
  import opened Outcomes
  import opened Sequences

  /** A row of `select('is_active')`: only that column. */
  datatype StatusRow = StatusRow(is_active: bool)

  datatype Stats = Stats(totalProducts: nat, activeProducts: nat, inactiveProducts: nat)

  const InitialStats := Stats(0, 0, 0)

  /** The select `fetchStats` sends: the `is_active` column of every product, unordered. */
  const StatusColumn := Select("products", "is_active", false, None)

  predicate RowActive(r: StatusRow) {
    r.is_active
  }

  predicate RowInactive(r: StatusRow) {
    !r.is_active
  }

  /** The counters computed from the returned rows: the total is the number of
      rows, the other two count the active and inactive rows, and they add up
      to the total. */
  function StatsOf(rows: seq<StatusRow>): (s: Stats)
    ensures s.totalProducts == |rows|
    ensures s.activeProducts == |Filter(rows, RowActive)|
    ensures s.inactiveProducts == |Filter(rows, RowInactive)|
    ensures s.activeProducts + s.inactiveProducts == s.totalProducts
  {
    FilterComplementLength(rows, RowActive, RowInactive);
    Stats(|rows|, |Filter(rows, RowActive)|, |Filter(rows, RowInactive)|)
  }

  /** When every row is active the inactive counter is zero, and the other way round. */
  lemma UniformStatusStats(rows: seq<StatusRow>)
    ensures (forall i :: 0 <= i < |rows| ==> rows[i].is_active) ==>
              StatsOf(rows) == Stats(|rows|, |rows|, 0)
    ensures (forall i :: 0 <= i < |rows| ==> !rows[i].is_active) ==>
              StatsOf(rows) == Stats(|rows|, 0, |rows|)
  {
    if forall i :: 0 <= i < |rows| ==> rows[i].is_active {
      FilterKeepsAll(rows, RowActive);
    }
    if forall i :: 0 <= i < |rows| ==> !rows[i].is_active {
      FilterKeepsAll(rows, RowInactive);
    }
  }

  class DashboardPage {
    var stats: Stats

    constructor ()
      ensures stats == InitialStats
    {
      stats := InitialStats;
    }

    /** `fetchStats`: asks for the status column and reads only `data`, so an
        error counts as null data. When data came back (an empty array
        included) the counters are recomputed from it, otherwise they stay. */
    method FetchStats(outcome: FetchOutcome<StatusRow>) returns (query: Select)
      modifies this
      ensures query == StatusColumn
      ensures outcome.Fetched? && outcome.data.Some? ==> stats == StatsOf(outcome.data.value)
      ensures outcome.FetchFailed? || outcome == Fetched(None) ==> stats == old(stats)
    {
      query := StatusColumn;
      var data := if outcome.Fetched? then outcome.data else None;
      if data.Some? {
        stats := StatsOf(data.value);
      }
    }
  }
}
