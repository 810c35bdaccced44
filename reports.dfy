/** The append-only `wait_time_reports` log: one insert and three queries over a
    time window ending at `now`. Timestamps are whole seconds. */
module Reports {
  import opened Wrappers
  import opened Seqs
  import Locations

  datatype Report = Report(id: int, locationId: int, waitTimeMinutes: int, submittedAt: int)

  /** The look-back window the aggregation service always uses. */
  const DefaultHoursBack: nat := 2

  /** `submittedAt >= datetime('now', '-N hours')`: the lower bound is inclusive. */
  predicate InWindow(submittedAt: int, hoursBack: nat, now: int) {
    submittedAt >= now - hoursBack * 3600
  }

  /** The WHERE clause shared by the three queries. */
  predicate Counted(r: Report, locationId: int, hoursBack: nat, now: int) {
    r.locationId == locationId && InWindow(r.submittedAt, hoursBack, now)
  }

  function InScope(locationId: int, hoursBack: nat, now: int): Report -> bool {
    (r: Report) => Counted(r, locationId, hoursBack, now)
  }

  /** `ORDER BY submittedAt DESC`; rows with the same timestamp come latest
      insert first, as a backwards scan of the (locationId, submittedAt) index
      yields them. */
  predicate NewestFirst(a: Report, b: Report) {
    a.submittedAt > b.submittedAt || (a.submittedAt == b.submittedAt && a.id >= b.id)
  }

  lemma NewestFirstTotal()
    ensures TotalPreorder(NewestFirst)
  {
  }

  /** `findRecentByLocation(locationId, hoursBack)`: exactly the location's
      reports inside the window, newest first. */
  function FindRecentByLocation(log: seq<Report>, locationId: int, hoursBack: nat, now: int): (r: seq<Report>)
    ensures multiset(r) == multiset(Filter(log, InScope(locationId, hoursBack, now)))
    ensures forall x :: x in r <==> x in log && Counted(x, locationId, hoursBack, now)
    ensures forall i, j :: 0 <= i < j < |r| ==> r[i].submittedAt >= r[j].submittedAt
  {
    NewestFirstTotal();
    var selected := Filter(log, InScope(locationId, hoursBack, now));
    var sorted := Sort(selected, NewestFirst);
    assert forall x :: x in sorted <==> x in selected by {
      forall x ensures x in sorted <==> x in selected {
        assert x in sorted <==> x in multiset(sorted);
      }
    }
    sorted
  }

  /** The first row of `findRecentByLocation`, which the aggregation reports as
      `lastReportTime`, is the latest report in the window. */
  lemma FirstIsNewest(log: seq<Report>, locationId: int, hoursBack: nat, now: int)
    requires FindRecentByLocation(log, locationId, hoursBack, now) != []
    ensures var first := FindRecentByLocation(log, locationId, hoursBack, now)[0];
      first in log && Counted(first, locationId, hoursBack, now) &&
      forall x :: x in log && Counted(x, locationId, hoursBack, now) ==> x.submittedAt <= first.submittedAt
  {
    var recent := FindRecentByLocation(log, locationId, hoursBack, now);
    forall x | x in log && Counted(x, locationId, hoursBack, now)
      ensures x.submittedAt <= recent[0].submittedAt
    {
      var k :| 0 <= k < |recent| && recent[k] == x;
      if k > 0 {
        assert recent[0].submittedAt >= recent[k].submittedAt;
      }
    }
  }

  /** `countReports(locationId, hoursBack)`: `SELECT COUNT(*)` over the window. */
  function CountReports(log: seq<Report>, locationId: int, hoursBack: nat, now: int): nat {
    if log == [] then 0
    else
      CountReports(log[..|log| - 1], locationId, hoursBack, now)
      + (if Counted(log[|log| - 1], locationId, hoursBack, now) then 1 else 0)
  }

  /** `SUM(waitTimeMinutes)` over the window. */
  function SumMinutes(log: seq<Report>, locationId: int, hoursBack: nat, now: int): int {
    if log == [] then 0
    else
      SumMinutes(log[..|log| - 1], locationId, hoursBack, now)
      + (if Counted(log[|log| - 1], locationId, hoursBack, now) then log[|log| - 1].waitTimeMinutes else 0)
  }

  /** `Math.round(sum / n)` for integers: the nearest integer, halves rounded up. */
  function RoundHalfUp(sum: int, n: int): (r: int)
    requires n > 0
    ensures 2 * n * r <= 2 * sum + n < 2 * n * r + 2 * n
  {
    (2 * sum + n) / (2 * n)
  }

  /** `calculateAverage(locationId, hoursBack)`: `None` (null) when the window is
      empty, otherwise the rounded mean of the window's minutes. */
  function CalculateAverage(log: seq<Report>, locationId: int, hoursBack: nat, now: int): (r: Option<int>)
    ensures r.None? <==> forall x :: x in log ==> !Counted(x, locationId, hoursBack, now)
  {
    CountZeroIffNoneCounted(log, locationId, hoursBack, now);
    var n := CountReports(log, locationId, hoursBack, now);
    if n == 0 then None else Some(RoundHalfUp(SumMinutes(log, locationId, hoursBack, now), n))
  }

  lemma {:induction false} CountZeroIffNoneCounted(log: seq<Report>, locationId: int, hoursBack: nat, now: int)
    ensures CountReports(log, locationId, hoursBack, now) == 0
      <==> forall x :: x in log ==> !Counted(x, locationId, hoursBack, now)
  {
    if log != [] {
      var init := log[..|log| - 1];
      assert log == init + [log[|log| - 1]];
      CountZeroIffNoneCounted(init, locationId, hoursBack, now);
    }
  }

  /** `countReports` equals the length of `findRecentByLocation` for the same
      location and window. */
  lemma {:induction false} CountMatchesFind(log: seq<Report>, locationId: int, hoursBack: nat, now: int)
    ensures CountReports(log, locationId, hoursBack, now) == |FindRecentByLocation(log, locationId, hoursBack, now)|
  {
    CountIsFilterLength(log, InScope(locationId, hoursBack, now), locationId, hoursBack, now);
    var r := FindRecentByLocation(log, locationId, hoursBack, now);
    assert |r| == |multiset(r)|;
  }

  lemma {:induction false} CountIsFilterLength(log: seq<Report>, p: Report -> bool, locationId: int, hoursBack: nat, now: int)
    requires p == InScope(locationId, hoursBack, now)
    ensures CountReports(log, locationId, hoursBack, now) == |Filter(log, p)|
  {
    if log != [] {
      var init := log[..|log| - 1];
      var last := log[|log| - 1];
      assert log == init + [last];
      CountIsFilterLength(init, p, locationId, hoursBack, now);
      FilterAppend(init, last, p);
    }
  }

  /** Totals over the window lie between `n * lo` and `n * hi` when every minute
      in the window does. */
  lemma {:induction false} SumBounds(log: seq<Report>, locationId: int, hoursBack: nat, now: int, lo: int, hi: int)
    requires forall x :: x in log && Counted(x, locationId, hoursBack, now) ==> lo <= x.waitTimeMinutes <= hi
    ensures var n := CountReports(log, locationId, hoursBack, now);
      n * lo <= SumMinutes(log, locationId, hoursBack, now) <= n * hi
  {
    if log != [] {
      var init := log[..|log| - 1];
      assert forall x :: x in init ==> x in log;
      SumBounds(init, locationId, hoursBack, now, lo, hi);
      var n0 := CountReports(init, locationId, hoursBack, now);
      if Counted(log[|log| - 1], locationId, hoursBack, now) {
        assert (n0 + 1) * lo == n0 * lo + lo && (n0 + 1) * hi == n0 * hi + hi;
      }
    }
  }

  /** A rounded mean of `n` values lies between their bounds. */
  lemma RoundHalfUpBounds(sum: int, n: int, lo: int, hi: int)
    requires n > 0 && n * lo <= sum <= n * hi
    ensures lo <= RoundHalfUp(sum, n) <= hi
  {
    var r := RoundHalfUp(sum, n);
    var k := 2 * n;
    assert k * lo == 2 * (n * lo) && k * hi == 2 * (n * hi);
    assert k * (r + 1 - lo) == k * r + k - k * lo;
    assert k * (hi + 1 - r) == k * hi + k - k * r;
    PositiveFactor(k, r + 1 - lo);
    PositiveFactor(k, hi + 1 - r);
  }

  /** A positive product with a natural factor has a positive other factor. */
  lemma PositiveFactor(k: nat, d: int)
    ensures k * d > 0 ==> d > 0
  {
    if d <= 0 {
      MulMonotone(k, d, 0);
    }
  }

  lemma MulMonotone(k: nat, a: int, b: int)
    requires a <= b
    ensures k * a <= k * b
  {
    assert k * b - k * a == k * (b - a);
  }

  /** A non-null average lies between the least and the greatest wait time in
      the window. */
  lemma AverageBounds(log: seq<Report>, locationId: int, hoursBack: nat, now: int, lo: int, hi: int)
    requires forall x :: x in log && Counted(x, locationId, hoursBack, now) ==> lo <= x.waitTimeMinutes <= hi
    requires CalculateAverage(log, locationId, hoursBack, now).Some?
    ensures lo <= CalculateAverage(log, locationId, hoursBack, now).value <= hi
  {
    SumBounds(log, locationId, hoursBack, now, lo, hi);
    RoundHalfUpBounds(SumMinutes(log, locationId, hoursBack, now), CountReports(log, locationId, hoursBack, now), lo, hi);
  }

  /** A report older than the window changes neither the count nor the average. */
  lemma StaleReportIgnored(log: seq<Report>, stale: Report, locationId: int, hoursBack: nat, now: int)
    requires !InWindow(stale.submittedAt, hoursBack, now)
    ensures CountReports(log + [stale], locationId, hoursBack, now) == CountReports(log, locationId, hoursBack, now)
    ensures CalculateAverage(log + [stale], locationId, hoursBack, now) == CalculateAverage(log, locationId, hoursBack, now)
  {
    assert (log + [stale])[..|log|] == log;
  }

  /** Row ids follow insertion order: the log is only ever appended to. */
  ghost predicate RowIds(log: seq<Report>) {
    forall i :: 0 <= i < |log| ==> log[i].id == i + 1
  }

  class ReportRepository {
    var rows: seq<Report>

    ghost predicate Valid()
      reads this
    {
      RowIds(rows)
    }

    constructor()
      ensures Valid() && rows == []
    {
      rows := [];
    }

    /** `create({locationId, waitTimeMinutes})`: appends one report stamped `now`
        with the next id and returns it; the foreign key to `locations` rejects
        an unknown location and leaves the log as it was. */
    method Create(locationId: int, waitTimeMinutes: int, now: int, locations: seq<Locations.Location>)
      returns (r: Result<Report, string>)
      requires Valid()
      modifies this
      ensures Valid()
      ensures Locations.FindById(locations, locationId).None? ==>
        r == Err(Locations.ForeignKeyFailed) && rows == old(rows)
      ensures Locations.FindById(locations, locationId).Some? ==>
        r == Ok(Report(|old(rows)| + 1, locationId, waitTimeMinutes, now)) && rows == old(rows) + [r.value]
    {
      if Locations.FindById(locations, locationId).None? {
        return Err(Locations.ForeignKeyFailed);
      }
      var report := Report(|rows| + 1, locationId, waitTimeMinutes, now);
      rows := rows + [report];
      return Ok(report);
    }
  }
}
