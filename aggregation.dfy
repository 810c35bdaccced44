/** The aggregation service: two classifiers and the dashboard rows built from a
    read-only snapshot of the locations, categories and report log. */
module Aggregation {
  import opened Wrappers
  import opened Seqs
  import opened JsValues
  import Categories
  import Locations
  import Reports

  /** 'none' | 'low' | 'medium' | 'high' */
  datatype Confidence = NoConfidence | Low | Medium | High

  /** 'unknown' | 'short' | 'moderate' | 'long' */
  datatype Severity = Unknown | Short | Moderate | Long

  function ConfidenceRank(c: Confidence): nat {
    match c
    case NoConfidence => 0
    case Low => 1
    case Medium => 2
    case High => 3
  }

  /** `calculateConfidenceLevel(reportCount)`: 0 is none, 1-2 low, 3-9 medium,
      10 and more high. */
  function CalculateConfidenceLevel(reportCount: nat): (r: Confidence)
    ensures r == NoConfidence <==> reportCount == 0
    ensures r == Low <==> 1 <= reportCount <= 2
    ensures r == Medium <==> 3 <= reportCount <= 9
    ensures r == High <==> reportCount >= 10
  {
    if reportCount == 0 then NoConfidence
    else if reportCount < 3 then Low
    else if reportCount < 10 then Medium
    else High
  }

  /** More reports never lower the confidence level. */
  lemma ConfidenceMonotone(a: nat, b: nat)
    requires a <= b
    ensures ConfidenceRank(CalculateConfidenceLevel(a)) <= ConfidenceRank(CalculateConfidenceLevel(b))
  {
  }

  /** `categorizeWaitTime(minutes)`: null is unknown, up to 10 short, 11-30
      moderate, above 30 long. */
  function CategorizeWaitTime(minutes: Option<int>): (r: Severity)
    ensures r == Unknown <==> minutes.None?
    ensures r == Short <==> minutes.Some? && minutes.value <= 10
    ensures r == Moderate <==> minutes.Some? && 10 < minutes.value <= 30
    ensures r == Long <==> minutes.Some? && minutes.value > 30
  {
    match minutes
    case None => Unknown
    case Some(m) => if m <= 10 then Short else if m <= 30 then Moderate else Long
  }

  /** The `filters` argument; `None` marks an absent key. */
  datatype Filters = Filters(categoryId: Option<int>, search: Option<string>, activeOnly: Option<bool>)

  /** `activeOnly = true` applies when the key is absent. */
  predicate ActiveOnly(f: Filters) {
    f.activeOnly != Some(false)
  }

  predicate NameOrder(a: Locations.Location, b: Locations.Location) {
    LexLe(a.name, b.name)
  }

  ghost predicate NameSorted(s: seq<Locations.Location>) {
    Sorted(s, NameOrder)
  }

  function WithCategory(categoryId: int): Locations.Location -> bool {
    (l: Locations.Location) => l.categoryId == categoryId
  }

  function NameContains(search: string): Locations.Location -> bool {
    (l: Locations.Location) => ContainsIgnoreCase(l.name, search)
  }

  lemma FilterKeepsNameOrder(s: seq<Locations.Location>, p: Locations.Location -> bool)
    ensures NameSorted(s) ==> NameSorted(Filter(s, p))
  {
    if NameSorted(s) {
      FilterKeepsOrder(s, p, NameOrder);
    }
  }

  /** `if (categoryId) filtered = filtered.filter(loc => loc.categoryId === categoryId)` */
  function ApplyCategory(s: seq<Locations.Location>, categoryId: Option<int>): (r: seq<Locations.Location>)
    ensures forall l :: l in r <==> l in s && (Locations.CategoryGiven(categoryId) ==> l.categoryId == categoryId.value)
    ensures forall l ::
      multiset(r)[l] == if Locations.CategoryGiven(categoryId) ==> l.categoryId == categoryId.value then multiset(s)[l] else 0
    ensures NameSorted(s) ==> NameSorted(r)
  {
    if Locations.CategoryGiven(categoryId) then
      FilterCount(s, WithCategory(categoryId.value));
      FilterKeepsNameOrder(s, WithCategory(categoryId.value));
      Filter(s, WithCategory(categoryId.value))
    else s
  }

  /** `if (search) filtered = filtered.filter(loc => loc.name.toLowerCase().includes(searchLower))` */
  function ApplySearch(s: seq<Locations.Location>, search: Option<string>): (r: seq<Locations.Location>)
    ensures forall l :: l in r <==> l in s && (Locations.SearchGiven(search) ==> ContainsIgnoreCase(l.name, search.value))
    ensures forall l ::
      multiset(r)[l] == if Locations.SearchGiven(search) ==> ContainsIgnoreCase(l.name, search.value) then multiset(s)[l] else 0
    ensures NameSorted(s) ==> NameSorted(r)
  {
    if Locations.SearchGiven(search) then
      FilterCount(s, NameContains(search.value));
      FilterKeepsNameOrder(s, NameContains(search.value));
      Filter(s, NameContains(search.value))
    else s
  }

  /** The locations the dashboard lists: `findActive()` or `findAll(...)`, then
      the category and search filters applied again in JavaScript. */
  function SelectLocations(locations: seq<Locations.Location>, f: Filters): (r: seq<Locations.Location>)
    ensures forall l :: l in r <==>
      && l in locations
      && (ActiveOnly(f) ==> l.isActive)
      && Locations.MatchesFilter(l, Locations.LocationFilter(f.categoryId, f.search))
    ensures forall l ::
      multiset(r)[l] == if (ActiveOnly(f) ==> l.isActive) && Locations.MatchesFilter(l, Locations.LocationFilter(f.categoryId, f.search))
      then multiset(locations)[l] else 0
    ensures NameSorted(r)
  {
    var base := if ActiveOnly(f) then Locations.FindActive(locations)
      else Locations.FindAll(locations, Locations.LocationFilter(f.categoryId, f.search));
    ApplySearch(ApplyCategory(base, f.categoryId), f.search)
  }

  /** One dashboard entry. */
  datatype AggregatedRow = AggregatedRow(
    id: int,
    name: string,
    category: string,
    averageWaitTime: Option<int>,
    reportCount: nat,
    confidenceLevel: Confidence,
    severity: Severity,
    lastReportTime: Option<int>)

  /** The statistics of one location over the last two hours. */
  function RowFor(l: Locations.Location, category: string, log: seq<Reports.Report>, now: int): (r: AggregatedRow)
    ensures r.id == l.id && r.name == l.name && r.category == category
    ensures r.reportCount == |Reports.FindRecentByLocation(log, l.id, Reports.DefaultHoursBack, now)|
    ensures r.averageWaitTime.None? <==> r.reportCount == 0
    ensures r.lastReportTime.None? <==> r.reportCount == 0
    ensures r.averageWaitTime == Reports.CalculateAverage(log, l.id, Reports.DefaultHoursBack, now)
    ensures r.lastReportTime.Some? ==>
      exists x :: x in log && Reports.Counted(x, l.id, Reports.DefaultHoursBack, now)
        && x.submittedAt == r.lastReportTime.value
    ensures r.lastReportTime.Some? ==>
      forall x :: x in log && Reports.Counted(x, l.id, Reports.DefaultHoursBack, now) ==>
        x.submittedAt <= r.lastReportTime.value
    ensures r.confidenceLevel == CalculateConfidenceLevel(r.reportCount)
    ensures r.severity == CategorizeWaitTime(r.averageWaitTime)
  {
    var count := Reports.CountReports(log, l.id, Reports.DefaultHoursBack, now);
    var average := Reports.CalculateAverage(log, l.id, Reports.DefaultHoursBack, now);
    var recent := Reports.FindRecentByLocation(log, l.id, Reports.DefaultHoursBack, now);
    Reports.CountMatchesFind(log, l.id, Reports.DefaultHoursBack, now);
    Reports.CountZeroIffNoneCounted(log, l.id, Reports.DefaultHoursBack, now);
    var lastReportTime :=
      if recent != [] then
        Reports.FirstIsNewest(log, l.id, Reports.DefaultHoursBack, now);
        Some(recent[0].submittedAt)
      else None;
    AggregatedRow(l.id, l.name, category, average, count, CalculateConfidenceLevel(count),
      CategorizeWaitTime(average), lastReportTime)
  }

  /** `categoryMap[location.categoryId] || 'Unknown'`: a missing or empty name
      reads as 'Unknown'. */
  function ListCategoryName(names: map<int, string>, categoryId: int): string {
    if categoryId in names && names[categoryId] != "" then names[categoryId] else "Unknown"
  }

  /** `getAggregatedLocationData(filters)`: one row per selected location, in
      the same order. */
  function GetAggregatedLocationData(
    locations: seq<Locations.Location>, categories: seq<Categories.Category>, log: seq<Reports.Report>,
    f: Filters, now: int): (r: seq<AggregatedRow>)
    ensures var selected := SelectLocations(locations, f);
      && |r| == |selected|
      && forall i :: 0 <= i < |r| ==>
        r[i] == RowFor(selected[i], ListCategoryName(Categories.NameMap(Categories.FindAll(categories)), selected[i].categoryId), log, now)
  {
    var selected := SelectLocations(locations, f);
    var names := Categories.NameMap(Categories.FindAll(categories));
    seq(|selected|, i requires 0 <= i < |selected| => RowFor(selected[i], ListCategoryName(names, selected[i].categoryId), log, now))
  }

  /** Every listed row is an active location (by default) that passes the
      category and search filters, and each selected location has its row. */
  lemma ListedRowsMatchFilters(
    locations: seq<Locations.Location>, categories: seq<Categories.Category>, log: seq<Reports.Report>,
    f: Filters, now: int, i: int)
    requires 0 <= i < |GetAggregatedLocationData(locations, categories, log, f, now)|
    ensures var row := GetAggregatedLocationData(locations, categories, log, f, now)[i];
      exists l :: l in locations && l.id == row.id && l.name == row.name
        && (ActiveOnly(f) ==> l.isActive)
        && (Locations.CategoryGiven(f.categoryId) ==> l.categoryId == f.categoryId.value)
        && (Locations.SearchGiven(f.search) ==> ContainsIgnoreCase(row.name, f.search.value))
  {
    var selected := SelectLocations(locations, f);
    assert selected[i] in selected;
  }

  /** With unique category ids, a row's category is that category's name, or
      'Unknown' when the category is missing or its name is empty. */
  lemma ListCategoryIsLookup(categories: seq<Categories.Category>, categoryId: int)
    requires Categories.UniqueIds(categories)
    ensures var found := Categories.FindById(categories, categoryId);
      ListCategoryName(Categories.NameMap(Categories.FindAll(categories)), categoryId)
        == if found.Some? && found.value.name != "" then found.value.name else "Unknown"
  {
    var all := Categories.FindAll(categories);
    assert Categories.UniqueIds(all) by {
      forall a, b | a in all && b in all && a.id == b.id ensures a == b {
        assert a in multiset(all) && b in multiset(all);
      }
    }
    Categories.NameMapLookup(all, categoryId);
    Categories.FindByIdAfterFindAll(categories, categoryId);
  }

  /** `getLocationAggregatedData(locationId)`: `None` (null) for an unknown id;
      the category is the found category's name, or 'Unknown' when missing. */
  function GetLocationAggregatedData(
    locations: seq<Locations.Location>, categories: seq<Categories.Category>, log: seq<Reports.Report>,
    locationId: int, now: int): (r: Option<AggregatedRow>)
    ensures r.None? <==> Locations.FindById(locations, locationId).None?
    ensures r.Some? ==> r.value.id == locationId
    ensures r.Some? ==>
      var l := Locations.FindById(locations, locationId).value;
      var found := Categories.FindById(categories, l.categoryId);
      r.value == RowFor(l, if found.Some? then found.value.name else "Unknown", log, now)
  {
    match Locations.FindById(locations, locationId)
    case None => None
    case Some(l) =>
      var category := Categories.FindById(categories, l.categoryId);
      Some(RowFor(l, if category.Some? then category.value.name else "Unknown", log, now))
  }

  /** The single-location view agrees with the list for a listed location when
      category names are non-empty and ids are unique. */
  lemma SingleViewMatchesList(
    locations: seq<Locations.Location>, categories: seq<Categories.Category>, log: seq<Reports.Report>,
    f: Filters, now: int, i: int)
    requires Locations.RowIds(locations) && Categories.UniqueIds(categories)
    requires forall c :: c in categories ==> c.name != ""
    requires 0 <= i < |GetAggregatedLocationData(locations, categories, log, f, now)|
    ensures var row := GetAggregatedLocationData(locations, categories, log, f, now)[i];
      GetLocationAggregatedData(locations, categories, log, row.id, now) == Some(row)
  {
    var selected := SelectLocations(locations, f);
    var l := selected[i];
    assert l in locations;
    var k :| 0 <= k < |locations| && locations[k] == l;
    Locations.FindByIdIndex(locations, l.id);
    ListCategoryIsLookup(categories, l.categoryId);
  }
}
