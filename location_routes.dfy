/** `GET /api/locations`, `POST /api/locations` and `PUT /api/locations/:id`. */
module LocationRoutes {
  import opened Wrappers
  import opened JsValues
  import opened Http
  import Validation
  import Categories
  import Locations
  import Reports
  import Aggregation

  /** The query string of `GET /api/locations`; `None` marks an absent key. */
  datatype LocationQuery = LocationQuery(category: Option<string>, search: Option<string>)

  predicate Truthy(s: Option<string>) {
    s.Some? && s.value != ""
  }

  /** The filters the handler builds: always `activeOnly: true`, plus the
      parsed category and the search text when given. */
  function QueryFilters(q: LocationQuery): (r: Aggregation.Filters)
    requires Truthy(q.category) ==> ParseInt(q.category.value).Some?
    ensures Aggregation.ActiveOnly(r)
    ensures r.categoryId.Some? <==> Truthy(q.category)
    ensures r.categoryId.Some? ==> ParseInt(q.category.value) == r.categoryId
    ensures r.search == if Truthy(q.search) then q.search else None
  {
    Aggregation.Filters(
      if Truthy(q.category) then ParseInt(q.category.value) else None,
      if Truthy(q.search) then q.search else None,
      Some(true))
  }

  /** The GET handler: a category that `parseInt` cannot read is a 400;
      otherwise the dashboard rows of the active locations that pass the
      filters. */
  function GetLocations(q: LocationQuery, locations: seq<Locations.Location>, categories: seq<Categories.Category>,
    log: seq<Reports.Report>, now: int): (r: Reply<seq<Aggregation.AggregatedRow>, NoDetails>)
    ensures r.Failure? <==> Truthy(q.category) && ParseInt(q.category.value).None?
    ensures r.Failure? ==> r == Failure(400, InvalidCategory, "Category must be a valid number", None)
    ensures r.Success? ==>
      r.status == 200 && r.body == Aggregation.GetAggregatedLocationData(locations, categories, log, QueryFilters(q), now)
  {
    if Truthy(q.category) && ParseInt(q.category.value).None? then
      Failure(400, InvalidCategory, "Category must be a valid number", None)
    else
      Success(200, Aggregation.GetAggregatedLocationData(locations, categories, log, QueryFilters(q), now))
  }

  /** Every row the GET handler lists is an active location in the requested
      category (unless that is 0) whose name contains the search text. */
  lemma ListedLocationsAreActiveAndMatch(q: LocationQuery, locations: seq<Locations.Location>,
    categories: seq<Categories.Category>, log: seq<Reports.Report>, now: int, i: int)
    requires GetLocations(q, locations, categories, log, now).Success?
    requires 0 <= i < |GetLocations(q, locations, categories, log, now).body|
    ensures var row := GetLocations(q, locations, categories, log, now).body[i];
      exists l :: l in locations && l.id == row.id && l.isActive
        && (Truthy(q.category) && ParseInt(q.category.value) != Some(0) ==>
              Some(l.categoryId) == ParseInt(q.category.value))
        && (Truthy(q.search) ==> ContainsIgnoreCase(row.name, q.search.value))
  {
    Aggregation.ListedRowsMatchFilters(locations, categories, log, QueryFilters(q), now, i);
  }

  /** "0" reads back as 0 under both `parseInt` and `Number`. */
  lemma ZeroIsRendered()
    ensures ParseInt("0") == Some(0) && ToNumber(Str("0")) == Some(0)
  {
    assert IntToString(0) == "0";
    ParseIntOfRendered(0, "");
    assert IntToString(0) + "" == "0";
    StringToNumberOfRendered(0);
  }

  /** `?category=0` parses, but 0 is falsy downstream: it lists the same rows as
      no category at all. */
  lemma CategoryZeroIsNoFilter(search: Option<string>, locations: seq<Locations.Location>,
    categories: seq<Categories.Category>, log: seq<Reports.Report>, now: int)
    ensures GetLocations(LocationQuery(Some("0"), search), locations, categories, log, now)
      == GetLocations(LocationQuery(None, search), locations, categories, log, now)
  {
    ZeroIsRendered();
    var withZero := QueryFilters(LocationQuery(Some("0"), search));
    var without := QueryFilters(LocationQuery(None, search));
    assert Aggregation.SelectLocations(locations, withZero) == Aggregation.SelectLocations(locations, without);
  }

  /** The `catch` of the POST handler: a message mentioning 'already exists' is
      a 409 carrying it, anything else a 500. */
  function CreateFailure(message: string): (r: Reply<Locations.Location, Validation.LocationErrors>)
    ensures r.Failure? && r.details.None?
    ensures r.status == 409 <==> Includes(message, "already exists")
    ensures r.status == 409 ==> r.code == DuplicateLocation && r.message == message
    ensures r.status != 409 ==> r == Failure(500, InternalError, "Failed to create location", None)
  {
    if Includes(message, "already exists") then Failure(409, DuplicateLocation, message, None)
    else Failure(500, InternalError, "Failed to create location", None)
  }

  /** The POST handler. The validated data never carry a state, city or address,
      so the new location is state-less, the duplicate check cannot fire, and
      with the category checked first the insert always succeeds. */
  method CreateLocation(body: Validation.LocationBody, repo: Locations.LocationRepository,
    categories: seq<Categories.Category>, now: int)
    returns (r: Reply<Locations.Location, Validation.LocationErrors>)
    requires repo.Valid()
    modifies repo
    ensures repo.Valid()
    ensures var v := Validation.ValidateLocationData(body, false);
      && (v.Err? ==> r == CreateFailure(v.error) && repo.rows == old(repo.rows))
      && (v.Ok? && v.value.Invalid? ==>
            r == Failure(400, ValidationError, "Invalid location data", Some(v.value.errors))
            && repo.rows == old(repo.rows))
      && (v.Ok? && v.value.Valid? && !Categories.Exists(categories, v.value.data.categoryId.value) ==>
            r == Failure(400, InvalidCategory, "Category does not exist", None)
            && repo.rows == old(repo.rows))
      && (v.Ok? && v.value.Valid? && Categories.Exists(categories, v.value.data.categoryId.value) ==>
            var d := v.value.data;
            var row := Locations.CreateOutcome(old(repo.rows),
              Locations.NewLocation(d.name.value, d.categoryId.value, None, None, None), categories, now);
            && row.Ok?
            && r == Success(201, row.value)
            && repo.rows == old(repo.rows) + [row.value])
  {
    var validation := Validation.ValidateLocationData(body, false);
    if validation.Err? {
      return CreateFailure(validation.error);
    }
    var verdict := validation.value;
    if verdict.Invalid? {
      return Failure(400, ValidationError, "Invalid location data", Some(verdict.errors));
    }
    var data := verdict.data;
    if !Categories.Exists(categories, data.categoryId.value) {
      return Failure(400, InvalidCategory, "Category does not exist", None);
    }
    var created := repo.Create(Locations.NewLocation(data.name.value, data.categoryId.value, None, None, None), categories, now);
    r := match created
      case Ok(location) => Success(201, location)
      case Err(message) => CreateFailure(message);
  }

  /** Posting the same valid body twice creates two rows: with no state in the
      validated data, the duplicate check never matches. */
  lemma SamePostTwiceCreatesTwo(rows: seq<Locations.Location>, name: string, categoryId: int,
    categories: seq<Categories.Category>, now: int)
    requires Categories.Exists(categories, categoryId)
    ensures var data := Locations.NewLocation(name, categoryId, None, None, None);
      var first := Locations.CreateOutcome(rows, data, categories, now);
      && first.Ok?
      && Locations.CreateOutcome(rows + [first.value], data, categories, now).Ok?
  {
  }

  /** The `catch` of the PUT handler: 'Location not found' is a 404, a message
      mentioning 'already exists' a 409 carrying it, anything else a 500. */
  function UpdateFailure(message: string): (r: Reply<Locations.Location, Validation.LocationErrors>)
    ensures r.Failure? && r.details.None?
    ensures r.status == 404 <==> message == Locations.NotFound
    ensures r.status == 404 ==> r.code == NotFound && r.message == Locations.NotFound
    ensures r.status == 409 <==> message != Locations.NotFound && Includes(message, "already exists")
    ensures r.status == 409 ==> r.code == DuplicateLocation && r.message == message
    ensures r.status != 404 && r.status != 409 ==> r == Failure(500, InternalError, "Failed to update location", None)
  {
    if message == Locations.NotFound then Failure(404, NotFound, Locations.NotFound, None)
    else if Includes(message, "already exists") then Failure(409, DuplicateLocation, message, None)
    else Failure(500, InternalError, "Failed to update location", None)
  }

  /** The foreign key's message does not mention 'already exists', so it
      reaches the client as a 500 from either handler. */
  lemma ForeignKeyFailureIsInternal()
    ensures CreateFailure(Locations.ForeignKeyFailed) == Failure(500, InternalError, "Failed to create location", None)
    ensures UpdateFailure(Locations.ForeignKeyFailed) == Failure(500, InternalError, "Failed to update location", None)
  {
    assert forall k :: 0 <= k < |Locations.ForeignKeyFailed| ==> Locations.ForeignKeyFailed[k] != 'x';
    assert "already exists"[9] == 'x';
    MissingCharNotIncluded(Locations.ForeignKeyFailed, "already exists", 9);
  }

  /** The patch built from the validated data: exactly the fields present. */
  function PatchOf(d: Validation.LocationFields): (r: Locations.LocationPatch)
    ensures r.name == d.name && r.categoryId == d.categoryId && r.isActive == d.isActive
  {
    Locations.LocationPatch(d.name, d.categoryId, d.isActive)
  }

  /** The PUT handler. */
  method UpdateLocation(idParam: string, body: Validation.LocationBody, repo: Locations.LocationRepository,
    categories: seq<Categories.Category>, now: int)
    returns (r: Reply<Locations.Location, Validation.LocationErrors>)
    requires repo.Valid()
    modifies repo
    ensures repo.Valid()
    ensures ParseInt(idParam).None? ==>
      r == Failure(400, InvalidId, "Location ID must be a valid number", None) && repo.rows == old(repo.rows)
    ensures ParseInt(idParam).Some? ==>
      var v := Validation.ValidateLocationData(body, true);
      && (v.Err? ==> r == UpdateFailure(v.error) && repo.rows == old(repo.rows))
      && (v.Ok? && v.value.Invalid? ==>
            r == Failure(400, ValidationError, "Invalid location data", Some(v.value.errors))
            && repo.rows == old(repo.rows))
      && (v.Ok? && v.value.Valid? && Locations.CategoryGiven(v.value.data.categoryId)
          && !Categories.Exists(categories, v.value.data.categoryId.value) ==>
            r == Failure(400, InvalidCategory, "Category does not exist", None)
            && repo.rows == old(repo.rows))
      && (v.Ok? && v.value.Valid?
          && (Locations.CategoryGiven(v.value.data.categoryId) ==> Categories.Exists(categories, v.value.data.categoryId.value)) ==>
            var id := ParseInt(idParam).value;
            var outcome := Locations.UpdateOutcome(old(repo.rows), id, PatchOf(v.value.data), categories, now);
            && (outcome.Ok? ==> r == Success(200, outcome.value) && repo.rows == old(repo.rows)[id - 1 := outcome.value])
            && (outcome.Err? ==> r == UpdateFailure(outcome.error) && repo.rows == old(repo.rows)))
  {
    var parsed := ParseInt(idParam);
    if parsed.None? {
      return Failure(400, InvalidId, "Location ID must be a valid number", None);
    }
    var locationId := parsed.value;
    var validation := Validation.ValidateLocationData(body, true);
    if validation.Err? {
      return UpdateFailure(validation.error);
    }
    var verdict := validation.value;
    if verdict.Invalid? {
      return Failure(400, ValidationError, "Invalid location data", Some(verdict.errors));
    }
    var data := verdict.data;
    if Locations.CategoryGiven(data.categoryId) && !Categories.Exists(categories, data.categoryId.value) {
      return Failure(400, InvalidCategory, "Category does not exist", None);
    }
    var updated := repo.Update(locationId, PatchOf(data), categories, now);
    r := match updated
      case Ok(location) => Success(200, location)
      case Err(message) => UpdateFailure(message);
  }

  /** A category id of "0" passes validation on update, and it is falsy, so
      the handler skips its category check. */
  lemma ZeroCategoryStringValidates()
    ensures var v := Validation.ValidateLocationData(Validation.LocationBody(Undefined, Str("0"), Undefined), true);
      && v == Ok(Validation.Valid(Validation.LocationFields(None, Some(0), None)))
      && !Locations.CategoryGiven(v.value.data.categoryId)
  {
    ZeroIsRendered();
  }

  /** The update then writes category 0, which the foreign key rejects when no
      category 0 exists: the PUT answers 500, not 400. */
  lemma ZeroCategoryUpdateIsInternalError(rows: seq<Locations.Location>, id: int,
    categories: seq<Categories.Category>, now: int)
    requires Locations.RowIds(rows) && 1 <= id <= |rows|
    requires forall l :: l in rows ==> Categories.Exists(categories, l.categoryId)
    requires !Categories.Exists(categories, 0)
    ensures Locations.UpdateOutcome(rows, id, Locations.LocationPatch(None, Some(0), None), categories, now)
      == Err(Locations.ForeignKeyFailed)
    ensures UpdateFailure(Locations.ForeignKeyFailed) == Failure(500, InternalError, "Failed to update location", None)
  {
    Locations.FindByIdIndex(rows, id);
    var updated := Locations.ApplyPatch(rows[id - 1], Locations.LocationPatch(None, Some(0), None), now);
    assert !Locations.UniqueClash(rows, updated) by {
      forall l | l in rows ensures !Locations.SameKey(updated, l) {
        assert l.categoryId != 0;
      }
    }
    ForeignKeyFailureIsInternal();
  }
}
