/** The `locations` table: three read-only queries and the two writes, `create`
    with its duplicate check and `update` with its conflict check and partial
    patch. Timestamps are whole seconds; `isActive` (stored 1/0) is a `bool`. */
module Locations {
  import opened Wrappers
  import opened Seqs
  import opened JsValues
  import Categories

  datatype Location = Location(
    id: int,
    name: string,
    categoryId: int,
    state: Option<string>,
    city: Option<string>,
    address: Option<string>,
    isActive: bool,
    createdAt: int,
    updatedAt: int)

  /** Messages of the errors the writes throw, as the routes match on them. */
  const DuplicateInCategoryAndState := "Location name already exists in this category and state"
  const DuplicateInCategory := "Location name already exists in this category"
  const NotFound := "Location not found"
  const ForeignKeyFailed := "FOREIGN KEY constraint failed"
  const UniqueFailed := "UNIQUE constraint failed: locations.name, locations.categoryId, locations.state"

  /** `ORDER BY name` under the BINARY collation; equal names keep primary-key order. */
  predicate NameLe(a: Location, b: Location) {
    if a.name == b.name then a.id <= b.id else LexLe(a.name, b.name)
  }

  lemma NameOrderTotal()
    ensures TotalPreorder(NameLe)
  {
    forall a: Location, b: Location ensures NameLe(a, b) || NameLe(b, a) {
      LexLeTotal(a.name, b.name);
    }
    forall a: Location, b: Location, c: Location | NameLe(a, b) && NameLe(b, c)
      ensures NameLe(a, c)
    {
      if a.name != b.name && b.name != c.name {
        LexLeTransitive(a.name, b.name, c.name);
        if a.name == c.name {
          LexLeAntisymmetric(a.name, b.name);
        }
      }
    }
  }

  /** The optional filters of `findAll`; a falsy value (0, '' or absent) adds no
      condition. */
  datatype LocationFilter = LocationFilter(categoryId: Option<int>, search: Option<string>)

  predicate CategoryGiven(categoryId: Option<int>) {
    categoryId.Some? && categoryId.value != 0
  }

  predicate SearchGiven(search: Option<string>) {
    search.Some? && search.value != ""
  }

  /** `categoryId = ?` and `name LIKE '%search%'`, each only when its filter is truthy. */
  predicate MatchesFilter(l: Location, f: LocationFilter) {
    && (CategoryGiven(f.categoryId) ==> l.categoryId == f.categoryId.value)
    && (SearchGiven(f.search) ==> ContainsIgnoreCase(l.name, f.search.value))
  }

  function Matching(f: LocationFilter): Location -> bool {
    (l: Location) => MatchesFilter(l, f)
  }

  function IsActive(l: Location): bool {
    l.isActive
  }

  /** Sorting a selection by name keeps exactly its rows. */
  function ByName(selected: seq<Location>): (r: seq<Location>)
    ensures multiset(r) == multiset(selected)
    ensures forall x :: x in r <==> x in selected
    ensures forall i, j :: 0 <= i < j < |r| ==> NameLe(r[i], r[j])
    ensures forall i, j :: 0 <= i < j < |r| ==> LexLe(r[i].name, r[j].name)
  {
    NameOrderTotal();
    forall x: string ensures LexLe(x, x) {
      LexLeTotal(x, x);
    }
    var sorted := Sort(selected, NameLe);
    assert forall x :: x in sorted <==> x in selected by {
      forall x ensures x in sorted <==> x in selected {
        assert x in sorted <==> x in multiset(sorted);
      }
    }
    sorted
  }

  /** `findAll(filters)`: the rows that pass both filters, each as often as it
      is stored, sorted by name. */
  function FindAll(rows: seq<Location>, f: LocationFilter): (r: seq<Location>)
    ensures forall x :: x in r <==> x in rows && MatchesFilter(x, f)
    ensures forall x :: multiset(r)[x] == if MatchesFilter(x, f) then multiset(rows)[x] else 0
    ensures |r| <= |rows|
    ensures forall i, j :: 0 <= i < j < |r| ==> LexLe(r[i].name, r[j].name)
  {
    FilterCount(rows, Matching(f));
    ByName(Filter(rows, Matching(f)))
  }

  /** `findActive()`: the rows with `isActive = 1`, each as often as it is
      stored, sorted by name. */
  function FindActive(rows: seq<Location>): (r: seq<Location>)
    ensures forall x :: x in r <==> x in rows && x.isActive
    ensures forall x :: multiset(r)[x] == if x.isActive then multiset(rows)[x] else 0
    ensures |r| <= |rows|
    ensures forall i, j :: 0 <= i < j < |r| ==> LexLe(r[i].name, r[j].name)
  {
    FilterCount(rows, IsActive);
    ByName(Filter(rows, IsActive))
  }

  /** `findById(id)`: the row with that id, or `None` (undefined). */
  function FindById(rows: seq<Location>, id: int): (r: Option<Location>)
    ensures r.Some? <==> exists l :: l in rows && l.id == id
    ensures r.Some? ==> r.value in rows && r.value.id == id
  {
    if rows == [] then None
    else if rows[0].id == id then Some(rows[0])
    else FindById(rows[1..], id)
  }

  /** Row ids follow insertion order: AUTOINCREMENT and no deletes. */
  ghost predicate RowIds(rows: seq<Location>) {
    forall i :: 0 <= i < |rows| ==> rows[i].id == i + 1
  }

  /** `UNIQUE(name, categoryId, state)`; NULL states never collide. */
  predicate SameKey(a: Location, b: Location) {
    a.name == b.name && a.categoryId == b.categoryId && a.state.Some? && a.state == b.state
  }

  ghost predicate UniqueKeys(rows: seq<Location>) {
    forall i, j :: 0 <= i < j < |rows| ==> !SameKey(rows[i], rows[j])
  }

  lemma FindByIdIndex(rows: seq<Location>, id: int)
    requires RowIds(rows)
    ensures FindById(rows, id).Some? <==> 1 <= id <= |rows|
    ensures FindById(rows, id).Some? ==> FindById(rows, id).value == rows[id - 1]
  {
    if 1 <= id <= |rows| {
      assert rows[id - 1] in rows;
    }
  }

  /** `locationData.state || null` and the same for city and address. */
  function NullIfEmpty(s: Option<string>): (r: Option<string>)
    ensures r.Some? ==> r.value != ""
  {
    if s.Some? && s.value != "" then s else None
  }

  /** The input of `create`. */
  datatype NewLocation = NewLocation(
    name: string,
    categoryId: int,
    state: Option<string>,
    city: Option<string>,
    address: Option<string>)

  /** `SELECT id ... WHERE name = ? AND categoryId = ? AND state = ?`: a NULL
      state compares equal to nothing, so a state-less location never matches. */
  predicate DuplicateOnCreate(rows: seq<Location>, data: NewLocation) {
    var state := NullIfEmpty(data.state);
    exists l :: l in rows && l.name == data.name && l.categoryId == data.categoryId
      && l.state.Some? && state.Some? && l.state == state
  }

  /** What `create` does to the table: the duplicate check, then the INSERT with
      its foreign key; on success the new row is the next id, active, stamped
      `now`, with falsy state/city/address stored as NULL. */
  function CreateOutcome(rows: seq<Location>, data: NewLocation, categories: seq<Categories.Category>, now: int)
    : (r: Result<Location, string>)
    ensures r == Err(DuplicateInCategoryAndState) <==> DuplicateOnCreate(rows, data)
    ensures r == Err(ForeignKeyFailed) <==>
      !DuplicateOnCreate(rows, data) && !Categories.Exists(categories, data.categoryId)
    ensures r.Ok? <==> !DuplicateOnCreate(rows, data) && Categories.Exists(categories, data.categoryId)
    ensures r.Ok? ==>
      && r.value.id == |rows| + 1 && r.value.name == data.name && r.value.categoryId == data.categoryId
      && r.value.state == NullIfEmpty(data.state) && r.value.city == NullIfEmpty(data.city)
      && r.value.address == NullIfEmpty(data.address)
      && r.value.isActive && r.value.createdAt == now && r.value.updatedAt == now
  {
    if DuplicateOnCreate(rows, data) then Err(DuplicateInCategoryAndState)
    else if !Categories.Exists(categories, data.categoryId) then Err(ForeignKeyFailed)
    else Ok(Location(|rows| + 1, data.name, data.categoryId, NullIfEmpty(data.state),
      NullIfEmpty(data.city), NullIfEmpty(data.address), true, now, now))
  }

  /** A successful `create` never trips the table's unique constraint. */
  lemma CreateKeepsUniqueKeys(rows: seq<Location>, data: NewLocation, categories: seq<Categories.Category>, now: int)
    requires UniqueKeys(rows)
    requires CreateOutcome(rows, data, categories, now).Ok?
    ensures UniqueKeys(rows + [CreateOutcome(rows, data, categories, now).value])
  {
    var n := CreateOutcome(rows, data, categories, now).value;
    var all := rows + [n];
    forall i, j | 0 <= i < j < |all| ensures !SameKey(all[i], all[j]) {
      if j == |rows| {
        assert all[i] in rows;
      }
    }
  }

  /** Two locations with the same name and category and no state are both
      accepted: the duplicate check cannot see them. */
  lemma StatelessDuplicateAccepted(rows: seq<Location>, data: NewLocation)
    requires NullIfEmpty(data.state).None?
    ensures !DuplicateOnCreate(rows, data)
  {
  }

  /** The input of `update`: a field that is `None` was not supplied. */
  datatype LocationPatch = LocationPatch(name: Option<string>, categoryId: Option<int>, isActive: Option<bool>)

  predicate NameGiven(name: Option<string>) {
    name.Some? && name.value != ""
  }

  /** The (name, categoryId) the row would have, where `||` falls back to the
      stored value for a falsy or missing field. */
  function TargetName(existing: Location, p: LocationPatch): string {
    if NameGiven(p.name) then p.name.value else existing.name
  }

  function TargetCategory(existing: Location, p: LocationPatch): int {
    if CategoryGiven(p.categoryId) then p.categoryId.value else existing.categoryId
  }

  /** `SELECT id ... WHERE name = ? AND categoryId = ? AND id != ?`: state plays no part. */
  predicate ConflictOnUpdate(rows: seq<Location>, id: int, name: string, categoryId: int) {
    exists l :: l in rows && l.name == name && l.categoryId == categoryId && l.id != id
  }

  /** The SET list: each supplied field, plus `updatedAt`. */
  function ApplyPatch(existing: Location, p: LocationPatch, now: int): (r: Location)
    ensures r.id == existing.id && r.state == existing.state && r.city == existing.city
    ensures r.address == existing.address && r.createdAt == existing.createdAt && r.updatedAt == now
    ensures r.name == (if p.name.Some? then p.name.value else existing.name)
    ensures r.categoryId == (if p.categoryId.Some? then p.categoryId.value else existing.categoryId)
    ensures r.isActive == (if p.isActive.Some? then p.isActive.value else existing.isActive)
  {
    existing.(
      name := if p.name.Some? then p.name.value else existing.name,
      categoryId := if p.categoryId.Some? then p.categoryId.value else existing.categoryId,
      isActive := if p.isActive.Some? then p.isActive.value else existing.isActive,
      updatedAt := now)
  }

  /** The row with that id collides with another row under the unique constraint. */
  predicate UniqueClash(rows: seq<Location>, updated: Location) {
    exists l :: l in rows && l.id != updated.id && SameKey(updated, l)
  }

  /** The conflict check runs, because a name or category is supplied, and
      finds another row with the target name and category. */
  predicate ConflictCheckFails(rows: seq<Location>, id: int, p: LocationPatch) {
    && FindById(rows, id).Some?
    && (NameGiven(p.name) || CategoryGiven(p.categoryId))
    && ConflictOnUpdate(rows, id, TargetName(FindById(rows, id).value, p), TargetCategory(FindById(rows, id).value, p))
  }

  /** The row exists and the conflict check lets the UPDATE statement run. */
  predicate ReachesUpdate(rows: seq<Location>, id: int, p: LocationPatch) {
    FindById(rows, id).Some? && !ConflictCheckFails(rows, id, p)
  }

  /** What `update(id, data)` does: not found, then the conflict check when a
      name or category is supplied, then the UPDATE with its unique and foreign
      key constraints. */
  function UpdateOutcome(rows: seq<Location>, id: int, p: LocationPatch, categories: seq<Categories.Category>, now: int)
    : (r: Result<Location, string>)
    ensures r == Err(NotFound) <==> FindById(rows, id).None?
    ensures r == Err(DuplicateInCategory) <==> ConflictCheckFails(rows, id, p)
    ensures r == Err(UniqueFailed) <==>
      ReachesUpdate(rows, id, p) && UniqueClash(rows, ApplyPatch(FindById(rows, id).value, p, now))
    ensures r == Err(ForeignKeyFailed) <==>
      && ReachesUpdate(rows, id, p) && !UniqueClash(rows, ApplyPatch(FindById(rows, id).value, p, now))
      && p.categoryId.Some? && !Categories.Exists(categories, p.categoryId.value)
    ensures r.Ok? <==>
      && ReachesUpdate(rows, id, p) && !UniqueClash(rows, ApplyPatch(FindById(rows, id).value, p, now))
      && (p.categoryId.Some? ==> Categories.Exists(categories, p.categoryId.value))
    ensures r.Ok? ==> FindById(rows, id).Some? && r.value == ApplyPatch(FindById(rows, id).value, p, now)
    ensures r.Ok? ==> !UniqueClash(rows, r.value)
    ensures r.Ok? && p.categoryId.Some? ==> Categories.Exists(categories, p.categoryId.value)
  {
    match FindById(rows, id)
    case None => Err(NotFound)
    case Some(existing) =>
      if (NameGiven(p.name) || CategoryGiven(p.categoryId))
        && ConflictOnUpdate(rows, id, TargetName(existing, p), TargetCategory(existing, p))
      then Err(DuplicateInCategory)
      else
        var updated := ApplyPatch(existing, p, now);
        if UniqueClash(rows, updated) then Err(UniqueFailed)
        else if p.categoryId.Some? && !Categories.Exists(categories, p.categoryId.value) then Err(ForeignKeyFailed)
        else Ok(updated)
  }

  /** When the conflict check runs and passes, and a supplied name or category
      is never falsy (as validated input guarantees), the unique constraint
      cannot fire: the check ignores state and so rejects every clash the
      constraint would. */
  lemma ConflictCheckCoversUnique(rows: seq<Location>, id: int, p: LocationPatch, now: int)
    requires FindById(rows, id).Some?
    requires NameGiven(p.name) || CategoryGiven(p.categoryId)
    requires p.name.Some? ==> NameGiven(p.name)
    requires p.categoryId.Some? ==> CategoryGiven(p.categoryId)
    requires var existing := FindById(rows, id).value;
      !ConflictOnUpdate(rows, id, TargetName(existing, p), TargetCategory(existing, p))
    ensures !UniqueClash(rows, ApplyPatch(FindById(rows, id).value, p, now))
  {
  }

  /** A successful `update` keeps the unique constraint. */
  lemma UpdateKeepsUniqueKeys(rows: seq<Location>, id: int, p: LocationPatch, categories: seq<Categories.Category>, now: int)
    requires RowIds(rows) && UniqueKeys(rows)
    requires UpdateOutcome(rows, id, p, categories, now).Ok?
    ensures UniqueKeys(rows[id - 1 := UpdateOutcome(rows, id, p, categories, now).value])
    ensures RowIds(rows[id - 1 := UpdateOutcome(rows, id, p, categories, now).value])
  {
    FindByIdIndex(rows, id);
    var updated := UpdateOutcome(rows, id, p, categories, now).value;
    var all := rows[id - 1 := updated];
    forall i, j | 0 <= i < j < |all| ensures !SameKey(all[i], all[j]) {
      if i == id - 1 {
        assert rows[j] in rows && rows[j].id != updated.id;
      } else if j == id - 1 {
        assert rows[i] in rows && rows[i].id != updated.id;
      }
    }
  }

  class LocationRepository {
    var rows: seq<Location>

    ghost predicate Valid()
      reads this
    {
      RowIds(rows) && UniqueKeys(rows)
    }

    constructor()
      ensures Valid() && rows == []
    {
      rows := [];
    }

    /** `create(locationData)`: either one row is appended and returned, or the
        table is unchanged and the error message is returned. */
    method Create(data: NewLocation, categories: seq<Categories.Category>, now: int)
      returns (r: Result<Location, string>)
      requires Valid()
      modifies this
      ensures Valid()
      ensures r == CreateOutcome(old(rows), data, categories, now)
      ensures r.Ok? ==> rows == old(rows) + [r.value]
      ensures r.Err? ==> rows == old(rows)
    {
      if DuplicateOnCreate(rows, data) {
        return Err(DuplicateInCategoryAndState);
      }
      if !Categories.Exists(categories, data.categoryId) {
        return Err(ForeignKeyFailed);
      }
      var row := Location(|rows| + 1, data.name, data.categoryId, NullIfEmpty(data.state),
        NullIfEmpty(data.city), NullIfEmpty(data.address), true, now, now);
      CreateKeepsUniqueKeys(rows, data, categories, now);
      rows := rows + [row];
      return Ok(row);
    }

    /** `update(id, locationData)`: either the row with that id is replaced by
        its patched copy and returned, or the table is unchanged. */
    method Update(id: int, p: LocationPatch, categories: seq<Categories.Category>, now: int)
      returns (r: Result<Location, string>)
      requires Valid()
      modifies this
      ensures Valid()
      ensures r == UpdateOutcome(old(rows), id, p, categories, now)
      ensures r.Ok? ==> 1 <= id <= |old(rows)| && rows == old(rows)[id - 1 := r.value]
      ensures r.Err? ==> rows == old(rows)
    {
      var found := FindById(rows, id);
      if found.None? {
        return Err(NotFound);
      }
      var existing := found.value;
      if NameGiven(p.name) || CategoryGiven(p.categoryId) {
        var newName := if NameGiven(p.name) then p.name.value else existing.name;
        var newCategory := if CategoryGiven(p.categoryId) then p.categoryId.value else existing.categoryId;
        if ConflictOnUpdate(rows, id, newName, newCategory) {
          return Err(DuplicateInCategory);
        }
      }
      var updated := ApplyPatch(existing, p, now);
      if UniqueClash(rows, updated) {
        return Err(UniqueFailed);
      }
      if p.categoryId.Some? && !Categories.Exists(categories, p.categoryId.value) {
        return Err(ForeignKeyFailed);
      }
      FindByIdIndex(rows, id);
      UpdateKeepsUniqueKeys(rows, id, p, categories, now);
      rows := rows[id - 1 := updated];
      return Ok(updated);
    }
  }
}
