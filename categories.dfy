/** The `categories` table and its three read-only lookups. The table is a
    sequence of rows that no operation of this model changes. */
module Categories {
  import opened Wrappers
  import opened Seqs

  datatype Category = Category(id: int, name: string, displayOrder: int)

  /** Every row is identified by its `id` (the table's primary key). */
  ghost predicate UniqueIds(cats: seq<Category>) {
    forall a, b :: a in cats && b in cats && a.id == b.id ==> a == b
  }

  /** `ORDER BY displayOrder`; rows with equal `displayOrder` keep primary-key order. */
  predicate DisplayOrderLe(a: Category, b: Category) {
    a.displayOrder < b.displayOrder || (a.displayOrder == b.displayOrder && a.id <= b.id)
  }

  lemma DisplayOrderTotal()
    ensures TotalPreorder(DisplayOrderLe)
  {
  }

  /** `findAll()`: every category, by ascending `displayOrder`. */
  function FindAll(cats: seq<Category>): (r: seq<Category>)
    ensures multiset(r) == multiset(cats)
    ensures forall i, j :: 0 <= i < j < |r| ==> r[i].displayOrder <= r[j].displayOrder
  {
    DisplayOrderTotal();
    Sort(cats, DisplayOrderLe)
  }

  /** `findById(id)`: the row with that id, or `None` (undefined). */
  function FindById(cats: seq<Category>, id: int): (r: Option<Category>)
    ensures r.Some? <==> exists c :: c in cats && c.id == id
    ensures r.Some? ==> r.value in cats && r.value.id == id
  {
    if cats == [] then None
    else if cats[0].id == id then Some(cats[0])
    else FindById(cats[1..], id)
  }

  /** `exists(id)`: `SELECT COUNT(*) ... WHERE id = ?` is positive. */
  function Exists(cats: seq<Category>, id: int): (r: bool)
    ensures r <==> exists c :: c in cats && c.id == id
  {
    var matching := Filter(cats, (c: Category) => c.id == id);
    assert |matching| > 0 ==> matching[0] in matching;
    |matching| > 0
  }

  /** `exists` and `findById` agree on every id. */
  lemma ExistsIffFound(cats: seq<Category>, id: int)
    ensures Exists(cats, id) <==> FindById(cats, id).Some?
  {
  }

  /** Under unique ids the lookup does not depend on the order of the rows. */
  lemma FindByIdAfterFindAll(cats: seq<Category>, id: int)
    requires UniqueIds(cats)
    ensures FindById(FindAll(cats), id) == FindById(cats, id)
  {
    var all := FindAll(cats);
    forall c ensures c in all <==> c in cats {
      assert c in all <==> c in multiset(all);
    }
  }

  /** The `categoryMap` the aggregation service fills with
      `categories.forEach(cat => categoryMap[cat.id] = cat.name)`: later rows
      overwrite earlier ones. */
  function NameMap(cats: seq<Category>): map<int, string> {
    if cats == [] then map[]
    else NameMap(cats[..|cats| - 1])[cats[|cats| - 1].id := cats[|cats| - 1].name]
  }

  /** With unique ids the map holds exactly the table's ids, each bound to that
      category's name. */
  lemma {:induction false} NameMapLookup(cats: seq<Category>, id: int)
    requires UniqueIds(cats)
    ensures id in NameMap(cats) <==> FindById(cats, id).Some?
    ensures id in NameMap(cats) ==> NameMap(cats)[id] == FindById(cats, id).value.name
  {
    if cats != [] {
      var init := cats[..|cats| - 1];
      var last := cats[|cats| - 1];
      assert cats == init + [last];
      assert UniqueIds(init) by {
        forall a, b | a in init && b in init && a.id == b.id ensures a == b {
          assert a in cats && b in cats;
        }
      }
      NameMapLookup(init, id);
      if id != last.id {
        assert (exists c :: c in cats && c.id == id) <==> (exists c :: c in init && c.id == id);
      } else {
        assert FindById(cats, id).value == last;
      }
    }
  }
}
