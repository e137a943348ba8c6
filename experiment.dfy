/**
 * The store API of src/db/experiment.ts: the seed lists, the
 * read-modify-write helpers and the seeding routines. Its generic
 * `GetAll`, `Get`, `Update`, `Delete` and `DeleteAll` are the methods of
 * `Store.ObjectStore`.
 */
module Experiment {
  import opened Records
  import opened Store
  import opened Seeding

  /** A seed product: one of each, not completed, no id and no category yet. */
  function SeedItem(name: string, categoryKey: string, details: Option<string>): Product
  {
    Product(name, categoryKey, None, false, 1, details, None)
  }

  const Categories: seq<Category> := [
    Category("Mejeri & Ost", 1),
    Category("Bröd & Kakor", 2),
    Category("Kött, Fågel & Fisk", 3),
    Category("Skafferi", 4),
    Category("Sill, kaviar & rom", 5)
  ]

  const Products: seq<Product> := [
    SeedItem("Laktosfri Mjölk", "Mejeri & Ost", Some("Arla, 1.5 liter")),
    SeedItem("Ost", "Mejeri & Ost", Some("Port salut 750g - färdigskivad")),
    SeedItem("Bröd", "Bröd & Kakor", None),
    SeedItem("Pålägg", "Kött, Fågel & Fisk", None),
    SeedItem("Smör", "Mejeri & Ost", Some("Bregott, 600g - normalsaltat")),
    SeedItem("Knäckebröd", "Bröd & Kakor", Some("Leksands, havre spröd gräddat")),
    SeedItem("Te", "Skafferi", Some("Lipton, Earl Gray Classic - 100pack")),
    SeedItem("Kaffe", "Skafferi", Some("Néscafe lyx, mellanrost")),
    SeedItem("Apelsinmarmelad", "Skafferi", Some("BOB, Flaska")),
    SeedItem("Citronsyra", "Skafferi", Some("Santa Maria")),
    SeedItem("Honung", "Skafferi", Some("ICA-basic, 650g")),
    SeedItem("Kaviar", "Sill, kaviar & rom", Some("Kalles kaviar - Original")),
    SeedItem("Laktosfritt smör", "Mejeri & Ost", Some("Normalsaltat, 300g")),
    SeedItem("Mjukost", "Mejeri & Ost", Some("Kalvi, räkost och skinkost - 275g"))
  ]

  /**
   * The `items` store after `UpdateAmount(name, n)`: the record found under
   * `name` is written back, under its own name, with `amount` = n. On a
   * store whose records sit under their names only that record's amount
   * changes; a missing name changes nothing; `n` is not range-checked.
   */
  function WithAmount(m: map<string, Product>, name: string, n: int): (r: map<string, Product>)
    ensures name !in m ==> r == m
    ensures KeyedByName(m) ==> KeyedByName(r) && r.Keys == m.Keys
    ensures KeyedByName(m) && name in m ==>
      r[name].amount == n && r[name].(amount := m[name].amount) == m[name] &&
      forall k :: k in m && k != name ==> r[k] == m[k]
  {
    if name in m then m[m[name].name := m[name].(amount := n)] else m
  }

  /**
   * The `items` store after `ToggleComplete(name, b)`: the record found
   * under `name` is written back with `isCompleted` = !b; nothing else
   * changes on a store keyed by name, and a missing name changes nothing.
   */
  function WithToggle(m: map<string, Product>, name: string, b: bool): (r: map<string, Product>)
    ensures name !in m ==> r == m
    ensures KeyedByName(m) ==> KeyedByName(r) && r.Keys == m.Keys
    ensures KeyedByName(m) && name in m ==>
      r[name].isCompleted == !b && r[name].(isCompleted := m[name].isCompleted) == m[name] &&
      forall k :: k in m && k != name ==> r[k] == m[k]
  {
    if name in m then m[m[name].name := m[name].(isCompleted := !b)] else m
  }

  /** Toggling with the pre-toggle value twice restores the stored flag. */
  lemma ToggleTwice(m: map<string, Product>, name: string)
    requires KeyedByName(m) && name in m
    ensures WithToggle(WithToggle(m, name, m[name].isCompleted), name, !m[name].isCompleted) == m
  {
    var m1 := WithToggle(m, name, m[name].isCompleted);
    assert m1 == m[name := m[name].(isCompleted := !m[name].isCompleted)];
    assert WithToggle(m1, name, !m[name].isCompleted) == m1[name := m[name]];
  }

  method UpdateAmount(items: ObjectStore<Product>, name: string, newAmount: int)
    modifies items
    ensures items.records == WithAmount(old(items.records), name, newAmount)
  {
    var item := items.Get(name);
    if item.Some? {
      var newItem := item.value.(amount := newAmount);
      items.Update(newItem, item.value.name);
    }
  }

  method ToggleComplete(items: ObjectStore<Product>, name: string, newBoolean: bool)
    modifies items
    ensures items.records == WithToggle(old(items.records), name, newBoolean)
  {
    var item := items.Get(name);
    if item.Some? {
      var newItem := item.value.(isCompleted := !newBoolean);
      items.Update(newItem, newItem.name);
    }
  }

  /** Every seed product's `categoryKey` names one of the seed categories. */
  lemma SeedCategoriesFound()
    ensures forall i :: 0 <= i < |Products| ==>
      FindByName(Categories, Products[i].categoryKey).Some?
  {
    var names := ["Mejeri & Ost", "Bröd & Kakor", "Kött, Fågel & Fisk", "Skafferi", "Sill, kaviar & rom"];
    assert forall i :: 0 <= i < |Categories| ==> Categories[i].name == names[i];
    forall i | 0 <= i < |Products|
      ensures FindByName(Categories, Products[i].categoryKey).Some?
    {
      assert Products[i].categoryKey in names;
    }
  }

  /**
   * The length and the first letter of each seed product's name; these two
   * lists exist only to prove the seed names distinct.
   */
  const NameLengths: seq<int> := [15, 3, 4, 6, 4, 10, 2, 5, 15, 10, 6, 6, 16, 7]
  const NameInitials: string := "LOBPSKTKACHKLM"

  lemma SeedNameShapes()
    ensures |NameLengths| == |NameInitials| == |Products|
    ensures forall i :: 0 <= i < |Products| ==>
      |Products[i].name| == NameLengths[i] && Products[i].name[0] == NameInitials[i]
  {
  }

  /** No two seed names agree in both length and first letter. */
  lemma NameShapesDistinct()
    ensures forall i, j :: 0 <= i < j < |NameLengths| && j < |NameInitials| ==>
      NameLengths[i] != NameLengths[j] || NameInitials[i] != NameInitials[j]
  {
  }

  /** No two seed products share a name. */
  lemma SeedNamesDistinct()
    ensures DistinctKeys(Products, ProductName)
  {
    SeedNameShapes();
    NameShapesDistinct();
  }

  /** No two seed categories share a name. */
  lemma SeedCategoryNamesDistinct()
    ensures DistinctKeys(Categories, CategoryName)
  {
  }

  method UpdateCategories(items: ObjectStore<Product>, categories: ObjectStore<Category>, cs: seq<Category>)
    modifies items, categories
    ensures categories.records == PutAll(old(categories.records), cs, CategoryName)
    ensures items.records == PutAll(old(items.records), Seeded(Products, cs), ProductName)
    ensures KeyedByName(old(items.records)) ==> KeyedByName(items.records)
    ensures forall i :: 0 <= i < |Products| ==>
      && Products[i].name in items.records
      && items.records[Products[i].name] == SeedProduct(Products[i], i, cs)
  {
    WriteSeed(items, categories, cs, Products);
    SeedNamesDistinct();
    SeededLookup(old(items.records), Products, cs);
  }

  method Init(items: ObjectStore<Product>, categories: ObjectStore<Category>)
    modifies items, categories
    ensures categories.records == PutAll(old(categories.records), Categories, CategoryName)
    ensures forall i :: 0 <= i < |Categories| ==>
      Categories[i].name in categories.records && categories.records[Categories[i].name] == Categories[i]
    ensures items.records == PutAll(old(items.records), Seeded(Products, Categories), ProductName)
    ensures KeyedByName(old(items.records)) ==> KeyedByName(items.records)
    ensures forall i :: 0 <= i < |Products| ==>
      && Products[i].name in items.records
      && items.records[Products[i].name] == SeedProduct(Products[i], i, Categories)
      && items.records[Products[i].name].category.Some?
  {
    WriteSeed(items, categories, Categories, Products);
    SeedNamesDistinct();
    SeededLookup(old(items.records), Products, Categories);
    SeedCategoriesFound();
    SeedCategoryNamesDistinct();
    PutAllSpec(old(categories.records), Categories, CategoryName);
  }
}
