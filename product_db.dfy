/**
 * The older store API of src/db/index.ts: its own seed lists and
 * per-store helpers over the `items` and `categories` stores.
 */
module ProductDb {
  import opened Records
  import opened Store
  import opened Seeding
  import Experiment

  const Categories: seq<Category> := [
    Category("Mejeri & Ägg", 1),
    Category("Bröd & Kakor", 2),
    Category("Kött, Fågel & Fisk", 3)
  ]

  const Products: seq<Product> := [
    Product("Mjölk", "Mejeri & Ägg", None, false, 1, None, None),
    Product("Ost", "Mejeri & Ägg", None, false, 1, None, None),
    Product("Bröd", "Bröd & Kakor", None, false, 1, None, None),
    Product("Pålägg", "Kött, Fågel & Fisk", None, false, 1, None, None)
  ]

  /** lodash `filter(ps, { isCompleted: true })`. */
  function Completed(ps: seq<Product>): (r: seq<Product>)
    ensures |r| <= |ps|
    ensures forall p :: p in r <==> p in ps && p.isCompleted
  {
    if ps == [] then []
    else if ps[0].isCompleted then [ps[0]] + Completed(ps[1..])
    else Completed(ps[1..])
  }

  /** The filter keeps store order: filtering a concatenation filters each part. */
  lemma {:induction false} CompletedAppend(a: seq<Product>, b: seq<Product>)
    ensures Completed(a + b) == Completed(a) + Completed(b)
  {
    if a != [] {
      assert (a + b)[1..] == a[1..] + b;
      CompletedAppend(a[1..], b);
    } else {
      assert a + b == b;
    }
  }

  /** Each seed product's `categoryKey` names one of the seed categories. */
  lemma SeedCategoriesFound()
    ensures forall i :: 0 <= i < |Products| ==>
      FindByName(Categories, Products[i].categoryKey).Some?
  {
    assert Products[0].categoryKey == Categories[0].name;
    assert Products[1].categoryKey == Categories[0].name;
    assert Products[2].categoryKey == Categories[1].name;
    assert Products[3].categoryKey == Categories[2].name;
  }

  /** No two seed products share a name. */
  lemma SeedNamesDistinct()
    ensures DistinctKeys(Products, ProductName)
  {
  }

  /** `generate`: 3 categories, then 4 products with ids 1..4, each with its category found. */
  method Generate(items: ObjectStore<Product>, categories: ObjectStore<Category>)
    modifies items, categories
    ensures categories.records == PutAll(old(categories.records), Categories, CategoryName)
    ensures items.records == PutAll(old(items.records), Seeded(Products, Categories), ProductName)
    ensures KeyedByName(old(items.records)) ==> KeyedByName(items.records)
    ensures forall i :: 0 <= i < |Products| ==>
      && Products[i].name in items.records
      && items.records[Products[i].name] == SeedProduct(Products[i], i, Categories)
      && items.records[Products[i].name].category.Some?
  {
    WriteSeed(items, categories, Categories, Products);
    SeedNamesDistinct();
    SeededLookup(old(items.records), Products, Categories);
    SeedCategoriesFound();
  }

  /** `updateCategories`: the 4 fixed products re-seeded against `cs`. */
  method UpdateCategories(items: ObjectStore<Product>, categories: ObjectStore<Category>, cs: seq<Category>)
    modifies items, categories
    ensures categories.records == PutAll(old(categories.records), cs, CategoryName)
    ensures items.records == PutAll(old(items.records), Seeded(Products, cs), ProductName)
    ensures KeyedByName(old(items.records)) ==> KeyedByName(items.records)
    ensures forall i :: 0 <= i < |Products| ==>
      && Products[i].name in items.records
      && items.records[Products[i].name] == SeedProduct(Products[i], i, cs)
  {
    WriteSeed(items, categories, cs, Products);
    SeedNamesDistinct();
    SeededLookup(old(items.records), Products, cs);
  }

  /** `getProducts`: null for an empty store, else every product in key order. */
  method GetProducts(items: ObjectStore<Product>) returns (r: Option<seq<Product>>)
    ensures r.None? <==> items.records == map[]
    ensures r.Some? ==> r.value == InKeyOrder(items.records)
  {
    r := items.GetAll();
  }

  /** `getCategories`: null for an empty store, else every category in key order. */
  method GetCategories(categories: ObjectStore<Category>) returns (r: Option<seq<Category>>)
    ensures r.None? <==> categories.records == map[]
    ensures r.Some? ==> r.value == InKeyOrder(categories.records)
  {
    r := categories.GetAll();
  }

  /** `deleteProducts`: empties `items` and answers 'Deleted'. */
  method DeleteProducts(items: ObjectStore<Product>) returns (r: string)
    modifies items
    ensures items.records == map[]
    ensures r == "Deleted"
  {
    items.DeleteAll();
    r := "Deleted";
  }

  /** `changeAmount`: the same read-modify-write as `UpdateAmount`. */
  method ChangeAmount(items: ObjectStore<Product>, name: string, newAmount: int)
    modifies items
    ensures items.records == Experiment.WithAmount(old(items.records), name, newAmount)
  {
    var item := items.Get(name);
    if item.Some? {
      var newItem := item.value.(amount := newAmount);
      items.Update(newItem, newItem.name);
    }
  }

  /** `toggleComplete`: the same read-modify-write as `ToggleComplete`. */
  method ToggleComplete(items: ObjectStore<Product>, name: string, newBoolean: bool)
    modifies items
    ensures items.records == Experiment.WithToggle(old(items.records), name, newBoolean)
  {
    var item := items.Get(name);
    if item.Some? {
      var newItem := item.value.(isCompleted := !newBoolean);
      items.Update(newItem, newItem.name);
    }
  }

  /** `deleteProduct`: removes that one key. */
  method DeleteProduct(items: ObjectStore<Product>, name: string)
    modifies items
    ensures items.records == old(items.records) - {name}
  {
    items.Delete(name);
  }

  /**
   * `getCompleted`: the completed products in key order, or null when there
   * are none (an empty store included, since `filter(null)` is empty).
   */
  method GetCompleted(items: ObjectStore<Product>) returns (r: Option<seq<Product>>)
    ensures r.None? <==> forall k :: k in items.records ==> !items.records[k].isCompleted
    ensures r.Some? ==> r.value == Completed(InKeyOrder(items.records))
  {
    var all := GetProducts(items);
    var c := if all.Some? then Completed(all.value) else [];
    ghost var m := items.records;
    assert c == Completed(InKeyOrder(m));
    if |c| <= 0 {
      r := None;
    } else {
      ghost var rs := InKeyOrder(m);
      assert c[0] in rs;
      ghost var i :| 0 <= i < |rs| && rs[i] == c[0];
      ghost var k :| k in m && m[k] == rs[i];
      assert m[k].isCompleted;
      r := Some(c);
    }
  }
}
