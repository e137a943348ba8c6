/**
 * Seeding the two stores from a category list and a product list: every
 * category under its name, then every product under its name with
 * id = index + 1, not completed, and the category of its `categoryKey`
 * embedded. The source writes this loop four times (Init, UpdateCategories
 * in src/db/experiment.ts; generate, updateCategories in src/db/index.ts).
 */
module Seeding {
  import opened Records
  import opened Store

  /** lodash `find(cs, o => o.name === name)`: the first category so named. */
  function FindByName(cs: seq<Category>, name: string): (r: Option<Category>)
    ensures r.None? <==> forall i :: 0 <= i < |cs| ==> cs[i].name != name
    ensures r.Some? ==> exists i :: 0 <= i < |cs| && cs[i] == r.value &&
                          r.value.name == name && forall j :: 0 <= j < i ==> cs[j].name != name
  {
    if cs == [] then None
    else if cs[0].name == name then Some(cs[0])
    else
      var r := FindByName(cs[1..], name);
      assert forall i :: 0 <= i < |cs| - 1 ==> cs[1..][i] == cs[i + 1];
      r
  }

  /** The `produce` step: seed product `p` at position `i`. */
  function SeedProduct(p: Product, i: int, cs: seq<Category>): Product
  {
    p.(id := Some(i + 1), isCompleted := false, category := FindByName(cs, p.categoryKey))
  }

  /** All seed products as they are written. */
  function Seeded(ps: seq<Product>, cs: seq<Category>): (r: seq<Product>)
    ensures |r| == |ps|
    ensures forall i :: 0 <= i < |ps| ==>
      && r[i].id == Some(i + 1)
      && !r[i].isCompleted
      && r[i].category == FindByName(cs, ps[i].categoryKey)
      && r[i].(id := ps[i].id, isCompleted := ps[i].isCompleted, category := ps[i].category) == ps[i]
  {
    seq(|ps|, i requires 0 <= i < |ps| => SeedProduct(ps[i], i, cs))
  }

  /** The store after writing each of `vs` in turn under `key(v)`. */
  function PutAll<V>(m: map<string, V>, vs: seq<V>, key: V -> string): map<string, V>
  {
    if vs == [] then m
    else PutAll(m, vs[..|vs| - 1], key)[key(vs[|vs| - 1]) := vs[|vs| - 1]]
  }

  /** No two of `vs` go under the same key. */
  ghost predicate DistinctKeys<V>(vs: seq<V>, key: V -> string)
  {
    forall i, j :: 0 <= i < j < |vs| ==> key(vs[i]) != key(vs[j])
  }

  /**
   * With distinct keys, each written value is found under its key, the keys
   * are the old ones plus the written ones, and every other key is untouched.
   */
  lemma {:induction false} PutAllSpec<V>(m: map<string, V>, vs: seq<V>, key: V -> string)
    requires DistinctKeys(vs, key)
    ensures forall i :: 0 <= i < |vs| ==> key(vs[i]) in PutAll(m, vs, key) && PutAll(m, vs, key)[key(vs[i])] == vs[i]
    ensures forall k :: k in PutAll(m, vs, key) <==> k in m || exists i :: 0 <= i < |vs| && key(vs[i]) == k
    ensures forall k :: k in m && (forall i :: 0 <= i < |vs| ==> key(vs[i]) != k) ==> PutAll(m, vs, key)[k] == m[k]
  {
    if vs != [] {
      var init := vs[..|vs| - 1];
      assert forall i :: 0 <= i < |init| ==> init[i] == vs[i];
      PutAllSpec(m, init, key);
    }
  }

  /**
   * Seeding products with distinct names writes product i under its name,
   * with id i + 1, not completed, its seed amount and details, and the
   * category of `cs` named by its `categoryKey` (absent when `cs` has none).
   */
  lemma SeededLookup(m: map<string, Product>, ps: seq<Product>, cs: seq<Category>)
    requires DistinctKeys(ps, ProductName)
    ensures forall i :: 0 <= i < |ps| ==>
      var r := PutAll(m, Seeded(ps, cs), ProductName);
      && ps[i].name in r
      && r[ps[i].name] == SeedProduct(ps[i], i, cs)
  {
    var seeded := Seeded(ps, cs);
    assert forall i :: 0 <= i < |seeded| ==> ProductName(seeded[i]) == ProductName(ps[i]);
    PutAllSpec(m, seeded, ProductName);
  }

  /**
   * Writing products under their own names keeps a store whose records sit
   * under their names that way.
   */
  lemma {:induction false} PutAllKeyedByName(m: map<string, Product>, ps: seq<Product>)
    requires KeyedByName(m)
    ensures KeyedByName(PutAll(m, ps, ProductName))
    ensures PutAll(m, ps, ProductName).Keys == m.Keys + set p | p in ps :: p.name
  {
    if ps != [] {
      var init := ps[..|ps| - 1];
      var last := ps[|ps| - 1];
      PutAllKeyedByName(m, init);
      assert PutAll(m, ps, ProductName) == PutAll(m, init, ProductName)[last.name := last];
      assert ps == init + [last];
      assert (set p | p in ps :: p.name) == (set p | p in init :: p.name) + {last.name};
    }
  }

  /** Writes `cs` to `categories`, then the seeded `ps` to `items`. */
  method WriteSeed(items: ObjectStore<Product>, categories: ObjectStore<Category>,
                   cs: seq<Category>, ps: seq<Product>)
    modifies items, categories
    ensures categories.records == PutAll(old(categories.records), cs, CategoryName)
    ensures items.records == PutAll(old(items.records), Seeded(ps, cs), ProductName)
    ensures KeyedByName(old(items.records)) ==> KeyedByName(items.records)
  {
    var i := 0;
    while i < |cs|
      invariant 0 <= i <= |cs|
      invariant categories.records == PutAll(old(categories.records), cs[..i], CategoryName)
      invariant items.records == old(items.records)
    {
      categories.Update(cs[i], cs[i].name);
      assert cs[..i + 1][..i] == cs[..i];
      i := i + 1;
    }
    assert cs[..|cs|] == cs;
    var seeded := Seeded(ps, cs);
    var j := 0;
    while j < |ps|
      invariant 0 <= j <= |ps|
      invariant categories.records == PutAll(old(categories.records), cs, CategoryName)
      invariant items.records == PutAll(old(items.records), seeded[..j], ProductName)
    {
      var newState := SeedProduct(ps[j], j, cs);
      items.Update(newState, newState.name);
      assert seeded[..j + 1][..j] == seeded[..j];
      j := j + 1;
    }
    assert seeded[..|ps|] == seeded;
    if KeyedByName(old(items.records)) {
      PutAllKeyedByName(old(items.records), seeded);
    }
  }
}
