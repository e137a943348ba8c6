/**
 * The records the shopping list keeps in its object stores, and the small
 * wrapper types its operations return.
 */
module Records {

  /** A value that may be missing (`undefined`/`null` in the source). */
  datatype Option<T> = None | Some(value: T)

  /** A value, or the message of the error thrown instead. */
  datatype Result<T> = Success(value: T) | Failure(error: string)

  /** A JavaScript string that is truthy: present and non-empty. */
  predicate Truthy(s: Option<string>)
  {
    s.Some? && s.value != []
  }

  /** A category, stored under its name in the `categories` store. */
  datatype Category = Category(name: string, id: int)

  /**
   * A product, stored under its name in the `items` store. `id` is only a
   * display position; `category` is a copy of the category whose name is
   * `categoryKey`, embedded when the list is seeded.
   */
  datatype Product = Product(
    name: string,
    categoryKey: string,
    id: Option<int>,
    isCompleted: bool,
    amount: int,
    details: Option<string>,
    category: Option<Category>)

  /** A saved ordering: a full copy of the product list. */
  datatype Preset = Preset(name: string, data: seq<Product>)

  /** The key a product is written under. */
  function ProductName(p: Product): string { p.name }

  /** The key a category is written under. */
  function CategoryName(c: Category): string { c.name }

  /** Concatenation regroups freely; the proofs over lists and strings use this step. */
  lemma ConcatAssoc<T>(a: seq<T>, b: seq<T>, c: seq<T>)
    ensures a + (b + c) == (a + b) + c
  {
  }

  /** Every product sits under its own name. */
  ghost predicate KeyedByName(m: map<string, Product>)
  {
    forall k :: k in m ==> m[k].name == k
  }
}
