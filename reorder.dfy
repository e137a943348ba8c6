/**
 * The pure parts of drag-and-drop reordering: the index lookup (lodash
 * `findIndex`), the array move (dnd-kit `arrayMove`) and the reindexing
 * `map` that a commit applies.
 */
module Reorder {
  import opened Records

  /** The first index whose element satisfies `p`, or -1 when none does. */
  function FindIndex<T>(s: seq<T>, p: T -> bool): (r: int)
    ensures -1 <= r < |s|
    ensures r == -1 <==> forall i :: 0 <= i < |s| ==> !p(s[i])
    ensures 0 <= r ==> p(s[r]) && forall i :: 0 <= i < r ==> !p(s[i])
  {
    if s == [] then -1
    else if p(s[0]) then 0
    else
      var k := FindIndex(s[1..], p);
      if k < 0 then -1 else k + 1
  }

  /** Where the product with this id sits (`findIndex(list, o => o.id === id)`). */
  function ProductIndex(ps: seq<Product>, id: int): (r: int)
    ensures -1 <= r < |ps|
    ensures r == -1 <==> forall i :: 0 <= i < |ps| ==> ps[i].id != Some(id)
    ensures 0 <= r ==> ps[r].id == Some(id) && forall i :: 0 <= i < r ==> ps[i].id != Some(id)
  {
    FindIndex(ps, (p: Product) => p.id == Some(id))
  }

  /** Where the category with this id sits. */
  function CategoryIndex(cs: seq<Category>, id: int): (r: int)
    ensures -1 <= r < |cs|
    ensures r == -1 <==> forall i :: 0 <= i < |cs| ==> cs[i].id != id
    ensures 0 <= r ==> cs[r].id == id && forall i :: 0 <= i < r ==> cs[i].id != id
  {
    FindIndex(cs, (c: Category) => c.id == id)
  }

  /** `s` without its element at `i`. */
  function RemoveAt<T>(s: seq<T>, i: int): (r: seq<T>)
    requires 0 <= i < |s|
    ensures |r| == |s| - 1
  {
    s[..i] + s[i + 1..]
  }

  /** `s` with `x` inserted so that it lands at index `i`. */
  function InsertAt<T>(s: seq<T>, i: int, x: T): (r: seq<T>)
    requires 0 <= i <= |s|
    ensures |r| == |s| + 1
  {
    s[..i] + [x] + s[i..]
  }

  /**
   * Moves the element at `from` so that it ends up at `to`: a permutation
   * that puts the moved element at `to` and keeps every other element in
   * its relative order.
   */
  function ArrayMove<T>(s: seq<T>, from: int, to: int): (r: seq<T>)
    requires 0 <= from < |s| && 0 <= to < |s|
    ensures |r| == |s|
    ensures multiset(r) == multiset(s)
    ensures r[to] == s[from]
    ensures RemoveAt(r, to) == RemoveAt(s, from)
  {
    var rest := RemoveAt(s, from);
    var r := InsertAt(rest, to, s[from]);
    RemoveInsert(rest, to, s[from]);
    InsertRemove(s, from);
    assert multiset(r) == multiset(rest) + multiset{s[from]} by {
      assert r == rest[..to] + [s[from]] + rest[to..];
      assert rest == rest[..to] + rest[to..];
    }
    r
  }

  lemma RemoveInsert<T>(s: seq<T>, i: int, x: T)
    requires 0 <= i <= |s|
    ensures InsertAt(s, i, x)[i] == x
    ensures RemoveAt(InsertAt(s, i, x), i) == s
  {
    var r := InsertAt(s, i, x);
    assert r[..i] == s[..i];
    assert r[i + 1..] == s[i..];
  }

  lemma InsertRemove<T>(s: seq<T>, i: int)
    requires 0 <= i < |s|
    ensures InsertAt(RemoveAt(s, i), i, s[i]) == s
    ensures multiset(s) == multiset(RemoveAt(s, i)) + multiset{s[i]}
  {
    var rest := RemoveAt(s, i);
    assert rest[..i] == s[..i];
    assert rest[i..] == s[i + 1..];
    assert s == s[..i] + [s[i]] + s[i + 1..];
  }

  /** Dropping an element on its own place changes nothing. */
  lemma ArrayMoveSame<T>(s: seq<T>, i: int)
    requires 0 <= i < |s|
    ensures ArrayMove(s, i, i) == s
  {
    InsertRemove(s, i);
  }

  /** Dragging the element back to where it came from undoes a move. */
  lemma ArrayMoveInverse<T>(s: seq<T>, from: int, to: int)
    requires 0 <= from < |s| && 0 <= to < |s|
    ensures ArrayMove(ArrayMove(s, from, to), to, from) == s
  {
    var r := ArrayMove(s, from, to);
    InsertRemove(s, from);
    assert ArrayMove(r, to, from) == InsertAt(RemoveAt(s, from), from, s[from]);
  }

  /** The commit's `map`: each product gets `id` = its position + 1. */
  function ReindexProducts(ps: seq<Product>): (r: seq<Product>)
    ensures |r| == |ps|
    ensures forall i :: 0 <= i < |ps| ==> r[i].id == Some(i + 1) && r[i].(id := ps[i].id) == ps[i]
  {
    seq(|ps|, i requires 0 <= i < |ps| => ps[i].(id := Some(i + 1)))
  }

  /** The same `map` over categories. */
  function ReindexCategories(cs: seq<Category>): (r: seq<Category>)
    ensures |r| == |cs|
    ensures forall i :: 0 <= i < |cs| ==> r[i] == Category(cs[i].name, i + 1)
  {
    seq(|cs|, i requires 0 <= i < |cs| => cs[i].(id := i + 1))
  }

  /** After a commit, looking up id k finds position k - 1: ids are positions. */
  lemma {:induction false} ReindexedIdsArePositions(ps: seq<Product>, k: int)
    requires 1 <= k <= |ps|
    ensures ProductIndex(ReindexProducts(ps), k) == k - 1
  {
    var r := ReindexProducts(ps);
    assert r[k - 1].id == Some(k);
    assert forall i :: 0 <= i < k - 1 ==> r[i].id == Some(i + 1) != Some(k);
  }

  /** Committing twice in a row writes the same list. */
  lemma ReindexIdempotent(ps: seq<Product>)
    ensures ReindexProducts(ReindexProducts(ps)) == ReindexProducts(ps)
  {
  }
}
