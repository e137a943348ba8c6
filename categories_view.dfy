/**
 * The drag-and-drop ordering view of the categories. Committing writes the
 * categories renumbered by position to the `categories` store and re-seeds
 * the `items` store against them, through `Experiment.UpdateCategories`.
 */
module CategoriesView {
  import opened Records
  import opened Reorder
  import opened Store
  import opened Seeding
  import Experiment
  import OrderView

  /**
   * Looking a product's category up in a committed list finds a category
   * whose id is its own 1-based position in the dragged order.
   */
  lemma CommittedIdIsPosition(cs: seq<Category>, key: string)
    ensures var r := FindByName(ReindexCategories(cs), key);
      r.Some? ==> 1 <= r.value.id <= |cs| && cs[r.value.id - 1].name == key &&
                  r.value == Category(key, r.value.id)
  {
    var r := FindByName(ReindexCategories(cs), key);
    if r.Some? {
      var i :| 0 <= i < |cs| && ReindexCategories(cs)[i] == r.value && r.value.name == key;
      assert r.value == Category(cs[i].name, i + 1);
    }
  }

  class Categories {
    var dataState: seq<Category>
    var touched: bool

    /** The view mounts with the categories it was given, untouched. */
    constructor (categories: seq<Category>)
      ensures dataState == categories && !touched
    {
      dataState := categories;
      touched := false;
    }

    /**
     * `handleDragEnd`: as in the product ordering view, over category ids.
     * No target changes nothing; a target marks the view touched; a
     * different target moves the dragged category to the target's position.
     */
    method HandleDragEnd(active: int, over: Option<int>)
      requires OrderView.HasTarget(over) && active != over.value ==>
        CategoryIndex(dataState, active) >= 0 && CategoryIndex(dataState, over.value) >= 0
      modifies this
      ensures !OrderView.HasTarget(over) ==> dataState == old(dataState) && touched == old(touched)
      ensures OrderView.HasTarget(over) ==> touched
      ensures OrderView.HasTarget(over) && active == over.value ==> dataState == old(dataState)
      ensures OrderView.HasTarget(over) && active != over.value ==>
        var from := CategoryIndex(old(dataState), active);
        var to := CategoryIndex(old(dataState), over.value);
        && dataState == ArrayMove(old(dataState), from, to)
        && dataState[to] == old(dataState)[from]
        && dataState[to].id == active
        && RemoveAt(dataState, to) == RemoveAt(old(dataState), from)
      ensures multiset(dataState) == multiset(old(dataState))
    {
      if !OrderView.HasTarget(over) {
        return;
      }
      if !touched {
        touched := true;
      }
      if active != over.value {
        var activeIndex := CategoryIndex(dataState, active);
        var overIndex := CategoryIndex(dataState, over.value);
        dataState := ArrayMove(dataState, activeIndex, overIndex);
      }
    }

    /**
     * `handleUpdate`: an untouched view refuses with "Error" and writes
     * nothing; otherwise the renumbered categories are written under their
     * names and every seed product is rewritten with the category of its
     * key looked up in that list.
     */
    method HandleUpdate(items: ObjectStore<Product>, categories: ObjectStore<Category>)
        returns (r: Result<seq<Category>>)
      modifies items, categories
      ensures r.Success? <==> old(touched)
      ensures r.Failure? ==>
        r.error == "Error" && items.records == old(items.records) && categories.records == old(categories.records)
      ensures r.Success? ==>
        && r.value == ReindexCategories(dataState)
        && categories.records == PutAll(old(categories.records), r.value, CategoryName)
        && items.records == PutAll(old(items.records), Seeded(Experiment.Products, r.value), ProductName)
      ensures KeyedByName(old(items.records)) ==> KeyedByName(items.records)
      ensures dataState == old(dataState) && touched == old(touched)
    {
      var data := ReindexCategories(dataState);
      if touched {
        Experiment.UpdateCategories(items, categories, data);
        r := Success(data);
      } else {
        r := Failure("Error");
      }
    }
  }
}
