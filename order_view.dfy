/**
 * The drag-and-drop ordering view of the products. Its React state
 * (`dataState`, `selected`, `touched`) is the state of class `Order`; each
 * handler is a method that updates it. Committing the order produces the
 * product list renumbered by position; writing that list back is done by
 * `updateProducts`, which is not part of this model, so `HandleUpdate`
 * returns the list it would hand over.
 */
module OrderView {
  import opened Records
  import opened Reorder
  import opened Store

  /**
   * A drag-end event has a drop target when `over` is present and its id is
   * truthy: a missing target and the id 0 both end the handler early.
   */
  predicate HasTarget(over: Option<int>)
  {
    over.Some? && over.value != 0
  }

  class Order {
    var dataState: seq<Product>
    var selected: bool
    var touched: bool

    /** The view mounts with the products it was given and no flags set. */
    constructor (data: seq<Product>)
      ensures dataState == data && !selected && !touched
    {
      dataState := data;
      selected := false;
      touched := false;
    }

    /** The commit button is shown when the order was dragged or a preset chosen. */
    predicate AnyModifier()
      reads this
    {
      touched || selected
    }

    /**
     * `handleDragEnd`: with no target nothing changes; otherwise the view is
     * marked touched, and when the dragged product differs from the target
     * the dragged product moves to the target's position, the others
     * keeping their relative order.
     */
    method HandleDragEnd(active: int, over: Option<int>)
      requires HasTarget(over) && active != over.value ==>
        ProductIndex(dataState, active) >= 0 && ProductIndex(dataState, over.value) >= 0
      modifies this
      ensures !HasTarget(over) ==> dataState == old(dataState) && touched == old(touched)
      ensures HasTarget(over) ==> touched
      ensures selected == old(selected)
      ensures HasTarget(over) && active == over.value ==> dataState == old(dataState)
      ensures HasTarget(over) && active != over.value ==>
        var from := ProductIndex(old(dataState), active);
        var to := ProductIndex(old(dataState), over.value);
        && dataState == ArrayMove(old(dataState), from, to)
        && dataState[to] == old(dataState)[from]
        && dataState[to].id == Some(active)
        && RemoveAt(dataState, to) == RemoveAt(old(dataState), from)
      ensures multiset(dataState) == multiset(old(dataState))
    {
      if !HasTarget(over) {
        return;
      }
      if !touched {
        touched := true;
      }
      if active != over.value {
        var activeIndex := ProductIndex(dataState, active);
        var overIndex := ProductIndex(dataState, over.value);
        dataState := ArrayMove(dataState, activeIndex, overIndex);
      }
    }

    /**
     * `handleUpdate`: an untouched view refuses to commit with the error
     * "Error"; otherwise the committed list is the current order with every
     * product's id replaced by its 1-based position and nothing else changed.
     */
    method HandleUpdate() returns (r: Result<seq<Product>>)
      ensures r.Success? <==> touched
      ensures r.Failure? ==> r.error == "Error"
      ensures r.Success? ==>
        && |r.value| == |dataState|
        && (forall i :: 0 <= i < |dataState| ==>
              r.value[i].id == Some(i + 1) && r.value[i].(id := dataState[i].id) == dataState[i])
        && (forall k :: 1 <= k <= |dataState| ==> ProductIndex(r.value, k) == k - 1)
    {
      var data := ReindexProducts(dataState);
      if touched {
        forall k | 1 <= k <= |dataState|
          ensures ProductIndex(data, k) == k - 1
        {
          ReindexedIdsArePositions(dataState, k);
        }
        r := Success(data);
      } else {
        r := Failure("Error");
      }
    }

    /** `handleDeletePreset`: removes the preset stored under `name`. */
    method HandleDeletePreset(presets: ObjectStore<Preset>, name: string)
      modifies presets
      ensures presets.records == old(presets.records) - {name}
    {
      presets.Delete(name);
    }

    /**
     * Saving a preset: the current order is stored under the typed name,
     * and on success the view is no longer touched.
     */
    method HandleNewPreset(presets: ObjectStore<Preset>, name: string)
      modifies presets, this
      ensures presets.records == old(presets.records)[name := Preset(name, old(dataState))]
      ensures dataState == old(dataState) && selected == old(selected) && !touched
    {
      presets.Update(Preset(name, dataState), name);
      touched := false;
    }

    /**
     * `handleBadgeClick`: a saved order replaces the current one. The commit
     * button is then shown, yet the view is untouched, so a commit is
     * refused until the order is dragged again.
     */
    method HandleBadgeClick(data: seq<Product>)
      modifies this
      ensures dataState == data && selected && !touched
      ensures AnyModifier()
    {
      dataState := data;
      selected := true;
      touched := false;
    }
  }
}
