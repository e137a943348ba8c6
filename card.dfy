/**
 * One product card of the shopping list. The card keeps its own `value`
 * (the amount) and `completed` flag, and mirrors them into the `items`
 * store: every change of `value` re-runs the effect that stores the amount,
 * and the check button stores the toggled flag.
 */
module CardView {
  import opened Records
  import opened Ascii
  import opened Store
  import opened FormatText
  import opened FirstLetter
  import Experiment

  /**
   * The minus button: `value - 1` when that is still at least 0 (the
   * `z.number().min(0)` check), otherwise the value is kept.
   */
  function Decremented(v: int): (r: int)
    ensures v >= 1 ==> r == v - 1
    ensures v < 1 ==> r == v
  {
    if v - 1 >= 0 then v - 1 else v
  }

  /** The minus button never takes an amount of at least 0 below 0, and never raises it. */
  lemma DecrementedBounds(v: int)
    ensures Decremented(v) <= v
    ensures v >= 0 ==> Decremented(v) >= 0
    ensures Decremented(v) == v <==> v < 1
  {
  }

  /** The minus button undoes the plus button on every amount of at least 0. */
  lemma DecrementUndoesIncrement(v: int)
    requires v >= 0
    ensures Decremented(v + 1) == v
  {
  }

  /** The stem of the fallback image file for a product name. */
  function ImageStem(name: string): (stem: string)
    ensures name == [] ==> stem == "undefined"
    ensures name != [] ==> stem == Dash(LowerCase(Some(name))).value
    ensures NoSpace(stem)
    ensures forall i :: 0 <= i < |stem| ==> !IsUpper(stem[i])
  {
    var d := Dash(LowerCase(Some(name)));
    if d.Some? then d.value else "undefined"
  }

  /**
   * Lowering the first letter before `dash` changes nothing: `dash`
   * lowercases the whole text anyway.
   */
  lemma LowerCaseRedundant(name: string)
    ensures Dash(LowerCase(Some(name))) == Dash(Some(name))
  {
    if name == [] {
      return;
    }
    var l := LowerCase(Some(name)).value;
    assert ToLower(l) == ToLower(name) by {
      assert ToLower(l)[0] == ToLowerChar(ToLowerChar(name[0]));
      assert forall i :: 1 <= i < |l| ==> l[i] == l[1..][i - 1] == name[i];
    }
    DashIgnoresCase(l, name);
  }

  /**
   * The card's `backgroundImage`, shown when `hasImg` is not `false` (the
   * other branch renders the upload control and no image). An uploaded
   * image is used as it is;
   * otherwise `/<stem>.jpg`, the stem being the dashed, lower-cased name
   * (the text "undefined" for an empty name).
   */
  function BackgroundImage(name: string, uploadedImg: Option<string>): (r: string)
    ensures Truthy(uploadedImg) ==> r == "url('" + uploadedImg.value + "')"
    ensures !Truthy(uploadedImg) ==> r == "url('/" + ImageStem(name) + ".jpg')"
    ensures |r| >= 7 && r[..5] == "url('" && r[|r| - 2..] == "')"
  {
    if Truthy(uploadedImg) then "url('" + uploadedImg.value + "')"
    else "url('/" + ImageStem(name) + ".jpg')"
  }

  /** The fallback path has no whitespace and no ASCII capital in its stem. */
  lemma FallbackPathShape(name: string)
    ensures var r := BackgroundImage(name, None);
      |r| == |ImageStem(name)| + 12 &&
      forall i :: 6 <= i < |r| - 6 ==> !IsSpace(r[i]) && !IsUpper(r[i])
  {
    var stem := ImageStem(name);
    var r := BackgroundImage(name, None);
    assert r == "url('/" + stem + ".jpg')";
    forall i | 6 <= i < |r| - 6
      ensures !IsSpace(r[i]) && !IsUpper(r[i])
    {
      assert r[i] == stem[i - 6];
    }
  }

  class Card {
    const items: ObjectStore<Product>
    const name: string
    const uploadedImg: Option<string>
    var value: int
    var completed: bool

    /** The store's record for this card, when there is one, holds the card's amount. */
    ghost predicate AmountSynced()
      reads this, items
    {
      KeyedByName(items.records) &&
      (name in items.records ==> items.records[name].amount == value)
    }

    /** The store's record for this card, when there is one, holds the card's flag. */
    ghost predicate CompletedSynced()
      reads this, items
    {
      KeyedByName(items.records) &&
      (name in items.records ==> items.records[name].isCompleted == completed)
    }

    /**
     * Mounting the card: `value` and `completed` start from the props, and
     * the amount effect runs once, storing `amount` for this product.
     */
    constructor (items: ObjectStore<Product>, name: string, amount: int, isCompleted: bool,
                 uploadedImg: Option<string>)
      modifies items
      ensures this.items == items && this.name == name && this.uploadedImg == uploadedImg
      ensures value == amount && completed == isCompleted
      ensures items.records == Experiment.WithAmount(old(items.records), name, amount)
      ensures KeyedByName(old(items.records)) ==> AmountSynced()
    {
      this.items := items;
      this.name := name;
      this.uploadedImg := uploadedImg;
      value := amount;
      completed := isCompleted;
      new;
      Experiment.UpdateAmount(items, name, amount);
    }

    /** Sets `value`; the amount effect runs only when the value changed. */
    method SetValue(v: int)
      modifies this, items
      ensures value == v && completed == old(completed)
      ensures v == old(value) ==> items.records == old(items.records)
      ensures v != old(value) ==> items.records == Experiment.WithAmount(old(items.records), name, v)
      ensures old(AmountSynced()) ==> AmountSynced()
      ensures old(CompletedSynced()) ==> CompletedSynced()
    {
      if v != value {
        value := v;
        Experiment.UpdateAmount(items, name, v);
      }
    }

    /** The minus button. */
    method Decrement()
      modifies this, items
      ensures value == Decremented(old(value)) && completed == old(completed)
      ensures old(value) < 1 ==> items.records == old(items.records)
      ensures old(value) >= 1 ==> items.records == Experiment.WithAmount(old(items.records), name, old(value) - 1)
      ensures old(AmountSynced()) ==> AmountSynced()
      ensures old(CompletedSynced()) ==> CompletedSynced()
    {
      SetValue(Decremented(value));
    }

    /** The plus button; the amount has no upper bound. */
    method Increment()
      modifies this, items
      ensures value == old(value) + 1 && completed == old(completed)
      ensures items.records == Experiment.WithAmount(old(items.records), name, old(value) + 1)
      ensures old(AmountSynced()) ==> AmountSynced()
      ensures old(CompletedSynced()) ==> CompletedSynced()
    {
      SetValue(value + 1);
    }

    /** Typing a number into the amount field; no range is enforced. */
    method EnterAmount(n: int)
      modifies this, items
      ensures value == n && completed == old(completed)
      ensures n != old(value) ==> items.records == Experiment.WithAmount(old(items.records), name, n)
      ensures n == old(value) ==> items.records == old(items.records)
      ensures old(AmountSynced()) ==> AmountSynced()
      ensures old(CompletedSynced()) ==> CompletedSynced()
    {
      SetValue(n);
    }

    /**
     * `handleToggleCompleted`: the card flips its flag and passes the flag
     * it had before to `ToggleComplete`, which stores its negation; so the
     * store agrees with the card afterwards whatever it held before.
     */
    method HandleToggleCompleted()
      modifies this, items
      ensures completed == !old(completed) && value == old(value)
      ensures items.records == Experiment.WithToggle(old(items.records), name, old(completed))
      ensures KeyedByName(old(items.records)) ==> CompletedSynced()
      ensures old(AmountSynced()) ==> AmountSynced()
    {
      var previous := completed;
      completed := !completed;
      Experiment.ToggleComplete(items, name, previous);
    }

    /** `handleDelete`: removes this product's record. */
    method HandleDelete()
      modifies items
      ensures items.records == old(items.records) - {name}
      ensures old(AmountSynced()) ==> AmountSynced()
      ensures old(CompletedSynced()) ==> CompletedSynced()
    {
      items.Delete(name);
    }

  }
}
