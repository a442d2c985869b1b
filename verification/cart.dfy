/** The cart state of the storefront page (src/App.jsx): the labels added so
    far, in insertion order, and a counter that the handlers update on their
    own rather than deriving it from the list. */
module Cart {
  import opened Optional

  datatype CartState = CartState(items: seq<string>, count: int)

  /** Both pieces of state start out empty. */
  const Empty := CartState([], 0)

  /** The counter agrees with the list. */
  predicate Consistent(c: CartState) {
    c.count == |c.items|
  }

  /** An index the list actually has. */
  predicate InRange(c: CartState, index: int) {
    0 <= index < |c.items|
  }

  /** `handleAddToCart`: append the label and bump the counter. */
  function Add(c: CartState, item: string): (r: CartState)
    ensures |r.items| == |c.items| + 1
    ensures r.items[..|c.items|] == c.items
    ensures r.items[|c.items|] == item
    ensures r.count == c.count + 1
  {
    CartState(c.items + [item], c.count + 1)
  }

  /** `items.filter((_, i) => i !== index)`: keep every element whose
      position differs from `index`, walking the list front to back. */
  function FilterOutIndex<T>(s: seq<T>, index: int): (r: seq<T>)
    ensures 0 <= index < |s| ==> r == s[..index] + s[index + 1..]
    ensures !(0 <= index < |s|) ==> r == s
  {
    if |s| == 0 then []
    else
      var rest := FilterOutIndex(s[1..], index - 1);
      if index == 0 then
        rest
      else
        assert 0 < index < |s| ==> [s[0]] + rest == s[..index] + s[index + 1..] by {
          if 0 < index < |s| {
            assert s[1..][..index - 1] == s[1..index];
            assert s[1..][index..] == s[index + 1..];
          }
        }
        [s[0]] + rest
  }

  /** `items[index]`: `undefined` when the index is not a position of the list. */
  function ItemAt(items: seq<string>, index: int): (r: Option<string>)
    ensures r.Some? <==> 0 <= index < |items|
    ensures r.Some? ==> r.value == items[index]
  {
    if 0 <= index < |items| then Some(items[index]) else None
  }

  /** What the remove handler leaves behind and the label it reports. */
  datatype Removal = Removal(cart: CartState, removed: Option<string>)

  /** `handleRemoveFromCart`: filter the position out of the list and
      decrement the counter, whether or not anything was filtered. */
  function Remove(c: CartState, index: int): (r: Removal)
    ensures r.cart.count == c.count - 1
    ensures InRange(c, index) ==>
      && r.cart.items == c.items[..index] + c.items[index + 1..]
      && r.removed == Some(c.items[index])
    ensures !InRange(c, index) ==> r.cart.items == c.items && r.removed == None
  {
    Removal(CartState(FilterOutIndex(c.items, index), c.count - 1), ItemAt(c.items, index))
  }

  /** Adding keeps the counter in step with the list. */
  lemma AddKeepsConsistent(c: CartState, item: string)
    requires Consistent(c)
    ensures Consistent(Add(c, item))
  {
  }

  /** Removing an index the list has keeps the counter in step with the list. */
  lemma RemoveInRangeKeepsConsistent(c: CartState, index: int)
    requires Consistent(c) && InRange(c, index)
    ensures Consistent(Remove(c, index).cart)
  {
  }

  /** Removing an index the list lacks leaves the list alone but still lowers
      the counter, so the two drift apart by one. */
  lemma RemoveOutOfRangeDesyncs(c: CartState, index: int)
    requires Consistent(c) && !InRange(c, index)
    ensures Remove(c, index).cart.items == c.items
    ensures Remove(c, index).cart.count == |c.items| - 1
    ensures !Consistent(Remove(c, index).cart)
  {
  }

  /** The removal is by position: entries before `index` stay where they
      were and entries after it move up by one, whatever their labels. */
  lemma RemoveShiftsLaterItems(c: CartState, index: int)
    requires InRange(c, index)
    ensures var r := Remove(c, index).cart.items;
      && |r| == |c.items| - 1
      && (forall k :: 0 <= k < index ==> r[k] == c.items[k])
      && (forall k :: index <= k < |r| ==> r[k] == c.items[k + 1])
  {
  }

  /** Exactly one occurrence of the removed label goes, even when other
      entries carry the same label. */
  lemma RemoveDropsOneOccurrence(c: CartState, index: int)
    requires InRange(c, index)
    ensures multiset(Remove(c, index).cart.items) == multiset(c.items) - multiset{c.items[index]}
    ensures multiset(Remove(c, index).cart.items)[c.items[index]]
         == multiset(c.items)[c.items[index]] - 1
  {
    var s := c.items;
    assert s == s[..index] + [s[index]] + s[index + 1..];
  }

  /** Removing the last position undoes an add and reports the added label. */
  lemma RemoveUndoesAdd(c: CartState, item: string)
    ensures Remove(Add(c, item), |c.items|) == Removal(c, Some(item))
  {
    assert (c.items + [item])[..|c.items|] == c.items;
  }

  /** A run of adds, one label after another. */
  function AddAll(c: CartState, labels: seq<string>): CartState
    decreases |labels|
  {
    if labels == [] then c else AddAll(Add(c, labels[0]), labels[1..])
  }

  /** Adds append the labels in order and count each of them once. */
  lemma {:induction false} AddAllAppends(c: CartState, labels: seq<string>)
    ensures AddAll(c, labels).items == c.items + labels
    ensures AddAll(c, labels).count == c.count + |labels|
    decreases |labels|
  {
    if labels != [] {
      AddAllAppends(Add(c, labels[0]), labels[1..]);
      assert c.items + [labels[0]] + labels[1..] == c.items + labels;
    }
  }

  /** From the empty cart, n adds give a list of exactly those n labels and
      a counter of n. */
  lemma AddsFromEmpty(labels: seq<string>)
    ensures AddAll(Empty, labels) == CartState(labels, |labels|)
    ensures Consistent(AddAll(Empty, labels))
  {
    AddAllAppends(Empty, labels);
  }
}
