/** What the cart panel component (src/components/CartPanel.jsx) derives
    from the cart: nothing when closed, an empty-state notice for an empty
    list, otherwise one line per entry with its remove button, and a
    subtotal and total at a flat unit price. Prices are in integer cents. */
module CartPanel {
  import opened Optional

  /** The flat $99.99 every line is priced at. */
  const UnitPriceCents: nat := 9999

  /** `cartItems.length * 99.99`, in cents: what the per-line prices shown
      add up to, and nothing for an empty cart. */
  function TotalPriceCents(items: seq<string>): (r: nat)
    ensures r == Sum(LinePricesCents(items))
    ensures r == 0 <==> items == []
  {
    TotalIsSumOfLinePrices(items);
    |items| * UnitPriceCents
  }

  /** The indices `cartItems.map((item, idx) => ...)` hands to the remove
      buttons, in display order. */
  function RemoveIndices<T>(items: seq<T>): (r: seq<int>)
    ensures |r| == |items|
    ensures forall k :: 0 <= k < |r| ==> r[k] == k
    ensures forall i :: i in r <==> 0 <= i < |items|
    decreases |items|
  {
    if items == [] then [] else RemoveIndices(items[..|items| - 1]) + [|items| - 1]
  }

  /** The price shown under each line, in display order. */
  function LinePricesCents(items: seq<string>): (r: seq<nat>)
    ensures |r| == |items|
    ensures forall k :: 0 <= k < |r| ==> r[k] == UnitPriceCents
  {
    seq(|items|, _ => UnitPriceCents)
  }

  /** The sum of a list of amounts. */
  function Sum(xs: seq<nat>): nat
    decreases |xs|
  {
    if xs == [] then 0 else xs[0] + Sum(xs[1..])
  }

  /** The panel body: either the empty-state notice or the list with its
      buttons and the two price rows (shipping is free, so both rows carry
      the same amount). */
  datatype Body =
    | EmptyNotice
    | Listing(lines: seq<string>, linePricesCents: seq<nat>, removeIndices: seq<int>,
              subtotalCents: nat, totalCents: nat)

  /** The rendered panel: the header shows the counter it was given, which
      need not match the list. */
  datatype View = View(countShown: int, body: Body)

  /** The component: `null` when closed. */
  function Render(isOpen: bool, items: seq<string>, cartCount: int): (r: Option<View>)
    ensures r.None? <==> !isOpen
    ensures r.Some? ==> r.value.countShown == cartCount
    ensures r.Some? ==> (r.value.body.EmptyNotice? <==> |items| == 0)
    ensures r.Some? && r.value.body.Listing? ==>
      && r.value.body.lines == items
      && r.value.body.subtotalCents == r.value.body.totalCents == UnitPriceCents * |items|
      && (forall i :: i in r.value.body.removeIndices <==> 0 <= i < |items|)
      && |r.value.body.removeIndices| == |items|
      && (forall k :: 0 <= k < |items| ==> r.value.body.removeIndices[k] == k)
      && |r.value.body.linePricesCents| == |items|
      && (forall k :: 0 <= k < |items| ==> r.value.body.linePricesCents[k] == UnitPriceCents)
  {
    if !isOpen then None
    else if |items| == 0 then Some(View(cartCount, EmptyNotice))
    else
      var total := TotalPriceCents(items);
      Some(View(cartCount, Listing(items, LinePricesCents(items), RemoveIndices(items), total, total)))
  }

  /** The remove indices offered by an open panel, none when it is closed
      or empty. */
  function OfferedRemovals(isOpen: bool, items: seq<string>): (r: seq<int>)
  {
    var v := Render(isOpen, items, |items|);
    if v.Some? && v.value.body.Listing? then v.value.body.removeIndices else []
  }

  /** Every offered index is a position of the list, each is offered once,
      and an open non-empty panel offers all of them; a closed panel offers
      none. */
  lemma OfferedRemovalsAreInRange(isOpen: bool, items: seq<string>)
    ensures forall i :: i in OfferedRemovals(isOpen, items) ==> 0 <= i < |items|
    ensures isOpen ==> forall i :: 0 <= i < |items| ==> i in OfferedRemovals(isOpen, items)
    ensures !isOpen ==> OfferedRemovals(isOpen, items) == []
    ensures forall j, k :: 0 <= j < k < |OfferedRemovals(isOpen, items)| ==>
      OfferedRemovals(isOpen, items)[j] != OfferedRemovals(isOpen, items)[k]
  {
  }

  /** The per-line prices the panel shows add up to the flat price times the
      number of entries. */
  lemma {:induction false} TotalIsSumOfLinePrices(items: seq<string>)
    ensures Sum(LinePricesCents(items)) == |items| * UnitPriceCents
    decreases |items|
  {
    if items != [] {
      TotalIsSumOfLinePrices(items[1..]);
      assert LinePricesCents(items)[1..] == LinePricesCents(items[1..]);
    }
  }

  /** The total depends on the number of entries only: not on their labels,
      and not on the counter the panel is handed. */
  lemma TotalIgnoresLabelsAndCount(a: seq<string>, b: seq<string>, countA: int, countB: int)
    requires |a| == |b| && a != []
    ensures Render(true, a, countA).value.body.totalCents == Render(true, b, countB).value.body.totalCents
  {
  }
}
