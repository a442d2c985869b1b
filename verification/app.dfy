/** The storefront page component (src/App.jsx) as a state machine: each
    handler is one atomic step over the latest state. The popup alerts the
    handlers raise are returned as a `Notice` beside the new state. */
module App {
  import opened Optional
  import opened JsString
  import Cart
  import Panels
  import CartPanel
  import SearchPanel

  datatype AppState = AppState(
    cart: Cart.CartState,
    panels: Panels.Visibility,
    searchQuery: string,
    selectedCategory: Option<string>)

  /** The alert a handler raises, if any. */
  datatype Notice =
    | Silent
    | AddedToCart(item: string)
    | RemovedFromCart(removed: Option<string>)  // `undefined` for an index the list lacks
    | Searching(query: string)
    | SelectedCategory(category: string)
    | RedirectingToShop

  datatype Outcome = Outcome(state: AppState, notice: Notice)

  /** The page on first render. */
  const Initial := AppState(Cart.Empty, Panels.Hidden, "", None)

  /** The labels of the mega-menu columns, each of which adds itself to the cart. */
  const Apparel: seq<string> := ["New Arrivals", "T-Shirts & Polos", "Jackets & Coats", "Denim"]
  const Shoes: seq<string> := ["Sneakers", "Boots", "Formal", "Sandals"]
  const Accessories: seq<string> := ["Watches", "Bags", "Sunglasses", "Belts"]
  const MenuLabels: seq<string> := Apparel + Shoes + Accessories

  /** `handleAddToCart`. */
  function HandleAddToCart(s: AppState, item: string): (r: Outcome)
    ensures r.state.cart.items == s.cart.items + [item]
    ensures r.state.cart.count == s.cart.count + 1
    ensures r.state.(cart := s.cart) == s
    ensures r.notice == AddedToCart(item)
  {
    Outcome(s.(cart := Cart.Add(s.cart, item)), AddedToCart(item))
  }

  /** `handleRemoveFromCart`. */
  function HandleRemoveFromCart(s: AppState, index: int): (r: Outcome)
    ensures r.state.cart.count == s.cart.count - 1
    ensures Cart.InRange(s.cart, index) ==>
      && r.state.cart.items == s.cart.items[..index] + s.cart.items[index + 1..]
      && r.notice == RemovedFromCart(Some(s.cart.items[index]))
    ensures !Cart.InRange(s.cart, index) ==>
      r.state.cart.items == s.cart.items && r.notice == RemovedFromCart(None)
    ensures r.state.(cart := s.cart) == s
  {
    var removal := Cart.Remove(s.cart, index);
    Outcome(s.(cart := removal.cart), RemovedFromCart(removal.removed))
  }

  /** `handleSearch`: a query that trims to nothing changes nothing and
      raises nothing; any other is announced as typed, then the search panel
      closes and the query is cleared. The cart is never touched. */
  function HandleSearch(s: AppState): (r: Outcome)
    ensures AllTrimmable(s.searchQuery) ==> r == Outcome(s, Silent)
    ensures !AllTrimmable(s.searchQuery) ==>
      && r.notice == Searching(s.searchQuery)
      && !r.state.panels.showSearch
      && r.state.searchQuery == ""
      && r.state.panels.showCart == s.panels.showCart
      && r.state.cart == s.cart
      && r.state.selectedCategory == s.selectedCategory
  {
    if Trim(s.searchQuery) != "" then
      Outcome(s.(panels := Panels.CloseSearch(s.panels), searchQuery := ""), Searching(s.searchQuery))
    else
      Outcome(s, Silent)
  }

  /** `handleMenuItemClick`: record the category and announce it. No element
      of the page is wired to this handler. */
  function HandleMenuItemClick(s: AppState, category: string): (r: Outcome)
    ensures r.state.selectedCategory == Some(category)
    ensures r.state.(selectedCategory := s.selectedCategory) == s
    ensures r.notice == SelectedCategory(category)
  {
    Outcome(s.(selectedCategory := Some(category)), SelectedCategory(category))
  }

  /** The user actions the page is wired for. */
  datatype Event =
    | ClickMenuLabel(entry: string)      // a mega-menu entry
    | ClickRemove(index: int)            // a cart line's "Remove" button
    | ClickSearchButton                  // navbar "Search"
    | ClickCartButton                    // navbar "Cart"
    | CloseSearchPanel
    | CloseCartPanel
    | TypeQuery(text: string)            // the search input's onChange
    | SubmitSearch
    | ClickShopNow

  /** Whether the page shows the control that raises the event. The page
      renders its own cart list rather than the cart panel component, but
      that list maps the entries to remove buttons the same way (App.jsx
      lines 188-197), so the component's offered indices are reused here. */
  function Enabled(s: AppState, e: Event): (r: bool)
    ensures e.ClickRemove? ==> (r <==> s.panels.showCart && Cart.InRange(s.cart, e.index))
    ensures e.ClickMenuLabel? ==> (r <==> e.entry in MenuLabels)
    ensures (e.CloseSearchPanel? || e.TypeQuery? || e.SubmitSearch?) ==> (r <==> s.panels.showSearch)
    ensures e.CloseCartPanel? ==> (r <==> s.panels.showCart)
    ensures (e.ClickSearchButton? || e.ClickCartButton? || e.ClickShopNow?) ==> r
  {
    match e
    case ClickMenuLabel(entry) => entry in MenuLabels
    case ClickRemove(index) => index in CartPanel.OfferedRemovals(s.panels.showCart, s.cart.items)
    case ClickSearchButton => true
    case ClickCartButton => true
    case CloseSearchPanel => s.panels.showSearch
    case CloseCartPanel => s.panels.showCart
    case TypeQuery(_) => s.panels.showSearch
    case SubmitSearch => s.panels.showSearch
    case ClickShopNow => true
  }

  /** The handler each event runs: a menu entry adds itself, a remove button
      removes its position, the search form's submit runs the search
      handler, and the navbar and Close buttons flip or clear their own
      panel flag. Only the menu entries and the remove
      buttons touch the cart; the navbar and Close buttons touch only the
      panel flags and raise no alert; no control sets the selected category;
      "Shop Now" only raises its alert. */
  function Apply(s: AppState, e: Event): (r: Outcome)
    ensures e.ClickMenuLabel? ==> r == HandleAddToCart(s, e.entry)
    ensures e.ClickRemove? ==> r == HandleRemoveFromCart(s, e.index)
    ensures e.SubmitSearch? ==> r == HandleSearch(s)
    ensures e.ClickSearchButton? ==> r.state.panels == Panels.ToggleSearch(s.panels)
    ensures e.ClickCartButton? ==> r.state.panels == Panels.ToggleCart(s.panels)
    ensures e.CloseSearchPanel? ==> r.state.panels == Panels.CloseSearch(s.panels)
    ensures e.CloseCartPanel? ==> r.state.panels == Panels.CloseCart(s.panels)
    ensures !(e.ClickMenuLabel? || e.ClickRemove?) ==> r.state.cart == s.cart
    ensures (e.ClickSearchButton? || e.ClickCartButton? || e.CloseSearchPanel? || e.CloseCartPanel?) ==>
      r.state.(panels := s.panels) == s && r.notice == Silent
    ensures e.ClickSearchButton? ==> r.state.panels.showSearch != s.panels.showSearch
    ensures e.ClickCartButton? ==> r.state.panels.showCart != s.panels.showCart
    ensures e.TypeQuery? ==> r.state == s.(searchQuery := e.text) && r.notice == Silent
    ensures e.ClickShopNow? ==> r == Outcome(s, RedirectingToShop)
    ensures r.state.selectedCategory == s.selectedCategory
    ensures r.notice.Silent? <==>
      (!(e.ClickMenuLabel? || e.ClickRemove? || e.SubmitSearch? || e.ClickShopNow?)
       || (e.SubmitSearch? && AllTrimmable(s.searchQuery)))
  {
    match e
    case ClickMenuLabel(entry) => HandleAddToCart(s, entry)
    case ClickRemove(index) => HandleRemoveFromCart(s, index)
    case ClickSearchButton => Outcome(s.(panels := Panels.ToggleSearch(s.panels)), Silent)
    case ClickCartButton => Outcome(s.(panels := Panels.ToggleCart(s.panels)), Silent)
    case CloseSearchPanel => Outcome(s.(panels := Panels.CloseSearch(s.panels)), Silent)
    case CloseCartPanel => Outcome(s.(panels := Panels.CloseCart(s.panels)), Silent)
    case TypeQuery(text) => Outcome(s.(searchQuery := text), Silent)
    case SubmitSearch => HandleSearch(s)
    case ClickShopNow => Outcome(s, RedirectingToShop)
  }

  /** Every event of the sequence is enabled when it happens. */
  predicate ValidRun(s: AppState, events: seq<Event>)
    decreases |events|
  {
    events == [] || (Enabled(s, events[0]) && ValidRun(Apply(s, events[0]).state, events[1..]))
  }

  /** The state after the events, one handler after another. */
  function Run(s: AppState, events: seq<Event>): AppState
    decreases |events|
  {
    if events == [] then s else Run(Apply(s, events[0]).state, events[1..])
  }

  /** What holds on every state the page can reach: the counter agrees with
      the list, and every entry is a mega-menu label. */
  predicate Invariant(s: AppState) {
    && Cart.Consistent(s.cart)
    && forall k :: 0 <= k < |s.cart.items| ==> s.cart.items[k] in MenuLabels
  }

  /** One enabled event keeps the invariant: the only remove indices the
      page offers are positions of the list. */
  lemma StepKeepsInvariant(s: AppState, e: Event)
    requires Invariant(s) && Enabled(s, e)
    ensures Invariant(Apply(s, e).state)
  {
    match e
    case ClickRemove(index) =>
      CartPanel.OfferedRemovalsAreInRange(s.panels.showCart, s.cart.items);
      Cart.RemoveShiftsLaterItems(s.cart, index);
    case _ =>
  }

  /** The invariant holds after any run of enabled events. */
  lemma {:induction false} RunKeepsInvariant(s: AppState, events: seq<Event>)
    requires Invariant(s) && ValidRun(s, events)
    ensures Invariant(Run(s, events))
    decreases |events|
  {
    if events != [] {
      StepKeepsInvariant(s, events[0]);
      RunKeepsInvariant(Apply(s, events[0]).state, events[1..]);
    }
  }

  /** Every state the page reaches from its first render shows as many items
      in the badge as the cart holds. */
  lemma ReachableStatesAreConsistent(events: seq<Event>)
    requires ValidRun(Initial, events)
    ensures Cart.Consistent(Run(Initial, events).cart)
  {
    RunKeepsInvariant(Initial, events);
  }

  /** The guard on remove buttons matters: without it, removing from the
      empty cart drops the counter to -1 while the list stays empty. */
  lemma UnofferedRemoveDesyncs()
    ensures !ValidRun(Initial, [ClickRemove(0)])
    ensures Run(Initial, [ClickRemove(0)]).cart == Cart.CartState([], -1)
  {
  }

  /** The page does not enforce one panel at a time: pressing "Search" then
      "Cart" is a valid run that leaves both open. */
  lemma BothPanelsOpenIsReachable()
    ensures ValidRun(Initial, [ClickSearchButton, ClickCartButton])
    ensures Run(Initial, [ClickSearchButton, ClickCartButton]).panels == Panels.Visibility(true, true)
  {
  }

  /** The page's own search form and the search panel component apply the
      same guard: they accept the same queries, pass them on untrimmed, and
      leave the same buffer and panel state behind. */
  lemma SearchAgreesWithSearchPanel(s: AppState)
    ensures var r, p := HandleSearch(s), SearchPanel.HandleSubmit(s.searchQuery);
      && (r.notice.Searching? <==> p.searched.Some?)
      && (p.searched.Some? ==> r.notice.query == p.searched.value)
      && r.state.searchQuery == p.buffer
      && r.state.panels.showSearch == (s.panels.showSearch && !p.closed)
  {
  }

  /** A short session: open the cart, add a shoe from the menu, remove it
      again. In between the cart holds the one shoe, and the cart panel
      component, given that state, would price it at $99.99; the remove
      alert names the shoe. */
  lemma AddThenRemoveSession()
    ensures ValidRun(Initial, [ClickCartButton, ClickMenuLabel("Sneakers"), ClickRemove(0)])
    ensures var mid := Run(Initial, [ClickCartButton, ClickMenuLabel("Sneakers")]);
      && mid.cart == Cart.CartState(["Sneakers"], 1)
      && CartPanel.Render(mid.panels.showCart, mid.cart.items, mid.cart.count).value.body.totalCents == 9999
      && Apply(mid, ClickRemove(0)).notice == RemovedFromCart(Some("Sneakers"))
    ensures Run(Initial, [ClickCartButton, ClickMenuLabel("Sneakers"), ClickRemove(0)]).cart == Cart.Empty
  {
    var mid := Run(Initial, [ClickCartButton, ClickMenuLabel("Sneakers")]);
    assert mid == Apply(Apply(Initial, ClickCartButton).state, ClickMenuLabel("Sneakers")).state;
    assert 0 in CartPanel.RemoveIndices(mid.cart.items);
  }
}
