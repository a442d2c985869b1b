# Storefront cart, search and panel state, in Dafny

The storefront page (jofether/E-Commerce-Mega-Menu) is a React mock-up. It has a
navigation bar with a mega-menu, a search overlay, a cart overlay and a few hooks.
The only behaviour it has sits in a handful of small state machines inside its
components. This project lifts each of them out as a pure transition function
over an immutable record, and proves what the code guarantees about them.

- `Optional` (optional.dfy): `Option`, which stands for JavaScript's `undefined`
  and for default parameters that were not passed.
- `JsString` (js_string.dfy): `String.prototype.trim` as defined in section
  21.1.3.25 of ECMA-262, 6th edition. It removes WhiteSpace (section 11.2) and
  LineTerminator (section 11.3) code points from both ends.
- `Cart` (cart.dfy): the page's cart. It holds the item list and a counter that
  is updated separately from the list. It has add, remove-by-position, and the
  position filter the remove handler uses.
- `Panels` (panels.dfy): the two independent visibility flags of the search and
  cart overlays, with the navbar toggles and the Close buttons.
- `SearchPanel` (search_panel.dfy): the search panel component. It has a local
  buffer, a submit guard that rejects blank queries, and four trending
  quick-picks. Its `onSearch`/`onClose` callbacks are outputs.
- `CartPanel` (cart_panel.dfy): what the cart panel component derives from the
  cart: nothing when closed, an empty-state notice, the remove indices offered,
  and the per-line price, subtotal and total in integer cents.
- `Hooks` (hooks.dfy): `useToggle` and `useCountdown`. The countdown's timer is
  an abstract `Tick` step.
- `App` (app.dfy): the page component as one state machine. Each handler is one
  atomic step and returns its alert as a `Notice`. The page's events are
  guarded by the controls the page actually shows. Over every run of enabled
  events, the counter always equals the list length, and every cart entry is a
  mega-menu label.

Behaviours of the code worth noting:

- The two panel flags are independent, and both panels can be open at once
  (`Panels.BothPanelsCanBeOpen`, `App.BothPanelsOpenIsReachable`).
- A search is passed on with the text exactly as typed; the trim is only used
  to reject blank queries (`SearchPanel.SubmitExamples`).
- Remove always lowers the counter. For an index the list lacks, it leaves
  the list unchanged and reports `undefined` (`Cart.RemoveOutOfRangeDesyncs`).
  The page never offers such an index, so the counter and the list stay in
  step on every reachable state (`App.ReachableStatesAreConsistent`).

## Model

| member | source | states |
|---|---|---|
| JsString.Trim | src/components/SearchPanel.jsx:8 | the trim is empty exactly when every code point is WhiteSpace or LineTerminator; otherwise it starts and ends with a non-trimmable code point, it is the infix after the maximal trimmable prefix, and all that follows it is trimmable |
| JsString.TrimIdempotent | src/components/SearchPanel.jsx:8 | trimming a trimmed string changes nothing |
| JsString.TrimIgnoresPadding | src/App.jsx:33 | surrounding a string with trimmable code points does not change its trim |
| Cart.Add | src/App.jsx:17-19 | add makes the list one longer, keeps every earlier entry in order, puts the item last, and raises the counter by one |
| Cart.FilterOutIndex | src/App.jsx:25 | filtering by position equals the list with that one position cut out when the index is a position; otherwise the list comes back unchanged |
| Cart.ItemAt | src/App.jsx:24 | the reported item is the entry at the index when the index is a position, and undefined exactly when it is not |
| Cart.Remove | src/App.jsx:23-29 | remove always lowers the counter by one; for a position of the list it cuts out exactly that position and reports its entry; for any other index the list is untouched and undefined (None) is reported |
| Cart.AddKeepsConsistent | src/App.jsx:18-19 | add keeps counter == list length |
| Cart.RemoveInRangeKeepsConsistent | src/App.jsx:25-27 | removing a position of the list keeps counter == list length |
| Cart.RemoveOutOfRangeDesyncs | src/App.jsx:24-27 | removing an index the list lacks leaves the list alone but makes the counter one less than the length |
| Cart.RemoveShiftsLaterItems | src/App.jsx:25 | after a removal, earlier entries keep their positions and later ones move up by one |
| Cart.RemoveDropsOneOccurrence | src/App.jsx:25 | a removal takes away exactly one occurrence of the removed label, even when other entries have the same label |
| Cart.RemoveUndoesAdd | src/App.jsx:17-28 | removing the last position right after an add restores the cart and reports the added item |
| Cart.AddAllAppends | src/App.jsx:18-19 | a run of adds appends the items in order and raises the counter by their number |
| Cart.AddsFromEmpty | src/App.jsx:4-19 | from the empty cart, n adds give exactly those n items and a counter of n |
| Panels.ToggleSearch | src/App.jsx:132 | the Search button flips the search flag and leaves the cart flag alone |
| Panels.ToggleCart | src/App.jsx:138 | the Cart button flips the cart flag and leaves the search flag alone |
| Panels.CloseSearch | src/App.jsx:173 | the search panel's Close button hides it and leaves the cart flag alone |
| Panels.CloseCart | src/App.jsx:215 | the cart panel's Close button hides it and leaves the search flag alone |
| Panels.TogglesAreInvolutions | src/App.jsx:131-138 | pressing either toggle twice restores both flags |
| Panels.TogglesCommute | src/App.jsx:131-138 | the two toggles do not interfere, so their order does not matter |
| Panels.CloseUndoesOpen | src/App.jsx:171-176 | Close undoes opening from closed, and closing twice is closing once |
| Panels.BothPanelsCanBeOpen | src/App.jsx:6-7 | from the start state, Search then Cart leaves both panels open |
| SearchPanel.HandleSubmit | src/components/SearchPanel.jsx:6-13 | a buffer made only of whitespace leaves the buffer as it is, calls neither callback, and is not passed on; any other buffer is passed on as typed, the buffer is cleared, and the panel closes |
| SearchPanel.PickTrending | src/components/SearchPanel.jsx:59-63 | a quick-pick passes on exactly its term, closes the panel, and leaves the term in the buffer |
| SearchPanel.SubmitNeverSearchesBlank | src/components/SearchPanel.jsx:8-11 | onSearch is called exactly when onClose is, and never with a query that trims to nothing |
| SearchPanel.SubmitKeepsSurroundingWhiteSpace | src/components/SearchPanel.jsx:8-9 | padding a query with whitespace does not change whether it is accepted, and an accepted query keeps its padding |
| SearchPanel.TrendingTermsAreTrimmed | src/components/SearchPanel.jsx:55 | every quick-pick term is non-empty and is its own trim |
| SearchPanel.PickAgreesWithSubmit | src/components/SearchPanel.jsx:55-63 | for each fixed term, a quick-pick searches and closes exactly as submitting the typed term would; only the buffer differs (the term versus empty) |
| SearchPanel.SubmitExamples | src/components/SearchPanel.jsx:6-13 | a blank buffer "  " is ignored and kept; " shoes " is accepted and passed on with its spaces |
| CartPanel.RemoveIndices | src/components/CartPanel.jsx:28-38 | the remove buttons carry the indices 0 to n-1 in display order, so exactly the positions of the list, each once |
| CartPanel.LinePricesCents | src/components/CartPanel.jsx:35 | every line shows the same flat price of 9999 cents |
| CartPanel.Render | src/components/CartPanel.jsx:4-60 | a closed panel renders nothing; an open one shows the counter it is given; it shows the empty state exactly when the list is empty; otherwise it lists the entries, shows 9999 cents under every line, offers one remove button per position carrying the indices 0 to n-1 in display order, and shows subtotal == total == 9999 cents per entry |
| CartPanel.OfferedRemovalsAreInRange | src/components/CartPanel.jsx:4-38 | every offered remove index is a position of the list; an open panel offers every position, each once; a closed panel offers none |
| CartPanel.TotalPriceCents | src/components/CartPanel.jsx:6 | the total is the sum of the per-line prices shown, and is zero exactly for an empty cart |
| CartPanel.TotalIsSumOfLinePrices | src/components/CartPanel.jsx:6-35 | the per-line prices shown add up to 9999 cents per entry |
| CartPanel.TotalIgnoresLabelsAndCount | src/components/CartPanel.jsx:6 | the total depends only on the number of entries, not on their labels or on the counter passed in |
| Hooks.InitialToggle | src/hooks.js:53-54 | the toggle starts at the given value, or false when none is given |
| Hooks.Toggle | src/hooks.js:56-58 | toggle always changes the value |
| Hooks.ToggleTwice | src/hooks.js:56-58 | toggling twice restores the value |
| Hooks.StartCountdown | src/hooks.js:171-173 | the countdown starts inactive with the count at the initial value, and the initial value defaults to 10 |
| Hooks.Reset | src/hooks.js:189-192 | reset restores the initial count and starts the countdown |
| Hooks.Stop | src/hooks.js:194 | stop deactivates the countdown and keeps its count |
| Hooks.Tick | src/hooks.js:178-184 | a tick lowers the count by one exactly when the countdown is active and the count is positive; it is active afterwards exactly when it was active and the count was not zero |
| Hooks.InactiveIsStable | src/hooks.js:171-184 | an inactive countdown (fresh, or stopped) does not change under any number of ticks, so nothing counts down before reset |
| Hooks.TicksStayInBounds | src/hooks.js:178-184 | from a non-negative count, ticks never take the count below zero and never raise it |
| Hooks.CountsDownWhileRunning | src/hooks.js:178-181 | an active countdown loses exactly one per tick while the count lasts |
| Hooks.CountdownRunsOut | src/hooks.js:178-184 | an active countdown at count c >= 0 is at zero and inactive after c + 1 effect runs: c interval firings, then the run that switches it off |
| Hooks.ResetCountsDownFromInitial | src/hooks.js:178-192 | after reset with a non-negative initial value v, n <= v effect runs leave it active at v - n, and run v + 1 switches it off at zero |
| Hooks.NegativeCountIsStuck | src/hooks.js:178-184 | a negative count is never decremented nor deactivated by ticks |
| App.HandleAddToCart | src/App.jsx:17-21 | add appends the item, raises the counter, alerts the item, and changes nothing else |
| App.HandleRemoveFromCart | src/App.jsx:23-29 | remove lowers the counter, cuts out exactly the given position and alerts its entry (undefined for an index the list lacks, whose list is kept), and changes nothing else |
| App.HandleSearch | src/App.jsx:31-38 | a blank query changes no state and raises no alert; otherwise the query is alerted as typed, the search panel closes, the query is cleared, and the cart, cart panel and category are untouched |
| App.HandleMenuItemClick | src/App.jsx:40-43 | the category is recorded and alerted, and nothing else changes |
| App.Enabled | src/App.jsx:71-203 | a remove button exists exactly for each position of the list while the cart panel is open; menu clicks are the menu's labels; the search input, submit and search Close exist exactly while the search panel is open; the cart Close exactly while the cart panel is open; the navbar buttons and Shop Now always |
| App.Apply | src/App.jsx:45-228 | a menu click runs the add handler with its label, a remove button the remove handler with its index, and the form submit the search handler; the navbar Search and Cart buttons flip their own flag and the Close buttons clear their own flag, leaving the other panel and all else unchanged and raising no alert; typing only replaces the query; Shop Now only raises its alert; no control changes the selected category; an alert is raised exactly by add, remove, Shop Now and a non-blank search |
| App.StepKeepsInvariant | src/App.jsx:183-203 | any event the page offers keeps counter == list length and keeps every entry a menu label, because remove buttons exist only for positions of the list |
| App.RunKeepsInvariant | src/App.jsx:11-29 | the invariant holds after any sequence of offered events |
| App.ReachableStatesAreConsistent | src/App.jsx:141-144 | in every state reachable from the first render, the cart badge equals the number of entries |
| App.UnofferedRemoveDesyncs | src/App.jsx:23-29 | removing index 0 from the empty cart is not offered, and would leave the list empty with the counter at -1 |
| App.BothPanelsOpenIsReachable | src/App.jsx:131-138 | pressing Search then Cart is a valid run that leaves both panels open |
| App.SearchAgreesWithSearchPanel | src/App.jsx:31-38 | the page's search form and the search panel component accept the same queries, pass on the same text, and leave the same buffer and search-panel visibility |
| App.AddThenRemoveSession | src/App.jsx:17-29 | opening the cart, adding "Sneakers" and removing index 0 is a valid run; in between the cart holds exactly ["Sneakers"] with counter 1 (the cart panel component, given that state, would price it at 9999 cents; the page's own list shows no price), the remove alert names "Sneakers", and the cart ends empty |

## Left out

- Rendering, JSX markup, CSS classes and the layout issues noted in comments are
  not modelled. They are presentational only.
- The popup alerts are modelled as a returned `Notice` value, not as text. The
  `${...}` message formatting is not modelled.
- React's state batching and stale closures are not modelled. For example,
  `setCartCount(cartCount + 1)` reads a captured value. Each handler is one
  atomic step over the latest state.
- `useLocalStorage`, `useFetch`, `useAsync`, `useClickOutside`, `useWindowSize`,
  `useDebouncedValue` and `usePreviousValue` are not modelled. They need browser
  storage, the network, DOM events, timers or effect scheduling.
- Hooks.Tick: real time is abstracted away. `setInterval`, its 1000 ms period
  and the interval cleanup are not modelled. One `Tick` is one run of the
  effect at hooks.js lines 175-187: while active with a positive count, the
  run it schedules fires once and lowers the count; at zero, the run switches
  the countdown off. The step from 1 to 0 therefore leaves the countdown
  active until the next `Tick`.
- Hooks.Tick: counts are whole numbers, although the hook accepts any JS
  number. A fractional initial value such as 2.5 would count 2.5, 1.5, 0.5,
  -0.5 and then match neither branch of the effect, staying below zero and
  active for ever; `TicksStayInBounds` and `CountdownRunsOut` rely on whole
  numbers.
- Hooks.Reset: the hook's argument is fixed when the countdown starts. In the
  source, `reset` reads the argument of the latest render, which a caller
  could change between renders.
- CartPanel.Render: the float 99.99 and `toFixed(2)` are replaced by integer
  cents. The dollar-string formatting is not modelled.
- JsString.Trim: JavaScript strings are UTF-16 code units, but the model uses
  Unicode scalar values. Every trimmable code point is in the Basic
  Multilingual Plane, so the trim is the same. The Zs category follows current
  Unicode, so U+180E is not whitespace.
- App: the mega-menu is hover-revealed. Its entries are treated as always
  clickable, and the hover state is not modelled.
- App: `handleMenuItemClick` is modelled as a handler but not as an event,
  because no element of App.jsx is wired to it.
- App: App.jsx renders neither the search panel component nor the cart panel
  component; it has its own inline search form and cart list. The search panel
  component keeps its own query buffer; the cart panel component has no state
  and is a pure function of its props. Both components are modelled on their
  own.
- SearchPanel.HandleSubmit: the component renders nothing while closed, so its
  form can only be submitted while it is open; the `isOpen` prop is not modelled
  because the handler itself does not read it.
- src/theme.js and src/constants.js are not modelled: they are static design
  tokens and data tables. The menu labels of App.jsx lines 11-15 are the only
  data table used.
- MegaMenu, Navbar, Hero, Footer, ProductCard and index.js are not modelled:
  they are pure markup.
- A "clear the cart" operation and an error result for out-of-range removal are
  not modelled: the code has neither.
