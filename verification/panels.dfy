/** Visibility of the two overlay panels of src/App.jsx: the search panel
    and the cart panel each have a boolean of their own, and no handler
    touches the other panel's flag, so both may be open at once. */
module Panels {

  datatype Visibility = Visibility(showSearch: bool, showCart: bool)

  /** Both panels start closed. */
  const Hidden := Visibility(false, false)

  /** The navbar "Search" button: flip the search flag only. */
  function ToggleSearch(v: Visibility): (r: Visibility)
    ensures r.showSearch != v.showSearch
    ensures r.showCart == v.showCart
  {
    v.(showSearch := !v.showSearch)
  }

  /** The navbar "Cart" button: flip the cart flag only. */
  function ToggleCart(v: Visibility): (r: Visibility)
    ensures r.showCart != v.showCart
    ensures r.showSearch == v.showSearch
  {
    v.(showCart := !v.showCart)
  }

  /** The search panel's "Close" button. */
  function CloseSearch(v: Visibility): (r: Visibility)
    ensures !r.showSearch
    ensures r.showCart == v.showCart
  {
    v.(showSearch := false)
  }

  /** The cart panel's "Close" button. */
  function CloseCart(v: Visibility): (r: Visibility)
    ensures !r.showCart
    ensures r.showSearch == v.showSearch
  {
    v.(showCart := false)
  }

  /** Pressing a toggle twice restores the panels. */
  lemma TogglesAreInvolutions(v: Visibility)
    ensures ToggleSearch(ToggleSearch(v)) == v
    ensures ToggleCart(ToggleCart(v)) == v
  {
  }

  /** The two toggles do not interfere: their order does not matter. */
  lemma TogglesCommute(v: Visibility)
    ensures ToggleSearch(ToggleCart(v)) == ToggleCart(ToggleSearch(v))
  {
  }

  /** Closing a panel undoes opening it from closed, and closing twice is
      closing once. */
  lemma CloseUndoesOpen(v: Visibility)
    ensures !v.showSearch ==> CloseSearch(ToggleSearch(v)) == v
    ensures !v.showCart ==> CloseCart(ToggleCart(v)) == v
    ensures CloseSearch(CloseSearch(v)) == CloseSearch(v)
    ensures CloseCart(CloseCart(v)) == CloseCart(v)
  {
  }

  /** Opening one panel does not close the other: from the start state,
      "Search" then "Cart" leaves both panels open. */
  lemma BothPanelsCanBeOpen()
    ensures ToggleCart(ToggleSearch(Hidden)) == Visibility(true, true)
  {
  }
}
