/** The mobile navigation menu: the toggle button flips the "active" class on the links
    container and on itself; clicking any link removes it from both. */
module NavMenu {

  /** Whether the links container and the toggle button carry the "active" class. */
  datatype Menu = Menu(linksActive: bool, toggleActive: bool)

  /** The page loads with the menu closed. */
  const Closed: Menu := Menu(false, false)

  /** The two elements show the same state. */
  predicate InStep(m: Menu) {
    m.linksActive == m.toggleActive
  }

  /** The toggle button's click handler: `classList.toggle` on each element. */
  function Toggle(m: Menu): (r: Menu)
    ensures r.linksActive != m.linksActive && r.toggleActive != m.toggleActive
    ensures InStep(r) <==> InStep(m)
  {
    Menu(!m.linksActive, !m.toggleActive)
  }

  /** A link's click handler: `classList.remove` on each element. */
  function CloseOnLinkClick(m: Menu): (r: Menu)
    ensures r == Closed
  {
    Menu(false, false)
  }

  /** Two toggles restore the original state. */
  lemma ToggleTwiceRestores(m: Menu)
    ensures Toggle(Toggle(m)) == m
  {
  }

  /** A second link click changes nothing. */
  lemma CloseIsIdempotent(m: Menu)
    ensures CloseOnLinkClick(CloseOnLinkClick(m)) == CloseOnLinkClick(m)
  {
  }

  datatype Click = ToggleClick | LinkClick

  function Apply(m: Menu, c: Click): Menu {
    match c
    case ToggleClick => Toggle(m)
    case LinkClick => CloseOnLinkClick(m)
  }

  function Replay(m: Menu, clicks: seq<Click>): Menu
    decreases |clicks|
  {
    if clicks == [] then m else Replay(Apply(m, clicks[0]), clicks[1..])
  }

  function CountToggles(clicks: seq<Click>): nat
    decreases |clicks|
  {
    if clicks == [] then 0 else (if clicks[0] == ToggleClick then 1 else 0) + CountToggles(clicks[1..])
  }

  /** Once the two elements agree they never disagree; and without a link click the
      links container has changed state exactly when it was toggled an odd number of times. */
  lemma {:induction false} ReplayKeepsInStep(m: Menu, clicks: seq<Click>)
    requires InStep(m)
    ensures InStep(Replay(m, clicks))
    ensures LinkClick !in clicks ==>
      Replay(m, clicks).linksActive == (m.linksActive != (CountToggles(clicks) % 2 == 1))
    decreases |clicks|
  {
    if clicks != [] {
      assert LinkClick !in clicks ==> LinkClick !in clicks[1..];
      ReplayKeepsInStep(Apply(m, clicks[0]), clicks[1..]);
    }
  }

  /** The two elements as the page holds them. */
  class NavigationMenu {
    var linksActive: bool
    var toggleActive: bool

    ghost function State(): Menu
      reads this
    {
      Menu(linksActive, toggleActive)
    }

    constructor ()
      ensures State() == Closed
    {
      linksActive, toggleActive := false, false;
    }

    method ToggleClicked()
      modifies this
      ensures State() == Toggle(old(State()))
    {
      linksActive := !linksActive;
      toggleActive := !toggleActive;
    }

    method LinkClicked()
      modifies this
      ensures State() == CloseOnLinkClick(old(State()))
    {
      linksActive := false;
      toggleActive := false;
    }
  }
}
