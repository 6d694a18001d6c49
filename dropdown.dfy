/** The open/close logic shared by the language switcher and the theme
    toggle: a button flips the menu, and while the menu is open a
    document-wide `mousedown` listener closes it on a press outside it. The
    listener is attached by an effect keyed on the open flag, so it exists
    exactly while the menu is open once that effect has run. */
module Dropdown {

  /** `isOpen` is the component's state; `listening` says whether the
      `mousedown` listener is currently attached. */
  datatype Menu = Menu(isOpen: bool, listening: bool)

  /** `useState(false)`, with no listener attached. */
  const Closed := Menu(false, false)

  /** The effect has run for the current open flag. */
  predicate Settled(m: Menu) {
    m.listening == m.isOpen
  }

  /** `setIsOpen(open)`, followed by the effect when the flag changed: the
      old listener is removed and a new one added only when opening. An
      unchanged flag neither re-renders nor re-runs the effect. */
  function WithOpen(m: Menu, open: bool): (r: Menu)
    ensures r.isOpen == open
    ensures r.isOpen != m.isOpen ==> r.listening == open
    ensures r.isOpen == m.isOpen ==> r == m
    ensures Settled(m) ==> Settled(r)
  {
    if open == m.isOpen then m else Menu(open, open)
  }

  /** The trigger button's `onClick`: `setIsOpen(!isOpen)`. */
  function Toggled(m: Menu): (r: Menu)
    ensures r.isOpen == !m.isOpen
    ensures Settled(r)
  {
    WithOpen(m, !m.isOpen)
  }

  /** A `mousedown` anywhere in the document; `inside` says whether its
      target lies within the dropdown's element. Only an attached listener
      reacts, and only to a press outside. */
  function AfterMouseDown(m: Menu, inside: bool): (r: Menu)
    ensures m.listening && !inside ==> !r.isOpen
    ensures !(m.listening && !inside) ==> r == m
    ensures Settled(m) ==> Settled(r)
  {
    if m.listening && !inside then WithOpen(m, false) else m
  }

  /** Pressing the trigger twice gives back the menu as it was. */
  lemma ToggleTwice(m: Menu)
    requires Settled(m)
    ensures Toggled(Toggled(m)) == m
  {
  }

  /** Once settled, a press outside closes an open menu and a closed menu
      ignores every press: only an open menu has a listener. */
  lemma MouseDownEffect(m: Menu, inside: bool)
    requires Settled(m)
    ensures AfterMouseDown(m, inside).isOpen <==> m.isOpen && inside
    ensures AfterMouseDown(m, inside) == (if m.isOpen && !inside then Closed else m)
  {
  }
}
