/** The mobile menu button: it flips the inline `display` style of the nav links. */
module Menu {

  /** The display value after a click: `''` when it was `'flex'`, `'flex'` otherwise. */
  function NextDisplay(display: string): (next: string)
    ensures next == "" || next == "flex"
    ensures next == "flex" <==> display != "flex"
  {
    if display == "flex" then "" else "flex"
  }

  /** From either of its two values, two clicks restore the display style. */
  lemma NextDisplayTwice(display: string)
    requires display == "" || display == "flex"
    ensures NextDisplay(NextDisplay(display)) == display
  {
  }

  /** The `.nav-links` element's inline display style. */
  class NavMenu {
    var display: string

    constructor (display: string)
      ensures this.display == display
    {
      this.display := display;
    }

    /** A click on the menu button. */
    method Toggle()
      modifies this
      ensures display == NextDisplay(old(display))
    {
      if display == "flex" {
        display := "";
      } else {
        display := "flex";
      }
    }
  }
}
