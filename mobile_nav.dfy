/**
 * Mobile navigation (site-performance.js, optimizeMobileNav): when the page
 * has both a navbar toggler and a collapsible menu, a click on a navigation
 * link clicks the toggler exactly when the menu is shown.
 */
module MobileNav {
  /** Whether a click on a navigation link clicks the toggler. */
  predicate ClicksToggler(hasToggler: bool, hasCollapse: bool, menuShown: bool): (r: bool)
    ensures r ==> menuShown
    ensures hasToggler && hasCollapse ==> (r <==> menuShown)
  {
    hasToggler && hasCollapse && menuShown
  }

  /**
   * Whether the menu is shown after a link click, given that a toggler click
   * flips the menu (the toggler's own behaviour is the framework's).
   */
  function MenuShownAfterClick(hasToggler: bool, hasCollapse: bool, menuShown: bool): (r: bool)
    ensures r <==> menuShown && !(hasToggler && hasCollapse)
  {
    if ClicksToggler(hasToggler, hasCollapse, menuShown) then !menuShown else menuShown
  }

  /** With a toggler and a menu, a link click always leaves the menu closed; without them it changes nothing. */
  lemma LinkClickClosesMenu(hasToggler: bool, hasCollapse: bool, menuShown: bool)
    ensures hasToggler && hasCollapse ==> !MenuShownAfterClick(hasToggler, hasCollapse, menuShown)
    ensures !(hasToggler && hasCollapse) ==> MenuShownAfterClick(hasToggler, hasCollapse, menuShown) == menuShown
    ensures ClicksToggler(hasToggler, hasCollapse, menuShown) ==> menuShown
  {
  }
}
