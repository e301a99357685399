/** The page shell (App): the header's scrolled flag, the mobile menu and
    navigation to the page's sections. */
module PageShell {

  import Icons

  /** The header turns solid once the page has scrolled past this many pixels. */
  const ScrollThreshold: real := 50.0

  /** The targets of the navigation buttons, in menu order. */
  const NavSectionIds: seq<string> := ["promo", "services", "gallery", "booking", "contacts"]

  /** The element ids the rendered page carries. */
  const PageSectionIds: set<string> := {"gallery", "promo", "services", "booking", "contacts"}

  class PageShell {
    var mobileMenuOpen: bool
    var scrolled: bool

    constructor ()
      ensures !mobileMenuOpen && !scrolled
    {
      mobileMenuOpen, scrolled := false, false;
    }

    /** The scroll listener; scrollY may be fractional. The flag depends only
        on the latest position, so crossing back below the threshold turns it
        off again. */
    method HandleScroll(scrollY: real)
      modifies this
      ensures scrolled <==> scrollY > ScrollThreshold
      ensures mobileMenuOpen == old(mobileMenuOpen)
    {
      scrolled := scrollY > ScrollThreshold;
    }

    /** scrollToSection(id), with the ids present in the document passed in.
        A missing id does nothing and raises nothing; a present one is
        scrolled to and closes the mobile menu. Returns whether it scrolled. */
    method ScrollToSection(id: string, present: set<string>) returns (found: bool)
      modifies this
      ensures found <==> id in present
      ensures found ==> !mobileMenuOpen
      ensures !found ==> mobileMenuOpen == old(mobileMenuOpen)
      ensures scrolled == old(scrolled)
    {
      found := id in present;
      if found {
        mobileMenuOpen := false;
      }
    }

    /** The burger button. */
    method ToggleMobileMenu()
      modifies this
      ensures mobileMenuOpen == !old(mobileMenuOpen)
      ensures scrolled == old(scrolled)
    {
      mobileMenuOpen := !mobileMenuOpen;
    }
  }

  /** Every navigation button points at a section the page renders, so every
      navigation click scrolls and closes the menu. */
  lemma NavTargetsPresent(i: nat)
    requires i < |NavSectionIds|
    ensures NavSectionIds[i] in PageSectionIds
  {
  }

  /** The name the burger button hands to the icon component: one of the
      names the icon table spells out. */
  function MenuIconName(open: bool): (name: string)
    ensures name in Icons.IconMap
  {
    if open then "x" else "menu"
  }

  /** The burger button draws the X icon while the menu is open and the Menu
      icon while it is closed. */
  lemma MenuIconResolves(open: bool)
    ensures Icons.Normalize(MenuIconName(open)) == if open then "X" else "Menu"
  {
  }
}
