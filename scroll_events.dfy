/**
 * Scroll handling (site-performance.js, optimizeScrollEvents): scroll events
 * are coalesced into at most one pending animation frame by the `ticking`
 * flag; the frame toggles the navbar's scrolled style, picks the current
 * section and marks the navigation links that point at it.
 */
module ScrollEvents {
  import opened Wrappers

  /** A portfolio section: its id and its offsetTop in pixels. */
  datatype Section = Section(id: string, top: int)

  /** The navbar is styled as scrolled beyond this many pixels. */
  const NavbarThreshold: int := 50
  /** A section counts as reached this many pixels before its top. */
  const SectionLead: int := 200

  predicate NavbarScrolled(scrollY: int) {
    scrollY > NavbarThreshold
  }

  predicate Reached(s: Section, scrollY: int) {
    scrollY >= s.top - SectionLead
  }

  /** The index of the last section, in document order, that the scroll position has reached. */
  function LastReached(sections: seq<Section>, scrollY: int): (k: Option<nat>)
    ensures k.Some? ==> k.value < |sections| && Reached(sections[k.value], scrollY)
    ensures k.Some? ==> forall j :: k.value < j < |sections| ==> !Reached(sections[j], scrollY)
    ensures k.None? ==> forall j :: 0 <= j < |sections| ==> !Reached(sections[j], scrollY)
  {
    if sections == [] then None
    else if Reached(sections[|sections| - 1], scrollY) then Some(|sections| - 1)
    else LastReached(sections[..|sections| - 1], scrollY)
  }

  /** The id of the current section, or the empty string when no section is reached. */
  function CurrentId(sections: seq<Section>, scrollY: int): (r: string)
    ensures (forall j :: 0 <= j < |sections| ==> !Reached(sections[j], scrollY)) ==> r == ""
    ensures forall k ::
      (0 <= k < |sections| && Reached(sections[k], scrollY)
       && forall j :: k < j < |sections| ==> !Reached(sections[j], scrollY))
      ==> r == sections[k].id
  {
    match LastReached(sections, scrollY)
    case None => ""
    case Some(k) => sections[k].id
  }

  /** Scrolling further down never moves the current section back up the document. */
  lemma LastReachedMonotone(sections: seq<Section>, y1: int, y2: int)
    requires y1 <= y2
    ensures LastReached(sections, y1).Some? ==>
      LastReached(sections, y2).Some? && LastReached(sections, y1).value <= LastReached(sections, y2).value
  {
  }

  /** Sections at 0 and 800 with the page scrolled to 650: the second one is current. */
  lemma SecondSectionExample()
    ensures CurrentId([Section("video-section-1", 0), Section("logo-section-1", 800)], 650) == "logo-section-1"
  {
  }

  /** The navbar at scroll offsets 0, 51 and 10. */
  lemma NavbarExample()
    ensures !NavbarScrolled(0) && NavbarScrolled(51) && !NavbarScrolled(10)
  {
  }

  /** The forEach over the sections, overwriting `current` with each one reached. */
  method SelectCurrent(sections: seq<Section>, scrollY: int) returns (current: string)
    ensures current == CurrentId(sections, scrollY)
  {
    current := "";
    for i := 0 to |sections|
      invariant current == CurrentId(sections[..i], scrollY)
    {
      assert sections[..i + 1][..i] == sections[..i];
      if Reached(sections[i], scrollY) {
        current := sections[i].id;
      }
    }
    assert sections[..|sections|] == sections;
  }

  predicate LinkTargets(href: string, current: string) {
    href == "#" + current
  }

  /** The forEach over the links: `active` removed from each, then added back where the href is '#' + current. */
  method HighlightLinks(hrefs: seq<string>, active: array<bool>, current: string)
    requires active.Length == |hrefs|
    modifies active
    ensures forall i :: 0 <= i < |hrefs| ==> active[i] == LinkTargets(hrefs[i], current)
  {
    for i := 0 to |hrefs|
      invariant forall j :: 0 <= j < i ==> active[j] == LinkTargets(hrefs[j], current)
    {
      active[i] := false;
      if LinkTargets(hrefs[i], current) {
        active[i] := true;
      }
    }
  }

  /**
   * The scroll listener's state and the page it styles. The navbar is
   * absent (None) or carries its scrolled style (Some(b)); the sections and
   * the navigation links' hrefs are those the page holds; `active` holds each
   * link's active class.
   */
  class ScrollHandler {
    var ticking: bool
    var pendingFrames: nat
    var navbar: Option<bool>
    const sections: seq<Section>
    const hrefs: seq<string>
    const active: array<bool>

    /** One frame is pending exactly while ticking. */
    ghost predicate Valid()
      reads this
    {
      active.Length == |hrefs| && pendingFrames == (if ticking then 1 else 0)
    }

    constructor (navbarPresent: bool, ss: seq<Section>, hs: seq<string>, linksActive: array<bool>)
      requires linksActive.Length == |hs|
      ensures Valid() && !ticking
      ensures navbar == (if navbarPresent then Some(false) else None)
      ensures sections == ss && hrefs == hs && active == linksActive
    {
      ticking, pendingFrames := false, 0;
      navbar := if navbarPresent then Some(false) else None;
      sections, hrefs, active := ss, hs, linksActive;
    }

    /** A scroll event: requests one frame unless one is already pending. */
    method OnScroll()
      requires Valid()
      modifies this`ticking, this`pendingFrames
      ensures Valid() && ticking && pendingFrames == 1
      ensures old(ticking) ==> pendingFrames == old(pendingFrames)
    {
      if !ticking {
        pendingFrames := pendingFrames + 1;
        ticking := true;
      }
    }

    /**
     * The pending frame at scroll offset scrollY: the navbar (if any) is
     * scrolled exactly when scrollY > 50; when there are sections and links,
     * a link is active exactly when it targets the current section, and
     * otherwise no link changes; finally ticking is cleared.
     */
    method FrameFires(scrollY: int)
      requires Valid() && pendingFrames > 0
      modifies this`ticking, this`pendingFrames, this`navbar, active
      ensures Valid() && !ticking && pendingFrames == 0
      ensures navbar == match old(navbar) case None => None case Some(_) => Some(NavbarScrolled(scrollY))
      ensures |sections| > 0 && |hrefs| > 0 ==>
        forall i :: 0 <= i < |hrefs| ==> active[i] == LinkTargets(hrefs[i], CurrentId(sections, scrollY))
      ensures !(|sections| > 0 && |hrefs| > 0) ==> active[..] == old(active[..])
    {
      pendingFrames := pendingFrames - 1;
      if navbar.Some? {
        if NavbarScrolled(scrollY) {
          navbar := Some(true);
        } else {
          navbar := Some(false);
        }
      }
      if |sections| > 0 && |hrefs| > 0 {
        var current := SelectCurrent(sections, scrollY);
        HighlightLinks(hrefs, active, current);
      }
      ticking := false;
    }
  }
}
