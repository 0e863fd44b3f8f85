/**
 * Site navigation (js/modules/navigation.js): the mobile menu's open/closed
 * state, the active link chosen by the section in view, and the scroll
 * offset for in-page links.
 *
 * The IntersectionObserver is reduced to the event "section `id` is
 * intersecting", and the 100 ms scroll debounce to the event "the scroll
 * timeout fired". `window.scrollTo` and `history.replaceState` are
 * recorded as the list of scroll targets and the last hash written.
 */
module Navigation {
  import opened Js
  import opened Dom

  /** The width above which a resize closes the mobile menu. */
  const DesktopWidth := 768
  /** The gap left between the header and a scrolled-to section. */
  const ScrollGap := 20

  /** The class `nav-link--active` and `aria-current="page"` on a navigation link. */
  datatype LinkView = LinkView(active: bool, ariaCurrent: bool)

  /** `link.getAttribute('href')?.substring(1)`: the href without its first character. */
  function TargetId(href: Option<string>): (r: Option<string>)
    ensures href.None? <==> r.None?
    ensures href.Some? && |href.value| > 0 ==> r == Some(href.value[1..])
    ensures href == Some("") ==> r == Some("")
  {
    match href
    case None => None
    case Some(h) => Some(if |h| > 0 then h[1..] else "")
  }

  /** An in-page link `#id` targets `id`. */
  lemma TargetIdOfHash(id: string)
    ensures TargetId(Some("#" + id)) == Some(id)
  {
    assert ("#" + id)[1..] == id;
  }

  /** `getHeaderHeight`: the header's `offsetHeight`, or 0 without a header. */
  function HeaderHeight(header: Option<int>): (h: int)
    ensures header.None? ==> h == 0
    ensures header.Some? ==> h == header.value
  {
    if header.Some? then header.value else 0
  }

  /** `smoothScrollTo`'s target: the section's top, less the header and a 20 px gap. */
  function ScrollTop(offsetTop: int, header: Option<int>): (top: int)
    ensures top + HeaderHeight(header) + ScrollGap == offsetTop
  {
    offsetTop - HeaderHeight(header) - ScrollGap
  }

  /** `if (!this.currentSection)`: a missing or empty section id selects nothing. */
  predicate SectionSelected(section: Option<string>) {
    section.Some? && section.value != ""
  }

  class NavigationManager {
    /** Whether `[data-mobile-menu]` and `[data-mobile-toggle]` exist. */
    const hasMenu: bool
    const hasToggle: bool
    /** The `href` attribute of each `[data-nav-link]`. */
    const hrefs: seq<Option<string>>
    const links: array<LinkView>
    /** `offsetTop` of each element `getElementById` finds. */
    const elementTops: map<string, int>
    /** The `offsetHeight` of `<header>`, when there is one. */
    const header: Option<int>
    const body: Body

    var isMobileMenuOpen: bool
    /** The class `mobile-menu--open` on the menu. */
    var menuOpenClass: bool
    /** The toggle's `aria-expanded` and `aria-label`. */
    var ariaExpanded: Option<string>
    var ariaLabel: Option<string>
    var currentSection: Option<string>
    /** Every `window.scrollTo` top, in order. */
    var scrolls: seq<int>
    /** The URL hash `history.replaceState` last wrote. */
    var hash: Option<string>

    ghost predicate Valid()
      reads this
    {
      && links.Length == |hrefs|
      && (isMobileMenuOpen ==> hasMenu && hasToggle)
    }

    /**
     * The links are marked for `section`: a link is active, with
     * `aria-current`, exactly when its href is `#` followed by the section id.
     */
    ghost predicate MarksSection(section: string)
      reads this, links
      requires Valid()
    {
      forall k :: 0 <= k < links.Length ==>
        links[k] == LinkView(hrefs[k] == Some("#" + section), hrefs[k] == Some("#" + section))
    }

    /** After `init`: the menu is closed and no section has been seen, so no link changed. */
    constructor (hasMenu: bool, hasToggle: bool, hrefs: seq<Option<string>>, views: seq<LinkView>,
                 elementTops: map<string, int>, header: Option<int>, body: Body)
      requires |views| == |hrefs|
      ensures Valid() && fresh(links)
      ensures this.hasMenu == hasMenu && this.hasToggle == hasToggle && this.hrefs == hrefs
      ensures this.elementTops == elementTops && this.header == header && this.body == body
      ensures links[..] == views
      ensures !isMobileMenuOpen && currentSection.None? && scrolls == [] && hash.None?
    {
      this.hasMenu := hasMenu;
      this.hasToggle := hasToggle;
      this.hrefs := hrefs;
      links := new LinkView[|views|](k requires 0 <= k < |views| => views[k]);
      this.elementTops := elementTops;
      this.header := header;
      this.body := body;
      isMobileMenuOpen := false;
      menuOpenClass := false;
      ariaExpanded := None;
      ariaLabel := None;
      currentSection := None;
      scrolls := [];
      hash := None;
    }

    /**
     * `openMobileMenu`: with both the menu and its toggle present, opens the
     * menu, marks the toggle expanded and locks the body scroll; otherwise
     * nothing changes.
     */
    method OpenMobileMenu()
      requires Valid()
      modifies this, body
      ensures Valid()
      ensures hasMenu && hasToggle ==>
                isMobileMenuOpen && menuOpenClass && ariaExpanded == Some("true")
                && ariaLabel == Some("Закрыть меню") && body.overflow == "hidden"
      ensures !(hasMenu && hasToggle) ==>
                isMobileMenuOpen == old(isMobileMenuOpen) && menuOpenClass == old(menuOpenClass)
                && ariaExpanded == old(ariaExpanded) && ariaLabel == old(ariaLabel) && body.overflow == old(body.overflow)
      ensures currentSection == old(currentSection) && scrolls == old(scrolls) && hash == old(hash)
    {
      if !hasMenu || !hasToggle {
        return;
      }
      isMobileMenuOpen := true;
      menuOpenClass := true;
      ariaExpanded := Some("true");
      ariaLabel := Some("Закрыть меню");
      body.overflow := "hidden";
    }

    /**
     * `closeMobileMenu`: with both elements present, closes the menu and
     * unlocks the body scroll; otherwise nothing changes.
     */
    method CloseMobileMenu()
      requires Valid()
      modifies this, body
      ensures Valid()
      ensures hasMenu && hasToggle ==>
                !isMobileMenuOpen && !menuOpenClass && ariaExpanded == Some("false")
                && ariaLabel == Some("Открыть меню") && body.overflow == ""
      ensures !(hasMenu && hasToggle) ==>
                isMobileMenuOpen == old(isMobileMenuOpen) && menuOpenClass == old(menuOpenClass)
                && ariaExpanded == old(ariaExpanded) && ariaLabel == old(ariaLabel) && body.overflow == old(body.overflow)
      ensures !isMobileMenuOpen
      ensures currentSection == old(currentSection) && scrolls == old(scrolls) && hash == old(hash)
    {
      if !hasMenu || !hasToggle {
        return;
      }
      isMobileMenuOpen := false;
      menuOpenClass := false;
      ariaExpanded := Some("false");
      ariaLabel := Some("Открыть меню");
      body.overflow := "";
    }

    /** `toggleMobileMenu`: flips the menu state when both elements exist. */
    method ToggleMobileMenu()
      requires Valid()
      modifies this, body
      ensures Valid()
      ensures hasMenu && hasToggle ==> isMobileMenuOpen == !old(isMobileMenuOpen)
      ensures !(hasMenu && hasToggle) ==> !isMobileMenuOpen && body.overflow == old(body.overflow)
      ensures isMobileMenuOpen ==> body.overflow == "hidden"
      ensures old(isMobileMenuOpen) ==> body.overflow == ""
      ensures currentSection == old(currentSection) && scrolls == old(scrolls) && hash == old(hash)
    {
      if isMobileMenuOpen {
        CloseMobileMenu();
      } else {
        OpenMobileMenu();
      }
    }

    /** `openMenu`: opens only a closed menu; an open one is left exactly as it is. */
    method OpenMenu()
      requires Valid()
      modifies this, body
      ensures Valid()
      ensures old(isMobileMenuOpen) ==>
                isMobileMenuOpen && menuOpenClass == old(menuOpenClass) && ariaExpanded == old(ariaExpanded)
                && ariaLabel == old(ariaLabel) && body.overflow == old(body.overflow)
      ensures hasMenu && hasToggle ==> isMobileMenuOpen
      ensures currentSection == old(currentSection) && scrolls == old(scrolls) && hash == old(hash)
    {
      if !isMobileMenuOpen {
        OpenMobileMenu();
      }
    }

    /** `closeMenu`: closes only an open menu; a closed one is left exactly as it is. */
    method CloseMenu()
      requires Valid()
      modifies this, body
      ensures Valid()
      ensures !old(isMobileMenuOpen) ==>
                menuOpenClass == old(menuOpenClass) && ariaExpanded == old(ariaExpanded)
                && ariaLabel == old(ariaLabel) && body.overflow == old(body.overflow)
      ensures !isMobileMenuOpen
      ensures currentSection == old(currentSection) && scrolls == old(scrolls) && hash == old(hash)
    {
      if isMobileMenuOpen {
        CloseMobileMenu();
      }
    }

    /**
     * `updateActiveNavigation`: with a section selected, every link is
     * redrawn for it; otherwise no link changes.
     */
    method UpdateActiveNavigation()
      requires Valid()
      modifies links
      ensures SectionSelected(currentSection) ==> MarksSection(currentSection.value)
      ensures !SectionSelected(currentSection) ==> links[..] == old(links[..])
    {
      if !SectionSelected(currentSection) {
        return;
      }
      var target := "#" + currentSection.value;
      var k := 0;
      while k < links.Length
        invariant 0 <= k <= links.Length
        invariant forall j :: 0 <= j < k ==>
                    links[j] == LinkView(hrefs[j] == Some(target), hrefs[j] == Some(target))
      {
        if hrefs[k] == Some(target) {
          links[k] := LinkView(true, true);
        } else {
          links[k] := LinkView(false, false);
        }
        k := k + 1;
      }
    }

    /** The observer reports section `id` intersecting: it becomes current and the links follow. */
    method OnSectionIntersecting(id: string)
      requires Valid()
      modifies this, links
      ensures Valid() && currentSection == Some(id)
      ensures id != "" ==> MarksSection(id)
      ensures id == "" ==> links[..] == old(links[..])
      ensures isMobileMenuOpen == old(isMobileMenuOpen) && scrolls == old(scrolls) && hash == old(hash)
    {
      currentSection := Some(id);
      UpdateActiveNavigation();
    }

    /** The debounced scroll timeout fires: the links are redrawn for the current section. */
    method OnScrollSettled()
      requires Valid()
      modifies links
      ensures SectionSelected(currentSection) ==> MarksSection(currentSection.value)
      ensures !SectionSelected(currentSection) ==> links[..] == old(links[..])
    {
      UpdateActiveNavigation();
    }

    /**
     * `smoothScrollTo(id)`: when an element has that id, scrolls to its top
     * less the header height and 20 px, and writes `#id` into the URL;
     * otherwise nothing happens.
     */
    method SmoothScrollTo(id: string)
      requires Valid()
      modifies this
      ensures Valid()
      ensures id in elementTops ==>
                scrolls == old(scrolls) + [ScrollTop(elementTops[id], header)] && hash == Some("#" + id)
      ensures id !in elementTops ==> scrolls == old(scrolls) && hash == old(hash)
      ensures isMobileMenuOpen == old(isMobileMenuOpen) && currentSection == old(currentSection)
      ensures menuOpenClass == old(menuOpenClass) && ariaExpanded == old(ariaExpanded)
    {
      if id !in elementTops {
        return;
      }
      scrolls := scrolls + [ScrollTop(elementTops[id], header)];
      hash := Some("#" + id);
    }

    /**
     * `handleNavClick` on a link with attribute `href`: a missing or
     * one-character href returns before the default is prevented;
     * otherwise an open menu is closed and the page scrolls to the target.
     */
    method HandleNavClick(href: Option<string>) returns (prevented: bool)
      requires Valid()
      modifies this, body
      ensures Valid()
      ensures prevented <==> TargetId(href).Some? && TargetId(href).value != ""
      ensures !prevented ==> isMobileMenuOpen == old(isMobileMenuOpen) && scrolls == old(scrolls)
                             && hash == old(hash) && body.overflow == old(body.overflow)
      ensures prevented ==> !isMobileMenuOpen
      ensures prevented && old(isMobileMenuOpen) ==> body.overflow == ""
      ensures prevented && TargetId(href).value in elementTops ==>
                scrolls == old(scrolls) + [ScrollTop(elementTops[TargetId(href).value], header)]
      ensures currentSection == old(currentSection)
    {
      var targetId := TargetId(href);
      if targetId.None? || targetId.value == "" {
        return false;
      }
      prevented := true;
      if isMobileMenuOpen {
        CloseMobileMenu();
      }
      SmoothScrollTo(targetId.value);
    }

    /** `keydown` on the toggle: Enter or Space toggles the menu. */
    method OnToggleKeyDown(key: string)
      requires Valid()
      modifies this, body
      ensures Valid()
      ensures (key == "Enter" || key == " ") && hasMenu && hasToggle ==> isMobileMenuOpen == !old(isMobileMenuOpen)
      ensures (key == "Enter" || key == " ") && isMobileMenuOpen ==> body.overflow == "hidden"
      ensures (key == "Enter" || key == " ") && old(isMobileMenuOpen) ==> body.overflow == ""
      ensures !(key == "Enter" || key == " ") ==> isMobileMenuOpen == old(isMobileMenuOpen) && body.overflow == old(body.overflow)
    {
      if key == "Enter" || key == " " {
        ToggleMobileMenu();
      }
    }

    /** `keydown` on the document: Escape closes an open menu. */
    method OnKeyDown(key: string)
      requires Valid()
      modifies this, body
      ensures Valid()
      ensures key == "Escape" ==> !isMobileMenuOpen
      ensures key == "Escape" && old(isMobileMenuOpen) ==> body.overflow == ""
      ensures key != "Escape" ==> isMobileMenuOpen == old(isMobileMenuOpen) && body.overflow == old(body.overflow)
      ensures !old(isMobileMenuOpen) ==> !isMobileMenuOpen && body.overflow == old(body.overflow)
    {
      if key == "Escape" && isMobileMenuOpen {
        CloseMobileMenu();
      }
    }

    /** `resize`: a window wider than 768 px closes an open menu. */
    method OnResize(innerWidth: int)
      requires Valid()
      modifies this, body
      ensures Valid()
      ensures innerWidth > DesktopWidth ==> !isMobileMenuOpen
      ensures innerWidth <= DesktopWidth ==> isMobileMenuOpen == old(isMobileMenuOpen) && body.overflow == old(body.overflow)
      ensures !old(isMobileMenuOpen) ==> !isMobileMenuOpen && body.overflow == old(body.overflow)
    {
      if innerWidth > DesktopWidth && isMobileMenuOpen {
        CloseMobileMenu();
      }
    }

    /** A click anywhere outside the menu and the toggle closes an open menu. */
    method OnDocumentClick(insideMenuOrToggle: bool)
      requires Valid()
      modifies this, body
      ensures Valid()
      ensures !insideMenuOrToggle ==> !isMobileMenuOpen
      ensures !insideMenuOrToggle && old(isMobileMenuOpen) ==> body.overflow == ""
      ensures insideMenuOrToggle ==> isMobileMenuOpen == old(isMobileMenuOpen) && body.overflow == old(body.overflow)
      ensures !old(isMobileMenuOpen) ==> !isMobileMenuOpen && body.overflow == old(body.overflow)
    {
      if isMobileMenuOpen && !insideMenuOrToggle {
        CloseMobileMenu();
      }
    }

    /** `destroy`: an open menu is closed (listener removal and the pending timeout are not modelled). */
    method Destroy()
      requires Valid()
      modifies this, body
      ensures Valid() && !isMobileMenuOpen
      ensures !old(isMobileMenuOpen) ==> body.overflow == old(body.overflow)
    {
      if isMobileMenuOpen {
        CloseMobileMenu();
      }
    }
  }

  /** Toggling twice with both elements present restores the menu state and the scroll lock's value. */
  method ToggleTwice(wasOpen: bool) returns (open: bool)
    ensures open == wasOpen
  {
    var body := new Body("");
    var nav := new NavigationManager(true, true, [], [], map[], None, body);
    if wasOpen {
      nav.OpenMobileMenu();
    }
    nav.ToggleMobileMenu();
    nav.ToggleMobileMenu();
    open := nav.isMobileMenuOpen;
  }
}
