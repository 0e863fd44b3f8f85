/**
 * The review modal and the mobile menu on one page. Both lock the page
 * scroll through the same `document.body.style.overflow`, each writing
 * `'hidden'` when it opens and `''` when it closes, without looking at the
 * other. Both also listen on `document`: navigation for clicks outside the
 * menu and for Escape, the modal for Escape. The page creates the
 * navigation manager before the modal manager, so navigation's document
 * listeners run first, and neither listener stops the event. An event on
 * an element runs that element's own listener before the document's.
 */
module Overlays {
  import opened Js
  import opened Dom
  import opened Modal
  import opened Navigation

  /** The element an event is aimed at, as far as the two overlays care. */
  datatype Target =
    | CloseButton       // `.modal__close`
    | Backdrop          // `.modal__backdrop`
    | PrevButton        // `.modal__prev`
    | NextButton        // `.modal__next`
    | CardAt(i: nat)    // testimonial card i
    | MenuToggle        // `[data-mobile-toggle]`
    | InsideMenu        // an element inside `[data-mobile-menu]`
    | Elsewhere         // any other element

  /** Navigation's click listener treats the menu and its toggle as inside. */
  predicate InsideMenuOrToggle(t: Target) {
    t == MenuToggle || t == InsideMenu
  }

  /** The target exists on this page. */
  predicate OnPage(nav: NavigationManager, modal: ModalManager, t: Target)
    reads nav
  {
    (t.CardAt? ==> t.i < |modal.cards|) && (t == MenuToggle || t == InsideMenu ==> nav.hasMenu && nav.hasToggle)
  }

  /**
   * A click on `t`: the target's own listener, then navigation's document
   * listener, which closes an open menu unless the click was inside the
   * menu or on its toggle.
   */
  method Click(nav: NavigationManager, modal: ModalManager, t: Target)
    requires nav.Valid() && nav.body == modal.body && OnPage(nav, modal, t)
    modifies nav, modal, nav.body
    ensures nav.Valid()
    ensures !InsideMenuOrToggle(t) ==> !nav.isMobileMenuOpen
    ensures t == CloseButton || t == Backdrop ==> !modal.isOpen && nav.body.overflow == ""
    ensures t.CardAt? ==> modal.isOpen && modal.currentIndex == Int(t.i)
                          && nav.body.overflow == (if old(nav.isMobileMenuOpen) then "" else "hidden")
    ensures t == MenuToggle ==> nav.isMobileMenuOpen == !old(nav.isMobileMenuOpen)
                                && nav.body.overflow == (if nav.isMobileMenuOpen then "hidden" else "")
                                && modal.isOpen == old(modal.isOpen)
    ensures t == InsideMenu || t == Elsewhere ==> modal.isOpen == old(modal.isOpen)
    ensures t == InsideMenu ==> nav.isMobileMenuOpen == old(nav.isMobileMenuOpen)
                                && nav.body.overflow == old(nav.body.overflow)
    ensures t == Elsewhere ==> nav.body.overflow == if old(nav.isMobileMenuOpen) then "" else old(nav.body.overflow)
  {
    match t {
      case CloseButton => modal.Close();
      case Backdrop => modal.Close();
      case PrevButton => var _ := modal.Navigate(-1);
      case NextButton => var _ := modal.Navigate(1);
      case CardAt(i) => var _ := modal.ActivateCard(i);
      case MenuToggle => nav.ToggleMobileMenu();
      case InsideMenu =>
      case Elsewhere =>
    }
    nav.OnDocumentClick(InsideMenuOrToggle(t));
  }

  /**
   * A `keydown` on `t`: a card opens on Enter or Space, the toggle flips
   * the menu on Enter or Space; then the document listeners run,
   * navigation's Escape handler before the modal's.
   */
  method KeyDown(nav: NavigationManager, modal: ModalManager, t: Target, key: string)
    requires nav.Valid() && nav.body == modal.body && OnPage(nav, modal, t)
    modifies nav, modal, nav.body
    ensures nav.Valid()
    ensures key == "Escape" ==> !nav.isMobileMenuOpen && !modal.isOpen
    ensures key == "Escape" && (old(nav.isMobileMenuOpen) || old(modal.isOpen)) ==> nav.body.overflow == ""
    ensures (key == "Enter" || key == " ") && t.CardAt? ==>
              modal.isOpen && modal.currentIndex == Int(t.i) && nav.body.overflow == "hidden"
              && nav.isMobileMenuOpen == old(nav.isMobileMenuOpen)
    ensures (key == "Enter" || key == " ") && t == MenuToggle ==>
              nav.isMobileMenuOpen == !old(nav.isMobileMenuOpen) && modal.isOpen == old(modal.isOpen)
              && nav.body.overflow == (if nav.isMobileMenuOpen then "hidden" else "")
    ensures key != "Escape" && !((key == "Enter" || key == " ") && (t.CardAt? || t == MenuToggle)) ==>
              nav.isMobileMenuOpen == old(nav.isMobileMenuOpen) && modal.isOpen == old(modal.isOpen)
              && nav.body.overflow == old(nav.body.overflow)
  {
    if key == "Enter" || key == " " {
      match t {
        case CardAt(i) => var _ := modal.ActivateCard(i);
        case MenuToggle => nav.OnToggleKeyDown(key);
        case _ =>
      }
    }
    nav.OnKeyDown(key);
    modal.OnKeyDown(key);
  }

  /** The three ways the modal is closed. */
  datatype ModalCloser = EscapeKey | CloseClick | BackdropClick

  /** Both overlays open: the menu from its toggle, then a card from the keyboard. */
  method BothOpen(cards: seq<Card>, i: nat) returns (nav: NavigationManager, modal: ModalManager)
    requires i < |cards|
    ensures fresh(nav) && fresh(modal) && fresh(nav.body) && nav.Valid() && nav.body == modal.body
    ensures nav.hasMenu && nav.hasToggle && modal.cards == cards
    ensures nav.isMobileMenuOpen && modal.isOpen && nav.body.overflow == "hidden"
  {
    var body := new Body("");
    nav := new NavigationManager(true, true, [], [], map[], None, body);
    modal := new ModalManager(cards, true, true, body, Some("true"));
    Click(nav, modal, MenuToggle);
    KeyDown(nav, modal, CardAt(i), "Enter");
  }

  /**
   * However the modal is closed while the menu is open, the menu closes
   * with it: Escape reaches navigation's listener too, and a click on the
   * close button or the backdrop is a click outside the menu.
   */
  method ClosingModalClosesMenu(cards: seq<Card>, i: nat, how: ModalCloser) returns (menuOpen: bool, modalOpen: bool, overflow: string)
    requires i < |cards|
    ensures !menuOpen && !modalOpen && overflow == ""
  {
    var nav, modal := BothOpen(cards, i);
    match how {
      case EscapeKey => KeyDown(nav, modal, Elsewhere, "Escape");
      case CloseClick => Click(nav, modal, CloseButton);
      case BackdropClick => Click(nav, modal, Backdrop);
    }
    menuOpen, modalOpen, overflow := nav.isMobileMenuOpen, modal.isOpen, nav.body.overflow;
  }

  /**
   * With the modal open, the menu opened and closed again from its toggle
   * (by keyboard; the modal does not react to Enter): the modal is still
   * open but the body scroll is unlocked.
   */
  method MenuCloseUnlocksOpenModal(cards: seq<Card>, i: nat) returns (modalOpen: bool, overflow: string)
    requires i < |cards|
    ensures modalOpen && overflow == ""
  {
    var body := new Body("");
    var nav := new NavigationManager(true, true, [], [], map[], None, body);
    var modal := new ModalManager(cards, true, true, body, Some("true"));
    Click(nav, modal, CardAt(i));
    KeyDown(nav, modal, MenuToggle, "Enter");
    KeyDown(nav, modal, MenuToggle, "Enter");
    modalOpen, overflow := modal.isOpen, body.overflow;
  }

  /**
   * A click on a card while the menu is open opens the modal, and the same
   * click then reaches navigation's document listener, which closes the
   * menu: the modal is shown with the body scroll unlocked.
   */
  method CardClickWithMenuOpen(cards: seq<Card>, i: nat) returns (menuOpen: bool, modalOpen: bool, overflow: string)
    requires i < |cards|
    ensures !menuOpen && modalOpen && overflow == ""
  {
    var body := new Body("");
    var nav := new NavigationManager(true, true, [], [], map[], None, body);
    var modal := new ModalManager(cards, true, true, body, Some("true"));
    Click(nav, modal, MenuToggle);
    Click(nav, modal, CardAt(i));
    menuOpen, modalOpen, overflow := nav.isMobileMenuOpen, modal.isOpen, body.overflow;
  }

  /** Either overlay opened alone locks the body, and a key other than Escape keeps it locked. */
  method SingleOverlayLocks(cards: seq<Card>, i: nat, useMenu: bool, key: string) returns (overflow: string)
    requires i < |cards| && key != "Escape"
    ensures overflow == "hidden"
  {
    var body := new Body("");
    var nav := new NavigationManager(true, true, [], [], map[], None, body);
    var modal := new ModalManager(cards, true, true, body, Some("true"));
    if useMenu {
      Click(nav, modal, MenuToggle);
    } else {
      Click(nav, modal, CardAt(i));
    }
    KeyDown(nav, modal, Elsewhere, key);
    overflow := body.overflow;
  }
}
