/** The mobile navigation menu that both headers share: the open flag, the
    document-level scroll lock (`document.body.style.overflow`) that opening
    and closing set together with it, and the close timers that a mobile link
    click schedules. This module states the machine as a function of events;
    the header classes carry out the same steps in place. */
module MobileMenu {
  import opened Strings

  /** The menu's state as the page sees it. `pendingCloses` counts the
      100 ms close timers scheduled by link clicks that have not fired yet
      (none is ever cancelled). */
  datatype MenuState = MenuState(isOpen: bool, overflow: string, pendingCloses: nat)

  /** The scroll lock is engaged exactly while the menu is open. */
  predicate ScrollLockMatches(s: MenuState)
  {
    s.overflow == (if s.isOpen then "hidden" else "")
  }

  /** Mounted: closed, nothing scheduled, the body's inline overflow empty. */
  const Initial: MenuState := MenuState(false, "", 0)

  /** `openMobileMenu`. */
  function OpenMenu(s: MenuState): MenuState
  {
    s.(isOpen := true, overflow := "hidden")
  }

  /** `closeMobileMenu`. */
  function CloseMenu(s: MenuState): MenuState
  {
    s.(isOpen := false, overflow := "")
  }

  /** What can happen to the menu: the hamburger button, the overlay or the
      close button, a key press anywhere in the document, a click on a mobile
      link, and one scheduled close timer running out. */
  datatype MenuEvent =
    | HamburgerClick
    | OverlayClick
    | CloseButtonClick
    | KeyDown(key: string)
    | MobileLinkClick
    | CloseTimerFires

  /** The effect of one event. A timer firing when none is pending cannot
      happen in the page and leaves the state alone. */
  function Step(s: MenuState, e: MenuEvent): MenuState
  {
    match e
    case HamburgerClick => OpenMenu(s)
    case OverlayClick => CloseMenu(s)
    case CloseButtonClick => CloseMenu(s)
    case KeyDown(key) => if key == "Escape" then CloseMenu(s) else s
    case MobileLinkClick => s.(pendingCloses := s.pendingCloses + 1)
    case CloseTimerFires =>
      if s.pendingCloses == 0 then s
      else CloseMenu(s).(pendingCloses := s.pendingCloses - 1)
  }

  /** The effect of a sequence of events, in order. */
  function Run(s: MenuState, events: seq<MenuEvent>): MenuState
    decreases |events|
  {
    if events == [] then s else Run(Step(s, events[0]), events[1..])
  }

  /** Opening engages the scroll lock and closing releases it, whatever the
      state before. */
  lemma OpenCloseSetLock(s: MenuState)
    ensures OpenMenu(s).isOpen && OpenMenu(s).overflow == "hidden"
    ensures !CloseMenu(s).isOpen && CloseMenu(s).overflow == ""
    ensures ScrollLockMatches(OpenMenu(s)) && ScrollLockMatches(CloseMenu(s))
  {
  }

  /** Every event keeps the scroll lock in step with the open flag. */
  lemma StepKeepsLock(s: MenuState, e: MenuEvent)
    requires ScrollLockMatches(s)
    ensures ScrollLockMatches(Step(s, e))
  {
  }

  /** After any sequence of events from a consistent state, and so after any
      sequence from mounting, the body's overflow is "hidden" exactly when the
      menu is open, and "" otherwise. */
  lemma {:induction false} RunKeepsLock(s: MenuState, events: seq<MenuEvent>)
    requires ScrollLockMatches(s)
    ensures ScrollLockMatches(Run(s, events))
    ensures Run(s, events).overflow == "hidden" <==> Run(s, events).isOpen
    decreases |events|
  {
    if events != [] {
      StepKeepsLock(s, events[0]);
      RunKeepsLock(Step(s, events[0]), events[1..]);
    }
  }

  /** The menu starts closed with the lock released. */
  lemma InitialIsClosed()
    ensures !Initial.isOpen && Initial.overflow == "" && ScrollLockMatches(Initial)
  {
  }

  /** Escape closes the menu and releases the lock; pressing it again changes
      nothing; any other key leaves the state as it was. */
  lemma EscapeCloses(s: MenuState, other: string)
    requires other != "Escape"
    ensures !Step(s, KeyDown("Escape")).isOpen
    ensures Step(s, KeyDown("Escape")).overflow == ""
    ensures Step(Step(s, KeyDown("Escape")), KeyDown("Escape")) == Step(s, KeyDown("Escape"))
    ensures Step(s, KeyDown(other)) == s
  {
  }

  /** A mobile link click leaves the menu as open as it was and only
      schedules a close; when that timer fires, the menu is closed. */
  lemma LinkClickDefersClose(s: MenuState)
    ensures Step(s, MobileLinkClick).isOpen == s.isOpen
    ensures Step(s, MobileLinkClick).overflow == s.overflow
    ensures Step(s, MobileLinkClick).pendingCloses == s.pendingCloses + 1
    ensures !Run(s, [MobileLinkClick, CloseTimerFires]).isOpen
    ensures Run(s, [MobileLinkClick, CloseTimerFires]).overflow == ""
    ensures Run(s, [MobileLinkClick, CloseTimerFires]).pendingCloses == s.pendingCloses
  {
    var events := [MobileLinkClick, CloseTimerFires];
    var clicked := Step(s, MobileLinkClick);
    assert events[1..] == [CloseTimerFires] && events[1..][1..] == [];
    assert Run(s, events) == Run(clicked, [CloseTimerFires]);
    assert Run(clicked, [CloseTimerFires]) == Run(Step(clicked, CloseTimerFires), []);
  }

  /** Once a close is scheduled, reopening the menu does not cancel it:
      opening and then letting the timer fire leaves the menu closed. */
  lemma ReopenedMenuStillCloses(s: MenuState)
    ensures !Run(s, [MobileLinkClick, HamburgerClick, CloseTimerFires]).isOpen
  {
    var events := [MobileLinkClick, HamburgerClick, CloseTimerFires];
    assert events[1..] == [HamburgerClick, CloseTimerFires];
    assert events[1..][1..] == [CloseTimerFires] && events[1..][1..][1..] == [];
    var clicked := Step(s, MobileLinkClick);
    var reopened := Step(clicked, HamburgerClick);
    assert Run(s, events) == Run(clicked, [HamburgerClick, CloseTimerFires]);
    assert Run(clicked, [HamburgerClick, CloseTimerFires]) == Run(reopened, [CloseTimerFires]);
    assert Run(reopened, [CloseTimerFires]) == Run(Step(reopened, CloseTimerFires), []);
  }

  /** The overlay's class attribute. */
  function OverlayClass(isOpen: bool): string
  {
    "mobile-overlay " + (if isOpen then "overlay-visible" else "overlay-hidden")
  }

  /** The sidebar's class attribute. */
  function SidebarClass(isOpen: bool): string
  {
    "mobile-sidebar " + (if isOpen then "sidebar-open" else "sidebar-closed")
  }

  /** The sidebar carries "sidebar-open" exactly when the menu is open and
      "sidebar-closed" exactly when it is closed; the overlay carries
      "overlay-visible" exactly when the menu is open. */
  lemma OpenClassesMatchState(isOpen: bool)
    ensures HasClass(SidebarClass(isOpen), "sidebar-open") <==> isOpen
    ensures HasClass(SidebarClass(isOpen), "sidebar-closed") <==> !isOpen
    ensures HasClass(SidebarClass(isOpen), "mobile-sidebar")
    ensures HasClass(OverlayClass(isOpen), "overlay-visible") <==> isOpen
    ensures HasClass(OverlayClass(isOpen), "overlay-hidden") <==> !isOpen
    ensures HasClass(OverlayClass(isOpen), "mobile-overlay")
  {
    var side := if isOpen then "sidebar-open" else "sidebar-closed";
    var over := if isOpen then "overlay-visible" else "overlay-hidden";
    assert SidebarClass(isOpen) == "mobile-sidebar" + " " + side;
    assert OverlayClass(isOpen) == "mobile-overlay" + " " + over;
    ClassPairHas("mobile-sidebar", side, "sidebar-open");
    ClassPairHas("mobile-sidebar", side, "sidebar-closed");
    ClassPairHas("mobile-sidebar", side, "mobile-sidebar");
    ClassPairHas("mobile-overlay", over, "overlay-visible");
    ClassPairHas("mobile-overlay", over, "overlay-hidden");
    ClassPairHas("mobile-overlay", over, "mobile-overlay");
  }
}
