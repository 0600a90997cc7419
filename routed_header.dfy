/** The routed header: the same mobile menu as the single-page header, with
    links to routes whose `active` class comes from comparing the current
    pathname with each link's path. */
module RoutedHeader {
  import opened Strings
  import opened MobileMenu

  /** One entry of the routed navigation list. */
  datatype RouteItem = RouteItem(slug: string, title: string, path: string)

  /** The header's navigation list, in order. */
  const RouteItems: seq<RouteItem> := [
    RouteItem("typescript", "TypeScript", "/typescript"),
    RouteItem("react", "React", "/react")
  ]

  /** No two items share a path. */
  predicate DistinctPaths(items: seq<RouteItem>)
  {
    forall i, j :: 0 <= i < j < |items| ==> items[i].path != items[j].path
  }

  /** The class attribute of a desktop link: it carries "nav-link" always and
      "active" exactly when the pathname is, character for character, the
      link's path. */
  function DesktopLinkClass(pathname: string, item: RouteItem): (c: string)
    ensures HasClass(c, "nav-link")
    ensures HasClass(c, "active") <==> pathname == item.path
  {
    var state := if pathname == item.path then "active" else "";
    ClassPairHas("nav-link", state, "nav-link");
    ClassPairHas("nav-link", state, "active");
    assert "nav-link " + state == "nav-link" + " " + state;
    "nav-link " + state
  }

  /** The class attribute of a mobile link, built the same way. */
  function MobileLinkClass(pathname: string, item: RouteItem): (c: string)
    ensures HasClass(c, "mobile-nav-link")
    ensures HasClass(c, "active") <==> pathname == item.path
  {
    var state := if pathname == item.path then "active" else "";
    ClassPairHas("mobile-nav-link", state, "mobile-nav-link");
    ClassPairHas("mobile-nav-link", state, "active");
    assert "mobile-nav-link " + state == "mobile-nav-link" + " " + state;
    "mobile-nav-link " + state
  }

  /** A mobile link is active exactly when its desktop twin is, whatever the
      pathname. */
  lemma MobileMirrorsDesktop(pathname: string, item: RouteItem)
    ensures HasClass(MobileLinkClass(pathname, item), "active")
        <==> HasClass(DesktopLinkClass(pathname, item), "active")
  {
  }

  /** How many desktop links of the bar carry "active". */
  function ActiveCount(pathname: string, items: seq<RouteItem>): nat
  {
    if items == [] then 0
    else
      var here := if HasClass(DesktopLinkClass(pathname, items[0]), "active") then 1 else 0;
      here + ActiveCount(pathname, items[1..])
  }

  /** With distinct paths at most one link of the bar is active, and one is
      exactly when the pathname is some link's path. */
  lemma {:induction false} AtMostOneActive(pathname: string, items: seq<RouteItem>)
    requires DistinctPaths(items)
    ensures ActiveCount(pathname, items) <= 1
    ensures ActiveCount(pathname, items) == 1 <==> exists i :: 0 <= i < |items| && items[i].path == pathname
  {
    if items != [] {
      var rest := items[1..];
      assert DistinctPaths(rest) by {
        forall i, j | 0 <= i < j < |rest| ensures rest[i].path != rest[j].path {
          assert rest[i] == items[i + 1] && rest[j] == items[j + 1];
        }
      }
      AtMostOneActive(pathname, rest);
      if items[0].path == pathname {
        forall i | 0 <= i < |rest| ensures rest[i].path != pathname {
          assert rest[i] == items[i + 1];
        }
      } else {
        if exists i :: 0 <= i < |items| && items[i].path == pathname {
          var i :| 0 <= i < |items| && items[i].path == pathname;
          assert rest[i - 1] == items[i];
        }
        if exists i :: 0 <= i < |rest| && rest[i].path == pathname {
          var i :| 0 <= i < |rest| && rest[i].path == pathname;
          assert items[i + 1] == rest[i];
        }
      }
    }
  }

  /** The site's two routes have distinct paths, so at most one of its links
      is active on any page. */
  lemma SiteHasAtMostOneActive(pathname: string)
    ensures ActiveCount(pathname, RouteItems) <= 1
    ensures ActiveCount(pathname, RouteItems) == 1 <==> pathname == "/typescript" || pathname == "/react"
  {
    assert DistinctPaths(RouteItems);
    AtMostOneActive(pathname, RouteItems);
    assert RouteItems[0].path == "/typescript" && RouteItems[1].path == "/react";
  }

  /** The routed header as mounted: the menu fields. The pathname is read
      from the router at render time and so is a parameter of the class
      functions. */
  class RoutedNavigationHeader {
    var isOpen: bool
    var overflow: string
    var pendingCloses: nat

    function State(): MenuState
      reads this
    {
      MenuState(isOpen, overflow, pendingCloses)
    }

    /** Mounting: the menu closed. */
    constructor ()
      ensures State() == Initial && ScrollLockMatches(State())
    {
      isOpen := false;
      overflow := "";
      pendingCloses := 0;
    }

    /** `openMobileMenu`: opened, and the page scroll locked. */
    method OpenMobileMenu()
      modifies this
      ensures State() == OpenMenu(old(State()))
      ensures isOpen && overflow == "hidden"
    {
      isOpen := true;
      overflow := "hidden";
    }

    /** `closeMobileMenu`: closed, and the page scroll released. */
    method CloseMobileMenu()
      modifies this
      ensures State() == CloseMenu(old(State()))
      ensures !isOpen && overflow == ""
    {
      isOpen := false;
      overflow := "";
    }

    /** A click on a mobile link: the menu stays as it is (the route changes)
      and one close is scheduled 100 ms later. */
    method HandleNavLinkClick()
      modifies this
      ensures State() == Step(old(State()), MobileLinkClick)
      ensures isOpen == old(isOpen) && overflow == old(overflow)
    {
      pendingCloses := pendingCloses + 1;
    }

    /** One scheduled close timer runs out and closes the menu. */
    method FireCloseTimer()
      modifies this
      ensures State() == Step(old(State()), CloseTimerFires)
      ensures old(pendingCloses) > 0 ==> !isOpen && overflow == ""
    {
      if pendingCloses > 0 {
        pendingCloses := pendingCloses - 1;
        CloseMobileMenu();
      }
    }

    /** The document's `keydown` listener: Escape closes the menu, other keys
      are ignored. */
    method HandleKeyDown(key: string)
      modifies this
      ensures State() == Step(old(State()), KeyDown(key))
      ensures key == "Escape" ==> !isOpen && overflow == ""
      ensures key != "Escape" ==> State() == old(State())
    {
      if key == "Escape" {
        CloseMobileMenu();
      }
    }

    /** The overlay's class attribute: "overlay-visible" exactly while open. */
    function OverlayClassName(): (c: string)
      reads this
      ensures HasClass(c, "overlay-visible") <==> isOpen
      ensures HasClass(c, "overlay-hidden") <==> !isOpen
    {
      OpenClassesMatchState(isOpen);
      OverlayClass(isOpen)
    }

    /** The sidebar's class attribute: "sidebar-open" exactly while open. */
    function SidebarClassName(): (c: string)
      reads this
      ensures HasClass(c, "sidebar-open") <==> isOpen
      ensures HasClass(c, "sidebar-closed") <==> !isOpen
    {
      OpenClassesMatchState(isOpen);
      SidebarClass(isOpen)
    }
  }
}
