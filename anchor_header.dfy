/** The single-page header: desktop and mobile anchor links to the page's
    sections, the mobile menu, and the "currently reading" highlight driven by
    an intersection observer over the page's `section` elements. */
module AnchorHeader {
  import opened Options
  import opened Strings
  import opened MobileMenu

  /** One entry of the header's navigation list. */
  datatype NavItem = NavItem(slug: string, title: string)

  /** The header's navigation list, in order. */
  const NavItems: seq<NavItem> := [
    NavItem("react-dom", "React DOM"),
    NavItem("native-hooks", "Native Hooks"),
    NavItem("custom-hooks", "Custom Hooks"),
    NavItem("game-time", "Game Time")
  ]

  /** One rendered anchor: its `aria-label` (the item's title), its `href`,
      whether it sits in the mobile sidebar, and whether it carries the
      `active` class. */
  datatype NavLink = NavLink(ariaLabel: string, href: string, mobile: bool, active: bool)

  /** The anchors as the callback finds them: every desktop link, then every
      mobile link, each in list order, none active. */
  function RenderedLinks(items: seq<NavItem>): (links: seq<NavLink>)
    ensures |links| == 2 * |items|
    ensures forall i :: 0 <= i < |items| ==>
      && links[i] == NavLink(items[i].title, "#" + items[i].slug, false, false)
      && links[|items| + i] == NavLink(items[i].title, "#" + items[i].slug, true, false)
  {
    var desktop := seq(|items|, i requires 0 <= i < |items| =>
      NavLink(items[i].title, "#" + items[i].slug, false, false));
    var mobile := seq(|items|, i requires 0 <= i < |items| =>
      NavLink(items[i].title, "#" + items[i].slug, true, false));
    desktop + mobile
  }

  /** One intersection observer entry: the observed section's id and whether
      it crossed into view. */
  datatype Entry = Entry(targetId: string, isIntersecting: bool)

  /** What one intersecting entry does to the anchors: each becomes active
      exactly when its `aria-label` equals the section's id. */
  function Highlight(links: seq<NavLink>, id: string): seq<NavLink>
  {
    seq(|links|, k requires 0 <= k < |links| => links[k].(active := links[k].ariaLabel == id))
  }

  /** What the observer callback does with a batch of entries, processed in
      order: intersecting entries highlight, the others change nothing. */
  function ApplyEntries(links: seq<NavLink>, entries: seq<Entry>): seq<NavLink>
  {
    if entries == [] then links
    else
      var before := ApplyEntries(links, entries[..|entries| - 1]);
      var e := entries[|entries| - 1];
      if e.isIntersecting then Highlight(before, e.targetId) else before
  }

  /** The id of the last intersecting entry of a batch, if any. */
  function LastIntersecting(entries: seq<Entry>): Option<string>
  {
    if entries == [] then None
    else if entries[|entries| - 1].isIntersecting then Some(entries[|entries| - 1].targetId)
    else LastIntersecting(entries[..|entries| - 1])
  }

  /** A later highlight overrides an earlier one: only the last id matters. */
  lemma HighlightOverrides(links: seq<NavLink>, first: string, second: string)
    ensures Highlight(Highlight(links, first), second) == Highlight(links, second)
  {
  }

  /** Within a batch the last intersecting entry wins: the batch leaves the
      anchors as that one entry alone would, and a batch with no intersecting
      entry leaves them untouched. */
  lemma {:induction false} LastIntersectingWins(links: seq<NavLink>, entries: seq<Entry>)
    ensures ApplyEntries(links, entries)
      == match LastIntersecting(entries)
         case None => links
         case Some(id) => Highlight(links, id)
  {
    if entries != [] {
      var prefix := entries[..|entries| - 1];
      LastIntersectingWins(links, prefix);
      if entries[|entries| - 1].isIntersecting && LastIntersecting(prefix).Some? {
        HighlightOverrides(links, LastIntersecting(prefix).value, entries[|entries| - 1].targetId);
      }
    }
  }

  /** After a batch, the anchors keep their labels, hrefs and places; if some
      entry intersected, an anchor is active exactly when its `aria-label`
      equals the last intersecting section's id; otherwise nothing changed. */
  lemma BatchActiveFlags(links: seq<NavLink>, entries: seq<Entry>)
    ensures var r := ApplyEntries(links, entries);
      && |r| == |links|
      && (forall k :: 0 <= k < |r| ==>
            r[k].ariaLabel == links[k].ariaLabel && r[k].href == links[k].href
            && r[k].mobile == links[k].mobile)
      && (LastIntersecting(entries).None? ==> r == links)
      && (LastIntersecting(entries).Some? ==>
            forall k :: 0 <= k < |r| ==>
              (r[k].active <==> links[k].ariaLabel == LastIntersecting(entries).value))
  {
    LastIntersectingWins(links, entries);
  }

  /** The highlight compares the section id with the link's `aria-label`,
      which is the item's title, not with its slug: a section whose id is the
      slug its link points to (`#react-dom`) activates no link at all. */
  lemma SlugIdActivatesNothing(k: nat)
    requires k < |NavItems|
    ensures var r := ApplyEntries(RenderedLinks(NavItems), [Entry(NavItems[k].slug, true)]);
      forall i :: 0 <= i < |r| ==> !r[i].active
  {
    var links := RenderedLinks(NavItems);
    var entries := [Entry(NavItems[k].slug, true)];
    LastIntersectingWins(links, entries);
    assert entries[..0] == [];
    forall i | 0 <= i < |links|
      ensures links[i].ariaLabel != NavItems[k].slug
    {
      var j := if i < |NavItems| then i else i - |NavItems|;
      assert links[i].ariaLabel == NavItems[j].title;
    }
  }

  /** A section whose id is an item's title activates exactly that item's
      desktop link and its mobile twin. */
  lemma TitleIdActivatesItsPair(k: nat)
    requires k < |NavItems|
    ensures var r := ApplyEntries(RenderedLinks(NavItems), [Entry(NavItems[k].title, true)]);
      forall i :: 0 <= i < |r| ==> (r[i].active <==> i == k || i == |NavItems| + k)
  {
    var links := RenderedLinks(NavItems);
    var entries := [Entry(NavItems[k].title, true)];
    LastIntersectingWins(links, entries);
    assert entries[..0] == [];
    forall i | 0 <= i < |links|
      ensures links[i].ariaLabel == NavItems[k].title <==> i == k || i == |NavItems| + k
    {
      var j := if i < |NavItems| then i else i - |NavItems|;
      assert links[i].ariaLabel == NavItems[j].title;
    }
  }

  /** The last intersecting entry of a batch is one of its entries. */
  lemma {:induction false} LastIntersectingIsAnEntry(entries: seq<Entry>)
    ensures LastIntersecting(entries).Some? ==>
      exists e :: e in entries && e.isIntersecting && e.targetId == LastIntersecting(entries).value
  {
    if entries != [] && !entries[|entries| - 1].isIntersecting {
      var prefix := entries[..|entries| - 1];
      LastIntersectingIsAnEntry(prefix);
      if LastIntersecting(prefix).Some? {
        var e :| e in prefix && e.isIntersecting && e.targetId == LastIntersecting(prefix).value;
        assert e in entries;
      }
    }
  }

  /** The observer reports only the sections it observes, so a batch can
      only newly activate links labelled with an observed section's id; a
      disconnected observer, observing nothing, changes no link. */
  lemma OnlyObservedSectionsHighlight(links: seq<NavLink>, entries: seq<Entry>, observed: set<string>)
    requires forall e :: e in entries ==> e.targetId in observed
    ensures var r := ApplyEntries(links, entries);
      && |r| == |links|
      && (forall k :: 0 <= k < |links| && r[k].active && !links[k].active ==> links[k].ariaLabel in observed)
      && (observed == {} ==> r == links)
  {
    BatchActiveFlags(links, entries);
    LastIntersectingIsAnEntry(entries);
  }

  /** The header as mounted: the menu fields, the page's sections with the
      set of them under observation, and the rendered anchors. */
  class NavigationHeader {
    var isOpen: bool
    var overflow: string
    var pendingCloses: nat
    /** Ids of the page's `section` elements, in document order. */
    const sections: seq<string>
    /** Ids of the sections being observed. */
    var observed: set<string>
    /** Whether the header is mounted, so that its document listeners for
      `keydown` and `visibilitychange` are registered. */
    var mounted: bool
    /** Desktop anchors followed by mobile anchors. */
    const links: array<NavLink>

    function State(): MenuState
      reads this
    {
      MenuState(isOpen, overflow, pendingCloses)
    }

    /** Every section of the page. */
    function AllSections(): set<string>
      reads this
    {
      set id | id in sections
    }

    /** Mounting: the menu closed, the anchors rendered from the navigation
      list, and every section observed. */
    constructor (sectionIds: seq<string>)
      ensures State() == Initial && ScrollLockMatches(State())
      ensures sections == sectionIds
      ensures observed == AllSections()
      ensures mounted
      ensures fresh(links) && links[..] == RenderedLinks(NavItems)
    {
      isOpen := false;
      overflow := "";
      pendingCloses := 0;
      sections := sectionIds;
      var rendered := RenderedLinks(NavItems);
      links := new NavLink[|rendered|](k requires 0 <= k < |rendered| => rendered[k]);
      observed := {};
      mounted := true;
      new;
      var i := 0;
      while i < |sections|
        invariant 0 <= i <= |sections|
        invariant State() == Initial && links[..] == rendered && mounted
        invariant observed == set id | id in sections[..i]
      {
        assert sections[..i + 1] == sections[..i] + [sections[i]];
        observed := observed + {sections[i]};
        i := i + 1;
      }
    }

    /** `openMobileMenu`: opened, and the page scroll locked. */
    method OpenMobileMenu()
      modifies this`isOpen, this`overflow
      ensures State() == OpenMenu(old(State()))
      ensures isOpen && overflow == "hidden"
    {
      isOpen := true;
      overflow := "hidden";
    }

    /** `closeMobileMenu`, run by the overlay and the close button: closed,
      and the page scroll released. */
    method CloseMobileMenu()
      modifies this`isOpen, this`overflow
      ensures State() == CloseMenu(old(State()))
      ensures !isOpen && overflow == ""
    {
      isOpen := false;
      overflow := "";
    }

    /** A click on a mobile link: the menu stays as it is and one close is
      scheduled 100 ms later. */
    method HandleNavLinkClick()
      modifies this`pendingCloses
      ensures State() == Step(old(State()), MobileLinkClick)
      ensures isOpen == old(isOpen) && overflow == old(overflow)
    {
      pendingCloses := pendingCloses + 1;
    }

    /** One scheduled close timer runs out and closes the menu. */
    method FireCloseTimer()
      modifies this`isOpen, this`overflow, this`pendingCloses
      ensures State() == Step(old(State()), CloseTimerFires)
      ensures old(pendingCloses) > 0 ==> !isOpen && overflow == ""
    {
      if pendingCloses > 0 {
        pendingCloses := pendingCloses - 1;
        CloseMobileMenu();
      }
    }

    /** The document's `keydown` listener, registered while mounted: Escape
      closes the menu. */
    method HandleKeyDown(key: string)
      requires mounted
      modifies this`isOpen, this`overflow
      ensures State() == Step(old(State()), KeyDown(key))
      ensures key == "Escape" ==> !isOpen && overflow == ""
      ensures key != "Escape" ==> State() == old(State())
    {
      if key == "Escape" {
        CloseMobileMenu();
      }
    }

    /** The intersection observer's callback: for each intersecting entry in
      turn, every anchor (desktop and mobile) is made active when its
      `aria-label` equals the entry's section id and inactive otherwise. The
      observer delivers entries only for the sections it observes; once
      disconnected it delivers none that could change a link. */
    method Callback(entries: seq<Entry>)
      requires forall e :: e in entries ==> e.targetId in observed
      modifies links
      ensures links[..] == ApplyEntries(old(links[..]), entries)
      ensures observed == {} ==> links[..] == old(links[..])
    {
      OnlyObservedSectionsHighlight(links[..], entries, observed);
      var i := 0;
      while i < |entries|
        invariant 0 <= i <= |entries|
        invariant links[..] == ApplyEntries(old(links[..]), entries[..i])
      {
        var entry := entries[i];
        if entry.isIntersecting {
          ghost var before := links[..];
          var j := 0;
          while j < links.Length
            invariant 0 <= j <= links.Length
            invariant forall k :: 0 <= k < j ==>
              links[k] == before[k].(active := before[k].ariaLabel == entry.targetId)
            invariant forall k :: j <= k < links.Length ==> links[k] == before[k]
          {
            var link := links[j];
            if link.ariaLabel == entry.targetId {
              links[j] := link.(active := true);
            } else {
              links[j] := link.(active := false);
            }
            j := j + 1;
          }
          assert links[..] == Highlight(before, entry.targetId);
        }
        assert entries[..i + 1][..i] == entries[..i];
        i := i + 1;
      }
      assert entries[..|entries|] == entries;
    }

    /** The document's `visibilitychange` listener: a hidden page stops
      observing; any other state observes every section again, which leaves
      an already complete observation as it was. The listener is registered
      only while the header is mounted. */
    method HandleVisibilityChange(visibilityState: string)
      requires mounted
      modifies this`observed
      ensures visibilityState == "hidden" ==> observed == {}
      ensures visibilityState != "hidden" ==> observed == old(observed) + AllSections()
      ensures visibilityState != "hidden" && AllSections() <= old(observed) ==> observed == old(observed)
    {
      if visibilityState == "hidden" {
        observed := {};
      } else {
        var i := 0;
        while i < |sections|
          invariant 0 <= i <= |sections|
          invariant observed == old(observed) + set id | id in sections[..i]
        {
          assert sections[..i + 1] == sections[..i] + [sections[i]];
          observed := observed + {sections[i]};
          i := i + 1;
        }
      }
    }

    /** Unmounting disconnects the observer and removes both document
      listeners; a close already scheduled still fires. */
    method Unmount()
      modifies this`observed, this`mounted
      ensures observed == {} && !mounted
    {
      observed := {};
      mounted := false;
    }

    /** The overlay's class attribute: "overlay-visible" exactly while open. */
    function OverlayClassName(): (c: string)
      reads this
      ensures HasClass(c, "overlay-visible") <==> isOpen
      ensures HasClass(c, "overlay-hidden") <==> !isOpen
    {
      OpenClassesMatchState(isOpen);
      OverlayClass(isOpen)
    }

    /** The sidebar's class attribute: "sidebar-open" exactly while open. */
    function SidebarClassName(): (c: string)
      reads this
      ensures HasClass(c, "sidebar-open") <==> isOpen
      ensures HasClass(c, "sidebar-closed") <==> !isOpen
    {
      OpenClassesMatchState(isOpen);
      SidebarClass(isOpen)
    }
  }
}
