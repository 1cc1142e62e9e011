/**
 * The navigation controller of the `Portfolio` page: which section the
 * navigation bar highlights, whether the mobile menu is open, and how
 * scrolling, nav clicks and the menu button change them.
 */
module Home {
  import opened Wrappers
  import opened SectionTracker

  /** The controller's two pieces of state. */
  datatype NavState = NavState(activeSection: SectionId, mobileMenuOpen: bool)

  /** The state when the page mounts: "home" active, menu closed. */
  const Initial: NavState := NavState("home", false)

  /** The active section is always one of the tracked sections. */
  predicate Valid(s: NavState)
  {
    s.activeSection in Sections
  }

  /** A scroll of the viewport requested for a section, aligning its top edge. */
  datatype ScrollRequest = ScrollRequest(target: SectionId, top: int)

  /** An entry of the navigation bar. */
  datatype NavItem = NavItem(id: SectionId, caption: string)

  const NavItems: seq<NavItem> := [
    NavItem("home", "Home"),
    NavItem("about", "About"),
    NavItem("projects", "Projects"),
    NavItem("contact", "Contact")
  ]

  /** The ids of a list of nav items, in order. */
  function ItemIds(items: seq<NavItem>): (r: seq<SectionId>)
    ensures |r| == |items|
    ensures forall k :: 0 <= k < |items| ==> r[k] == items[k].id
  {
    if items == [] then [] else [items[0].id] + ItemIds(items[1..])
  }

  // ---------------------------------------------------------------------
  // Transitions, as functions of the state
  // ---------------------------------------------------------------------

  /** The state after a scroll event with the viewport at offset `scrollY`. */
  function Scrolled(s: NavState, layout: Layout, scrollY: int): NavState
  {
    s.(activeSection := FirstMatch(Sections, layout, scrollY + NavOffset).GetOr(s.activeSection))
  }

  /** The state after a nav click on `id`. */
  function Navigated(s: NavState, layout: Layout, id: SectionId): NavState
  {
    if id in layout then s.(mobileMenuOpen := false) else s
  }

  /** The scroll a nav click on `id` requests, if the section exists. */
  function RequestFor(layout: Layout, id: SectionId): Option<ScrollRequest>
  {
    match GetElementById(layout, id)
    case None => None
    case Some(b) => Some(ScrollRequest(id, b.offsetTop))
  }

  /** The state after a press of the mobile menu button. */
  function Toggled(s: NavState): NavState
  {
    s.(mobileMenuOpen := !s.mobileMenuOpen)
  }

  /** The events the host delivers to the controller. */
  datatype Event =
    | Scroll(layout: Layout, scrollY: int)
    | NavClick(layout: Layout, id: SectionId)
    | MenuButton

  function Step(s: NavState, e: Event): NavState
  {
    match e
    case Scroll(layout, scrollY) => Scrolled(s, layout, scrollY)
    case NavClick(layout, id) => Navigated(s, layout, id)
    case MenuButton => Toggled(s)
  }

  /** The state after a sequence of events, delivered in order. */
  function Run(s: NavState, events: seq<Event>): NavState
    decreases |events|
  {
    if events == [] then s else Run(Step(s, events[0]), events[1..])
  }

  // ---------------------------------------------------------------------
  // Highlighting
  // ---------------------------------------------------------------------

  /** A nav item is drawn highlighted exactly when it names the active section. */
  predicate IsHighlighted(s: NavState, item: NavItem)
  {
    s.activeSection == item.id
  }

  /** How many of `items` are drawn highlighted in state `s`. */
  function HighlightCount(s: NavState, items: seq<NavItem>): nat
  {
    if items == [] then 0
    else (if IsHighlighted(s, items[0]) then 1 else 0) + HighlightCount(s, items[1..])
  }

  // ---------------------------------------------------------------------
  // Properties of the scroll handler
  // ---------------------------------------------------------------------

  /**
   * The scroll handler makes the first tracked section whose box contains
   * `scrollY + 100` active, and changes nothing else.
   */
  lemma ScrolledPicksFirstContaining(s: NavState, layout: Layout, scrollY: int, k: int)
    requires FirstMatchAt(Sections, layout, scrollY + 100, k)
    ensures Scrolled(s, layout, scrollY) == s.(activeSection := Sections[k])
  {
    FirstMatchAtIsChosen(Sections, layout, scrollY + NavOffset, k);
  }

  /** When the active section changes, it changes to the first section containing `scrollY + 100`. */
  lemma ScrolledChangeIsFirstContaining(s: NavState, layout: Layout, scrollY: int)
    requires Scrolled(s, layout, scrollY).activeSection != s.activeSection
    ensures exists k :: FirstMatchAt(Sections, layout, scrollY + 100, k) &&
                        Sections[k] == Scrolled(s, layout, scrollY).activeSection
  {
    ChosenIsFirstMatchAt(Sections, layout, scrollY + NavOffset);
  }

  /** A scroll to a position no tracked section contains leaves the whole state unchanged. */
  lemma ScrolledOutOfRange(s: NavState, layout: Layout, scrollY: int)
    requires forall k :: 0 <= k < |Sections| ==> !Matches(layout, Sections[k], scrollY + 100)
    ensures Scrolled(s, layout, scrollY) == s
  {
  }

  /** Delivering the same scroll event twice is the same as delivering it once. */
  lemma ScrolledIdempotent(s: NavState, layout: Layout, scrollY: int)
    ensures Scrolled(Scrolled(s, layout, scrollY), layout, scrollY) == Scrolled(s, layout, scrollY)
  {
  }

  /** A section whose element is missing never becomes active by scrolling. */
  lemma AbsentSectionNeverActivated(s: NavState, layout: Layout, scrollY: int, id: SectionId)
    requires id !in layout && s.activeSection != id
    ensures Scrolled(s, layout, scrollY).activeSection != id
  {
  }

  /** Overlapping boxes resolve by declaration order: an earlier containing section shadows a later one. */
  lemma ScrolledNeverPicksShadowed(s: NavState, layout: Layout, scrollY: int, j: int, k: int)
    requires 0 <= j < k < |Sections|
    requires Matches(layout, Sections[j], scrollY + 100)
    ensures Scrolled(s, layout, scrollY).activeSection != Sections[k]
  {
    EarlierMatchShadowsLater(Sections, layout, scrollY + NavOffset, j, k);
  }

  // ---------------------------------------------------------------------
  // Properties of the nav click and the menu button
  // ---------------------------------------------------------------------

  /**
   * A nav click never changes the active section; it closes the menu and
   * requests a scroll to the section's top exactly when the section exists,
   * and otherwise does nothing at all.
   */
  lemma NavigatedEffect(s: NavState, layout: Layout, id: SectionId)
    ensures Navigated(s, layout, id).activeSection == s.activeSection
    ensures id in layout ==> !Navigated(s, layout, id).mobileMenuOpen &&
                             RequestFor(layout, id) == Some(ScrollRequest(id, layout[id].offsetTop))
    ensures id !in layout ==> Navigated(s, layout, id) == s && RequestFor(layout, id) == None
  {
  }

  /** The menu button flips the menu, touches nothing else, and pressing it twice undoes it. */
  lemma ToggledInvolution(s: NavState)
    ensures Toggled(s).mobileMenuOpen == !s.mobileMenuOpen
    ensures Toggled(s).activeSection == s.activeSection
    ensures Toggled(Toggled(s)) == s
  {
  }

  // ---------------------------------------------------------------------
  // Invariants over every run
  // ---------------------------------------------------------------------

  /** Every event keeps the active section among the tracked sections. */
  lemma StepKeepsValid(s: NavState, e: Event)
    requires Valid(s)
    ensures Valid(Step(s, e))
  {
  }

  /** From any valid state, any sequence of events ends in a valid state. */
  lemma {:induction false} RunKeepsValid(s: NavState, events: seq<Event>)
    requires Valid(s)
    ensures Valid(Run(s, events))
    decreases |events|
  {
    if events != [] {
      StepKeepsValid(s, events[0]);
      RunKeepsValid(Step(s, events[0]), events[1..]);
    }
  }

  /** In a list of distinct items, exactly the one carrying the active id is highlighted. */
  lemma {:induction false} HighlightCountDistinct(s: NavState, items: seq<NavItem>)
    requires Distinct(ItemIds(items))
    ensures HighlightCount(s, items) == if s.activeSection in ItemIds(items) then 1 else 0
  {
    if items != [] {
      var rest := ItemIds(items[1..]);
      assert ItemIds(items) == [items[0].id] + rest;
      forall a, b | 0 <= a < b < |rest| ensures rest[a] != rest[b] {
        assert rest[a] == ItemIds(items)[a + 1] && rest[b] == ItemIds(items)[b + 1];
      }
      HighlightCountDistinct(s, items[1..]);
      if IsHighlighted(s, items[0]) {
        forall k | 0 <= k < |rest| ensures rest[k] != s.activeSection {
          assert rest[k] == ItemIds(items)[k + 1];
        }
      }
    }
  }

  /** The navigation bar lists exactly the tracked sections, in the same order. */
  lemma NavItemsAreSections()
    ensures ItemIds(NavItems) == Sections
    ensures Distinct(Sections)
  {
    assert ItemIds(NavItems) == [NavItems[0].id, NavItems[1].id, NavItems[2].id, NavItems[3].id];
  }

  /** In every state reachable from mount, exactly one nav item is highlighted. */
  lemma ExactlyOneHighlighted(events: seq<Event>)
    ensures HighlightCount(Run(Initial, events), NavItems) == 1
  {
    RunKeepsValid(Initial, events);
    NavItemsAreSections();
    HighlightCountDistinct(Run(Initial, events), NavItems);
  }

  /**
   * The four-section page of 800 pixels each: offset 750 activates "about",
   * offset 0 activates "home", and offset 5000 (past every section) keeps
   * whatever was active.
   */
  lemma StackedPageScenario(s: NavState)
    ensures var layout := map["home" := Box(0, 800), "about" := Box(800, 800),
                              "projects" := Box(1600, 800), "contact" := Box(2400, 800)];
            Scrolled(s, layout, 750).activeSection == "about" &&
            Scrolled(s, layout, 0).activeSection == "home" &&
            Scrolled(s, layout, 5000) == s
  {
    var layout := map["home" := Box(0, 800), "about" := Box(800, 800),
                      "projects" := Box(1600, 800), "contact" := Box(2400, 800)];
    assert Sections[0] == "home" && Sections[1] == "about";
    assert FirstMatchAt(Sections, layout, 850, 1);
    ScrolledPicksFirstContaining(s, layout, 750, 1);
    assert FirstMatchAt(Sections, layout, 100, 0);
    ScrolledPicksFirstContaining(s, layout, 0, 0);
    ScrolledOutOfRange(s, layout, 5000);
  }

  // ---------------------------------------------------------------------
  // The controller object
  // ---------------------------------------------------------------------

  /** The page component's mutable navigation state and its event handlers. */
  class Portfolio {
    var activeSection: SectionId
    var mobileMenuOpen: bool

    function State(): NavState
      reads this
    {
      NavState(activeSection, mobileMenuOpen)
    }

    constructor ()
      ensures State() == Initial && Valid(State())
    {
      activeSection := "home";
      mobileMenuOpen := false;
    }

    /** The scroll handler: walk the sections in order and stop at the first that contains the adjusted position. */
    method OnScroll(layout: Layout, scrollY: int)
      modifies this`activeSection
      ensures State() == Scrolled(old(State()), layout, scrollY)
      ensures old(Valid(State())) ==> Valid(State())
    {
      var sections := Sections;
      var scrollPosition := scrollY + NavOffset;
      var i := 0;
      while i < |sections|
        invariant 0 <= i <= |sections|
        invariant activeSection == old(activeSection)
        invariant FirstMatch(sections[i..], layout, scrollPosition) == FirstMatch(sections, layout, scrollPosition)
      {
        var section := sections[i];
        assert sections[i..][1..] == sections[i + 1..];
        var element := GetElementById(layout, section);
        if element.Some? {
          var b := element.value;
          if scrollPosition >= b.offsetTop && scrollPosition < b.offsetTop + b.offsetHeight {
            activeSection := section;
            break;
          }
        }
        i := i + 1;
      }
    }

    /** A nav click: request a scroll to the section and close the menu, when the section exists. */
    method ScrollToSection(layout: Layout, sectionId: SectionId) returns (request: Option<ScrollRequest>)
      modifies this`mobileMenuOpen
      ensures State() == Navigated(old(State()), layout, sectionId)
      ensures request == RequestFor(layout, sectionId)
      ensures request.Some? <==> sectionId in layout
    {
      var element := GetElementById(layout, sectionId);
      request := None;
      if element.Some? {
        request := Some(ScrollRequest(sectionId, element.value.offsetTop));
        mobileMenuOpen := false;
      }
    }

    /** The mobile menu button. */
    method ToggleMenu()
      modifies this`mobileMenuOpen
      ensures State() == Toggled(old(State()))
      ensures mobileMenuOpen == !old(mobileMenuOpen)
    {
      mobileMenuOpen := !mobileMenuOpen;
    }
  }
}
