# Portfolio navigation controller

A Dafny model of the navigation logic of the single-page portfolio site
(`Portfolio` in `src/pages/Home.jsx`). The page has four sections — home,
about, projects, contact — and a fixed navigation bar. The controller keeps
two pieces of state: the active section, which the bar highlights, and
whether the mobile menu is open. Three things change that state:

- a **scroll event** adds the 100-pixel nav offset to the scroll offset. It
  then walks the sections in the fixed order home, about, projects, contact.
  It skips a section whose element is missing, and makes the first section
  whose half-open box `[offsetTop, offsetTop + offsetHeight)` contains the
  position active. When no box contains the position, the active section is
  kept;
- a **nav click** on a section requests a smooth scroll to it and closes the
  mobile menu, but only when the section's element exists;
- the **menu button** flips the mobile menu.

Files:

- `wrappers.dfy` — `Option`, the result of an element lookup.
- `section_tracker.dfy` — module `SectionTracker`. It holds the page layout
  (a map from section id to its box; an id that is not a key has no element),
  the tracked section list, the nav offset, and the pure first-match lookup
  `FirstMatch` with its lemmas.
- `home.dfy` — module `Home`. It holds the state `NavState`, the transitions
  `Scrolled`, `Navigated` and `Toggled` as functions, event runs, the
  highlight rule, and the class `Portfolio`. The scroll handler
  `Portfolio.OnScroll` is written as the source's loop with an early exit and
  is proved equal to `Scrolled`.

The browser is abstracted. Layout geometry and `scrollY` are inputs as
integers. `document.getElementById` becomes `SectionTracker.GetElementById`,
a lookup in the layout map that yields the element's box, or `None` when the
id is not a key. `scrollIntoView` becomes a returned `ScrollRequest` that
names the section and its top edge.

A click on a section whose element is missing does nothing: no scroll, no
state change, no error (`src/pages/Home.jsx:57`). `ScrollToSection` then
returns `None` and changes no state.

## Model

| member | source | states |
|---|---|---|
| SectionTracker.Contains | src/pages/Home.jsx:43 | defines containment as half-open: offsetTop <= position < offsetTop + offsetHeight |
| SectionTracker.FirstMatch | src/pages/Home.jsx:39-48 | a returned id is one of the examined ids and its element exists and contains the position; nothing is returned exactly when no examined id's element contains the position |
| SectionTracker.FirstMatchAtIsChosen | src/pages/Home.jsx:39-46 | when the id at index k contains the position and no earlier id does, the lookup returns the id at k |
| SectionTracker.ChosenIsFirstMatchAt | src/pages/Home.jsx:39-46 | whatever the lookup returns sits at an index whose id contains the position and before which no id does (the converse) |
| SectionTracker.EarlierMatchShadowsLater | src/pages/Home.jsx:43-45 | with distinct ids, a later id is never chosen when an earlier one contains the position: first match, not best match |
| SectionTracker.HalfOpenBoundaries | src/pages/Home.jsx:43 | a section with positive height and no earlier match is chosen at its own offsetTop and is not chosen at offsetTop + offsetHeight |
| Home.ItemIds | src/pages/Home.jsx:63-68 | the id list of the nav items has one entry per item, the i-th being the i-th item's id |
| Home.Scrolled | src/pages/Home.jsx:35-49 | defines the scroll transition: the active section becomes the first tracked section containing scrollY + 100, or stays as it was when none does; the menu flag is kept |
| Home.Navigated | src/pages/Home.jsx:55-61 | defines the nav-click transition: the menu is closed when the section's element exists, and the state is unchanged otherwise |
| Home.RequestFor | src/pages/Home.jsx:56-58 | defines the scroll a nav click requests: to the section's top edge when its element exists, none otherwise |
| Home.Toggled | src/pages/Home.jsx:110 | defines the menu-button transition: the menu flag is negated |
| Home.IsHighlighted | src/pages/Home.jsx:92 | defines the highlight rule: an item is highlighted exactly when its id is the active section |
| Home.ScrolledPicksFirstContaining | src/pages/Home.jsx:36-45 | a scroll at offset scrollY makes active the first tracked section containing scrollY + 100, and leaves the menu flag alone |
| Home.ScrolledChangeIsFirstContaining | src/pages/Home.jsx:37-45 | whenever a scroll changes the active section, the new one is the first tracked section containing scrollY + 100 |
| Home.ScrolledOutOfRange | src/pages/Home.jsx:39-48 | a scroll whose adjusted position lies in no section leaves the whole state unchanged |
| Home.ScrolledIdempotent | src/pages/Home.jsx:35-49 | handling the same scroll twice gives the same state as handling it once |
| Home.AbsentSectionNeverActivated | src/pages/Home.jsx:40-41 | a section whose element is missing does not become active by scrolling |
| Home.ScrolledNeverPicksShadowed | src/pages/Home.jsx:36-45 | when an earlier tracked section contains scrollY + 100, no later tracked section becomes active |
| Home.NavigatedEffect | src/pages/Home.jsx:55-61 | a nav click never changes the active section; with the element present it closes the menu and requests a scroll to the section's top; without it nothing changes and no scroll is requested |
| Home.ToggledInvolution | src/pages/Home.jsx:110 | the menu button negates the menu flag, keeps the active section, and pressing it twice restores the state |
| Home.StepKeepsValid | src/pages/Home.jsx:36-44 | no event moves the active section outside home, about, projects, contact |
| Home.RunKeepsValid | src/pages/Home.jsx:21 | from a valid state, every sequence of scroll, click and menu events ends in a valid state |
| Home.HighlightCountDistinct | src/pages/Home.jsx:92 | among nav items with distinct ids, one item is highlighted when the active id is among them and none otherwise |
| Home.NavItemsAreSections | src/pages/Home.jsx:63-68 | the nav items carry exactly the tracked section ids in the tracked order, and those ids are distinct |
| Home.ExactlyOneHighlighted | src/pages/Home.jsx:131 | in every state reachable from mount, exactly one nav item is highlighted |
| Home.StackedPageScenario | src/pages/Home.jsx:37-45 | on four stacked 800-pixel sections, offset 750 activates about, offset 0 activates home, and offset 5000 keeps the state |
| Home.Portfolio.constructor | src/pages/Home.jsx:20-21 | a fresh controller has home active and the menu closed |
| Home.Portfolio.OnScroll | src/pages/Home.jsx:35-49 | the loop with early exit leaves exactly the state given by the scroll transition at scrollY + 100, and keeps the active section valid |
| Home.Portfolio.ScrollToSection | src/pages/Home.jsx:55-61 | the new state is the nav-click transition; a scroll is requested, to the section's top, exactly when its element exists |
| Home.Portfolio.ToggleMenu | src/pages/Home.jsx:110 | the menu flag is negated and the active section is untouched |

## Left out

- Rendering: JSX, Tailwind classes, framer-motion variants and `useInView`. These are presentation only.
- Smooth scrolling: the animation of `scrollIntoView` is a browser effect. The model returns the request (target id and top edge) and does not model the resulting viewport position or scroll clamping.
- Event plumbing: adding and removing the scroll and media-query listeners. The model takes each event as a method call or an `Event` value.
- The reduced-motion flag: it mirrors an external media query and only gates animations, so navigation does not depend on it.
- Fractional pixels: the browser's scroll and layout values are modelled as integers.
- Static content: skills, projects, links, mail addresses and the footer year.
