# React and TypeScript teaching site: header, tabs and example classes in Dafny

This project models the interactive core of a static site that teaches React and
TypeScript with tabbed code examples. The model covers:

- **The single-page header** (`src/components/Header/Header.tsx`). It has a
  mobile menu that opens, closes and locks the page scroll. A mobile link click
  closes the menu 100 ms later, and Escape closes it at once. An intersection
  observer marks the desktop and mobile links of the section in view as
  `active`, and a `visibilitychange` listener stops or restarts that observer.
  The model is the class `AnchorHeader.NavigationHeader`: its fields are
  updated in place and its links sit in an `array`. It is proved against the
  pure menu machine in `MobileMenu` and the batch function
  `AnchorHeader.ApplyEntries`.
- **The routed header** (`src/components/shared/header/Header.tsx`). It has the
  same menu. Its links are `active` when the current pathname equals their path.
- **The `CodeBlock` component**: its class attribute is computed with a trim,
  and its title is optional.
- **The `TabContent` component**: it picks how code is laid out, renders JSON
  and text results, and splits each concept into a term and a description.
- **The two tab sections**. `ReactBasicsSection` looks up the active tab with
  `find`. `TsBasicsSection` shows one of four guarded panels and builds its
  example strings.
- **The example classes** `Animal`, `Dog`, `Vehicle` and `Car`.

JavaScript string semantics are written out in `Strings`:

- `split` on one character, `join`, and `trim` with the ECMAScript whitespace set;
- `${n}` for a whole number below 2^53;
- how `classList` reads a space-separated class attribute (`HasClass`).

Where the two headers state the same menu behaviour, both classes are proved
against the same `MobileMenu.Step`.

Three behaviours of the code that a reader might not expect are kept as written:

- Sections are highlighted by comparing the section id with each link's
  `aria-label`, which is the item's title. The slug is not used
  (`Header.tsx:64,111,177`). `AnchorHeader.SlugIdActivatesNothing` and
  `AnchorHeader.TitleIdActivatesItsPair` state what that comparison does.
- The 100 ms close timer is never cleared, not even on unmount
  (`Header.tsx:36-38`). The model counts scheduled closes and never cancels
  one.
- `ReactBasicsSection` renders no content when no tab has the active id
  (`ReactBasicsSection.tsx:35-37`). The model returns `None` there. It does not
  assume the id is always in the table.

## Model

| member | source | states |
|---|---|---|
| Strings.Split | src/components/shared/tab-content/TabContent.tsx:36 | `s.split(c)`: the pieces between separators, always at least one; its properties are `SplitCount`, `SplitPiecesFree`, `JoinSplit` and `SplitJoin` |
| Strings.Join | src/components/ts-basics-section/TsBasicsSection.tsx:113 | `parts.join(sep)`: the pieces with the separator between neighbours; `JoinSplit` and `SplitJoin` tie it to `Split` |
| Strings.SplitCount | src/components/shared/tab-content/TabContent.tsx:36 | `split` on a character gives one more piece than the string has separators |
| Strings.SplitPiecesFree | src/components/shared/tab-content/TabContent.tsx:36 | no piece of a `split` contains the separator |
| Strings.JoinSplit | src/components/shared/tab-content/TabContent.tsx:36 | joining the pieces of a `split` with the separator gives back the input |
| Strings.SplitJoin | src/components/shared/tab-content/TabContent.tsx:36 | splitting a join of separator-free pieces gives back those pieces (the inverse direction) |
| Strings.TrimStart | src/components/shared/code-block/CodeBlock.tsx:20 | leading-whitespace removal keeps a suffix, removes only whitespace, and stops at a non-whitespace character |
| Strings.TrimEnd | src/components/shared/code-block/CodeBlock.tsx:20 | trailing-whitespace removal keeps a prefix, removes only whitespace, and stops at a non-whitespace character |
| Strings.TrimEndAppend | src/components/shared/code-block/CodeBlock.tsx:20 | trailing whitespace of `a + b` lies in `b` unless `b` is all whitespace |
| Strings.Trim | src/components/shared/code-block/CodeBlock.tsx:20 | `String.prototype.trim`: `TrimEnd` of `TrimStart`, so both ends lose exactly their whitespace as those two state |
| Strings.ClassPairHas | src/components/Header/Header.tsx:139 | a template `a ${b}` of two space-free names holds exactly the classes `a` and `b` |
| Strings.HasClass | src/components/shared/header/Header.tsx:57 | a class attribute holds a name iff the name is a non-empty piece of the attribute split on spaces; `ClassPairHas` reads the two-name templates with it |
| Strings.NatToString | src/components/ts-basics-section/TsBasicsSection.tsx:287 | `${n}` for a whole number below 2^53: at least one character, all of them digits; `NatToStringValue` proves they read back as `n` |
| Strings.NatToStringValue | src/components/ts-basics-section/TsBasicsSection.tsx:287 | the digits that `${n}` prints read back as `n`, with no leading zero |
| CodeBlock.KindClass | src/components/shared/code-block/CodeBlock.tsx:17 | "result-block" for `type` result and "code-block" otherwise; `KindClassShape` proves it is a non-empty word that trimming keeps |
| CodeBlock.ClassNameOf | src/components/shared/code-block/CodeBlock.tsx:20 | the trimmed template `${blockClass} ${className}`; `ClassNameShape` gives its exact value |
| CodeBlock.ClassNameShape | src/components/shared/code-block/CodeBlock.tsx:17-20 | the trimmed class is the block class alone for a blank extra class name; otherwise it is the block class, a space, and the extra name with its trailing whitespace removed |
| CodeBlock.DefaultClassNameIsKindClass | src/components/shared/code-block/CodeBlock.tsx:13-20 | with the default `className` the class is exactly "result-block" for `type` result and "code-block" otherwise |
| CodeBlock.Render | src/components/shared/code-block/CodeBlock.tsx:11-23 | children are unchanged; the title is shown iff it is given and non-empty; the class is the trimmed class |
| MobileMenu.OpenMenu | src/components/Header/Header.tsx:26-29 | the menu open and overflow "hidden", pending closes kept; `OpenCloseSetLock` states it |
| MobileMenu.CloseMenu | src/components/Header/Header.tsx:31-34 | the menu closed and overflow "", pending closes kept; `OpenCloseSetLock` states it |
| MobileMenu.Step | src/components/Header/Header.tsx:26-45 | one event: hamburger opens, close button and overlay close, a link click schedules a close, a timer fires one, Escape closes; `StepKeepsLock`, `EscapeCloses` and `LinkClickDefersClose` state what it keeps |
| MobileMenu.InitialIsClosed | src/components/Header/Header.tsx:5 | the menu mounts closed with the scroll lock released |
| MobileMenu.OpenCloseSetLock | src/components/Header/Header.tsx:26-34 | open sets the menu open with overflow "hidden"; close sets it closed with overflow "" |
| MobileMenu.StepKeepsLock | src/components/Header/Header.tsx:26-45 | every menu event keeps "overflow is hidden iff open" |
| MobileMenu.RunKeepsLock | src/components/Header/Header.tsx:26-45 | after any sequence of events from a consistent state, overflow is "hidden" iff the menu is open |
| MobileMenu.EscapeCloses | src/components/Header/Header.tsx:40-45 | Escape closes the menu and releases the lock; a second Escape changes nothing; any other key is ignored |
| MobileMenu.LinkClickDefersClose | src/components/Header/Header.tsx:36-38 | a link click leaves the menu as it was and schedules one close; when that timer fires the menu is closed |
| MobileMenu.ReopenedMenuStillCloses | src/components/Header/Header.tsx:36-38 | reopening the menu does not cancel a scheduled close: the timer still closes it |
| MobileMenu.OverlayClass | src/components/Header/Header.tsx:139 | the overlay template; `OpenClassesMatchState` states which classes it holds |
| MobileMenu.SidebarClass | src/components/Header/Header.tsx:145 | the sidebar template; `OpenClassesMatchState` states which classes it holds |
| MobileMenu.OpenClassesMatchState | src/components/Header/Header.tsx:138-145 | the sidebar has "sidebar-open" iff open and "sidebar-closed" iff closed; the overlay has "overlay-visible" iff open and "overlay-hidden" iff closed |
| AnchorHeader.RenderedLinks | src/components/Header/Header.tsx:105-184 | every desktop link, then every mobile link, in list order; each has label = title, href = "#" + slug, and is inactive |
| AnchorHeader.Highlight | src/components/Header/Header.tsx:62-69 | one intersecting entry: every anchor, desktop and mobile, active iff its aria-label equals the section id; `HighlightOverrides` and `BatchActiveFlags` state its effect |
| AnchorHeader.ApplyEntries | src/components/Header/Header.tsx:59-72 | a batch processed in order, non-intersecting entries skipped; `LastIntersectingWins` proves it equals the last intersecting entry alone |
| AnchorHeader.HighlightOverrides | src/components/Header/Header.tsx:62-69 | a later intersecting entry overrides an earlier one |
| AnchorHeader.LastIntersectingWins | src/components/Header/Header.tsx:59-72 | a batch leaves the links as its last intersecting entry alone would; a batch with none leaves them untouched |
| AnchorHeader.BatchActiveFlags | src/components/Header/Header.tsx:59-72 | after a batch the labels, hrefs and places are kept; a link is active iff its aria-label equals the last intersecting id, or nothing changed when no entry intersected |
| AnchorHeader.SlugIdActivatesNothing | src/components/Header/Header.tsx:64 | a section whose id is a link's slug activates no link |
| AnchorHeader.TitleIdActivatesItsPair | src/components/Header/Header.tsx:64 | a section whose id is an item's title activates exactly that item's desktop link and its mobile twin |
| AnchorHeader.OnlyObservedSectionsHighlight | src/components/Header/Header.tsx:74-97 | when every entry is for an observed section, only links labelled with an observed id can become active, and a disconnected observer changes no link |
| AnchorHeader.NavigationHeader.constructor | src/components/Header/Header.tsx:53-82 | mounted with its listeners registered, closed, links rendered, every section observed |
| AnchorHeader.NavigationHeader.OpenMobileMenu | src/components/Header/Header.tsx:26-29 | open and scroll locked, as `MobileMenu.OpenMenu` |
| AnchorHeader.NavigationHeader.CloseMobileMenu | src/components/Header/Header.tsx:31-34 | closed and scroll released, as `MobileMenu.CloseMenu` |
| AnchorHeader.NavigationHeader.HandleNavLinkClick | src/components/Header/Header.tsx:36-38 | menu unchanged, one more close scheduled |
| AnchorHeader.NavigationHeader.FireCloseTimer | src/components/Header/Header.tsx:37 | a pending close fires and closes the menu |
| AnchorHeader.NavigationHeader.HandleKeyDown | src/components/Header/Header.tsx:41-45 | only while mounted: Escape closes; other keys change nothing |
| AnchorHeader.NavigationHeader.Callback | src/components/Header/Header.tsx:59-72 | for entries of observed sections only, the nested loops leave the link array equal to `ApplyEntries` of the old array and the batch; with nothing observed the links are unchanged |
| AnchorHeader.NavigationHeader.HandleVisibilityChange | src/components/Header/Header.tsx:84-92 | only while mounted: "hidden" empties the observed set; any other state adds every section, and re-observing a complete set leaves it unchanged |
| AnchorHeader.NavigationHeader.Unmount | src/components/Header/Header.tsx:96-99 | unmounting disconnects the observer and removes the listeners, so no handler can observe sections again and no batch can change a link |
| AnchorHeader.NavigationHeader.OverlayClassName | src/components/Header/Header.tsx:139 | "overlay-visible" iff open, "overlay-hidden" iff closed |
| AnchorHeader.NavigationHeader.SidebarClassName | src/components/Header/Header.tsx:145 | "sidebar-open" iff open, "sidebar-closed" iff closed |
| RoutedHeader.DesktopLinkClass | src/components/shared/header/Header.tsx:57 | always "nav-link"; "active" iff the pathname equals the link's path |
| RoutedHeader.MobileLinkClass | src/components/shared/header/Header.tsx:123 | always "mobile-nav-link"; "active" iff the pathname equals the link's path |
| RoutedHeader.MobileMirrorsDesktop | src/components/shared/header/Header.tsx:123 | a mobile link is active iff its desktop twin is, for every pathname |
| RoutedHeader.AtMostOneActive | src/components/shared/header/Header.tsx:54-57 | with distinct paths, at most one link is active, and one is iff the pathname is some link's path |
| RoutedHeader.SiteHasAtMostOneActive | src/components/shared/header/Header.tsx:9-20 | the site's two routes: at most one active link, and exactly one on "/typescript" or "/react" |
| RoutedHeader.RoutedNavigationHeader.constructor | src/components/shared/header/Header.tsx:6 | mounted closed with the scroll lock released |
| RoutedHeader.RoutedNavigationHeader.OpenMobileMenu | src/components/shared/header/Header.tsx:22-25 | open and scroll locked |
| RoutedHeader.RoutedNavigationHeader.CloseMobileMenu | src/components/shared/header/Header.tsx:27-30 | closed and scroll released |
| RoutedHeader.RoutedNavigationHeader.HandleNavLinkClick | src/components/shared/header/Header.tsx:32-34 | menu unchanged, one close scheduled |
| RoutedHeader.RoutedNavigationHeader.FireCloseTimer | src/components/shared/header/Header.tsx:33 | a pending close fires and closes the menu |
| RoutedHeader.RoutedNavigationHeader.HandleKeyDown | src/components/shared/header/Header.tsx:37-41 | Escape closes; other keys change nothing |
| RoutedHeader.RoutedNavigationHeader.OverlayClassName | src/components/shared/header/Header.tsx:86 | "overlay-visible" iff open |
| RoutedHeader.RoutedNavigationHeader.SidebarClassName | src/components/shared/header/Header.tsx:92 | "sidebar-open" iff open |
| Classes.Animal.Speak | src/types/classes.ts:11-31 | the name followed by " makes a sound" for an animal, or by " barks!" for a dog |
| Classes.Animal.GetAge | src/types/classes.ts:15-17 | the age given at construction, for an animal or a dog; `GettersReturnConstructorArguments` states it |
| Classes.Animal.GetBreed | src/types/classes.ts:33-35 | a dog's breed; `GettersReturnConstructorArguments` states it |
| Classes.GettersReturnConstructorArguments | src/types/classes.ts:6-35 | `getAge` and `getBreed` return the constructor's arguments; a dog's age is read as an animal's |
| Classes.SpeakDistinguishes | src/types/classes.ts:29-31 | the override is observable: a dog never says what an animal says, and within one kind the message determines the name |
| Classes.Vehicle.StartEngine | src/types/classes.ts:62-64 | brand, a space, model, " engine started!", at stated positions |
| Classes.StartEngineNamesModel | src/types/classes.ts:62-64 | two cars of one brand with different models announce different messages |
| Classes.Vehicle.GetBrand | src/types/classes.ts:48-50 | the brand given at construction; `CarGettersReturnConstructorArguments` states it |
| Classes.Vehicle.GetModel | src/types/classes.ts:66-68 | the model given at construction; `CarGettersReturnConstructorArguments` states it |
| Classes.CarGettersReturnConstructorArguments | src/types/classes.ts:42-68 | `getBrand` and `getModel` return the constructor's arguments |
| TabContent.CodeLayout | src/components/shared/tab-content/TabContent.tsx:24-28 | a `pre` block iff the code contains a line break; the text is unchanged |
| TabContent.ResultLayout | src/components/shared/tab-content/TabContent.tsx:33-38 | JSON: one block equal to the content; text: lines that join back to the content, one more than the line breaks, none holding a line break |
| TabContent.TextResultRoundTrip | src/components/shared/tab-content/TabContent.tsx:36-38 | break-free lines joined by line breaks render back as exactly those lines |
| TabContent.SplitConcept | src/components/shared/tab-content/TabContent.tsx:54-55 | the term is the text before the first colon; term + ":" + description is the item when it has a colon; otherwise the whole item is the term and the description is empty |
| TabContent.ConceptText | src/components/shared/tab-content/TabContent.tsx:54-55 | the term, a colon, the description; `ConceptShownAsWritten` relates it to the item |
| TabContent.ConceptShownAsWritten | src/components/shared/tab-content/TabContent.tsx:54-55 | an item is shown as written iff it has a colon; without one a colon is added after it |
| TabContent.RenderCard | src/components/shared/tab-content/TabContent.tsx:17-43 | class "example-card " + size; code in a plain "code-block"; a "result-block" iff there is a result, titled with the result's title iff it is non-empty |
| TabContent.SizeClassName | src/types/tab-data.ts:6 | the `sizeClass` literal of an example, "large" or "regular", placed in the card class at TabContent.tsx:20; `CardClassMarksSize` states what it marks |
| TabContent.CardClassMarksSize | src/components/shared/tab-content/TabContent.tsx:20 | the card has class "example-card", and "large" iff the example is large |
| TabContent.RenderTab | src/components/shared/tab-content/TabContent.tsx:10-62 | one card per example in order; a concepts block iff concepts exist, one split item per concept in order |
| ReactBasics.FindTab | src/components/react-basics-section/ReactBasicsSection.tsx:12 | the first tab in table order with the id, or `None` iff no tab has it |
| ReactBasics.FindTabUnique | src/components/react-basics-section/ReactBasicsSection.tsx:12 | with distinct ids, looking up a tab's id finds that tab |
| ReactBasics.ButtonClass | src/components/react-basics-section/ReactBasicsSection.tsx:26 | always "tab-button"; "active" iff the tab's id is the active one |
| ReactBasics.Buttons | src/components/react-basics-section/ReactBasicsSection.tsx:23-31 | one button per tab in table order, with the tab's label; active iff its id is the active one |
| ReactBasics.OneActiveButton | src/components/react-basics-section/ReactBasicsSection.tsx:23-29 | with distinct ids, at most one button is active, and one is iff the active id is in the table |
| ReactBasics.ReactBasicsSection.constructor | src/components/react-basics-section/ReactBasicsSection.tsx:9 | the initial active tab is "rendering" |
| ReactBasics.ReactBasicsSection.SelectTab | src/components/react-basics-section/ReactBasicsSection.tsx:27 | the clicked id becomes the active tab |
| ReactBasics.ReactBasicsSection.Content | src/components/react-basics-section/ReactBasicsSection.tsx:12-37 | empty iff no tab has the active id; otherwise the first such tab rendered |
| ReactBasics.ReactBasicsSection.ButtonRow | src/components/react-basics-section/ReactBasicsSection.tsx:23-31 | one button per tab, active iff its id is the active one |
| TsBasics.IdString | src/components/ts-basics-section/TsBasicsSection.tsx:8 | the string literal of each tab id; `IdStringInjective` proves the four are distinct |
| TsBasics.IdStringInjective | src/components/ts-basics-section/TsBasicsSection.tsx:8 | the four tab ids have distinct strings, so comparing strings compares tabs |
| TsBasics.ButtonClass | src/components/ts-basics-section/TsBasicsSection.tsx:72 | always "tab-button"; "active" iff the tab is the active one |
| TsBasics.ButtonClasses | src/components/ts-basics-section/TsBasicsSection.tsx:69-77 | one class per tab in order, active iff its id is the active one |
| TsBasics.ExactlyOneActiveButton | src/components/ts-basics-section/TsBasicsSection.tsx:53-58 | the four ids are distinct and every id is in the row, so exactly one button is active |
| TsBasics.ShownPanels | src/components/ts-basics-section/TsBasicsSection.tsx:82-231 | the four guards are exclusive and exhaustive: exactly the active panel is shown |
| TsBasics.JoinNumbers | src/components/ts-basics-section/TsBasicsSection.tsx:113 | `values.join(', ')` of whole numbers; `ArrayExampleShown` gives it for the example array |
| TsBasics.ArrayExampleCode | src/components/ts-basics-section/TsBasicsSection.tsx:113 | the array example's code line, the joined values between `[` and `];`; `ArrayExampleShown` gives its text |
| TsBasics.ArrayExampleShown | src/components/ts-basics-section/TsBasicsSection.tsx:113 | `[1, 2, 3, 4, 5].join(', ')` is "1, 2, 3, 4, 5" inside the code line |
| TsBasics.StatusText | src/types/types.ts:2 | the string literal of each status |
| TsBasics.Quoted | src/components/ts-basics-section/TsBasicsSection.tsx:89 | a value between two literal quotes: the quote, the value unchanged, the quote |
| TsBasics.BoolText | src/components/ts-basics-section/TsBasicsSection.tsx:105 | `toString` of a boolean: "true" iff the boolean is true, "false" otherwise |
| TsBasics.DeclarationLine | src/components/ts-basics-section/TsBasicsSection.tsx:89 | the head, " = ", the shown value and ";" at fixed places |
| TsBasics.StringExampleCode | src/components/ts-basics-section/TsBasicsSection.tsx:89 | the string example's line; `StringExamplesShownVerbatim` reads its value back |
| TsBasics.NumberExampleCode | src/components/ts-basics-section/TsBasicsSection.tsx:97 | the number example's line; `NumberAndBooleanShown` gives its text |
| TsBasics.BooleanExampleCode | src/components/ts-basics-section/TsBasicsSection.tsx:105 | the boolean example's line; `NumberAndBooleanShown` gives its text |
| TsBasics.AnyExampleCode | src/components/ts-basics-section/TsBasicsSection.tsx:129 | the `any` example's line; `StringExamplesShownVerbatim` reads its value back |
| TsBasics.StatusLine | src/components/ts-basics-section/TsBasicsSection.tsx:204 | the union example's usage line; `StatusLineNamesStatus` reads its status back |
| TsBasics.QuotedValueReadsBack | src/components/ts-basics-section/TsBasicsSection.tsx:89 | a quoted value stands unchanged between the quote after " = " and the quote before ";" |
| TsBasics.StringExamplesShownVerbatim | src/components/ts-basics-section/TsBasicsSection.tsx:89-129 | the string and `any` examples show their values exactly, with no serialisation |
| TsBasics.NumberAndBooleanShown | src/components/ts-basics-section/TsBasicsSection.tsx:97-105 | the number example shows "42", whose digits read back as 42, and the boolean example shows "true" |
| TsBasics.StatusLineNamesStatus | src/components/ts-basics-section/TsBasicsSection.tsx:204 | different statuses give different usage lines, and the status text stands between the quotes |
| TsBasics.AnimalLine | src/components/ts-basics-section/TsBasicsSection.tsx:287 | an animal's line; `AnimalLineOf` writes it out and `AnimalLineReadsBack` reads it back |
| TsBasics.DogLine | src/components/ts-basics-section/TsBasicsSection.tsx:288 | a dog's line; `DogLineOf` writes it out and `DogLineReadsBack` reads it back |
| TsBasics.AnimalLineOf | src/components/ts-basics-section/TsBasicsSection.tsx:287 | an animal's line is its name, " makes a sound (Age: ", the digits of its age, ")" |
| TsBasics.DogLineOf | src/components/ts-basics-section/TsBasicsSection.tsx:288 | a dog's line is its name, " barks! (Age: ", its age digits, ", Breed: ", its breed, ")" |
| TsBasics.AnimalLineReadsBack | src/components/ts-basics-section/TsBasicsSection.tsx:287 | name and age can be read back from an animal's line |
| TsBasics.DogLineReadsBack | src/components/ts-basics-section/TsBasicsSection.tsx:288 | name, age and breed can be read back from a dog's line |
| TsBasics.LinesHaveNoBreak | src/components/ts-basics-section/TsBasicsSection.tsx:287-288 | lines built from break-free names and breeds hold no line break |
| TsBasics.AnimalExampleLine | src/components/ts-basics-section/TsBasicsSection.tsx:287 | the example animal's line is "Generic Animal makes a sound (Age: 5)" |
| TsBasics.DogExampleLine | src/components/ts-basics-section/TsBasicsSection.tsx:288 | the example dog's line is "Buddy barks! (Age: 3, Breed: Golden Retriever)" |
| TsBasics.ClassExampleMatchesTable | src/components/ts-basics-section/BasicsSectionTabs.ts:224-227 | the table's text result for the inheritance example renders as exactly the two lines the panel computes |
| TsBasics.TsBasicsSection.constructor | src/components/ts-basics-section/TsBasicsSection.tsx:16 | the initial active tab is "primitives" |
| TsBasics.TsBasicsSection.SelectTab | src/components/ts-basics-section/TsBasicsSection.tsx:73 | the clicked tab becomes the active one |
| TsBasics.TsBasicsSection.Panels | src/components/ts-basics-section/TsBasicsSection.tsx:82-231 | the active tab's panel alone is rendered |
| TsBasics.TsBasicsSection.ButtonRow | src/components/ts-basics-section/TsBasicsSection.tsx:69-77 | one class per tab, active iff its id is the active one |

## Left out

- JSX structure, CSS, SVG and the static text of the panels are not modelled. Rendered output appears only as class strings, line sequences, and which card, block or panel is present.
- DOM queries (`querySelectorAll`, `getAttribute`, `classList`) are not modelled. The anchors are an array of records, the sections are a sequence of ids, and a class list is read by splitting on spaces. The class strings here hold spaces only, so that reading agrees with the browser's ASCII-whitespace tokenizer for them.
- IntersectionObserver geometry, root margin and the 0.3 threshold are not modelled. Each entry carries `isIntersecting` as a given boolean. Observation is a set of section ids.
- The 100 ms delay of `setTimeout` is not modelled. Scheduled closes are a counter, and `FireCloseTimer` is an explicit step. The order in which several timers fire is not distinguished, because they all do the same thing.
- Registering and removing the `keydown` and `visibilitychange` listeners is modelled only as the single-page header's `mounted` flag, which its listener handlers require. The routed header has no unmount step, and its `keydown` handler can always be called.
- React state updates are taken to be immediate. Batching and re-rendering are not modelled.
- The body's inline `overflow` is taken to be "" at mount. The components never set it before the first open.
- react-router's `Link` and `useLocation` are not modelled. The pathname is a parameter, and a link click's navigation is not modelled.
- `JSON.stringify` output (the object example, the `user` and `admin` records, and the `product` record with its `price: 29.99` float) is not modelled. It belongs to the JavaScript runtime's serialisation and number formatting.
- The multi-line code templates of the interfaces, types and classes panels are fixed text. Their only interpolation is `${currentStatus}` in the union example's usage line, which is modelled (the `${this.name}` in the classes templates is escaped, so it is shown literally). The classes example's two output lines are separate paragraphs and are modelled too.
- Strings.NatToString: whole numbers are taken below 2^53. JavaScript prints larger ones rounded to the shortest round-trip digits, and from 1e21 in exponent form, while the model prints every exact digit. The same applies to `NatToStringValue`, `JoinNumbers` and the age read back from the classes example's lines.
- Classes.Animal.GetAge: ages are whole non-negative numbers. The source's `number` also admits fractions and negatives, and the lines that print the age (`TsBasics.AnimalLine`, `TsBasics.DogLine`) do not model how those would be printed.
- The abstract `Vehicle` base class is represented only through its one implementation, `Car`.
- The static content tables (`ReactBasicsTabs.ts`, `BasicsSectionTabs.ts`) are data. Only the inheritance example's text result is used, as a fixture. The React section's tab table is a parameter of its class.
- ReactBasics.ReactBasicsSection.SelectTab: the source's `TabId` type limits ids to the four table ids. The model accepts any string, and `Content` covers an id outside the table.
- Type-only files, page and layout composition, and the test files are not part of this model.
