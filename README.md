# SAHARA disaster portal: page logic

This project models the logic of the SAHARA disaster-management web client in Dafny and proves properties of it. The rest of the client is markup, styling and animation. Four pieces are modelled:

- **Neighbor registry** (`neighbors.dfy`). This is the "Know your neighbor" page. It keeps a list of `{name, phone, address, id}` contacts and an add form with three fields. The list is mirrored to one browser-storage slot after every change and loaded from that slot when the page opens. The page offers add, remove by id, a call link, an alert to one neighbor, and a confirmed "alert all" broadcast. `Registry` is a class with the list, the form and the storage slot as fields, plus a ghost log of every value written to the slot. Its methods state the whole new state. The list operations themselves are pure functions with lemmas about them.
- **Alert feed** (`alerts.dfy`). The feed starts with three seeded alerts. A timer tick puts a new Critical alert at the front. The search is case-insensitive and matches on type or message. The three per-type counts are taken over the whole list. `Feed` is a class holding the list and the search text. The search and the counts are functions over the list.
- **Safe zones** (`safe_zones.dfy`). This covers the fixed table of four shelters, the badge class and icon for each status, and the status filter, where "All" shows everything. All of it is pure functions.
- **Header** (`navbar.dfy`). This covers the path each menu item links to and the open/closed mobile menu, which is the class `Menu`.

Two shared modules support these. `lists.dfy` holds `Filter`, which is JavaScript's `Array.prototype.filter`, and the sub-sequence relation that describes its result. `strings.dfy` holds `toLowerCase` for ASCII letters, `indexOf`, `includes`, and `replace` with a string pattern, which replaces only the first occurrence.

Notes on behaviour, following the code:
- New alerts go to the front of the feed, so the list is newest first (src/pages/Alerts.jsx:84).
- Alert and neighbor ids come from the clock. The model takes them as parameters and claims no uniqueness.
- The stored list is trusted. Loading it does no parse-failure recovery (src/pages/Neighbors.jsx:13).
- When the page opens, the persist effect first writes the initial empty list. A saved list then replaces it and is written again. `Registry.Mount` records both writes.
- Removing an id that no record carries still rewrites storage, because `filter` returns a new list. A refused add does not write at all.
- Add validation checks only that name and phone are non-empty strings. A name or phone made only of spaces is accepted.
- The page never renders the neighbor list. Remove, call and alert-one therefore have no caller on the page. They are modelled as the handlers the component defines.
- The route "/sahayak" is declared, but no header link leads to it.

## Model

| member | source | states |
|---|---|---|
| `Neighbors.Set` | src/pages/Neighbors.jsx:20-22 | a change event sets the named form field to the value; every other field keeps its value |
| `Neighbors.Registry.HandleChange` | src/pages/Neighbors.jsx:20-22 | typing changes only that form field; the list, the storage slot and the write log are untouched |
| `Neighbors.Registry.AddNeighbor` | src/pages/Neighbors.jsx:24-32 | the notice is shown exactly when name or phone is empty, and then nothing changes, storage included; otherwise one record (the form's fields plus the given id) is appended after the unchanged old records, the form is cleared, and the new list is written to storage |
| `Neighbors.Without` | src/pages/Neighbors.jsx:34-36 | the list after removal is no longer than before and holds a record exactly when the old list held it and its id differs (`WithoutSpec` adds order and multiplicity) |
| `Neighbors.WithoutSpec` | src/pages/Neighbors.jsx:34-36 | removal keeps every copy of each record whose id differs and no copy of any other, as an order-preserving sub-sequence of the old list |
| `Neighbors.WithoutAbsent` | src/pages/Neighbors.jsx:34-36 | the list is unchanged by removal if and only if no record carries that id |
| `Neighbors.WithoutIdempotent` | src/pages/Neighbors.jsx:34-36 | removing the same id twice equals removing it once |
| `Neighbors.Registry.RemoveNeighbor` | src/pages/Neighbors.jsx:34-36 | the list becomes the filtered list, the form is unchanged, and the new list is written to storage |
| `Neighbors.DialLink` | src/pages/Neighbors.jsx:38-40 | the dial link is "tel:" followed by the unchanged phone number |
| `Neighbors.DialLinkInjective` | src/pages/Neighbors.jsx:38-40 | different phone numbers give different dial links |
| `Neighbors.Registry.AlertNeighbor` | src/pages/Neighbors.jsx:42-44 | alerting one neighbor yields the single-recipient notice naming them; the method modifies nothing, so the list, the form and storage stay as they were |
| `Neighbors.Registry.AlertAll` | src/pages/Neighbors.jsx:46-55 | an empty list gives the "no neighbors" notice and sends nothing; a declined confirmation sends nothing; a confirmed one sends one alert per neighbor in list order (name and phone) and reports a count equal to the list length |
| `Neighbors.Registry.Persist` | src/pages/Neighbors.jsx:16-18 | the storage slot holds the current list, and exactly that list is appended to the write log |
| `Neighbors.Registry.Mount` | src/pages/Neighbors.jsx:7-18 | on opening, the form is empty and the list is the saved list if one exists, else empty; storage first receives the empty list, then the saved one; afterwards storage equals the list |
| `Neighbors.Reload` | src/pages/Neighbors.jsx:11-14 | opening the page again on what an earlier registry stored reproduces its list |
| `Alerts.Seed` | src/pages/Alerts.jsx:32-57 | the initial feed is three alerts with ids 1, 2, 3 and types Critical, Warning, Info, in that order |
| `Alerts.Feed.constructor` | src/pages/Alerts.jsx:32-60 | the feed starts as the seed with an empty search, every alert has one of the three types, and the three counts add up to the list length |
| `Alerts.Generated` | src/pages/Alerts.jsx:76-83 | a generated alert carries the given id, the type "Critical" (one of the three known types) and the time "Just now" |
| `Alerts.Feed.Tick` | src/pages/Alerts.jsx:74-84 | a tick puts one Critical "Just now" alert at index 0 and leaves the old list after it unchanged; the Critical count rises by one and the other two counts stay the same; every alert still has a known type, so the three counts still add up to the list length |
| `Alerts.Feed.SetSearch` | src/pages/Alerts.jsx:146 | typing a search changes only the search text, so the three counts do not change |
| `Alerts.Visible` | src/pages/Alerts.jsx:90-94 | the search result is no longer than the list and holds an alert exactly when the list holds it and it matches the query (`VisibleSpec` adds order and multiplicity) |
| `Alerts.Feed.Shown` | src/pages/Alerts.jsx:90-94 | the feed shows an alert exactly when the feed holds it and it matches the current search text |
| `Alerts.VisibleSpec` | src/pages/Alerts.jsx:90-94 | the search result is an order-preserving sub-list that keeps every copy of each alert whose lower-cased type or message contains the lower-cased query, and no copy of any other |
| `Alerts.VisibleEmptyQuery` | src/pages/Alerts.jsx:90-94 | an empty query shows the whole list |
| `Alerts.VisibleIgnoresQueryCase` | src/pages/Alerts.jsx:90-94 | a query gives the same result as its lower-cased form |
| `Alerts.VisibleAfterTick` | src/pages/Alerts.jsx:84-94 | after a tick the search result is the previous result, with the new alert in front if it matches |
| `Alerts.Count` | src/pages/Alerts.jsx:97-99 | a per-type count equals the number of entries of that type in the list of alert types, so it is at most the list length and zero exactly when no alert has that type |
| `Alerts.FilterKindCount` | src/pages/Alerts.jsx:97-99 | filtering by a type keeps as many alerts as the list has entries of that type |
| `Alerts.CountsCoverList` | src/pages/Alerts.jsx:97-99 | when every alert is Critical, Warning or Info, the three counts add up to the list length |
| `Alerts.CountsAfterTick` | src/pages/Alerts.jsx:76-99 | prepending the generated alert raises the Critical count by one and leaves the Warning and Info counts unchanged |
| `Alerts.Summary` | src/pages/Alerts.jsx:97-99 | the three summary figures add up to the list length whenever every alert has one of the three types |
| `SafeZones.Table` | src/pages/SafeZones.jsx:34-67 | the table holds four zones with ids 1 to 4 in order, each with a status among the three known values |
| `SafeZones.StatusClass` | src/pages/SafeZones.jsx:70-81 | the gray default class is returned exactly for statuses outside "Available", "Almost Full" and "Full" |
| `SafeZones.StatusClassDistinct` | src/pages/SafeZones.jsx:70-81 | the three known statuses get three different classes |
| `SafeZones.StatusIcon` | src/pages/SafeZones.jsx:84-95 | there is no icon exactly for statuses outside the three known values |
| `SafeZones.StatusIconDistinct` | src/pages/SafeZones.jsx:84-95 | the three known statuses get three different icons |
| `SafeZones.Shown` | src/pages/SafeZones.jsx:114-115 | the shown zones are no more than the table's and all come from it; for a filter other than "All" a zone is shown exactly when the table holds it with that status |
| `SafeZones.ShownAll` | src/pages/SafeZones.jsx:114-115 | the filter "All" shows the whole table in order |
| `SafeZones.ShownByStatus` | src/pages/SafeZones.jsx:114-115 | any other filter value shows every copy of each zone whose status equals it and no copy of any other, in their original order |
| `SafeZones.ShownUnmatched` | src/pages/SafeZones.jsx:115 | a filter value that no zone carries shows nothing |
| `SafeZones.ShownIdempotent` | src/pages/SafeZones.jsx:115 | filtering the shown list again by the same value gives the same list |
| `SafeZones.AvailableOnTable` | src/pages/SafeZones.jsx:114-115 | on the page's table, "Available" shows the first and third shelters |
| `SafeZones.FullOnTable` | src/pages/SafeZones.jsx:114-115 | on the page's table, "Full" shows only the fourth shelter |
| `Lists.Filter` | src/pages/Neighbors.jsx:35 | `filter` returns no more elements than it was given, and an element is in the result exactly when it was in the input and passes the test |
| `Lists.FilterIsSubsequence` | src/pages/Neighbors.jsx:35 | the result of `filter` keeps its elements in their original order |
| `Lists.FilterMultiset` | src/pages/Neighbors.jsx:35 | `filter` keeps every copy of an element that passes and no copy of one that fails |
| `Strings.Lower` | src/pages/Alerts.jsx:92-93 | lower-casing keeps the length and maps each character through `LowerChar`: an ASCII capital becomes its small letter and every other character is kept, so no upper-case ASCII letter is left |
| `Strings.IndexOf` | src/components/Navbar.jsx:28 | the position found is an occurrence of the pattern with no occurrence before it, and no position is found only when the pattern occurs nowhere, which is the first-match rule that `replace` relies on |
| `Strings.ContainsSpec` | src/pages/Alerts.jsx:92-93 | `includes` holds exactly when the pattern occurs at some position |
| `Strings.ContainsEmpty` | src/pages/Alerts.jsx:92-93 | every string includes the empty string |
| `Strings.ReplaceFirst` | src/components/Navbar.jsx:28 | a pattern that does not occur leaves the text unchanged; when its first occurrence is at `i`, the result is the text before `i`, then the replacement, then the text after that occurrence unchanged, so later occurrences stay |
| `Strings.IndexOfSpaceLower` | src/components/Navbar.jsx:28 | lower-casing does not move the first space |
| `Navbar.PathFor` | src/components/Navbar.jsx:28 | every link target starts with "/", and "Home" links to "/" |
| `Navbar.PathWithoutSpace` | src/components/Navbar.jsx:28 | an item other than "Home" with no space links to "/" followed by the whole item lower-cased |
| `Navbar.PathWithSpace` | src/components/Navbar.jsx:28 | an item other than "Home" links to "/" followed by the lower-cased text before and after its first space; later spaces stay |
| `Navbar.OnlyFirstSpaceRemoved` | src/components/Navbar.jsx:28 | "A B C" would link to "/ab c": only the first space is dropped |
| `Navbar.OneWordPath` | src/components/Navbar.jsx:25-28 | "Alerts" links to "/alerts" and "Neighbors" links to "/neighbors" |
| `Navbar.SafeZonesPath` | src/components/Navbar.jsx:25-28 | "Safe Zones" links to "/safezones" |
| `Navbar.MenuPathsAreRoutes` | src/App.jsx:11-15 | every header item links to a declared route, and none links to "/sahayak" |
| `Navbar.Menu.constructor` | src/components/Navbar.jsx:7 | the mobile menu starts closed |
| `Navbar.Menu.Toggle` | src/components/Navbar.jsx:41 | the menu button flips the open state |
| `Navbar.Menu.FollowMobileLink` | src/components/Navbar.jsx:65-68 | following a mobile link navigates to that item's path and leaves the menu closed, whatever its prior state |

## Left out

- Rendering, Tailwind classes as visual output, and framer-motion animation are not modelled. That includes the header and footer duplicated inside the Neighbors page. Badge classes matter only as distinct values of `StatusClass`.
- Browser storage and JSON are not modelled. The slot is an abstract `Option<seq<Neighbor>>`. A stored value that fails to parse makes the source throw, and the model has no such value. The `if (saved)` test on an empty string cannot arise either, because the model stores lists, not text.
- Browser side effects are modelled as values. The dial navigation becomes the link that `DialLink` returns. `alert` and `confirm` become returned notices and a boolean answer. The `console.log` lines of the broadcast become the returned `Send` list.
- The 15-second interval, and its cancellation when the page is left, are not modelled. A tick is a method call.
- Ids come from the clock (`Date.now()`). They are parameters, and uniqueness is not claimed.
- `toLowerCase` is modelled for ASCII letters only. Unicode case mapping is not modelled.
- The alert `color` and `icon` fields are not modelled. They follow from the type and are used only for display.
- Zone coordinates are kept as data but not used. The map, markers, icon patching and geolocation are browser and library code.
- The prediction charts are not modelled. They are display data only.
- SignUp (Firebase calls), Sahayak (form plumbing with browser-level `required` checks), Home and Footer (static markup) are not part of this model. App.jsx is used only as the route list.
- React scheduling is not modelled. Each handler, together with the persist effect it triggers, is one atomic step. Double-run effects in development mode are not modelled.
- No concrete search over the seeded alert texts is proved, such as a query for "flood". The general search lemmas cover that behaviour.
