# Launcher paging engine and apps pane, modelled in Dafny

This project models the integer bookkeeping at the heart of the launcher's
paged surfaces (the `qshtclauncher2` launcher) and proves properties of it.

- **Paging engine** (`paging.dfy`, module `Paging`; `PagedView`): current
  page, next page and the `INVALID_PAGE` sentinel; clamping versus loop
  wrap-around of targets, including the `-1` and `count` sentinels; the
  unbounded and rendered scroll position; the three `snapToPage` overloads,
  `snapToPageWithVelocity` and `snapToDestination`; `scrollLeft`/`scrollRight`;
  the settle step of `computeScrollHelper`; the touch-up classification
  (fling, significant move, return to origin); the dirty-flag content window
  of `loadAssociatedPages`; and `invalidatePageData`.
- **Smooth pager** (`smooth_paging.dfy`, `SmoothPaging`; `SmoothPagedView`):
  the default mode's own snap (target normalisation and integer duration),
  and the delegation of every entry point to the base engine in the
  extra-large mode the class reports for itself.
- **Apps pane layout** (`apps_layout.dfy`, `AppsLayout`; `AppsCustomizePagedView`):
  content-type codes, per-type page counts, the contiguous layout of all
  types' pages in one child list (`indexToPage`, `getOffsetScrollX`),
  item-to-cell placement, `getPageForComponent`, and `setContentType` with
  the per-type saved page.
- **Widget preloading** (`widget_preload.dfy`, `WidgetPreload`): the
  `mWidgetCleanupState` machine driven by `onShortPress`, the posted bind
  and inflate steps and `cleanupWidgetPreloading`, with the set of widget
  ids the preloading holds made explicit.
- **App lists** (`app_lists.dfy`, `AppLists`): the two comparators,
  `Collections.binarySearch`, in-place insertion (`addAppsWithoutInvalidate`),
  top-package pinning (`reorderApps`) and `setApps`.
- **Tab host** (`tab_host.dfy`, `TabHost`; `AppsCustomizeTabHost`): tag and
  content-type mapping, the byte-packed tab order, and the deferral of a
  pane reset requested during a launcher transition.
- **Page indicator** (`screen_indicator.dfy`, `ScreenIndicator`;
  `QsScreenIndicator`): page and count tracking, the "current/count" label
  and the arrows.
- **Preview strip** (`drop_preview.dfy`, `DropPreview`;
  `QsSmallDropPreviewScreen`): x-to-preview mapping, the de-duplicated
  redraw queue and its drain, single selection, and drag-over/drop handling.
- `java_int.dfy` (`JavaInt`) holds `Option`, `Min`/`Max`/`Clamp` and
  Java's truncating division.

Geometry is reduced to integers. Every page has the same width `W` and
there is no spacing, so page `p` rests at `offsetX + p * W`. Here
`offsetX` is `getOffsetScrollX()`. Everything the platform computes
becomes a parameter of the operation that uses it:

- the overscroll amount (`bend`), produced by a floating-point curve;
- the fling duration, produced by the velocity and sine curve;
- the release velocity, the drag distance and the total motion;
- the clock (`now`) and the double-tap timeout;
- the widget id the host allocates, and whether binding it is allowed;
- the stored tab-order preference.

The thresholds 0.4, 0.33 and 0.7 of a page width are compared exactly,
as rationals.

Bit patterns (content-type codes, support masks, the packed tab order)
are `bv32`. Java's arithmetic `>>` and the model's logical shift agree
on the bits the `& 0xFF` mask keeps at shifts 16, 8 and 0.

## Model

| member | source | states |
|---|---|---|
| Paging.LoopingNeedsTwoPages | src/com/android/qshtclauncher2/PagedView.java:296-313 | looping holds exactly when the loop attribute is set and there are at least two pages; the `-1` and `count` sentinels then alias two different real pages |
| Paging.ScrollTo | src/com/android/qshtclauncher2/PagedView.java:498-529 | the unbounded x is always recorded; out of loop mode the rendered x stays within `[offsetX, maxScrollX]` and equals x (as does the overscroll x) inside that range; without overscroll an out-of-range x pins the view at the nearer bound; no other field changes |
| Paging.SetCurrentPage | src/com/android/qshtclauncher2/PagedView.java:415-435 | the animation is stopped; with no pages nothing else changes; otherwise the current page is the request clamped to `[0, count-1]` and the view rests exactly on it |
| Paging.WindowHoldsPage | src/com/android/qshtclauncher2/AppsCustomizePagedView.java:2532-2545 | for a page within the count, both the base window (one page either side, PagedView.java:2218-2223) and the apps pane window contain the page and stay inside the pages; the apps pane window always spans `min(count, 5)` pages |
| Paging.LoadPages | src/com/android/qshtclauncher2/PagedView.java:2165-2204 | over the pages of one content type: pages outside the window end dirty; dirty pages inside it (only the requested page in immediate-only mode) are synced exactly once, in increasing order, and end clean; other flags are untouched |
| Paging.LoadAssociatedPages | src/com/android/qshtclauncher2/PagedView.java:2157-2216 | nothing happens unless the content is refreshable and the page exists; otherwise the requested page ends clean, every page outside the window ends dirty, and a page in the window is synced exactly when it was dirty; only the dirty flags change |
| Paging.Normalise | src/com/android/qshtclauncher2/PagedView.java:1987-2009 | in loop mode the target is clamped to `[-1, count]` and names the real page `Wrap` gives, always within `[0, count-1]`; otherwise both are the target clamped to `[0, count-1]`; the result is never `INVALID_PAGE` |
| Paging.SnapToPageDelta | src/com/android/qshtclauncher2/PagedView.java:2011-2060 | the target becomes the next page and an animation from the unbounded x by `delta` starts; a zero duration becomes `abs(delta)`; the reported destination is the wrapped target in loop mode; the window load is deferred unless the subclass drives the scroll, in which case it happens at once: the requested page ends clean and the pages outside its window end dirty (nothing changes without refreshable content or past the last page) |
| Paging.SnapToPage | src/com/android/qshtclauncher2/PagedView.java:1983-2009 | the next page is the normalised target (never `INVALID_PAGE`), the animation ends exactly at that page's resting position, and the destination is the real page it names |
| Paging.SnapToPageWithVelocity | src/com/android/qshtclauncher2/PagedView.java:1924-1981 | same target and end position as `SnapToPage`; a release slower than the minimum fling velocity animates for 550 ms; a faster one uses the fling duration capped at 750 ms, unless that is zero |
| Paging.NearestAmong | src/com/android/qshtclauncher2/PagedView.java:1877-1898 | the page found is the first one whose resting position is closest to x (no page strictly closer, no earlier page as close); -1 with `Integer.MAX_VALUE` only when no page is closer than that bound |
| Paging.SnapToDestination | src/com/android/qshtclauncher2/AppsCustomizePagedView.java:1290-1294 | the apps pane with at most one page does nothing; otherwise (and always in the base class, PagedView.java:1900-1902) the snap heads for the page nearest the rendered position, over 550 ms |
| Paging.ScrollLeft | src/com/android/qshtclauncher2/PagedView.java:2062-2076 | steps one page back from the current page, or from the pending target while animating; out of loop mode never below page 0, in loop mode never below the `-1` sentinel; at the floor nothing changes |
| Paging.ScrollRight | src/com/android/qshtclauncher2/PagedView.java:2078-2092 | steps one page forward; out of loop mode never past the last page, in loop mode never past the `count` sentinel; at the ceiling nothing changes |
| Paging.ComputeScrollHelper | src/com/android/qshtclauncher2/PagedView.java:532-592 | while the animation runs the view follows it and the pages do not change; once it ends with a target pending, the target is consumed: `INVALID_PAGE` is restored, loop sentinels become the real page they alias and the view jumps onto it, and the deferred window load is done |
| Paging.Settle | src/com/android/qshtclauncher2/PagedView.java:542-576 | the settle branch alone: in loop mode `-1` gives the last page, `count` gives page 0, and the current page always ends in `[0, count-1]`; out of loop mode it is the clamped target; the next page ends `INVALID_PAGE` |
| Paging.Classify | src/com/android/qshtclauncher2/PagedView.java:1639-1698 | a significant slow move or a fling toward an existing previous page (the `-1` sentinel counts in loop mode) snaps with velocity to it, and likewise toward the next page, unless a return-to-origin fling keeps the current page; a neighbour is chosen only then; when neither applies the release is the wrap-back exactly in loop mode with a drag beyond 70% of a page to the left, and otherwise snaps to the nearest page |
| Paging.TouchUp | src/com/android/qshtclauncher2/PagedView.java:1629-1746 | with no pages the event is ignored; otherwise the touch state returns to rest, a scrolling release snaps to the page `Classify` chose (the `-1` sentinel for the wrap-back, the nearest page otherwise), a tap on the previous or next page's edge snaps to that page (clamped to the range), and a tap with no page on that side, as well as a release at rest or in the scale state, heads for the nearest page, except that an apps pane with one page keeps its pending page |
| Paging.TouchUpTargetsAPage | src/com/android/qshtclauncher2/PagedView.java:1629-1746 | whatever the touch state and the release, the pending page after a touch-up is a real page out of loop mode (or a sentinel one step outside in loop mode); only an apps pane with a single page keeps what was pending |
| Paging.InvalidatePageData | src/com/android/qshtclauncher2/PagedView.java:2248-2300 | nothing happens before the data is ready or when the content is not refreshable; otherwise every child of another content type is dirty, a requested page becomes current after clamping, and a single-page apps pane is left at rest with no target |
| Paging.ResetPages | src/com/android/qshtclauncher2/PagedView.java:2258-2283 | the first half of `invalidatePageData`: the animation stops, the target is dropped, a requested page becomes current after clamping (otherwise the current page is kept), and every child is marked dirty |
| Paging.NearestPageOfPageX | src/com/android/qshtclauncher2/PagedView.java:1877-1898 | with pages of positive width, the page nearest a page's own resting position is that page |
| Paging.SnapToDestinationAfterSetCurrentPage | src/com/android/qshtclauncher2/PagedView.java:2275-2297 | snapping right after `setCurrentPage`, as `invalidatePageData` does, stays on the clamped page that was set |
| Paging.SnapEndsOnPageBoundary | src/com/android/qshtclauncher2/PagedView.java:2011-2060 | a snap followed by its final animation frame and the settle step leaves the real destination page current, no target pending, no animation running, and the view resting exactly on that page, including the jump from a loop sentinel |
| Paging.WrapBackUnreachable | src/com/android/qshtclauncher2/PagedView.java:1690-1698 | in loop mode a release on a real page is never classified as the wrap-back: a drag beyond 70% of a page is already a significant move that one of the paging branches takes |
| Paging.DragExamples | src/com/android/qshtclauncher2/PagedView.java:1639-1698 | an 80% drag left released slowly goes to the next page; the same drag flung back returns to the start page; on the last page it snaps to the nearest page, except in loop mode where it heads for the `count` sentinel |
| Paging.ScrollRightStopsAtLastPage | src/com/android/qshtclauncher2/PagedView.java:2078-2092 | out of loop mode and at rest, `scrollRight` on the last page changes nothing and on any other page targets the following page |
| SmoothPaging.SmoothSnap | src/com/android/qshtclauncher2/SmoothPagedView.java:128-170 | the default-mode snap normalises the target as the base engine does, animates to the target's position measured from offset zero, and lasts `(max(1, pages travelled) + 2) * 100` ms, never under 300 ms |
| SmoothPaging.SnapToPage1 | src/com/android/qshtclauncher2/SmoothPagedView.java:173-180 | both modes head for the normalised target; the extra-large mode takes the base engine's 550 ms, the default mode at least 300 ms |
| SmoothPaging.SnapWithVelocity | src/com/android/qshtclauncher2/SmoothPagedView.java:120-126 | both modes head for the normalised target; the default mode ignores the release velocity |
| SmoothPaging.SnapToNearest | src/com/android/qshtclauncher2/SmoothPagedView.java:111-118 | the default mode snaps to the page nearest the rendered position |
| SmoothPaging.ComputeScroll | src/com/android/qshtclauncher2/SmoothPagedView.java:182-190 | the default mode on the I9300-style build does nothing; otherwise an ended animation's target is consumed as in the base engine |
| SmoothPaging.SmoothSnapAgreesWithBase | src/com/android/qshtclauncher2/SmoothPagedView.java:130-148 | with the content starting at offset zero, the default-mode snap and the base snap name the same next page and destination and end at the same position |
| SmoothPaging.BuiltModeIsBase | src/com/android/qshtclauncher2/SmoothPagedView.java:86-92 | the mode the class reports is the extra-large one (code 1), which does not defer scroll updates, and in it `snapToPage` and `snapToDestination` are exactly the base engine's |
| SmoothPaging.SmoothDurationPerPage | src/com/android/qshtclauncher2/SmoothPagedView.java:146-167 | out of loop mode, moving right by k pages in the default mode takes `(k + 2) * 100` ms |
| AppsLayout.TypeOfCode | src/com/android/qshtclauncher2/AppsCustomizePagedView.java:165-170 | a code names a content type exactly when it is one of the five single bits, and that type's code is the code |
| AppsLayout.CodeRoundTrip | src/com/android/qshtclauncher2/AppsCustomizePagedView.java:165-170 | every content type is recovered from its code |
| AppsLayout.InitialCounts | src/com/android/qshtclauncher2/AppsCustomizePagedView.java:299-309 | the initial page counts give no pages to the types of the other build |
| AppsLayout.PagesFor | src/com/android/qshtclauncher2/AppsCustomizePagedView.java:428-439 | the page count is at least 1; for a positive page size it is the least count that holds the list; a zero page size gives 1 for an empty list and `Integer.MAX_VALUE` otherwise (the float division's NaN and infinity) |
| AppsLayout.UpdatePageCounts | src/com/android/qshtclauncher2/AppsCustomizePagedView.java:413-449 | the types of the other build keep no pages and their counts; on an empty cell grid the build's lists and the apps get exactly one page; otherwise each list gets exactly `PagesFor` of its size (widgets on the widget grid), the least count that holds it; in the apps build the frequent count is reset to 1 on an empty grid, and it is otherwise kept |
| AppsLayout.PagesForIsLeast | src/com/android/qshtclauncher2/AppsCustomizePagedView.java:428-439 | for a positive page size, no count of at least one page that holds the list is smaller than the computed one |
| AppsLayout.LayoutAgrees | src/com/android/qshtclauncher2/AppsCustomizePagedView.java:2086-2154 | each content type's pages are a contiguous run of children of that type, starting at `indexToPage(0)` and inside the child list; for a type of the build, the scroll origin `getOffsetScrollX()` is that child's resting position |
| AppsLayout.SyncAppsPageItems | src/com/android/qshtclauncher2/AppsCustomizePagedView.java:1372-1431 | page p holds exactly the items `[p*n, min(p*n+n, size))` of its list; item k of the page sits at column `k % cellX`, row `k / cellX`, inside the grid |
| AppsLayout.PageForComponent | src/com/android/qshtclauncher2/AppsCustomizePagedView.java:392-406 | a negative index gives page 0; an empty grid has no answer (division by zero); otherwise the page returned is the one whose index range contains the item |
| AppsLayout.ItemOnItsPage | src/com/android/qshtclauncher2/AppsCustomizePagedView.java:392-406 | every item of a list is laid out on the page `getPageForComponent` names for it |
| AppsLayout.PaneGeometry | src/com/android/qshtclauncher2/AppsCustomizePagedView.java:2059-2075 | the pager's page count is the current type's; its scroll origin is where that type's first child rests; its pages fit in the child list; the apps pane window and guarded snap are in force and overscroll is off |
| AppsLayout.SetContentType | src/com/android/qshtclauncher2/AppsCustomizePagedView.java:1246-1288 | the old type's page is saved, clamped to its last page, and no other type's saved page changes; the new type's page count is reported; with data ready the pager lands on the new type's saved page, clamped to its count |
| AppsLayout.SwitchBackRestoresPage | src/com/android/qshtclauncher2/AppsCustomizePagedView.java:1246-1269 | switching to another type and back lands on the page the type was left on, clamped to its page count |
| WidgetPreload.PreloadWidget | src/com/android/qshtclauncher2/AppsCustomizePagedView.java:798-815 | outside the widget build, or for a widget needing configuration, nothing happens; otherwise the state becomes pending and both steps are posted |
| WidgetPreload.RunBind | src/com/android/qshtclauncher2/AppsCustomizePagedView.java:816-834 | the bind step allocates the new id, which the preloading now holds, and moves to bound exactly when binding is allowed |
| WidgetPreload.RunInflate | src/com/android/qshtclauncher2/AppsCustomizePagedView.java:837-861 | the inflate step moves to inflated, with the host view on the drag layer, only from bound; in every other state it only clears itself |
| WidgetPreload.CleanupAsWritten | src/com/android/qshtclauncher2/AppsCustomizePagedView.java:883-926 | the cleanup as written always returns to no-cleanup with no loading id and no pending widget; abandoning a pending preload leaves the held ids as they were, and so does a successful drop of a preload that was not yet inflated (its posted steps stay posted too) |
| WidgetPreload.Cleanup | src/com/android/qshtclauncher2/AppsCustomizePagedView.java:883-926 | the corrected cleanup ends in the same reset state; it deletes the loading id whenever one was allocated and no inflated host view carries it to the placed widget (after a refused bind, or a drop before inflation), removes both posted steps for an abandoned pending preload and the host view once inflated, and never adds an id |
| WidgetPreload.ShortPress | src/com/android/qshtclauncher2/AppsCustomizePagedView.java:865-881 | outside the widget build nothing happens; otherwise a pending widget is recorded, and for a widget without configuration a fresh preload is pending with both steps posted; a leftover pending preload is cleaned up as written, so the ids it holds stay held |
| WidgetPreload.ShortPressCorrected | src/com/android/qshtclauncher2/AppsCustomizePagedView.java:865-881 | the press with the corrected cleanup: the same outcome, except that a leftover preload's loading id is no longer held |
| WidgetPreload.PressesDifferOnlyWhenPending | src/com/android/qshtclauncher2/AppsCustomizePagedView.java:875-877 | the as-written and corrected presses agree except in the held ids, and fully unless a leftover preload is still pending |
| WidgetPreload.InvariantHolds | src/com/android/qshtclauncher2/AppsCustomizePagedView.java:798-926 | the initial state, the corrected press, bind, inflate, and the corrected cleanup of an abandoned preload or of a successful drop with no step still posted keep the invariant (a successful drop while a step is posted is excluded, because the source removes the posted steps only when the widget was not added, 893-920): the only id held is the loading one, a posted bind step finds nothing held, a posted inflate step is pending or bound, the host view is on the drag layer only once inflated |
| WidgetPreload.CleanupReleasesEverything | src/com/android/qshtclauncher2/AppsCustomizePagedView.java:883-926 | from any reachable state the corrected cleanup of an abandoned preload leaves no id held, nothing on the drag layer and nothing posted; a successful drop with no step posted leaves no id held either, deleting the id of a preload that was not inflated |
| WidgetPreload.AsWrittenCleanupLeaks | src/com/android/qshtclauncher2/AppsCustomizePagedView.java:893-923 | a press whose bind step runs but is refused, then abandoned, leaves id 7 allocated with the loading id forgotten; so does a successful drop after the bind step but before inflation, bound or refused; the corrected cleanup releases id 7 in each case |
| AppLists.Cmp | src/com/android/qshtclauncher2/AppsCustomizePagedView.java:2205-2216 | the frequency comparator never answers "equal" |
| AppLists.CmpMeaning | src/com/android/qshtclauncher2/AppsCustomizePagedView.java:2205-2216 | the name comparator orders by name rank; the frequency comparator puts a before b exactly when a has fewer launches, or as many and a launch time not later |
| AppLists.CmpOrder | src/com/android/qshtclauncher2/AppsCustomizePagedView.java:2205-2216 | both comparators are transitive and total in the sense binary search and insertion need |
| AppLists.SearchIn | src/com/android/qshtclauncher2/AppsCustomizePagedView.java:2262 | a non-negative answer indexes an element that compares equal to the key within the searched range; a negative one encodes an insertion point within the range |
| AppLists.Search | src/com/android/qshtclauncher2/AppsCustomizePagedView.java:2262 | the same over the whole list; a search with the frequency comparator always fails |
| AppLists.SearchSorted | src/com/android/qshtclauncher2/AppsCustomizePagedView.java:2262-2265 | on a sorted list the search fails exactly when no element compares equal, and then everything before the insertion point is below the key and everything from it on is above |
| AppLists.InsertAt | src/com/android/qshtclauncher2/AppsCustomizePagedView.java:2265 | `add(i, x)` puts x at i, keeps the elements before, shifts those after by one, and adds no other element |
| AppLists.InsertAtSearchKeepsSorted | src/com/android/qshtclauncher2/AppsCustomizePagedView.java:2262-2265 | inserting at the point a failed search on a sorted list returns keeps the list sorted |
| AppLists.InsertSearched | src/com/android/qshtclauncher2/AppsCustomizePagedView.java:2270-2279 | insertion at `-(index+1)` succeeds exactly when the search failed; a successful search makes the index negative, which the list rejects |
| AppLists.InsertSearchedKeepsSorted | src/com/android/qshtclauncher2/AppsCustomizePagedView.java:2262-2279 | on a sorted list without the key the insertion keeps it sorted and adds exactly the new name |
| AppLists.AddApp | src/com/android/qshtclauncher2/AppsCustomizePagedView.java:2261-2282 | the call can fail only for an app whose name is not yet in the app list; a successful call grows the app list by at most one |
| AppLists.AddApps | src/com/android/qshtclauncher2/AppsCustomizePagedView.java:2257-2284 | a successful call grows the app list by at most the number of apps offered |
| AppLists.NameSearch | src/com/android/qshtclauncher2/AppsCustomizePagedView.java:2262-2263 | on a name-sorted list the name search fails exactly when no app has that name |
| AppLists.AddAppKeepsOrder | src/com/android/qshtclauncher2/AppsCustomizePagedView.java:2257-2284 | on lists sorted by their comparators (downloads a subset of apps by name), one addition never fails, keeps all three lists sorted, adds the app's name, and changes nothing when the name was present |
| AppLists.AddAppGrows | src/com/android/qshtclauncher2/AppsCustomizePagedView.java:2262-2265 | a successful addition keeps every app, and adds exactly the new one when its name was not found |
| AppLists.AddAppsKeepsOrder | src/com/android/qshtclauncher2/AppsCustomizePagedView.java:2257-2284 | on sorted lists `addAppsWithoutInvalidate` never fails, keeps the lists sorted, and the app names afterwards are the old ones plus the offered ones |
| AppLists.AddAppsGrows | src/com/android/qshtclauncher2/AppsCustomizePagedView.java:2257-2284 | a successful `addAppsWithoutInvalidate` loses no app |
| AppLists.FirstMatch | src/com/android/qshtclauncher2/AppsCustomizePagedView.java:2580-2587 | finds the first app with the top package's component, or reports that none has it |
| AppLists.Pull | src/com/android/qshtclauncher2/AppsCustomizePagedView.java:2579-2588 | the first loop of `reorderApps` splits the list into the remaining apps and at most one taken app per top package |
| AppLists.ReorderApps | src/com/android/qshtclauncher2/AppsCustomizePagedView.java:2567-2574 | with no apps or no top packages the list is unchanged |
| AppLists.PullTakesLast | src/com/android/qshtclauncher2/AppsCustomizePagedView.java:2579-2588 | with distinct top packages the first loop takes the list's first app of the last top package's component, and it is the first taken app with that component |
| AppLists.PutBackLast | src/com/android/qshtclauncher2/AppsCustomizePagedView.java:2590-2600 | the second loop's last step leaves the last top package's app at that package's order clamped to the list |
| AppLists.ReorderPlacesLast | src/com/android/qshtclauncher2/AppsCustomizePagedView.java:2567-2600 | with distinct top packages the list keeps its length and the first app of the last top package's component ends at `clamp(order, 0, size - 1)` |
| AppLists.PutBackAdds | src/com/android/qshtclauncher2/AppsCustomizePagedView.java:2590-2600 | the second loop adds back exactly the apps it picks, one per top package that finds one |
| AppLists.PullKeeps | src/com/android/qshtclauncher2/AppsCustomizePagedView.java:2579-2588 | the first loop moves apps between the two lists without losing any |
| AppLists.PicksOfPull | src/com/android/qshtclauncher2/AppsCustomizePagedView.java:2579-2600 | with distinct top packages the second loop puts back every taken app exactly once |
| AppLists.ReorderPermutes | src/com/android/qshtclauncher2/AppsCustomizePagedView.java:2567-2600 | with distinct top packages `reorderApps` is a permutation: no app is lost or duplicated |
| AppLists.SortBy | src/com/android/qshtclauncher2/AppsCustomizePagedView.java:2226 | the sorted list is in the comparator's order and as long as the input |
| AppLists.SortByPermutes | src/com/android/qshtclauncher2/AppsCustomizePagedView.java:2226 | sorting is a permutation of the input |
| AppLists.Downloads | src/com/android/qshtclauncher2/AppsCustomizePagedView.java:2238-2245 | holds exactly the downloaded apps of the list |
| AppLists.Frequents | src/com/android/qshtclauncher2/AppsCustomizePagedView.java:2238-2245 | holds exactly the frequently used apps of the list |
| AppLists.SetApps | src/com/android/qshtclauncher2/AppsCustomizePagedView.java:2219-2255 | without top packages the app list is the input sorted by name; a paged download list holds exactly the downloaded apps; a paged frequent list holds exactly the frequent apps in frequency order; lists not paged are untouched |
| AppLists.SetAppsShowsEveryApp | src/com/android/qshtclauncher2/AppsCustomizePagedView.java:2219-2227 | with distinct top packages every app handed to `setApps` is shown exactly once |
| AppLists.AddAppsAsWritten | src/com/android/qshtclauncher2/AppsCustomizePagedView.java:2286-2295 | without top packages `addApps` is the plain binary insertion |
| AppLists.AddAppsSortedIsPinnedSortedList | src/com/android/qshtclauncher2/AppsCustomizePagedView.java:2286-2295 | the corrected `addApps` never fails on the lists `setApps` builds, and its app list is the pinned form of a name-sorted list that keeps every old app and has the old names plus the new ones |
| AppLists.SortSample | src/com/android/qshtclauncher2/AppsCustomizePagedView.java:2226 | sorting apps 10 and 20 by name gives 10, 20 from either order |
| AppLists.PinSample | src/com/android/qshtclauncher2/AppsCustomizePagedView.java:2567-2600 | pinning app 20 at position 0 moves it to the front and leaves the rest in order |
| AppLists.SearchSample | src/com/android/qshtclauncher2/AppsCustomizePagedView.java:2262 | searching for 15 reports insertion point 0 in the pinned list [20, 10] and 1 in [10, 20] |
| AppLists.InsertSample | src/com/android/qshtclauncher2/AppsCustomizePagedView.java:2262-2265 | binary insertion of 15 gives [15, 20, 10] in the pinned list and [10, 15, 20] in name order |
| AppLists.AddSamplePinned | src/com/android/qshtclauncher2/AppsCustomizePagedView.java:2257-2284 | `addAppsWithoutInvalidate` on the pinned list [20, 10] with 15 gives [15, 20, 10] |
| AppLists.AddSampleByName | src/com/android/qshtclauncher2/AppsCustomizePagedView.java:2257-2284 | on the name-ordered list [10, 20] it gives [10, 15, 20] |
| AppLists.SetSample | src/com/android/qshtclauncher2/AppsCustomizePagedView.java:2219-2227 | `setApps` with apps 10 and 20 and app 20 pinned first shows [20, 10] |
| AppLists.AsWrittenSample | src/com/android/qshtclauncher2/AppsCustomizePagedView.java:2286-2295 | the as-written `addApps` of 15 to that list shows [20, 15, 10] |
| AppLists.CorrectedSample | src/com/android/qshtclauncher2/AppsCustomizePagedView.java:2286-2295 | the corrected `addApps` of 15 shows [20, 10, 15] |
| AppLists.AddAfterPinningMisorders | src/com/android/qshtclauncher2/AppsCustomizePagedView.java:2257-2295 | after `setApps` has pinned app 20 first, the as-written `addApps` puts 15 before 10, out of name order; the corrected one puts it after |
| TabHost.TypeForTag | src/com/android/qshtclauncher2/AppsCustomizeTabHost.java:485-498 | a defined tag names the content type whose tag it is; any other tag names all apps |
| TabHost.TagForCode | src/com/android/qshtclauncher2/AppsCustomizeTabHost.java:503-516 | the result is always a defined tag; a content type's code gets that type's tag, any other code the all-apps tag |
| TabHost.TagRoundTrip | src/com/android/qshtclauncher2/AppsCustomizeTabHost.java:485-516 | every content type survives the trip through its tag; a tag survives the trip through its type exactly when it is one of the five defined tags |
| TabHost.EffectiveOrder | src/com/android/qshtclauncher2/AppsCustomizeTabHost.java:150-159 | the order used always shares a bit with the build's default; a stored order that does is kept, otherwise (or with none stored) the default is used |
| TabHost.TabAt | src/com/android/qshtclauncher2/AppsCustomizeTabHost.java:161-168 | one byte of the order yields at most one tab, and a type gets it exactly when the byte is its code and the build supports it |
| TabHost.DecodeTabsMeaning | src/com/android/qshtclauncher2/AppsCustomizeTabHost.java:161-169 | at most three tabs; a type has a tab exactly when one of the three bytes is its code and the build supports it; the type in the high byte comes first and the one in the low byte last |
| TabHost.Tabs | src/com/android/qshtclauncher2/AppsCustomizeTabHost.java:145-169 | at most three tabs, each of a type the build supports |
| TabHost.DefaultTabs | src/com/android/qshtclauncher2/AppsCustomizeTabHost.java:55-61 | with nothing stored the apps build shows all apps, frequent, downloaded and a widget build (widgets, shortcuts, apps) shows widgets, all apps, shortcuts; a stored order sharing no bit with the default is ignored |
| TabHost.MixedByteGivesNoTab | src/com/android/qshtclauncher2/AppsCustomizeTabHost.java:150-175 | a stored order 0x3 passes the fallback test and yields no tab at all |
| TabHost.Reset | src/com/android/qshtclauncher2/AppsCustomizeTabHost.java:529-537 | during a transition the pane is not reset and the request is remembered; otherwise the pane is reset at once |
| TabHost.Prepare | src/com/android/qshtclauncher2/AppsCustomizeTabHost.java:560-595 | entering a transition carries out a remembered reset exactly once and clears the request |
| TabHost.End | src/com/android/qshtclauncher2/AppsCustomizeTabHost.java:615-622 | leaving a transition resets nothing and keeps a remembered request pending |
| TabHost.ResetPending | src/com/android/qshtclauncher2/AppsCustomizeTabHost.java:529-537 | until the next prepare, a reset request is either carried out or still pending, whatever resets and transition ends happen |
| TabHost.ResetNeverLost | src/com/android/qshtclauncher2/AppsCustomizeTabHost.java:529-594 | a reset requested at any point has been carried out, and nothing is pending, once the next transition is prepared |
| TabHost.ResetDeferral | src/com/android/qshtclauncher2/AppsCustomizeTabHost.java:529-537 | outside a transition a reset acts at once; inside one it waits past the transition's end and acts at the next prepare |
| ScreenIndicator.Attach | src/com/android/qshtclauncher2/QsScreenIndicator.java:89-94 | attaching takes the pager's current page and count and changes nothing else |
| ScreenIndicator.ChangeToScreen | src/com/android/qshtclauncher2/QsScreenIndicator.java:101-107 | the new page becomes current, and the indicator changes (is redrawn) exactly when the page differs |
| ScreenIndicator.PageCountChanged | src/com/android/qshtclauncher2/QsScreenIndicator.java:109-120 | an unchanged count changes nothing; a new count is stored, a redraw is asked for, and the current page is pulled back to at most the last page |
| ScreenIndicator.CallbacksKeepRange | src/com/android/qshtclauncher2/QsScreenIndicator.java:101-120 | a current page within the count stays within it after any positive new count, and after a change to a page within the count; the page moves only when it was past the new end |
| ScreenIndicator.NatStringRoundTrip | src/com/android/qshtclauncher2/QsScreenIndicator.java:172 | the decimal digits of a natural number read back as that number |
| ScreenIndicator.IntStringRoundTrip | src/com/android/qshtclauncher2/QsScreenIndicator.java:172 | `String.valueOf` of an integer reads back as the integer and contains no '/' |
| ScreenIndicator.LabelReadsBack | src/com/android/qshtclauncher2/QsScreenIndicator.java:172 | the label has exactly one '/', and the numbers either side read back as the one-based current page and the page count |
| ScreenIndicator.Draw | src/com/android/qshtclauncher2/QsScreenIndicator.java:145-201 | a frame is drawn exactly when the layout is horizontal and the count positive, and it shows the label |
| ScreenIndicator.ArrowsMarkTheEnds | src/com/android/qshtclauncher2/QsScreenIndicator.java:187-201 | with both arrow images, the previous arrow is missing exactly on the first page and the next arrow exactly on the last; a single page shows neither; a missing image is never drawn |
| ScreenIndicator.DrawSample | src/com/android/qshtclauncher2/QsScreenIndicator.java:167-201 | page 2 of 3 draws "2/3" with both arrows; after the count drops to 1 it draws "1/1" with none; a count of 0 draws nothing |
| DropPreview.ChildViewIndex | src/com/android/qshtclauncher2/QsSmallDropPreviewScreen.java:330-335 | -1 when there is no preview or no width; never negative for a position at or right of the strip's left edge |
| DropPreview.SlotMeaning | src/com/android/qshtclauncher2/QsSmallDropPreviewScreen.java:330-335 | x falls on a preview exactly when `-width < x*count < width*count`; every x on the strip does; preview i > 0 covers `i*width <= x*count < (i+1)*width` |
| DropPreview.Rebuild | src/com/android/qshtclauncher2/QsSmallDropPreviewScreen.java:120-177 | before the strip has a height nothing changes; otherwise there is one preview per workspace page, exactly the current page's is selected, and the strip scrolls to it |
| DropPreview.VisibleChanged | src/com/android/qshtclauncher2/QsSmallDropPreviewScreen.java:83-91 | showing rebuilds the strip; hiding cancels the redraw, empties the queue and drops every preview |
| DropPreview.UpdatePreview | src/com/android/qshtclauncher2/QsSmallDropPreviewScreen.java:93-118 | ignored before layout and for an index past the pages; a negative index rebuilds; any other page is queued once (a queued page is not queued again, the existing queue is a prefix) and the redraw is scheduled; a queue without duplicates keeps none |
| DropPreview.RefreshOne | src/com/android/qshtclauncher2/QsSmallDropPreviewScreen.java:409-440 | a page with a preview is redrawn; one without is skipped |
| DropPreview.DrainRefresh | src/com/android/qshtclauncher2/QsSmallDropPreviewScreen.java:442-449 | the redraw empties the queue, cancels the posted redraw, and redraws, in queue order, exactly the queued pages that have a preview |
| DropPreview.DrainRedrawsQueue | src/com/android/qshtclauncher2/QsSmallDropPreviewScreen.java:442-449 | after the drain, every queued page with a preview has been redrawn exactly once and no other page has |
| DropPreview.FirstSelected | src/com/android/qshtclauncher2/QsSmallDropPreviewScreen.java:213-219 | finds the first selected preview, or reports that none is selected |
| DropPreview.SwitchSelect | src/com/android/qshtclauncher2/QsSmallDropPreviewScreen.java:207-231 | returns false with no change exactly when the preview is already selected; otherwise the clicked preview becomes the only selected one and its page is handed to the workspace; at most one preview stays selected |
| DropPreview.Click | src/com/android/qshtclauncher2/QsSmallDropPreviewScreen.java:234-249 | a second click on the selected preview within the double-tap timeout returns to the workspace and changes nothing; any other click restarts the double-tap window and redraws exactly when the selection changed |
| DropPreview.DragOver | src/com/android/qshtclauncher2/QsSmallDropPreviewScreen.java:286-297 | staying on the same slot changes nothing; a new slot is tracked and the enter-page timer is armed exactly when the slot holds a preview |
| DropPreview.DragExit | src/com/android/qshtclauncher2/QsSmallDropPreviewScreen.java:299-302 | the tracked slot is forgotten and the timer disarmed |
| DropPreview.SpringFires | src/com/android/qshtclauncher2/QsSmallDropPreviewScreen.java:451-458 | the timer enters a page exactly when it is armed on a real slot, and that page is the tracked slot |
| DropPreview.Drop | src/com/android/qshtclauncher2/QsSmallDropPreviewScreen.java:267-275 | the timer is cancelled; the item is bound exactly when the slot under x holds a preview, and to that preview's page |
| DropPreview.DropOnStripBinds | src/com/android/qshtclauncher2/QsSmallDropPreviewScreen.java:308-310 | a drop anywhere on the strip binds to a page exactly when `isDropEnabled` holds, that is, when there is a preview |
| DropPreview.InvariantKept | src/com/android/qshtclauncher2/QsSmallDropPreviewScreen.java:93-310 | every operation keeps the queue free of duplicates, at most one preview selected, and the timer armed only on a tracked slot |
| DropPreview.QueueOnce | src/com/android/qshtclauncher2/QsSmallDropPreviewScreen.java:111-112 | queueing a page twice before the redraw leaves it in the queue once |

## Left out

- Rendering, measurement and layout (`dispatchDraw`, `onMeasure`, `onLayout` and its auto-scroll, `getVisiblePages`) and every bitmap and preview composition: these are canvas and view-tree work. Preview bitmaps are represented only by the existence of a preview child.
- Floating-point curves: the overscroll curves (`acceleratedOverScroll`, `dampedOverScroll`), the velocity and sine based fling duration, the scroll and overshoot interpolators, the exponential touch smoothing of `SmoothPagedView.computeScroll`, and scroll-progress fades. Their results enter as integer parameters.
- Touch plumbing: `MotionEvent`, `VelocityTracker` and active-finger bookkeeping, the intercept logic, and the touch slop. Velocity, drag distance and total motion are integer inputs to the release.
- Concurrency: the `AsyncTask` preview loading, thread priorities and sleeps, the frequency update task, and the thread-local caches. Posted runnables are modelled as explicit steps the caller runs.
- Platform calls: widget-host id allocation and binding (parameters), accessibility, toasts, the Launcher, Workspace and DragController, the tab host's animations, and package and widget manager queries.
- Tab labels, icons and views built by `addSubTab`; only which tabs exist, and in what order, is modelled.
- The new-style loading branch (`LOAD_DATA_STYLE_OLD == false`): the flag is the constant true, so that branch is dead.
- `PagedViewWidgetShortcut`: a view subclass with no bookkeeping of its own.
- 32-bit overflow: `x * count` in `getChildViewIndex`, the launch-count subtraction in the frequency comparator, and the scroll arithmetic are computed on unbounded integers.
- The app title collator is not part of this model: a title is its integer rank in collation order.
- The tie order of `Collections.sort` for apps comparing equal is not modelled: `SortBy` is an insertion sort with the same specification.
- The I9300-style build flag is a parameter of `SmoothPaging.ComputeScroll`.
- The workspace's own clamping of a page handed to it by the strip: `requestedPage` records the request only.
- The `cell.invalidate()` calls in `updateScreenPreviewScreen`, and the search for a free cell in the strip's `bindSelectedItem`.
- `refreshScreenPreviewScreen` asks the workspace for the page before checking that the preview exists, and then reads that page's size (QsSmallDropPreviewScreen.java:410-417). When the preview exists but the workspace has no page at that index, `getPageAt` returns null (PagedView.java:331-333) and the size read throws a null-pointer exception. The model checks the preview only and drops that crash path.
- Two observations that need state outside this model are not modelled. First, `setApps` and `addAppsWithoutInvalidate` check the other list for null in `supportFreq` and `supportDl` (AppsCustomizePagedView.java:2229-2230 and 2259-2260). Both lists are always created together, so the swap is harmless. Second, a stored tab order whose bytes are not single codes yields no tab, and `getChildTabViewAt(-1)` is then dereferenced (AppsCustomizeTabHost.java:174). The code that writes the preference is not part of this model, so it is unknown whether such an order can be stored; `TabHost.MixedByteGivesNoTab` exhibits the decoding.
- AppLists.ReorderApps: its permutation property (`ReorderPermutes`) is proved only for top-package lists that do not name the same component twice. With duplicates, a taken app can be put back twice. Where a pinned app lands is stated for the last top package (`ReorderPlacesLast`); an earlier one's position is shifted by every later insertion at or before it, and no closed form is stated for it.
- AppsLayout.UpdatePageCounts: the `mAppsDownload != null` test is taken as true, because the apps build creates that list in the constructor (AppsCustomizePagedView.java:311) and the widget build never reaches the test.
- WidgetPreload.Cleanup: on a successful drop of an inflated widget the loading id is taken to pass to the placed widget with the host view stored in the dropped item (AppsCustomizePagedView.java:845); the launcher's drop code that does so is not part of this model.
- WidgetPreload.InvariantHolds: the cleanup after a successful drop is covered only when no step is still posted. The source removes the posted steps only when the widget was not added (AppsCustomizePagedView.java:893-920), so a step that runs after such a drop can leave a state outside the invariant.
- AppsLayout.Children: carries no contract of its own (`syncPages`, AppsCustomizePagedView.java:1982-2035); what it does is stated by `LayoutAgrees`.
- AppsLayout.IndexToPage: carries no contract of its own (`indexToPage`, AppsCustomizePagedView.java:2086-2107); what it does is stated by `LayoutAgrees`.
- AppsLayout.OffsetScrollX: carries no contract of its own (`getOffsetScrollX`, AppsCustomizePagedView.java:2129-2150); what it does is stated by `LayoutAgrees` and `PaneGeometry`.
- Paging.Window: carries no contract of its own (`getAssociatedLowerPageBound`/`getAssociatedUpperPageBound`, PagedView.java:2218-2223 and AppsCustomizePagedView.java:2532-2543); what it does is stated by `WindowHoldsPage` and `LoadPages`.
- Paging.OverScroll: carries no contract of its own (the tail of `acceleratedOverScroll`/`dampedOverScroll`, PagedView.java:1420-1467); what it does is stated by `ScrollTo`.
- Paging.NearestPage: carries no contract beyond its range (`getPageNearestToCenterOfScreen`, PagedView.java:1877-1897); what it does is stated by `NearestAmong` and `NearestPageOfPageX`.
- AppLists.PutBack: carries no contract of its own (the second loop of `reorderApps`, AppsCustomizePagedView.java:2590-2600); what it does is stated by `PutBackAdds` and `PutBackLast`.
- WidgetPreload.DeleteId: a helper for `deleteAppWidgetId` (AppsCustomizePagedView.java:905, 913), stated through `Cleanup` and `CleanupReleasesEverything`.
- AppLists.AddAppsSorted: carries no contract of its own; what it does is stated by `AddAppsSortedIsPinnedSortedList`.
- TabHost.DecodeTabs: carries no contract of its own; what it does is stated by `DecodeTabsMeaning`.
- Paging.SnapEndsOnPageBoundary: states where the view rests (`scrollX`), not the unbounded position, because out of loop mode the settle step leaves the unbounded x wherever the last frame put it.
- Paging.InvalidatePageData: does not state the final dirty flag of the current page's own content type, which depends on the window `LoadAssociatedPages` describes.

## Findings

| source | as written | input that shows it | evidently intended | confidence | as-written member | corrected member |
|---|---|---|---|---|---|---|
| src/com/android/qshtclauncher2/AppsCustomizePagedView.java:898-901 | while the preload is still pending, `cleanupWidgetPreloading` only removes the posted steps. The bind step may already have allocated `mWidgetLoadingId` and then been refused binding, which leaves the state pending; that id is never deleted, and the loading id is then reset to -1. | a short press on a widget without configuration; the bind step runs, allocates id 7, and binding is refused; the press is abandoned | an allocated id is deleted whatever the state, as the bound and inflated branches already do | not executed | WidgetPreload.CleanupAsWritten, WidgetPreload.ShortPress, WidgetPreload.AsWrittenCleanupLeaks | WidgetPreload.Cleanup, WidgetPreload.ShortPressCorrected, WidgetPreload.CleanupReleasesEverything |
| src/com/android/qshtclauncher2/AppsCustomizePagedView.java:893-923 | after a successful drop, `cleanupWidgetPreloading(true)` skips every deletion and resets `mWidgetLoadingId` to -1. Only an inflated preload passes its id on, inside the host view it stored in the dropped item (845); a bound or refused preload's id is forgotten. | a short press on a widget without configuration; the bind step runs and allocates id 7 (bound, or refused); the widget is dropped successfully before the inflate step runs | the id of a preload that no host view carries is deleted, as on the abandoned path | not executed | WidgetPreload.CleanupAsWritten, WidgetPreload.AsWrittenCleanupLeaks | WidgetPreload.Cleanup, WidgetPreload.CleanupReleasesEverything |
| src/com/android/qshtclauncher2/AppsCustomizePagedView.java:2262-2265 | `addApps` binary-searches `mApps` by name, but `setApps` and every earlier `addApps` have already run `reorderApps`, which pins top packages out of name order. The search then assumes a sort order the list does not have. | apps 10 and 20 with app 20 pinned at position 0 (list [20, 10]); adding app 15 gives [20, 15, 10] | new apps land in name order among the unpinned apps: [20, 10, 15] | not executed | AppLists.AddAppsAsWritten, AppLists.AddAfterPinningMisorders | AppLists.AddAppsSorted, AppLists.AddAppsSortedIsPinnedSortedList |
