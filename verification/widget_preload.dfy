/** Widget preloading in the widget build of the apps pane
    (`preloadWidget`, `onShortPress`, `cleanupWidgetPreloading`). A short
    press on a widget preview anticipates a long press: a bind step
    (allocate a widget id, ask to bind it) and an inflate step (create the
    host view, park it invisibly on the drag layer) are posted to the UI
    thread. If no drag follows, the cleanup undoes whatever of that ran.

    Besides the pane's own fields the state records `live`, the widget ids
    the preloading allocated that nobody has deleted or taken over, so that
    leaks are visible. */
module WidgetPreload {

  /** `mWidgetCleanupState`. */
  datatype Stage = NoCleanup | PreloadPending | Bound | Inflated

  /** `WIDGET_NO_CLEANUP_REQUIRED`, `WIDGET_PRELOAD_PENDING`, `WIDGET_BOUND`, `WIDGET_INFLATED`. */
  function StageCode(c: Stage): int {
    match c
    case NoCleanup => -1
    case PreloadPending => 0
    case Bound => 1
    case Inflated => 2
  }

  const NO_WIDGET_ID: int := -1

  datatype Preload = Preload(
    state: Stage,
    loadingId: int,
    hasInfo: bool,
    bindQueued: bool,
    inflateQueued: bool,
    onDragLayer: bool,
    live: set<int>)

  const INITIAL: Preload := Preload(NoCleanup, NO_WIDGET_ID, false, false, false, false, {})

  /** What every reachable state satisfies (with the corrected cleanup):
      the only id the preloading can hold is the one it is loading, and the
      bind step only ever runs on a clean slate. */
  predicate Inv(p: Preload) {
    && p.live <= {p.loadingId} && NO_WIDGET_ID !in p.live
    && (p.state in {Bound, Inflated} ==> p.loadingId in p.live)
    && (p.state == PreloadPending && p.loadingId != NO_WIDGET_ID ==> p.loadingId in p.live)
    && (p.bindQueued ==> p.live == {} && p.loadingId == NO_WIDGET_ID && p.state == PreloadPending)
    && (p.inflateQueued ==> p.state in {PreloadPending, Bound})
    && (p.onDragLayer ==> p.state == Inflated)
    && (!p.hasInfo ==> p.state == NoCleanup && p.live == {} && !p.bindQueued && !p.inflateQueued)
    && (p.state == NoCleanup ==> p.loadingId == NO_WIDGET_ID && !p.onDragLayer && !p.bindQueued && !p.inflateQueued)
  }

  /** `preloadWidget(info)`: nothing outside the widget build, nothing for a
      widget that needs a configuration activity; otherwise post both steps. */
  function PreloadWidget(p: Preload, widgetBuild: bool, configure: bool): (r: Preload)
    ensures !widgetBuild || configure ==> r == p
    ensures widgetBuild && !configure ==>
      r == p.(state := PreloadPending, bindQueued := true, inflateQueued := true)
  {
    if !widgetBuild || configure then p
    else p.(state := PreloadPending, bindQueued := true, inflateQueued := true)
  }

  /** The posted bind step: allocate `newId` (one the host has not handed
      out to the preloading before) and mark the preload bound if binding
      was allowed. */
  function RunBind(p: Preload, newId: int, allowed: bool): (r: Preload)
    requires p.bindQueued && newId != NO_WIDGET_ID && newId !in p.live
    ensures !r.bindQueued && r.loadingId == newId && r.live == p.live + {newId}
    ensures r.state == (if allowed then Bound else p.state)
  {
    p.(bindQueued := false, loadingId := newId, live := p.live + {newId},
       state := if allowed then Bound else p.state)
  }

  /** The posted inflate step: only a bound widget is inflated onto the drag layer. */
  function RunInflate(p: Preload): (r: Preload)
    requires p.inflateQueued
    ensures !r.inflateQueued && r.live == p.live && r.loadingId == p.loadingId
    ensures r.state == Inflated <==> p.state in {Bound, Inflated}
    ensures p.state == Bound ==> r.onDragLayer
    ensures p.state != Bound ==> r == p.(inflateQueued := false)
  {
    if p.state != Bound then p.(inflateQueued := false)
    else p.(inflateQueued := false, state := Inflated, onDragLayer := true)
  }

  /** A successful drop of an inflated widget: the host view, which carries
      the loading id, leaves with the dropped item to the placed widget. Only
      an inflated preload has such a view; in any other state nothing takes
      the id over. */
  function HandOver(p: Preload): (r: Preload)
    ensures r.live == p.live - {p.loadingId} && !r.onDragLayer
  {
    p.(live := p.live - {p.loadingId}, onDragLayer := false)
  }

  /** `cleanupWidgetPreloading(widgetWasAdded)` AS WRITTEN. A pending
      preload only has its posted steps removed, even when the bind step has
      already run and allocated an id that binding then refused. When the
      widget was added nothing is deleted at all: an inflated preload's id
      goes with its host view, but a bound or pending one's id is simply
      forgotten. */
  function CleanupAsWritten(p: Preload, widgetBuild: bool, widgetWasAdded: bool): (r: Preload)
    ensures !widgetBuild ==> r == p
    ensures widgetBuild ==> r.state == NoCleanup && r.loadingId == NO_WIDGET_ID && !r.hasInfo
    ensures widgetBuild && !widgetWasAdded && p.state == PreloadPending ==> r.live == p.live
    ensures widgetBuild && widgetWasAdded && p.state != Inflated ==>
      r.live == p.live && r.bindQueued == p.bindQueued && r.inflateQueued == p.inflateQueued
  {
    if !widgetBuild then p
    else
      var undone :=
        if widgetWasAdded then (if p.state == Inflated then HandOver(p) else p)
        else match p.state
          case PreloadPending => p.(bindQueued := false, inflateQueued := false)
          case Bound => p.(live := DeleteId(p.live, p.loadingId), inflateQueued := false)
          case Inflated => p.(live := DeleteId(p.live, p.loadingId), onDragLayer := false)
          case NoCleanup => p;
      undone.(state := NoCleanup, loadingId := NO_WIDGET_ID, hasInfo := false)
  }

  /** `deleteAppWidgetId`, skipped for the "no id" value. */
  function DeleteId(live: set<int>, id: int): (r: set<int>)
    ensures id !in r || id == NO_WIDGET_ID
    ensures r <= live && live - r <= {id}
  {
    if id != NO_WIDGET_ID then live - {id} else live
  }

  /** The cleanup as evidently intended: an allocated id that no host view
      carries away is deleted, whether binding was refused or the widget was
      dropped before it was inflated. */
  function Cleanup(p: Preload, widgetBuild: bool, widgetWasAdded: bool): (r: Preload)
    ensures !widgetBuild ==> r == p
    ensures widgetBuild ==> r.state == NoCleanup && r.loadingId == NO_WIDGET_ID && !r.hasInfo
    ensures widgetBuild && (widgetWasAdded || p.state != NoCleanup) && p.loadingId != NO_WIDGET_ID ==>
      p.loadingId !in r.live
    ensures widgetBuild && !widgetWasAdded && p.state == PreloadPending ==> !r.bindQueued && !r.inflateQueued
    ensures widgetBuild && (widgetWasAdded || p.state == Inflated) ==> !r.onDragLayer
    ensures widgetBuild ==> r.live <= p.live
  {
    if !widgetBuild then p
    else
      var undone :=
        if widgetWasAdded then
          if p.state == Inflated then HandOver(p)
          else p.(live := DeleteId(p.live, p.loadingId), onDragLayer := false)
        else match p.state
          case PreloadPending => p.(live := DeleteId(p.live, p.loadingId), bindQueued := false, inflateQueued := false)
          case Bound => p.(live := DeleteId(p.live, p.loadingId), inflateQueued := false)
          case Inflated => p.(live := DeleteId(p.live, p.loadingId), onDragLayer := false)
          case NoCleanup => p;
      undone.(state := NoCleanup, loadingId := NO_WIDGET_ID, hasInfo := false)
  }

  /** `onShortPress`: clean up a previous preload that was never cleaned up
      (with the as-written cleanup), then preload the pressed widget. */
  function ShortPress(p: Preload, widgetBuild: bool, configure: bool): (r: Preload)
    ensures !widgetBuild ==> r == p
    ensures widgetBuild ==> r.hasInfo
    ensures widgetBuild && !configure ==> r.state == PreloadPending && r.bindQueued && r.inflateQueued
    ensures widgetBuild && p.hasInfo && p.state == PreloadPending ==> r.live == p.live
  {
    if !widgetBuild then p
    else
      var cleaned := if p.hasInfo then CleanupAsWritten(p, widgetBuild, false) else p;
      PreloadWidget(cleaned.(hasInfo := true), widgetBuild, configure)
  }

  /** `onShortPress` with the corrected cleanup. */
  function ShortPressCorrected(p: Preload, widgetBuild: bool, configure: bool): (r: Preload)
    ensures !widgetBuild ==> r == p
    ensures widgetBuild ==> r.hasInfo
    ensures widgetBuild && !configure ==> r.state == PreloadPending && r.bindQueued && r.inflateQueued
    ensures widgetBuild && p.hasInfo && p.loadingId != NO_WIDGET_ID && p.state != NoCleanup ==> p.loadingId !in r.live
  {
    if !widgetBuild then p
    else
      var cleaned := if p.hasInfo then Cleanup(p, widgetBuild, false) else p;
      PreloadWidget(cleaned.(hasInfo := true), widgetBuild, configure)
  }

  /** The two presses differ only when a pending preload is cleaned up: in
      every other state the as-written cleanup already does the corrected
      thing. */
  lemma PressesDifferOnlyWhenPending(p: Preload, widgetBuild: bool, configure: bool)
    ensures !(p.hasInfo && p.state == PreloadPending) ==>
      ShortPress(p, widgetBuild, configure) == ShortPressCorrected(p, widgetBuild, configure)
    ensures p.hasInfo && p.state == PreloadPending ==>
      ShortPress(p, widgetBuild, configure) == ShortPressCorrected(p, widgetBuild, configure).(live := ShortPress(p, widgetBuild, configure).live)
  {
  }

  /** Every step keeps the invariant, starting from the initial state. */
  lemma InvariantHolds(p: Preload, widgetBuild: bool, configure: bool, newId: int, allowed: bool, added: bool)
    requires Inv(p)
    ensures Inv(INITIAL)
    ensures Inv(ShortPressCorrected(p, widgetBuild, configure))
    ensures p.bindQueued && newId != NO_WIDGET_ID ==> Inv(RunBind(p, newId, allowed))
    ensures p.inflateQueued ==> Inv(RunInflate(p))
    ensures !added || (!p.bindQueued && !p.inflateQueued) ==> Inv(Cleanup(p, widgetBuild, added))
  {
    if widgetBuild {
      CleanupReleasesEverything(p);
    }
  }

  /** With the corrected cleanup, abandoning a preload never leaves an
      allocated widget id behind, and neither does a successful drop once
      no step is still posted: the id is deleted, or handed over with the
      inflated host view. */
  lemma CleanupReleasesEverything(p: Preload)
    requires Inv(p)
    ensures var r := Cleanup(p, true, false);
      r.live == {} && !r.onDragLayer && !r.bindQueued && !r.inflateQueued && Inv(r)
    ensures !p.bindQueued && !p.inflateQueued ==> var r := Cleanup(p, true, true);
      r.live == {} && !r.onDragLayer && Inv(r)
    ensures !p.bindQueued && !p.inflateQueued && p.state != Inflated ==>
      Cleanup(p, true, true).live == p.live - {p.loadingId}
  {
  }

  /** The as-written cleanup leaks: a short press whose bind step runs but
      is refused, followed by the press being abandoned, leaves id 7
      allocated with no handle left to delete it; so does a drop that
      succeeds before the bound (or refused) widget was inflated. */
  lemma AsWrittenCleanupLeaks()
    ensures var pressed := ShortPress(INITIAL, true, false);
      var refused := RunBind(pressed, 7, false);
      var r := CleanupAsWritten(refused, true, false);
      refused.state == PreloadPending && 7 in r.live && r.loadingId == NO_WIDGET_ID
    ensures var pressed := ShortPress(INITIAL, true, false);
      var refused := RunBind(pressed, 7, false);
      7 !in Cleanup(refused, true, false).live
    ensures var pressed := ShortPress(INITIAL, true, false);
      var refused := RunBind(pressed, 7, false);
      7 in ShortPress(refused, true, false).live && 7 !in ShortPressCorrected(refused, true, false).live
    ensures var pressed := ShortPress(INITIAL, true, false);
      var bound := RunBind(pressed, 7, true);
      bound.state == Bound && 7 in CleanupAsWritten(bound, true, true).live && 7 !in Cleanup(bound, true, true).live
    ensures var pressed := ShortPress(INITIAL, true, false);
      var refused := RunBind(pressed, 7, false);
      7 in CleanupAsWritten(refused, true, true).live && 7 !in Cleanup(refused, true, true).live
  {
  }
}
