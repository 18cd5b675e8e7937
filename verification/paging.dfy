/** The paging engine shared by every paged surface of the launcher
    (`PagedView`): current and next page, the unbounded and rendered scroll
    position, snapping with optional loop wrap-around, the settle step run
    when the scroll animation ends, the touch-up classification, and the
    dirty-flag content window around the visible page.

    Geometry is reduced to integers: every page has the same width `W` and
    there is no spacing, so page `p` rests at scroll position
    `offsetX + p * W`, where `offsetX` is `getOffsetScrollX()` (zero in the
    base class, the start of the current content type in the apps pane). */
module Paging {
  import opened JavaInt

  /** `INVALID_PAGE` with loop sliding compiled in (`QS_SUPPORT_LOOP_SLIDE`). */
  const INVALID_PAGE: int := -2
  const MIN_LENGTH_FOR_FLING: int := 25
  const PAGE_SNAP_ANIMATION_DURATION: int := 550
  const MAX_PAGE_SNAP_DURATION: int := 750

  datatype TouchState = Rest | Scrolling | PrevPage | NextPage | Scale

  /** Which subclass hooks are in force: the base class, or the apps pane
      with its wider load window and its guarded `snapToDestination`. */
  datatype Host = Plain | AppsPane

  /** What the view tree and the subclass fix for the duration of a gesture.
      `count` is `getPageCount()`; `base` is `indexToPage(0)`, the child index
      of page 0, which is also where the page's dirty flag lives. */
  datatype Geometry = Geometry(
    count: nat,
    width: nat,
    offsetX: int,
    base: nat,
    loopAttr: bool,
    allowOverScroll: bool,
    deferScrollUpdate: bool,
    refreshable: bool,
    host: Host)

  /** The mutable bookkeeping of one paged view. `scrolling` is
      `!mScroller.isFinished()`; the last started animation runs from
      `scrollStart` by `scrollDelta` over `scrollDuration` ms. */
  datatype Pager = Pager(
    current: int,
    next: int,
    unboundedX: int,
    scrollX: int,
    overScrollX: int,
    scrolling: bool,
    scrollStart: int,
    scrollDelta: int,
    scrollDuration: int,
    deferLoad: bool,
    touch: TouchState,
    dirty: seq<bool>)

  /** A snap request's outcome: the new state and the real page it heads to. */
  datatype Snap = Snap(pager: Pager, dest: int)

  /** The dirty list covers every page of the current content type. */
  predicate Valid(g: Geometry, s: Pager) {
    g.base + g.count <= |s.dirty|
  }

  // ---------------------------------------------------------------- looping

  /** `isLoopingEnabled(childCount)`. */
  predicate LoopingFor(loopAttr: bool, childCount: int) {
    loopAttr && childCount > 1
  }

  predicate Looping(g: Geometry) { LoopingFor(g.loopAttr, g.count) }

  /** Looping needs the attribute and a second page to wrap onto; with it,
      the two sentinels name two different real pages. */
  lemma LoopingNeedsTwoPages(g: Geometry)
    ensures Looping(g) <==> g.loopAttr && g.count >= 2
    ensures Looping(g) ==> Wrap(-1, g.count) != Wrap(g.count, g.count)
    ensures Looping(g) ==> 0 <= Wrap(-1, g.count) < g.count && 0 <= Wrap(g.count, g.count) < g.count
  {
  }

  /** The real page a loop-mode target names: `-1` is the last page and
      `count` the first. */
  function Wrap(which: int, count: nat): (r: int)
    ensures which < 0 ==> r == count - 1
    ensures which >= count ==> r == 0
    ensures 0 <= which < count ==> r == which
  {
    if which < 0 then count - 1 else if which >= count then 0 else which
  }

  /** `Math.max(0, Math.min(p, count - 1))`, which yields 0 when there are no pages. */
  function ClampPage(p: int, count: int): (r: int)
    ensures r >= 0
    ensures count > 0 ==> r < count
    ensures count <= 0 ==> r == 0
    ensures 0 <= p < count ==> r == p
    ensures count > 0 && p >= count ==> r == count - 1
  {
    Max(0, Min(p, count - 1))
  }

  // ---------------------------------------------------------------- geometry

  function PageX(g: Geometry, p: int): int { g.offsetX + p * g.width }

  /** `mMaxScrollX`: the resting position of the last page. */
  function MaxScrollX(g: Geometry): int {
    if g.count > 0 then PageX(g, g.count - 1) else 0
  }

  lemma PageXInRange(g: Geometry, p: int)
    requires 0 <= p < g.count
    ensures g.offsetX <= PageX(g, p) <= MaxScrollX(g)
  {
    assert p * g.width <= (g.count - 1) * g.width by {
      MulLeftMonotone(p, g.count - 1, g.width);
    }
  }

  lemma MulLeftMonotone(a: int, b: int, c: nat)
    requires a <= b
    ensures a * c <= b * c
  {
    assert b * c - a * c == (b - a) * c;
  }

  // ---------------------------------------------------------------- scrolling

  /** `scrollTo(x)`. Outside the scroll range, and with overscroll allowed,
      the overscroll effect takes over: `bend` is the rounded overscroll
      amount its floating-point curve produces for this x. */
  function ScrollTo(g: Geometry, s: Pager, x: int, bend: int): (r: Pager)
    ensures r.unboundedX == x
    ensures Looping(g) ==> r.scrollX == x && r.overScrollX == x
    ensures !Looping(g) && g.offsetX <= x <= MaxScrollX(g) ==> r.scrollX == x && r.overScrollX == x
    ensures !Looping(g) && g.offsetX <= MaxScrollX(g) ==> g.offsetX <= r.scrollX <= MaxScrollX(g)
    ensures !Looping(g) && !g.allowOverScroll && x < g.offsetX ==> r.scrollX == g.offsetX && r.overScrollX == s.overScrollX
    ensures !Looping(g) && !g.allowOverScroll && g.offsetX <= x && x > MaxScrollX(g) ==> r.scrollX == MaxScrollX(g) && r.overScrollX == s.overScrollX
    ensures r.(unboundedX := s.unboundedX, scrollX := s.scrollX, overScrollX := s.overScrollX) == s
  {
    var s1 := s.(unboundedX := x);
    if Looping(g) then s1.(scrollX := x, overScrollX := x)
    else if x < g.offsetX then
      var clamped := s1.(scrollX := g.offsetX);
      if g.allowOverScroll then OverScroll(g, clamped, x, bend) else clamped
    else if x > MaxScrollX(g) then
      var clamped := s1.(scrollX := MaxScrollX(g));
      if g.allowOverScroll then OverScroll(g, clamped, x - MaxScrollX(g), bend) else clamped
    else s1.(scrollX := x, overScrollX := x)
  }

  /** The tail of `acceleratedOverScroll`/`dampedOverScroll`: a zero amount
      changes nothing, a negative one pins the view at the left bound, a
      positive one at the right bound. */
  function OverScroll(g: Geometry, s: Pager, amount: int, bend: int): Pager {
    if amount == 0 then s
    else if amount < 0 then s.(overScrollX := bend, scrollX := g.offsetX)
    else s.(overScrollX := MaxScrollX(g) + bend, scrollX := MaxScrollX(g))
  }

  /** `setCurrentPage`: the animation is always stopped; with pages, the
      current page becomes the clamped request and the view jumps to it. */
  function SetCurrentPage(g: Geometry, s: Pager, p: int): (r: Pager)
    ensures !r.scrolling
    ensures g.count == 0 ==> r == s.(scrolling := false)
    ensures g.count > 0 ==> r.current == Clamp(p, 0, g.count - 1)
    ensures g.count > 0 ==> r.scrollX == r.unboundedX == r.overScrollX == PageX(g, r.current)
    ensures r.next == s.next && r.dirty == s.dirty && r.deferLoad == s.deferLoad && r.touch == s.touch
  {
    var stopped := s.(scrolling := false);
    if g.count == 0 then stopped
    else
      var c := Clamp(p, 0, g.count - 1);
      PageXInRange(g, c);
      ScrollTo(g, stopped.(current := c), PageX(g, c), 0)
  }

  // ---------------------------------------------------------------- content window

  /** `getAssociatedLowerPageBound`/`getAssociatedUpperPageBound`: one page
      either side in the base class; in the apps pane a window of
      `min(count, 5)` pages, two either side, slid to stay inside the pages. */
  function Window(host: Host, count: int, page: int): (int, int) {
    match host
    case Plain => (Max(0, page - 1), Min(page + 1, count - 1))
    case AppsPane =>
      var w := Min(count, 5);
      (Max(Min(page - 2, count - w), 0), Min(Max(page + 2, w - 1), count - 1))
  }

  lemma WindowHoldsPage(host: Host, count: int, page: int)
    ensures 0 <= page < count ==> var (lo, hi) := Window(host, count, page);
      0 <= lo <= page <= hi < count
    ensures 0 <= page < count && host == AppsPane ==> var (lo, hi) := Window(host, count, page);
      hi - lo + 1 == Min(count, 5)
  {
  }

  /** One pass over pages `[0, n)` of both loops of `loadAssociatedPages`:
      pages outside `[lo, hi]` are marked dirty, dirty pages inside are
      synced (listed in the second result, in order) and marked clean; with
      `only`, pages other than `page` are not synced. Page `i`'s flag sits at
      `base + i`. */
  function LoadPages(dirty: seq<bool>, base: nat, n: nat, lo: int, hi: int, page: int, only: bool): (r: (seq<bool>, seq<int>))
    requires base + n <= |dirty|
    ensures |r.0| == |dirty|
    ensures forall k :: 0 <= k < |dirty| && !(base <= k < base + n) ==> r.0[k] == dirty[k]
    ensures forall k :: base <= k < base + n && (k - base < lo || k - base > hi) ==> r.0[k]
    ensures forall k :: base <= k < base + n && lo <= k - base <= hi && (!only || k - base == page) ==> !r.0[k]
    ensures forall k :: base <= k < base + n && lo <= k - base <= hi && only && k - base != page ==> r.0[k] == dirty[k]
    ensures forall i :: i in r.1 ==> 0 <= i < n && lo <= i <= hi && dirty[base + i] && (!only || i == page)
    ensures forall i :: 0 <= i < n && lo <= i <= hi && (!only || i == page) && dirty[base + i] ==> i in r.1
    ensures forall j, k :: 0 <= j < k < |r.1| ==> r.1[j] < r.1[k]
  {
    if n == 0 then (dirty, [])
    else
      var (d, synced) := LoadPages(dirty, base, n - 1, lo, hi, page, only);
      var i := n - 1;
      if i < lo || i > hi then (d[base + i := true], synced)
      else if only && i != page then (d, synced)
      else if d[base + i] then
        assert forall j :: 0 <= j < |synced| ==> synced[j] in synced && synced[j] < i;
        (d[base + i := false], synced + [i])
      else (d, synced)
  }

  /** `loadAssociatedPages(page, immediateAndOnly)` on the live (old-style)
      branch. Returns the new state and the pages whose items were synced. */
  function LoadAssociatedPages(g: Geometry, s: Pager, page: int, only: bool): (r: (Pager, seq<int>))
    requires Valid(g, s)
    ensures Valid(g, r.0) && |r.0.dirty| == |s.dirty|
    ensures r.0 == s.(dirty := r.0.dirty)
    ensures !g.refreshable || page >= g.count ==> r.0 == s && r.1 == []
    ensures g.refreshable && 0 <= page < g.count ==> !r.0.dirty[g.base + page]
    ensures g.refreshable && page < g.count ==> var (lo, hi) := Window(g.host, g.count, page);
      && (forall k :: g.base <= k < g.base + g.count && (k - g.base < lo || k - g.base > hi) ==> r.0.dirty[k])
      && (forall k :: g.base <= k < g.base + g.count && lo <= k - g.base <= hi && (!only || k - g.base == page) ==> !r.0.dirty[k])
      && (forall i :: 0 <= i < g.count && lo <= i <= hi && (!only || i == page) ==>
            (i in r.1 <==> s.dirty[g.base + i]))
      && (forall i :: i in r.1 ==> 0 <= i < g.count && lo <= i <= hi && (!only || i == page))
    ensures forall k :: 0 <= k < |s.dirty| && !(g.base <= k < g.base + g.count) ==> r.0.dirty[k] == s.dirty[k]
  {
    if !g.refreshable || page >= g.count then (s, [])
    else
      var (lo, hi) := Window(g.host, g.count, page);
      WindowHoldsPage(g.host, g.count, page);
      var (d, synced) := LoadPages(s.dirty, g.base, g.count, lo, hi, page, only);
      (s.(dirty := d), synced)
  }

  // ---------------------------------------------------------------- snapping

  /** The target normalisation every snap entry point repeats: returns the
      (possibly sentinel) page to animate to and the real page it names. */
  function Normalise(g: Geometry, which: int): (r: (int, int))
    ensures Looping(g) ==> -1 <= r.0 <= g.count && r.1 == Wrap(r.0, g.count) && 0 <= r.1 < g.count
    ensures Looping(g) && -1 <= which <= g.count ==> r.0 == which
    ensures !Looping(g) ==> r.0 == r.1 == ClampPage(which, g.count)
    ensures r.0 != INVALID_PAGE
  {
    if Looping(g) then
      var w := Clamp(which, -1, g.count);
      (w, Wrap(w, g.count))
    else
      var w := ClampPage(which, g.count);
      (w, w)
  }

  /** `snapToPage(whichPage, delta, duration)`: records the target as the
      next page and starts the animation; a zero duration becomes `|delta|`.
      The content window is loaded now if the subclass drives the scroll,
      otherwise once the scroll settles. */
  function SnapToPageDelta(g: Geometry, s: Pager, which: int, delta: int, duration: int): (r: Snap)
    requires Valid(g, s)
    ensures Valid(g, r.pager)
    ensures r.pager.next == which && r.pager.current == s.current
    ensures r.pager.scrolling && r.pager.scrollStart == s.unboundedX && r.pager.scrollDelta == delta
    ensures r.pager.scrollDuration == (if duration == 0 then Abs(delta) else duration)
    ensures Looping(g) ==> r.dest == Wrap(which, g.count)
    ensures !Looping(g) ==> r.dest == which
    ensures !g.deferScrollUpdate ==> r.pager.deferLoad && r.pager.dirty == s.dirty
    ensures g.deferScrollUpdate ==> r.pager.deferLoad == s.deferLoad && |r.pager.dirty| == |s.dirty|
    ensures g.deferScrollUpdate && (!g.refreshable || which >= g.count) ==> r.pager.dirty == s.dirty
    ensures g.deferScrollUpdate && g.refreshable && 0 <= which < g.count ==> !r.pager.dirty[g.base + which]
    ensures g.deferScrollUpdate && g.refreshable && which < g.count ==> var (lo, hi) := Window(g.host, g.count, which);
      forall k :: g.base <= k < g.base + g.count && (k - g.base < lo || k - g.base > hi) ==> r.pager.dirty[k]
    ensures r.pager.unboundedX == s.unboundedX && r.pager.scrollX == s.scrollX
  {
    var dest := if Looping(g) then Wrap(which, g.count) else which;
    var d := if duration == 0 then Abs(delta) else duration;
    var started := s.(next := which, scrolling := true, scrollStart := s.unboundedX,
                      scrollDelta := delta, scrollDuration := d);
    if g.deferScrollUpdate then Snap(LoadAssociatedPages(g, started, which, false).0, dest)
    else Snap(started.(deferLoad := true), dest)
  }

  /** `snapToPage(whichPage, duration)`: normalise, then animate from the
      unbounded position to the target's resting position. */
  function SnapToPage(g: Geometry, s: Pager, which: int, duration: int): (r: Snap)
    requires Valid(g, s)
    ensures Valid(g, r.pager)
    ensures r.pager.next == Normalise(g, which).0 && r.dest == Normalise(g, which).1
    ensures r.pager.next != INVALID_PAGE
    ensures r.pager.scrollStart + r.pager.scrollDelta == PageX(g, r.pager.next)
    ensures Looping(g) ==> -1 <= r.pager.next <= g.count && 0 <= r.dest < g.count
    ensures !Looping(g) ==> r.pager.next == r.dest == ClampPage(which, g.count)
    ensures r.pager.current == s.current
  {
    var (w, dest) := Normalise(g, which);
    SnapToPageDelta(g, s, w, PageX(g, w) - s.unboundedX, duration)
  }

  /** `snapToPageWithVelocity` of the base class. A slow release snaps with
      the standard duration; a fast one with `flingDuration`, the length the
      velocity-scaled curve computes, capped at `MAX_PAGE_SNAP_DURATION`. */
  function SnapToPageWithVelocity(g: Geometry, s: Pager, which: int, velocity: int,
                                  minFlingVelocity: int, flingDuration: int): (r: Snap)
    requires Valid(g, s)
    ensures Valid(g, r.pager)
    ensures r.pager.next == Normalise(g, which).0 && r.dest == Normalise(g, which).1
    ensures r.pager.scrollStart + r.pager.scrollDelta == PageX(g, r.pager.next)
    ensures Abs(velocity) < minFlingVelocity ==> r.pager.scrollDuration == PAGE_SNAP_ANIMATION_DURATION
    ensures Abs(velocity) >= minFlingVelocity && Min(flingDuration, MAX_PAGE_SNAP_DURATION) != 0 ==>
      r.pager.scrollDuration == Min(flingDuration, MAX_PAGE_SNAP_DURATION)
    ensures r.pager.current == s.current
  {
    var (w, dest) := Normalise(g, which);
    if Abs(velocity) < minFlingVelocity then SnapToPage(g, s, w, PAGE_SNAP_ANIMATION_DURATION)
    else SnapToPageDelta(g, s, w, PageX(g, w) - s.unboundedX, Min(flingDuration, MAX_PAGE_SNAP_DURATION))
  }

  /** `getPageNearestToCenterOfScreen` over pages `[0, n)`: the first page
      whose resting position is closest to `x`, with the source's starting
      bound `Integer.MAX_VALUE`; `(-1, INT_MAX)` when no page is closer. */
  function NearestAmong(g: Geometry, x: int, n: nat): (r: (int, int))
    ensures -1 <= r.0 < n
    ensures r.0 == -1 ==> r.1 == INT_MAX && forall j :: 0 <= j < n ==> Abs(PageX(g, j) - x) >= INT_MAX
    ensures r.0 >= 0 ==> r.1 == Abs(PageX(g, r.0) - x) < INT_MAX
    ensures r.0 >= 0 ==> forall j :: 0 <= j < n ==> r.1 <= Abs(PageX(g, j) - x)
    ensures r.0 >= 0 ==> forall j :: 0 <= j < r.0 ==> r.1 < Abs(PageX(g, j) - x)
  {
    if n == 0 then (-1, INT_MAX)
    else
      var (i, d) := NearestAmong(g, x, n - 1);
      var dn := Abs(PageX(g, n - 1) - x);
      if dn < d then (n - 1, dn) else (i, d)
  }

  function NearestPage(g: Geometry, x: int): (r: int)
    ensures -1 <= r < g.count
    ensures g.count == 0 ==> r == -1
  {
    NearestAmong(g, x, g.count).0
  }

  /** `snapToDestination`: snap to the page nearest the rendered position.
      The apps pane skips it unless there are at least two pages. */
  function SnapToDestination(g: Geometry, s: Pager): (r: Snap)
    requires Valid(g, s)
    ensures Valid(g, r.pager)
    ensures g.host == AppsPane && g.count <= 1 ==> r == Snap(s, 0)
    ensures g.host == Plain || g.count > 1 ==>
      r.pager.next == Normalise(g, NearestPage(g, s.scrollX)).0 && r.pager.scrollDuration == PAGE_SNAP_ANIMATION_DURATION
  {
    if g.host == AppsPane && g.count <= 1 then Snap(s, 0)
    else SnapToPage(g, s, NearestPage(g, s.scrollX), PAGE_SNAP_ANIMATION_DURATION)
  }

  /** `scrollLeft`: one page back from the current page, or from the page
      already being animated to. Loop mode may step onto the `-1` sentinel. */
  function ScrollLeft(g: Geometry, s: Pager): (r: Pager)
    requires Valid(g, s)
    ensures Valid(g, r)
    ensures var from := if s.scrolling then s.next else s.current;
      && (!Looping(g) && from > 0 ==> r.next == ClampPage(from - 1, g.count))
      && (!Looping(g) && from <= 0 ==> r == s)
      && (Looping(g) && from > -1 ==> r.next == Clamp(from - 1, -1, g.count))
      && (Looping(g) && from <= -1 ==> r == s)
  {
    var from := if s.scrolling then s.next else s.current;
    var floor := if Looping(g) then -1 else 0;
    if from > floor then SnapToPage(g, s, from - 1, PAGE_SNAP_ANIMATION_DURATION).pager else s
  }

  /** `scrollRight`: one page forward; on the last page (or the `count`
      sentinel in loop mode) it does nothing. */
  function ScrollRight(g: Geometry, s: Pager): (r: Pager)
    requires Valid(g, s)
    ensures Valid(g, r)
    ensures var from := if s.scrolling then s.next else s.current;
      && (!Looping(g) && from < g.count - 1 ==> r.next == ClampPage(from + 1, g.count))
      && (!Looping(g) && from >= g.count - 1 ==> r == s)
      && (Looping(g) && from < g.count ==> r.next == Clamp(from + 1, -1, g.count))
      && (Looping(g) && from >= g.count ==> r == s)
  {
    var from := if s.scrolling then s.next else s.current;
    var ceiling := if Looping(g) then g.count else g.count - 1;
    if from < ceiling then SnapToPage(g, s, from + 1, PAGE_SNAP_ANIMATION_DURATION).pager else s
  }

  // ---------------------------------------------------------------- settling

  /** One animation frame as the scroller reports it: still moving (at `x`,
      with `bend` the overscroll amount should x be out of range), or done. */
  datatype Frame = Moving(x: int, bend: int) | Finished

  /** `computeScrollHelper`. While the animation runs the view follows it.
      Once it is over and a target is pending, the target becomes the
      current page: in loop mode the `-1` and `count` sentinels are consumed
      by jumping to the real page they alias. Returns the new state and
      whether anything was done. */
  function ComputeScrollHelper(g: Geometry, s: Pager, frame: Frame): (r: (Pager, bool))
    requires Valid(g, s)
    ensures Valid(g, r.0)
    ensures s.scrolling && frame.Moving? ==> r.1 && r.0.current == s.current && r.0.next == s.next && r.0.scrolling
    ensures s.scrolling && frame.Moving? && (Looping(g) || g.offsetX <= frame.x <= MaxScrollX(g)) ==>
      r.0.scrollX == frame.x
    ensures !(s.scrolling && frame.Moving?) && s.next == INVALID_PAGE ==> r == (s.(scrolling := false), false)
    ensures !(s.scrolling && frame.Moving?) && s.next != INVALID_PAGE ==>
      && r.1
      && !r.0.scrolling
      && r.0.next == INVALID_PAGE
      && (Looping(g) && -1 <= s.next <= g.count ==> r.0.current == Wrap(s.next, g.count))
      && (!Looping(g) ==> r.0.current == ClampPage(s.next, g.count))
      && (Looping(g) && (s.next == -1 || s.next == g.count) ==>
            r.0.scrollX == r.0.unboundedX == PageX(g, r.0.current))
      && (!Looping(g) ==> r.0.scrollX == s.scrollX && r.0.unboundedX == s.unboundedX)
      && !r.0.deferLoad
  {
    if s.scrolling && frame.Moving? then
      if s.scrollX != frame.x || s.overScrollX != frame.x then (ScrollTo(g, s, frame.x, frame.bend), true)
      else (s, true)
    else
      var stopped := s.(scrolling := false);
      if s.next == INVALID_PAGE then (stopped, false)
      else (Settle(g, stopped), true)
  }

  /** The settle branch of `computeScrollHelper`. */
  function Settle(g: Geometry, s: Pager): (r: Pager)
    requires Valid(g, s)
    requires s.next != INVALID_PAGE
    ensures Valid(g, r)
    ensures r.next == INVALID_PAGE && !r.deferLoad && r.scrolling == s.scrolling
    ensures Looping(g) ==> 0 <= r.current < g.count
    ensures Looping(g) && -1 <= s.next <= g.count ==> r.current == Wrap(s.next, g.count)
    ensures !Looping(g) ==> r.current == ClampPage(s.next, g.count)
    ensures Looping(g) && (s.next == -1 || s.next == g.count) ==>
      r.scrollX == r.unboundedX == r.overScrollX == PageX(g, r.current)
    ensures !Looping(g) || (0 <= s.next < g.count) ==>
      r.scrollX == s.scrollX && r.unboundedX == s.unboundedX && r.overScrollX == s.overScrollX
  {
    var wrapped :=
      if Looping(g) then
        if s.next == -1 then
          var c := g.count - 1;
          ScrollTo(g, s.(next := c, current := c), PageX(g, c), 0)
        else if s.next == g.count then
          ScrollTo(g, s.(next := 0, current := 0), PageX(g, 0), 0)
        else s.(current := ClampPage(s.next, g.count))
      else s;
    var settled := wrapped.(current := ClampPage(wrapped.next, g.count), next := INVALID_PAGE);
    if settled.deferLoad then LoadAssociatedPages(g, settled, settled.current, false).0.(deferLoad := false)
    else settled
  }

  // ---------------------------------------------------------------- touch up

  /** What the velocity tracker and the motion history report on release:
      integer velocity (px/s), displacement since touch-down, total travel,
      and the scaled width of the current page. */
  datatype Release = Release(velocity: int, deltaX: int, totalMotion: int, pageWidth: int)

  /** `|deltaX| > pageWidth * 0.4`, compared exactly. */
  predicate IsSignificantMove(r: Release) { 5 * Abs(r.deltaX) > 2 * r.pageWidth }

  predicate IsFling(r: Release, flingThreshold: int) {
    r.totalMotion > MIN_LENGTH_FOR_FLING && Abs(r.velocity) > flingThreshold
  }

  /** A fling against a drag of more than a third of a page (0.33, exactly). */
  predicate ReturnToOrigin(r: Release, flingThreshold: int) {
    100 * Abs(r.deltaX) > 33 * r.pageWidth && Sign(r.velocity) != Sign(r.deltaX) && IsFling(r, flingThreshold)
  }

  /** What `ACTION_UP` in the scrolling state decides to do. */
  datatype Decision = SnapWithVelocity(target: int) | SnapToWrapBack | SnapNearest

  /** A release that asks for the previous page: a large slow drag to the
      right, or a fling to the right. Flings take precedence over drags. */
  predicate TowardPrev(r: Release, flingThreshold: int) {
    (IsSignificantMove(r) && r.deltaX > 0 && !IsFling(r, flingThreshold)) || (IsFling(r, flingThreshold) && r.velocity > 0)
  }

  /** The mirror image: a release that asks for the next page. */
  predicate TowardNext(r: Release, flingThreshold: int) {
    (IsSignificantMove(r) && r.deltaX < 0 && !IsFling(r, flingThreshold)) || (IsFling(r, flingThreshold) && r.velocity < 0)
  }

  /** `deltaX < -(pageWidth * 0.7)`, compared exactly. */
  predicate FarLeftDrag(r: Release) { 10 * r.deltaX < -7 * r.pageWidth }

  /** The page before the current one exists (or is the `-1` sentinel in loop mode). */
  predicate HasPrev(loop: bool, current: int) { current > (if loop then -1 else 0) }

  /** The page after the current one exists (or is the `count` sentinel in loop mode). */
  predicate HasNext(loop: bool, count: int, current: int) { current < count - (if loop then 0 else 1) }

  function Classify(loop: bool, count: int, current: int, r: Release, flingThreshold: int): (d: Decision)
    ensures d.SnapWithVelocity? ==> d.target in {current - 1, current, current + 1}
    ensures d.SnapWithVelocity? && d.target == current ==> ReturnToOrigin(r, flingThreshold)
    ensures TowardPrev(r, flingThreshold) && HasPrev(loop, current) ==>
      d == SnapWithVelocity(if ReturnToOrigin(r, flingThreshold) then current else current - 1)
    ensures TowardNext(r, flingThreshold) && HasNext(loop, count, current) ==>
      d == SnapWithVelocity(if ReturnToOrigin(r, flingThreshold) then current else current + 1)
    ensures d.SnapWithVelocity? && d.target == current - 1 ==> HasPrev(loop, current) && TowardPrev(r, flingThreshold)
    ensures d.SnapWithVelocity? && d.target == current + 1 ==> HasNext(loop, count, current) && TowardNext(r, flingThreshold)
    ensures !loop && 0 <= current < count && d.SnapWithVelocity? ==> 0 <= d.target < count
    ensures loop && 0 <= current < count && d.SnapWithVelocity? ==> -1 <= d.target <= count
    ensures !d.SnapWithVelocity? <==>
      !(TowardPrev(r, flingThreshold) && HasPrev(loop, current)) && !(TowardNext(r, flingThreshold) && HasNext(loop, count, current))
    ensures !d.SnapWithVelocity? ==> (d.SnapToWrapBack? <==> loop && FarLeftDrag(r))
  {
    var back := ReturnToOrigin(r, flingThreshold);
    if TowardPrev(r, flingThreshold) && HasPrev(loop, current) then
      SnapWithVelocity(if back then current else current - 1)
    else if TowardNext(r, flingThreshold) && HasNext(loop, count, current) then
      SnapWithVelocity(if back then current else current + 1)
    else if loop && FarLeftDrag(r) then SnapToWrapBack
    else SnapNearest
  }

  /** The effect of `snapToDestination` on the pending page: the page
      nearest the rendered position, except on an apps pane with at most one
      page, which keeps whatever was pending. */
  predicate HeadsForNearest(g: Geometry, s: Pager, t: Pager) {
    if g.host == AppsPane && g.count <= 1 then t.next == s.next
    else t.next == Normalise(g, NearestPage(g, s.scrollX)).0
  }

  /** `ACTION_UP`: act on the touch state, then return to rest. With no
      pages the event is not handled at all. */
  function TouchUp(g: Geometry, s: Pager, r: Release, flingThreshold: int, minFlingVelocity: int, flingDuration: int): (t: Pager)
    requires Valid(g, s)
    ensures Valid(g, t)
    ensures g.count == 0 ==> t == s
    ensures g.count > 0 ==> t.touch == Rest
    ensures g.count > 0 && s.touch == Scrolling ==>
      match Classify(Looping(g), g.count, s.current, r, flingThreshold)
      case SnapWithVelocity(p) => t.next == Normalise(g, p).0
      case SnapToWrapBack => t.next == -1
      case SnapNearest => HeadsForNearest(g, s, t)
    ensures g.count > 0 && s.touch == PrevPage && s.current > 0 ==> t.next == Normalise(g, s.current - 1).0
    ensures g.count > 0 && s.touch == PrevPage && s.current < 0 ==> t.next == Normalise(g, 0).0
    ensures g.count > 0 && s.touch == NextPage && s.current < g.count - 1 ==> t.next == Normalise(g, s.current + 1).0
    ensures g.count > 0 && s.touch == NextPage && s.current > g.count - 1 ==> t.next == Normalise(g, g.count - 1).0
    ensures g.count > 0 && (s.touch == Rest || s.touch == Scale) ==> HeadsForNearest(g, s, t)
    ensures g.count > 0 && s.touch == PrevPage && s.current == 0 ==> HeadsForNearest(g, s, t)
    ensures g.count > 0 && s.touch == NextPage && s.current == g.count - 1 ==> HeadsForNearest(g, s, t)
  {
    if g.count == 0 then s
    else
      var acted :=
        match s.touch
        case Scrolling =>
          (match Classify(Looping(g), g.count, s.current, r, flingThreshold)
           case SnapWithVelocity(p) => SnapToPageWithVelocity(g, s, p, r.velocity, minFlingVelocity, flingDuration).pager
           case SnapToWrapBack => SnapToPage(g, s, -1, PAGE_SNAP_ANIMATION_DURATION).pager
           case SnapNearest => SnapToDestination(g, s).pager)
        case PrevPage =>
          var p := Max(0, s.current - 1);
          if p != s.current then SnapToPage(g, s, p, PAGE_SNAP_ANIMATION_DURATION).pager else SnapToDestination(g, s).pager
        case NextPage =>
          var p := Min(g.count - 1, s.current + 1);
          if p != s.current then SnapToPage(g, s, p, PAGE_SNAP_ANIMATION_DURATION).pager else SnapToDestination(g, s).pager
        case _ => SnapToDestination(g, s).pager;
      acted.(touch := Rest)
  }

  // ---------------------------------------------------------------- invalidation

  /** `invalidatePageData(currentPage, immediateAndOnly)`, after `syncPages`
      has rebuilt `childCount` children: stop any animation, drop the pending
      target, optionally move to `currentPage`, mark every child dirty, load
      the window around the current page and snap onto a page. */
  function InvalidatePageData(g: Geometry, s: Pager, currentPage: int, only: bool, dataReady: bool, childCount: nat): (r: Pager)
    requires g.base + g.count <= childCount
    ensures !dataReady || !g.refreshable ==> r == s
    ensures dataReady && g.refreshable ==> Valid(g, r) && |r.dirty| == childCount
    ensures dataReady && g.refreshable ==>
      forall k :: 0 <= k < childCount && !(g.base <= k < g.base + g.count) ==> r.dirty[k]
    ensures dataReady && g.refreshable && currentPage > -1 && g.count > 0 ==>
      r.current == Clamp(Min(g.count - 1, currentPage), 0, g.count - 1)
    ensures dataReady && g.refreshable && g.host == AppsPane && g.count <= 1 ==> r.next == INVALID_PAGE && !r.scrolling
  {
    if !dataReady || !g.refreshable then s
    else
      var reset := ResetPages(g, s, currentPage, childCount);
      var loaded := LoadAssociatedPages(g, reset, reset.current, only).0;
      SnapToDestination(g, loaded).pager
  }

  /** The first half of `invalidatePageData`: stop, forget the target,
      move to the requested page and mark every child dirty. */
  function ResetPages(g: Geometry, s: Pager, currentPage: int, childCount: nat): (r: Pager)
    requires g.base + g.count <= childCount
    ensures Valid(g, r) && |r.dirty| == childCount && forall k :: 0 <= k < childCount ==> r.dirty[k]
    ensures !r.scrolling && r.next == INVALID_PAGE
    ensures currentPage > -1 && g.count > 0 ==> r.current == Clamp(Min(g.count - 1, currentPage), 0, g.count - 1)
    ensures currentPage <= -1 || g.count == 0 ==> r.current == s.current
  {
    var stopped := s.(scrolling := false, next := INVALID_PAGE);
    var placed := if currentPage > -1 then SetCurrentPage(g, stopped, Min(g.count - 1, currentPage)) else stopped;
    placed.(dirty := seq(childCount, _ => true))
  }

  // ---------------------------------------------------------------- properties

  /** A page's resting position is nearest to itself: `NearestPage` undoes
      `PageX` whenever pages have a width. */
  lemma NearestPageOfPageX(g: Geometry, c: int)
    requires 0 <= c < g.count && g.width > 0
    ensures NearestPage(g, PageX(g, c)) == c
  {
    var x := PageX(g, c);
    var (r, d) := NearestAmong(g, x, g.count);
    assert Abs(PageX(g, c) - x) == 0;
    assert r >= 0;
    assert d == 0;
    assert PageX(g, r) == x;
    assert r * g.width == c * g.width;
    MulCancel(r, c, g.width);
  }

  lemma MulCancel(a: int, b: int, w: int)
    requires w > 0 && a * w == b * w
    ensures a == b
  {
  }

  /** Snapping right after `setCurrentPage` stays on that page. */
  lemma SnapToDestinationAfterSetCurrentPage(g: Geometry, s: Pager, p: int)
    requires Valid(g, s) && g.count > 0 && g.width > 0 && (g.host == Plain || g.count > 1)
    ensures var placed := SetCurrentPage(g, s, p);
      SnapToDestination(g, placed).pager.next == placed.current == Clamp(p, 0, g.count - 1)
  {
    var placed := SetCurrentPage(g, s, p);
    NearestPageOfPageX(g, placed.current);
  }

  /** Every snap ends on a page boundary: once the animation reaches its
      final frame and the scroller reports it finished, the view rests at
      the real page the snap named, and that page is current. In loop mode
      this includes the jump from a sentinel onto the page it aliases. */
  lemma SnapEndsOnPageBoundary(g: Geometry, s: Pager, which: int, duration: int, bend: int)
    requires Valid(g, s) && g.count > 0
    ensures var sn := SnapToPage(g, s, which, duration);
      var last := ComputeScrollHelper(g, sn.pager, Moving(sn.pager.scrollStart + sn.pager.scrollDelta, bend)).0;
      var done := ComputeScrollHelper(g, last, Finished).0;
      && done.current == sn.dest
      && done.next == INVALID_PAGE
      && !done.scrolling
      && done.scrollX == PageX(g, done.current)
  {
    var sn := SnapToPage(g, s, which, duration);
    var w := sn.pager.next;
    var x := sn.pager.scrollStart + sn.pager.scrollDelta;
    assert x == PageX(g, w);
    if !Looping(g) {
      PageXInRange(g, w);
    }
    var last := ComputeScrollHelper(g, sn.pager, Moving(x, bend)).0;
    assert last.scrollX == x;
    assert last.next == w;
  }

  /** In loop mode a release is never classified as the far-left wrap-back:
      a drag past 70% of a page is already a significant move, so one of the
      two paging branches always takes it first. */
  lemma {:induction false} WrapBackUnreachable(count: int, current: int, r: Release, flingThreshold: int)
    requires 0 <= current < count && flingThreshold >= 0 && r.pageWidth >= 0
    ensures !Classify(true, count, current, r, flingThreshold).SnapToWrapBack?
  {
    if FarLeftDrag(r) {
      assert r.deltaX < 0;
      assert IsSignificantMove(r);
    }
  }

  /** Whatever the touch state and the release, a touch-up leaves a real
      page pending (a sentinel one step outside in loop mode); only an apps
      pane with a single page keeps whatever was pending before. */
  lemma TouchUpTargetsAPage(g: Geometry, s: Pager, r: Release, flingThreshold: int, minFlingVelocity: int, flingDuration: int)
    requires Valid(g, s) && g.count > 0
    ensures var t := TouchUp(g, s, r, flingThreshold, minFlingVelocity, flingDuration);
      && (!Looping(g) ==> 0 <= t.next < g.count || (g.host == AppsPane && g.count == 1 && t.next == s.next))
      && (Looping(g) ==> -1 <= t.next <= g.count)
  {
  }

  /** Dragging 80% of a page to the left and releasing slowly moves to the
      next page; the same drag released with a fling back to the right
      returns to the original page. */
  lemma DragExamples()
    ensures Classify(false, 5, 2, Release(100, -800, 800, 1000), 500) == SnapWithVelocity(3)
    ensures Classify(false, 5, 2, Release(900, -800, 800, 1000), 500) == SnapWithVelocity(2)
    ensures Classify(false, 5, 4, Release(100, -800, 800, 1000), 500) == SnapNearest
    ensures Classify(true, 5, 4, Release(100, -800, 800, 1000), 500) == SnapWithVelocity(5)
  {
  }

  /** Stepping right from the last page (not looping) changes nothing, and
      from any other page heads for the next one. */
  lemma ScrollRightStopsAtLastPage(g: Geometry, s: Pager)
    requires Valid(g, s) && !Looping(g) && !s.scrolling && 0 <= s.current < g.count
    ensures s.current == g.count - 1 ==> ScrollRight(g, s) == s
    ensures s.current < g.count - 1 ==> ScrollRight(g, s).next == s.current + 1
  {
  }
}
