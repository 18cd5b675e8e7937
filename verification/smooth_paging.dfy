/** `SmoothPagedView`: a paged view that, in its default scroll mode, snaps
    with its own duration rule (100 ms per page travelled plus a settle
    allowance) and drives the scroll itself. In the extra-large mode every
    entry point defers to the base paging engine, and that is the mode the
    class reports for itself. */
module SmoothPaging {
  import opened JavaInt
  import opened Paging

  datatype ScrollMode = DefaultMode | XLargeMode

  /** `DEFAULT_MODE` and `X_LARGE_MODE`. */
  function ModeCode(m: ScrollMode): int {
    match m
    case DefaultMode => 0
    case XLargeMode => 1
  }

  /** `getScrollMode()` as written: always the extra-large mode. */
  const SCROLL_MODE: ScrollMode := XLargeMode

  /** `mDeferScrollUpdate`: only the default mode updates the scroll itself. */
  predicate DefersScrollUpdate(m: ScrollMode) { m != XLargeMode }

  /** The geometry was built for this mode. */
  predicate ModeMatches(m: ScrollMode, g: Geometry) { g.deferScrollUpdate == DefersScrollUpdate(m) }

  /** The private `snapToPageWithVelocity(whichPage, 0, settle)`. The
      target is normalised as in the base class; the destination position
      ignores the content offset; the release velocity is always zero here,
      so the duration is `(screenDelta + 1) * 100 + 100` with at least one
      page of travel counted. */
  function SmoothSnap(g: Geometry, s: Pager, which: int): (r: Snap)
    requires Valid(g, s)
    ensures Valid(g, r.pager)
    ensures r.pager.next == Normalise(g, which).0 && r.dest == Normalise(g, which).1
    ensures r.pager.scrollStart + r.pager.scrollDelta == r.pager.next * g.width
    ensures r.pager.scrollDuration == (Max(1, Abs(r.pager.next - s.current)) + 2) * 100
    ensures r.pager.scrollDuration >= 300
    ensures r.pager.current == s.current
  {
    var (w, dest) := Normalise(g, which);
    var screenDelta := Max(1, Abs(w - s.current));
    var newX := w * g.width;
    var duration := (screenDelta + 1) * 100 + 100;
    SnapToPageDelta(g, s.(scrolling := false), w, newX - s.unboundedX, duration)
  }

  /** `snapToPage(whichPage)`. */
  function SnapToPage1(m: ScrollMode, g: Geometry, s: Pager, which: int): (r: Snap)
    requires Valid(g, s)
    ensures Valid(g, r.pager)
    ensures r.pager.next == Normalise(g, which).0 && r.dest == Normalise(g, which).1
    ensures m == XLargeMode ==> r.pager.scrollDuration == PAGE_SNAP_ANIMATION_DURATION
    ensures m == DefaultMode ==> r.pager.scrollDuration >= 300
  {
    if m == XLargeMode then SnapToPage(g, s, which, PAGE_SNAP_ANIMATION_DURATION) else SmoothSnap(g, s, which)
  }

  /** `snapToPageWithVelocity(whichPage, velocity)`: the default mode
      ignores the velocity. */
  function SnapWithVelocity(m: ScrollMode, g: Geometry, s: Pager, which: int, velocity: int,
                            minFlingVelocity: int, flingDuration: int): (r: Snap)
    requires Valid(g, s)
    ensures Valid(g, r.pager)
    ensures r.pager.next == Normalise(g, which).0 && r.dest == Normalise(g, which).1
    ensures m == DefaultMode ==> r == SmoothSnap(g, s, which)
  {
    if m == XLargeMode then SnapToPageWithVelocity(g, s, which, velocity, minFlingVelocity, flingDuration)
    else SmoothSnap(g, s, which)
  }

  /** `snapToDestination`. */
  function SnapToNearest(m: ScrollMode, g: Geometry, s: Pager): (r: Snap)
    requires Valid(g, s)
    ensures Valid(g, r.pager)
    ensures m == DefaultMode ==> r.pager.next == Normalise(g, NearestPage(g, s.scrollX)).0
  {
    if m == XLargeMode then SnapToDestination(g, s) else SmoothSnap(g, s, NearestPage(g, s.scrollX))
  }

  /** `computeScroll`. The default mode stops here on the I9300-style build
      (`i9300Style`); otherwise it runs the base settle step. The exponential
      touch-follow smoothing that follows is not modelled. */
  function ComputeScroll(m: ScrollMode, i9300Style: bool, g: Geometry, s: Pager, frame: Frame): (r: Pager)
    requires Valid(g, s)
    ensures Valid(g, r)
    ensures m == DefaultMode && i9300Style ==> r == s
    ensures (m == XLargeMode || !i9300Style) && !(s.scrolling && frame.Moving?) && s.next != INVALID_PAGE ==>
      r.next == INVALID_PAGE && !r.scrolling
  {
    if m == DefaultMode && i9300Style then s else ComputeScrollHelper(g, s, frame).0
  }

  /** Both snapping rules head for the same page, and when the content
      starts at offset zero they animate to the same position; they differ
      only in how long the animation takes. */
  lemma SmoothSnapAgreesWithBase(g: Geometry, s: Pager, which: int)
    requires Valid(g, s) && g.offsetX == 0
    ensures var a := SmoothSnap(g, s, which);
      var b := SnapToPage(g, s, which, PAGE_SNAP_ANIMATION_DURATION);
      && a.dest == b.dest
      && a.pager.next == b.pager.next
      && a.pager.scrollStart + a.pager.scrollDelta == b.pager.scrollStart + b.pager.scrollDelta
  {
  }

  /** As built, the view reports the extra-large mode, so every snap entry
      point behaves exactly as the base engine's. */
  lemma BuiltModeIsBase(g: Geometry, s: Pager, which: int)
    requires Valid(g, s)
    ensures SnapToPage1(SCROLL_MODE, g, s, which) == SnapToPage(g, s, which, PAGE_SNAP_ANIMATION_DURATION)
    ensures SnapToNearest(SCROLL_MODE, g, s) == SnapToDestination(g, s)
    ensures !DefersScrollUpdate(SCROLL_MODE) && ModeCode(SCROLL_MODE) == 1
  {
  }

  /** The default-mode duration grows by 100 ms per page of travel beyond
      the first. */
  lemma SmoothDurationPerPage(g: Geometry, s: Pager, which: int)
    requires Valid(g, s) && !Looping(g) && 0 <= s.current < g.count && s.current < which < g.count
    ensures SmoothSnap(g, s, which).pager.scrollDuration == (which - s.current + 2) * 100
  {
  }
}
