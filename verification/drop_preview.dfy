/** The strip of small workspace previews shown while dragging
    (`QsSmallDropPreviewScreen`). It holds one preview per workspace page,
    the one for the current page selected; a click selects another page,
    dragging over a preview for a second enters that page, and dropping
    on a preview places the item on that page. Changed pages are queued and
    redrawn together a moment later.

    Previews are modelled by their selected flags (preview `i` shows
    workspace page `i`); bitmaps, timers and the workspace are not. */
module DropPreview {
  import opened JavaInt

  /** `LONG_PRESS_TIME_OUT`: how long a drag must rest on a preview (ms). */
  const LONG_PRESS_TIME_OUT: int := 1000

  /** Delay before the queued previews are redrawn (ms). */
  const REFRESH_DELAY: int := 200

  /** The strip's state.
      - `height`, `width`: the view's size; a height of 0 means not laid out.
      - `pages`, `workspacePage`: the workspace's page count and current page.
      - `selected`: one flag per preview child.
      - `queue`: `mRefreshPageCache`; `refreshPosted`: the redraw is scheduled.
      - `refreshed`: the previews redrawn so far, in order.
      - `autoScrollTo`: `mAutoScrollToIndex`.
      - `dragging`: `mDragingChildIndex`; `springArmed`: the enter-page timer is scheduled.
      - `firstClickTime`: `mFirstClickTime`.
      - `requestedPage`: the last page handed to the workspace by a click. */
  datatype Strip = Strip(
    height: int, width: int,
    pages: int, workspacePage: int,
    selected: seq<bool>,
    queue: seq<int>, refreshPosted: bool, refreshed: seq<int>,
    autoScrollTo: int,
    dragging: int, springArmed: bool,
    firstClickTime: int,
    requestedPage: Option<int>)

  predicate NoDuplicates(s: seq<int>) {
    forall i, j :: 0 <= i < j < |s| ==> s[i] != s[j]
  }

  /** Indices of the selected previews. */
  function SelectedSet(sel: seq<bool>): set<int> {
    set i | 0 <= i < |sel| && sel[i]
  }

  predicate AtMostOneSelected(sel: seq<bool>) {
    forall i, j :: 0 <= i < |sel| && 0 <= j < |sel| && sel[i] && sel[j] ==> i == j
  }

  /** What every state the strip reaches satisfies. */
  predicate Inv(s: Strip) {
    && NoDuplicates(s.queue)
    && AtMostOneSelected(s.selected)
    && (s.springArmed ==> s.dragging >= 0)
  }

  // ---------------------------------------------------------------------
  // Slots

  /** `getChildViewIndex(x)`: the preview under `x`, found by scaling `x`
      from the strip's width to its child count with Java's division;
      -1 when there is no child or no width. */
  function ChildViewIndex(x: int, count: int, width: int): (r: int)
    ensures count <= 0 || width <= 0 ==> r == -1
    ensures count > 0 && width > 0 && x >= 0 ==> r >= 0
  {
    if count > 0 && width > 0 then JavaDiv(x * count, width) else -1
  }

  lemma MulMono(a: int, b: int, w: int)
    requires a <= b && w > 0
    ensures a * w <= b * w
  {
  }

  /** A position falls on a preview exactly when it lies strictly between
      one width to the left of the strip and its right edge (scaled by the
      child count); in particular every position on the strip does. Slot
      `i > 0` covers the positions with `i*width <= x*count < (i+1)*width`. */
  lemma SlotMeaning(x: int, count: int, width: int)
    requires count > 0 && width > 0
    ensures var r := ChildViewIndex(x, count, width);
      0 <= r < count <==> -width < x * count < width * count
    ensures 0 <= x < width ==> 0 <= ChildViewIndex(x, count, width) < count
    ensures var r := ChildViewIndex(x, count, width);
      r > 0 ==> r * width <= x * count < (r + 1) * width
  {
    ScaledSlot(x * count, count, width);
    if 0 <= x < width {
      OnStripScales(x, count, width);
    }
  }

  /** The slot arithmetic on an already scaled position `a`. */
  lemma ScaledSlot(a: int, count: int, width: int)
    requires count > 0 && width > 0
    ensures var q := JavaDiv(a, width);
      && (0 <= q < count <==> -width < a < width * count)
      && (q > 0 ==> q * width <= a < (q + 1) * width)
  {
    var q := JavaDiv(a, width);
    if a >= 0 {
      if q < count {
        MulMono(q + 1, count, width);
      } else {
        MulMono(count, q, width);
      }
    } else if q <= -1 {
      MulMono(q, -1, width);
    }
  }

  /** A position on the strip scales into `[0, width * count)`. */
  lemma OnStripScales(x: int, count: int, width: int)
    requires count > 0 && 0 <= x < width
    ensures 0 <= x * count < width * count
  {
    MulMono(x + 1, width, count);
  }

  // ---------------------------------------------------------------------
  // Building and refreshing

  /** The selected flags of a freshly built strip: preview `i` is selected
      when it shows the workspace's current page. */
  function FreshSelection(pages: int, current: int): (r: seq<bool>)
    ensures |r| == Max(pages, 0)
    ensures forall i :: 0 <= i < |r| ==> (r[i] <==> i == current)
  {
    seq(Max(pages, 0), i => i == current)
  }

  /** `initScreenPreviewBmp`: nothing before the strip has a height;
      otherwise one preview per workspace page, the current page selected,
      and the strip asked to scroll to it. */
  function Rebuild(s: Strip): (r: Strip)
    ensures s.height == 0 ==> r == s
    ensures s.height != 0 ==> |r.selected| == Max(s.pages, 0) && r.autoScrollTo == s.workspacePage
    ensures s.height != 0 ==> SelectedSet(r.selected) == if 0 <= s.workspacePage < s.pages then {s.workspacePage} else {}
    ensures r.queue == s.queue && r.dragging == s.dragging && r.springArmed == s.springArmed
  {
    if s.height == 0 then s
    else
      var sel := FreshSelection(s.pages, s.workspacePage);
      assert SelectedSet(sel) == if 0 <= s.workspacePage < s.pages then {s.workspacePage} else {} by {
        if 0 <= s.workspacePage < s.pages {
          assert sel[s.workspacePage];
        }
      }
      s.(selected := sel, autoScrollTo := s.workspacePage)
  }

  /** `onWindowVisibleChanged`: showing builds the strip; hiding cancels
      the pending redraw, forgets the queue and drops every preview. */
  function VisibleChanged(s: Strip, isShow: bool): (r: Strip)
    ensures isShow ==> r == Rebuild(s)
    ensures !isShow ==> r.queue == [] && !r.refreshPosted && r.selected == [] && r.dragging == s.dragging
  {
    if isShow then Rebuild(s)
    else s.(refreshPosted := false, queue := [], selected := [])
  }

  /** `updateScreenPreviewScreen(index)`: ignored before the strip has a
      height; a negative index rebuilds the whole strip; an index past the
      workspace's pages is ignored; any other page is queued once and the
      redraw is (re)scheduled. */
  function UpdatePreview(s: Strip, index: int): (r: Strip)
    ensures s.height == 0 || (index >= 0 && index >= s.pages) ==> r == s
    ensures s.height != 0 && index < 0 ==> r == Rebuild(s)
    ensures s.height != 0 && 0 <= index < s.pages ==>
      && r.refreshPosted
      && (forall p :: p in r.queue <==> p in s.queue || p == index)
      && (index in s.queue ==> r.queue == s.queue)
      && |s.queue| <= |r.queue| && r.queue[..|s.queue|] == s.queue
    ensures NoDuplicates(s.queue) ==> NoDuplicates(r.queue)
  {
    if s.height == 0 then s
    else if index < 0 then Rebuild(s)
    else if index >= s.pages then s
    else
      var q := if index in s.queue then s.queue else s.queue + [index];
      s.(queue := q, refreshPosted := true)
  }

  /** `refreshScreenPreviewScreen(index)`: redraw one preview; an index
      with no preview child is skipped. */
  function RefreshOne(s: Strip, index: int): (r: Strip)
    ensures 0 <= index < |s.selected| ==> r.refreshed == s.refreshed + [index]
    ensures !(0 <= index < |s.selected|) ==> r.refreshed == s.refreshed
  {
    if 0 <= index < |s.selected| then s.(refreshed := s.refreshed + [index]) else s
  }

  /** The pages a redraw of queue `q` reaches, in queue order: those with
      one of the `n` previews. */
  function Redrawn(q: seq<int>, n: int): seq<int> {
    if q == [] then []
    else Redrawn(q[..|q| - 1], n) + (if 0 <= q[|q| - 1] < n then [q[|q| - 1]] else [])
  }

  lemma {:induction false} RedrawnMeaning(q: seq<int>, n: int)
    ensures forall p :: p in Redrawn(q, n) <==> p in q && 0 <= p < n
    ensures |Redrawn(q, n)| <= |q|
    ensures NoDuplicates(q) ==> NoDuplicates(Redrawn(q, n))
    decreases |q|
  {
    if q != [] {
      var init := q[..|q| - 1];
      RedrawnMeaning(init, n);
      assert q == init + [q[|q| - 1]];
      if NoDuplicates(q) {
        assert q[|q| - 1] !in init;
      }
    }
  }

  /** The posted `mRefreshPage`: take queued pages from the front until
      the queue is empty, redrawing each; a page with no preview is
      skipped. */
  method DrainRefresh(s: Strip) returns (r: Strip)
    ensures r.queue == [] && !r.refreshPosted && r.selected == s.selected
    ensures r.refreshed == s.refreshed + Redrawn(s.queue, |s.selected|)
  {
    r := s.(refreshPosted := false);
    var done := 0;
    while r.queue != []
      invariant done <= |s.queue| && r.queue == s.queue[done..]
      invariant r.selected == s.selected && !r.refreshPosted
      invariant r.refreshed == s.refreshed + Redrawn(s.queue[..done], |s.selected|)
      decreases |r.queue|
    {
      var index := r.queue[0];
      assert s.queue[..done + 1][..done] == s.queue[..done];
      r := RefreshOne(r.(queue := r.queue[1..]), index);
      done := done + 1;
    }
    assert s.queue[..done] == s.queue;
  }

  /** After the redraw every queued page with a preview has been redrawn
      exactly once and no other page has. */
  lemma DrainRedrawsQueue(s: Strip, r: Strip)
    requires r.refreshed == s.refreshed + Redrawn(s.queue, |s.selected|)
    requires NoDuplicates(s.queue)
    ensures forall p :: p in r.refreshed[|s.refreshed|..] <==> p in s.queue && 0 <= p < |s.selected|
    ensures NoDuplicates(r.refreshed[|s.refreshed|..])
  {
    RedrawnMeaning(s.queue, |s.selected|);
    assert r.refreshed[|s.refreshed|..] == Redrawn(s.queue, |s.selected|);
  }

  // ---------------------------------------------------------------------
  // Selection

  /** The first selected preview, as the deselecting loop finds it. */
  function FirstSelected(sel: seq<bool>): (r: int)
    ensures -1 <= r < |sel|
    ensures r >= 0 ==> sel[r] && forall k :: 0 <= k < r ==> !sel[k]
    ensures r == -1 ==> forall k :: 0 <= k < |sel| ==> !sel[k]
  {
    if sel == [] then -1
    else if sel[0] then 0
    else var t := FirstSelected(sel[1..]); if t == -1 then -1 else t + 1
  }

  /** `switchSelectStatus` on preview `index`: false and no change when it
      is already selected; otherwise deselect the first selected preview,
      select this one and move the workspace to its page. */
  function SwitchSelect(s: Strip, index: int): (r: (bool, Strip))
    requires 0 <= index < |s.selected|
    ensures r.0 <==> !s.selected[index]
    ensures !r.0 ==> r.1 == s
    ensures |r.1.selected| == |s.selected|
    ensures r.0 ==> r.1.requestedPage == Some(index) && r.1.selected[index]
    ensures AtMostOneSelected(s.selected) ==> SelectedSet(r.1.selected) == (if r.0 then {index} else SelectedSet(s.selected))
    ensures AtMostOneSelected(s.selected) ==> AtMostOneSelected(r.1.selected)
  {
    if s.selected[index] then (false, s)
    else
      var first := FirstSelected(s.selected);
      var cleared := if first >= 0 then s.selected[first := false] else s.selected;
      var sel := cleared[index := true];
      assert AtMostOneSelected(s.selected) ==> forall k :: 0 <= k < |sel| ==> (sel[k] <==> k == index);
      (true, s.(selected := sel, requestedPage := Some(index)))
  }

  /** What a click on a preview leads to. */
  datatype ClickEffect = ShowWorkspace | Redraw | NoEffect

  /** `onClick` at time `now` with the platform's double-tap timeout: a
      second click on the selected preview in time returns to the
      workspace; any other click starts a new double-tap window and
      selects the preview. */
  function Click(s: Strip, index: int, now: int, doubleTapTimeout: int): (r: (ClickEffect, Strip))
    requires 0 <= index < |s.selected|
    ensures r.0 == ShowWorkspace <==> now - s.firstClickTime < doubleTapTimeout && s.selected[index]
    ensures r.0 == ShowWorkspace ==> r.1 == s
    ensures r.0 != ShowWorkspace ==> r.1.firstClickTime == now
    ensures r.0 == Redraw <==> !s.selected[index]
    ensures AtMostOneSelected(s.selected) ==> AtMostOneSelected(r.1.selected)
  {
    if now - s.firstClickTime < doubleTapTimeout && s.selected[index] then (ShowWorkspace, s)
    else
      var clicked := s.(firstClickTime := now);
      var (changed, t) := SwitchSelect(clicked, index);
      (if changed then Redraw else NoEffect, t)
  }

  // ---------------------------------------------------------------------
  // Dragging over the strip

  /** `onDragOver` at `x`: only a move to a different slot matters; it
      re-arms the enter-page timer when the slot holds a preview, disarms
      it otherwise, and tracks the new slot. */
  function DragOver(s: Strip, x: int): (r: Strip)
    ensures var i := ChildViewIndex(x, |s.selected|, s.width);
      && (i == s.dragging ==> r == s)
      && (i != s.dragging ==> r.dragging == i && (r.springArmed <==> 0 <= i < |s.selected|))
    ensures r.selected == s.selected && r.queue == s.queue
  {
    var i := ChildViewIndex(x, |s.selected|, s.width);
    if s.dragging != i then s.(springArmed := 0 <= i < |s.selected|, dragging := i) else s
  }

  /** `onDragExit`: forget the slot and disarm the timer. */
  function DragExit(s: Strip): (r: Strip)
    ensures r.dragging == -1 && !r.springArmed
    ensures r.selected == s.selected && r.queue == s.queue
  {
    s.(dragging := -1, springArmed := false)
  }

  /** `mEnterSpringModeRunnable` firing: the page the workspace snaps to,
      if the tracked slot is a real one. */
  function SpringFires(s: Strip): (r: Option<int>)
    ensures r.Some? <==> s.springArmed && s.dragging >= 0
    ensures r.Some? ==> r.value == s.dragging
  {
    if s.springArmed && s.dragging >= 0 then Some(s.dragging) else None
  }

  /** `isDropEnabled`: there is at least one preview. */
  predicate DropEnabled(s: Strip) { |s.selected| > 0 }

  /** `onDrop` at `x`: the timer is cancelled, and the item is bound to
      the page under `x` when that is a preview. */
  function Drop(s: Strip, x: int): (r: (Option<int>, Strip))
    ensures !r.1.springArmed && r.1.selected == s.selected
    ensures r.0.Some? ==> 0 <= r.0.value < |s.selected|
    ensures r.0.Some? <==> 0 <= ChildViewIndex(x, |s.selected|, s.width) < |s.selected|
  {
    var i := ChildViewIndex(x, |s.selected|, s.width);
    (if 0 <= i < |s.selected| then Some(i) else None, s.(springArmed := false))
  }

  /** Dropping anywhere on a strip with previews binds to a page, and a
      drop is possible at all exactly when there is a preview. */
  lemma DropOnStripBinds(s: Strip, x: int)
    requires s.width > 0 && 0 <= x < s.width
    ensures Drop(s, x).0.Some? <==> DropEnabled(s)
  {
    if DropEnabled(s) {
      SlotMeaning(x, |s.selected|, s.width);
    }
  }

  /** Every operation keeps the invariant. */
  lemma InvariantKept(s: Strip, index: int, x: int, isShow: bool, now: int, timeout: int)
    requires Inv(s)
    ensures Inv(UpdatePreview(s, index)) && Inv(VisibleChanged(s, isShow))
    ensures Inv(DragOver(s, x)) && Inv(DragExit(s)) && Inv(Drop(s, x).1)
    ensures 0 <= index < |s.selected| ==> Inv(Click(s, index, now, timeout).1)
  {
    var sel := FreshSelection(s.pages, s.workspacePage);
    assert AtMostOneSelected(sel);
    if 0 <= index < |s.selected| {
      var _ := Click(s, index, now, timeout);
    }
  }

  /** Queueing a page twice before the redraw runs redraws it once. */
  lemma QueueOnce(s: Strip, p: int)
    requires s.height != 0 && 0 <= p < s.pages && NoDuplicates(s.queue) && p !in s.queue
    ensures UpdatePreview(UpdatePreview(s, p), p).queue == s.queue + [p]
  {
  }
}
