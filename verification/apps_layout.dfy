/** The page layout of the apps/widgets pager (`AppsCustomizePagedView`).
    All content types live side by side as children of one paged view:
    widget and shortcut pages first in the widget build, then the frequent,
    all-apps and downloaded pages. Each content type is paged on its own: its
    page `i` is child `indexToPage(i)` and the view's scroll origin for it is
    the resting position of that child. Switching type remembers the page
    the old type was on and restores the new type's saved page. */
module AppsLayout {
  import opened JavaInt
  import opened Paging

  datatype ContentType = Freq | Download | Apps | Widgets | Shortcut

  /** The `ContentType_*` bit of each content type. */
  function Code(t: ContentType): bv32 {
    match t
    case Freq => 0x1
    case Download => 0x2
    case Apps => 0x4
    case Widgets => 0x10
    case Shortcut => 0x20
  }

  function TypeOfCode(c: bv32): (r: Option<ContentType>)
    ensures r.Some? ==> Code(r.value) == c
    ensures c in {0x1, 0x2, 0x4, 0x10, 0x20} <==> r.Some?
  {
    if c == 0x1 then Some(Freq)
    else if c == 0x2 then Some(Download)
    else if c == 0x4 then Some(Apps)
    else if c == 0x10 then Some(Widgets)
    else if c == 0x20 then Some(Shortcut)
    else None
  }

  lemma CodeRoundTrip(t: ContentType)
    ensures TypeOfCode(Code(t)) == Some(t)
  {
  }

  /** The supported-types attribute when the layout gives none:
      apps, frequent and downloaded. */
  const DEFAULT_SUPPORT: bv32 := 0x7

  /** `isSupportWidget()`: the widget build pages widgets, shortcuts and
      apps; every other build pages frequent, all and downloaded apps. */
  predicate IsWidgetBuild(support: bv32) { support & 0x10 != 0 }

  /** One value per content type: page counts, saved pages, list sizes. */
  datatype PerType<T> = PerType(freq: T, download: T, apps: T, widgets: T, shortcut: T)

  function Get<T>(p: PerType<T>, t: ContentType): T {
    match t
    case Freq => p.freq
    case Download => p.download
    case Apps => p.apps
    case Widgets => p.widgets
    case Shortcut => p.shortcut
  }

  function Put<T>(p: PerType<T>, t: ContentType, v: T): (r: PerType<T>)
    ensures Get(r, t) == v
    ensures forall u :: u != t ==> Get(r, u) == Get(p, u)
  {
    match t
    case Freq => p.(freq := v)
    case Download => p.(download := v)
    case Apps => p.(apps := v)
    case Widgets => p.(widgets := v)
    case Shortcut => p.(shortcut := v)
  }

  // ---------------------------------------------------------------- page counts

  /** The page counts fixed at construction: the widget build never pages
      frequent or downloaded apps, the apps build never pages widgets or
      shortcuts, and starts with one frequent and one downloaded page. */
  function InitialCounts(widgetBuild: bool): (c: PerType<nat>)
    ensures CountsFit(widgetBuild, c)
  {
    if widgetBuild then PerType(0, 0, 0, 0, 0) else PerType(1, 1, 0, 0, 0)
  }

  function InitialType(widgetBuild: bool): ContentType {
    if widgetBuild then Widgets else Apps
  }

  /** Every content type's saved page starts at 0. */
  const INITIAL_SAVED: PerType<int> := PerType(0, 0, 0, 0, 0)

  /** The types of the other build have no pages. */
  predicate CountsFit(widgetBuild: bool, c: PerType<nat>) {
    if widgetBuild then c.freq == 0 && c.download == 0 else c.widgets == 0 && c.shortcut == 0
  }

  /** `Math.max(1, (int) Math.ceil((float) size / perPage))` in exact
      arithmetic. A zero page size divides by zero in floating point: an
      empty list gives NaN, which casts to 0, and any other gives infinity,
      which casts to `Integer.MAX_VALUE`. */
  function PagesFor(size: nat, perPage: int): (r: nat)
    ensures r >= 1
    ensures perPage > 0 ==> size <= r * perPage
    ensures perPage > 0 && r > 1 ==> (r - 1) * perPage < size
    ensures perPage == 0 ==> r == (if size == 0 then 1 else INT_MAX)
    ensures perPage < 0 ==> r == 1
  {
    if perPage > 0 then
      if size == 0 then 1 else (size - 1) / perPage + 1
    else if perPage == 0 && size > 0 then INT_MAX
    else 1
  }

  /** A positive page size: no page count of at least one that holds the
      list is smaller than the one computed, so it is the least such count. */
  lemma PagesForIsLeast(size: nat, perPage: int, n: int)
    requires perPage > 0 && n >= 1 && size <= n * perPage
    ensures PagesFor(size, perPage) <= n
  {
    var r := PagesFor(size, perPage);
    if r > 1 {
      LessByFactor(r - 1, n, perPage);
    }
  }

  lemma LessByFactor(a: int, b: int, p: int)
    requires p > 0 && a * p < b * p
    ensures a < b
  {
    assert (b - a) * p > 0;
  }

  /** `updatePageCounts()`, given the cell grid, the widget grid and the
      sizes of the five lists. The frequent page count never depends on the
      frequent list: it is reset to one on an empty grid and otherwise kept. */
  function UpdatePageCounts(widgetBuild: bool, c: PerType<nat>, cellX: int, cellY: int,
                            widgetX: int, widgetY: int, sizes: PerType<nat>): (r: PerType<nat>)
    requires CountsFit(widgetBuild, c)
    ensures CountsFit(widgetBuild, r)
    ensures r.freq == (if !widgetBuild && cellX * cellY == 0 then 1 else c.freq)
    ensures r.apps >= 1
    ensures widgetBuild ==> r.widgets >= 1 && r.shortcut >= 1
    ensures !widgetBuild ==> r.download >= 1
    ensures cellX * cellY > 0 ==> sizes.apps <= r.apps * (cellX * cellY)
    ensures cellX * cellY > 0 && !widgetBuild ==> sizes.download <= r.download * (cellX * cellY)
    ensures cellX * cellY > 0 && widgetBuild ==> sizes.shortcut <= r.shortcut * (cellX * cellY)
    ensures cellX * cellY != 0 && widgetBuild && widgetX * widgetY > 0 ==>
      sizes.widgets <= r.widgets * (widgetX * widgetY)
    ensures cellX * cellY != 0 ==> r.apps == PagesFor(sizes.apps, cellX * cellY)
    ensures cellX * cellY != 0 && widgetBuild ==>
      r.widgets == PagesFor(sizes.widgets, widgetX * widgetY) && r.shortcut == PagesFor(sizes.shortcut, cellX * cellY)
    ensures cellX * cellY != 0 && !widgetBuild ==> r.download == PagesFor(sizes.download, cellX * cellY)
    ensures cellX * cellY == 0 ==>
      r.apps == 1 && (widgetBuild ==> r.widgets == 1 && r.shortcut == 1) && (!widgetBuild ==> r.download == 1)
    ensures widgetBuild ==> r.download == c.download && r.freq == c.freq
    ensures !widgetBuild ==> r.widgets == c.widgets && r.shortcut == c.shortcut
  {
    var perPage := cellX * cellY;
    if perPage == 0 then
      if widgetBuild then c.(widgets := 1, shortcut := 1, apps := 1)
      else c.(download := 1, freq := 1, apps := 1)
    else if widgetBuild then
      c.(widgets := PagesFor(sizes.widgets, widgetX * widgetY), shortcut := PagesFor(sizes.shortcut, perPage),
         apps := PagesFor(sizes.apps, perPage))
    else
      c.(download := PagesFor(sizes.download, perPage), apps := PagesFor(sizes.apps, perPage))
  }

  /** `getPageCount()` for the current content type. */
  function PageCount(c: PerType<nat>, t: ContentType): nat { Get(c, t) }

  // ---------------------------------------------------------------- child layout

  function Repeat(t: ContentType, n: nat): (r: seq<ContentType>)
    ensures |r| == n && forall k :: 0 <= k < n ==> r[k] == t
  {
    seq(n, _ => t)
  }

  /** The children `syncPages()` creates, by content type, in order. */
  function Children(widgetBuild: bool, c: PerType<nat>): seq<ContentType> {
    (if widgetBuild then Repeat(Widgets, c.widgets) + Repeat(Shortcut, c.shortcut) else [])
    + Repeat(Freq, c.freq) + Repeat(Apps, c.apps) + Repeat(Download, c.download)
  }

  /** The content types a build pages. */
  predicate InBuild(widgetBuild: bool, t: ContentType) {
    if widgetBuild then t in {Widgets, Shortcut, Apps} else t in {Freq, Apps, Download}
  }

  /** `indexToPage(index, type)`: the child holding page `index` of a type. */
  function IndexToPage(widgetBuild: bool, c: PerType<nat>, index: int, t: ContentType): int {
    if widgetBuild then
      if t == Apps then index + c.widgets + c.shortcut
      else if t == Shortcut then index + c.widgets
      else index
    else
      if t == Apps then index + c.freq
      else if t == Download then index + c.freq + c.apps
      else index
  }

  /** `getOffsetScrollX()`: where the current type's first page rests. */
  function OffsetScrollX(widgetBuild: bool, c: PerType<nat>, t: ContentType, width: nat): int {
    if widgetBuild then
      if t == Widgets then 0
      else c.widgets * width + (if t == Apps then c.shortcut * width else 0)
    else
      if t == Freq then 0
      else c.freq * width + (if t == Download then c.apps * width else 0)
  }

  /** Every content type's pages are a contiguous run of children of that
      type, starting at `indexToPage(0)`, and the type's scroll origin is
      that child's resting position. */
  lemma LayoutAgrees(widgetBuild: bool, c: PerType<nat>, t: ContentType, width: nat)
    requires CountsFit(widgetBuild, c)
    ensures InBuild(widgetBuild, t) ==> OffsetScrollX(widgetBuild, c, t, width) == IndexToPage(widgetBuild, c, 0, t) * width
    ensures 0 <= IndexToPage(widgetBuild, c, 0, t)
    ensures IndexToPage(widgetBuild, c, 0, t) + PageCount(c, t) <= |Children(widgetBuild, c)|
    ensures forall i :: 0 <= i < PageCount(c, t) ==>
      IndexToPage(widgetBuild, c, i, t) == IndexToPage(widgetBuild, c, 0, t) + i &&
      Children(widgetBuild, c)[IndexToPage(widgetBuild, c, 0, t) + i] == t
  {
    var ch := Children(widgetBuild, c);
    var b := IndexToPage(widgetBuild, c, 0, t);
    if widgetBuild {
      assert ch == Repeat(Widgets, c.widgets) + Repeat(Shortcut, c.shortcut) + Repeat(Apps, c.apps);
      assert InBuild(widgetBuild, t) ==> OffsetScrollX(widgetBuild, c, t, width) == b * width by {
        if t == Apps { assert b * width == c.widgets * width + c.shortcut * width; }
      }
    } else {
      assert ch == Repeat(Freq, c.freq) + Repeat(Apps, c.apps) + Repeat(Download, c.download);
      assert InBuild(widgetBuild, t) ==> OffsetScrollX(widgetBuild, c, t, width) == b * width by {
        if t == Download { assert b * width == c.freq * width + c.apps * width; }
      }
    }
  }

  // ---------------------------------------------------------------- cells

  /** An item of the list placed at column `x`, row `y` of a page. */
  datatype Cell = Cell(item: int, x: int, y: int)

  /** The list an apps page draws from: frequent, downloaded, or all apps. */
  function ListSize(sizes: PerType<nat>, t: ContentType): nat {
    if t == Freq then sizes.freq else if t == Download then sizes.download else sizes.apps
  }

  /** `syncAppsPageItems(page, type)`: the items `[page * n, min(page * n + n, size))`
      of the type's list, laid out row by row on a `cellX` by `cellY` grid. */
  function SyncAppsPageItems(page: nat, t: ContentType, cellX: nat, cellY: nat, sizes: PerType<nat>): (r: seq<Cell>)
    ensures |r| == Max(0, Min(page * (cellX * cellY) + cellX * cellY, ListSize(sizes, t)) - page * (cellX * cellY))
    ensures forall k :: 0 <= k < |r| ==>
      && r[k].item == page * (cellX * cellY) + k
      && 0 <= r[k].x < cellX && 0 <= r[k].y < cellY
      && r[k].y * cellX + r[k].x == k
  {
    var n := cellX * cellY;
    var start := page * n;
    var end := Min(start + n, ListSize(sizes, t));
    if cellX == 0 || end <= start then []
    else
      var r := seq(end - start, k requires 0 <= k < end - start => Cell(start + k, k % cellX, k / cellX));
      assert forall k :: 0 <= k < |r| ==> 0 <= r[k].x < cellX && 0 <= r[k].y < cellY && r[k].y * cellX + r[k].x == k by {
        forall k | 0 <= k < |r|
          ensures 0 <= r[k].x < cellX && 0 <= r[k].y < cellY && r[k].y * cellX + r[k].x == k
        {
          GridCell(k, cellX, cellY);
        }
      }
      r
  }

  /** Row-major placement puts slot `k` of a `w` by `h` grid inside the grid. */
  lemma GridCell(k: nat, w: nat, h: nat)
    requires w > 0 && k < w * h
    ensures 0 <= k % w < w && 0 <= k / w < h && (k / w) * w + k % w == k
  {
  }

  /** `getPageForComponent(index)`: negative indices map to page 0; an empty
      grid divides by zero. */
  function PageForComponent(index: int, cellX: nat, cellY: nat): (r: Option<nat>)
    ensures index < 0 ==> r == Some(0)
    ensures index >= 0 ==> (r.None? <==> cellX * cellY == 0)
    ensures index >= 0 && r.Some? ==> r.value * (cellX * cellY) <= index < r.value * (cellX * cellY) + cellX * cellY
  {
    if index < 0 then Some(0)
    else if cellX * cellY == 0 then None
    else Some(JavaDiv(index, cellX * cellY))
  }

  /** An item is laid out on the page `getPageForComponent` names for it. */
  lemma ItemOnItsPage(index: int, t: ContentType, cellX: nat, cellY: nat, sizes: PerType<nat>)
    requires 0 <= index < ListSize(sizes, t) && cellX * cellY > 0
    ensures PageForComponent(index, cellX, cellY).Some?
    ensures var p := PageForComponent(index, cellX, cellY).value;
      exists k :: 0 <= k < |SyncAppsPageItems(p, t, cellX, cellY, sizes)| &&
        SyncAppsPageItems(p, t, cellX, cellY, sizes)[k].item == index
  {
    var n := cellX * cellY;
    var p := index / n;
    var items := SyncAppsPageItems(p, t, cellX, cellY, sizes);
    assert p * n <= index < p * n + n;
    assert items[index - p * n].item == index;
  }

  // ---------------------------------------------------------------- content switching

  /** The pager together with what the apps pane knows about its content. */
  datatype Pane = Pane(
    widgetBuild: bool,
    loop: bool,
    counts: PerType<nat>,
    current: ContentType,
    saved: PerType<int>,
    width: nat,
    pager: Pager)

  /** The paging geometry of the pane's current content type. */
  function PaneGeometry(widgetBuild: bool, loop: bool, c: PerType<nat>, t: ContentType, width: nat): (g: Geometry)
    requires CountsFit(widgetBuild, c)
    ensures g.count == PageCount(c, t)
    ensures InBuild(widgetBuild, t) ==> g.offsetX == g.base * width
    ensures g.base + g.count <= |Children(widgetBuild, c)|
    ensures g.host == AppsPane && g.refreshable && !g.allowOverScroll && !g.deferScrollUpdate
  {
    LayoutAgrees(widgetBuild, c, t, width);
    Geometry(PageCount(c, t), width, OffsetScrollX(widgetBuild, c, t, width),
             IndexToPage(widgetBuild, c, 0, t), loop, false, false, true, AppsPane)
  }

  /** `setContentType(type)`: remember the old type's page, switch, report
      the new page count (second result) and rebuild the pages around the
      new type's saved page. */
  function SetContentType(p: Pane, t: ContentType, dataReady: bool): (r: (Pane, nat))
    requires CountsFit(p.widgetBuild, p.counts)
    ensures r.0 == p.(current := t, saved := r.0.saved, pager := r.0.pager)
    ensures r.1 == PageCount(p.counts, t)
    ensures Get(r.0.saved, p.current) == Min(PageCount(p.counts, p.current) - 1, p.pager.current)
    ensures forall u :: u != p.current ==> Get(r.0.saved, u) == Get(p.saved, u)
    ensures !dataReady ==> r.0.pager == p.pager
    ensures dataReady && r.1 > 0 && Get(r.0.saved, t) >= 0 ==>
      r.0.pager.current == Min(Get(r.0.saved, t), r.1 - 1)
  {
    var saved := Put(p.saved, p.current, Min(PageCount(p.counts, p.current) - 1, p.pager.current));
    var count := PageCount(p.counts, t);
    var page := Min(Get(saved, t), count - 1);
    var g := PaneGeometry(p.widgetBuild, p.loop, p.counts, t, p.width);
    var pager := InvalidatePageData(g, p.pager, page, true, dataReady, |Children(p.widgetBuild, p.counts)|);
    (p.(current := t, saved := saved, pager := pager), count)
  }

  /** Leaving a content type and coming back lands on the page it was left
      on (clamped to its page count). */
  lemma SwitchBackRestoresPage(p: Pane, t: ContentType)
    requires CountsFit(p.widgetBuild, p.counts)
    requires t != p.current && PageCount(p.counts, p.current) > 0 && p.pager.current >= 0
    ensures var there := SetContentType(p, t, true).0;
      var back := SetContentType(there, p.current, true).0;
      back.current == p.current &&
      back.pager.current == Min(PageCount(p.counts, p.current) - 1, p.pager.current)
  {
    var there := SetContentType(p, t, true).0;
    assert Get(there.saved, p.current) == Min(PageCount(p.counts, p.current) - 1, p.pager.current);
  }
}
