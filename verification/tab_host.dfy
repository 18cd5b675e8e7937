/** The tab host of the apps/widgets pager (`AppsCustomizeTabHost`): which
    tabs exist and in what order, how a tab's tag names a content type, and
    how a reset of the pane requested in the middle of a launcher
    transition is put off until the next transition is prepared.

    The stored tab order packs up to three content-type codes into one
    integer, one per byte, first tab in bits 16..23. Bit patterns are `bv32`
    as in `AppsLayout`; Java's arithmetic `>>` and the unsigned shift agree
    on the bits kept by the `& 0xFF` mask for the shifts used here. */
module TabHost {
  import opened JavaInt
  import opened AppsLayout

  // ---------------------------------------------------------------------
  // Tags

  /** The tag of each content type's tab. */
  function TagOf(t: ContentType): string {
    match t
    case Apps => "APPS"
    case Freq => "APPS_FREQ"
    case Download => "APPS_DOWNLOAD"
    case Widgets => "WIDGETS"
    case Shortcut => "WIDGETS_SHORTCUT"
  }

  const TAGS: set<string> := {"APPS", "APPS_FREQ", "APPS_DOWNLOAD", "WIDGETS", "WIDGETS_SHORTCUT"}

  /** `getContentTypeForTabTag`: a tag nobody defined names the all-apps type. */
  function TypeForTag(tag: string): (r: ContentType)
    ensures tag in TAGS ==> TagOf(r) == tag
    ensures tag !in TAGS ==> r == Apps
  {
    if tag == "APPS" then Apps
    else if tag == "APPS_FREQ" then Freq
    else if tag == "APPS_DOWNLOAD" then Download
    else if tag == "WIDGETS" then Widgets
    else if tag == "WIDGETS_SHORTCUT" then Shortcut
    else Apps
  }

  /** `getTabTagForContentType`: a code that is not one content type's bit
      gets the all-apps tag. */
  function TagForCode(c: bv32): (r: string)
    ensures r in TAGS
    ensures TypeOfCode(c).Some? ==> r == TagOf(TypeOfCode(c).value)
    ensures TypeOfCode(c).None? ==> r == "APPS"
  {
    if c == Code(Apps) then "APPS"
    else if c == Code(Freq) then "APPS_FREQ"
    else if c == Code(Download) then "APPS_DOWNLOAD"
    else if c == Code(Widgets) then "WIDGETS"
    else if c == Code(Shortcut) then "WIDGETS_SHORTCUT"
    else "APPS"
  }

  /** Tags and content types are in one-to-one correspondence: a type's tag
      names the type back, and a tag survives the trip through its type
      exactly when it is one of the five defined tags. */
  lemma TagRoundTrip(t: ContentType, tag: string)
    ensures TypeForTag(TagForCode(Code(t))) == t
    ensures TagOf(t) in TAGS
    ensures TagForCode(Code(TypeForTag(tag))) == tag <==> tag in TAGS
  {
    CodeRoundTrip(t);
    CodeRoundTrip(TypeForTag(tag));
  }

  // ---------------------------------------------------------------------
  // Tab order

  /** The byte of a packed tab order at the given shift. */
  function Byte(order: bv32, shift: nat): (r: bv32)
    requires shift <= 24
    ensures r <= 0xFF
  {
    (order >> shift) & 0xFF
  }

  /** `TAB_KEY_ORDER_APPS`: all apps, then frequent, then downloaded. */
  const TAB_KEY_ORDER_APPS: bv32 := (Code(Apps) << 16) | (Code(Freq) << 8) | Code(Download)

  /** `TAB_KEY_ORDER_WIDGET`: widgets, then all apps, then shortcuts. */
  const TAB_KEY_ORDER_WIDGET: bv32 := (Code(Widgets) << 16) | (Code(Apps) << 8) | Code(Shortcut)

  function DefaultOrder(support: bv32): bv32 {
    if IsWidgetBuild(support) then TAB_KEY_ORDER_WIDGET else TAB_KEY_ORDER_APPS
  }

  /** The order `onFinishInflate` lays the tabs out in: the stored
      preference (`stored`, absent when never written), replaced by the
      build's default when it has no bit in common with that default. */
  function EffectiveOrder(stored: Option<bv32>, support: bv32): (r: bv32)
    ensures r & DefaultOrder(support) != 0
    ensures stored.Some? && stored.value & DefaultOrder(support) != 0 ==> r == stored.value
    ensures stored.None? || stored.value & DefaultOrder(support) == 0 ==> r == DefaultOrder(support)
  {
    var default := DefaultOrder(support);
    var order := if stored.Some? then stored.value else default;
    if order & default == 0 then default else order
  }

  /** The tab `addSubTab` adds for one byte of the order: none when the
      byte shares no bit with the supported types, and none when it is not
      exactly one content type's code. */
  function TabAt(order: bv32, support: bv32, shift: nat): (r: seq<ContentType>)
    requires shift <= 24
    ensures |r| <= 1
    ensures forall t :: t in r <==> Byte(order, shift) == Code(t) && support & Code(t) != 0
  {
    var id := Byte(order, shift);
    if support & id != 0 then
      match TypeOfCode(id)
      case Some(t) => [t]
      case None => []
    else []
  }

  /** The tabs built from a tab order, bytes at shifts 16, 8 and 0 in turn. */
  function DecodeTabs(order: bv32, support: bv32): (r: seq<ContentType>)
  {
    TabAt(order, support, 16) + TabAt(order, support, 8) + TabAt(order, support, 0)
  }

  /** A content type gets a tab exactly when one of the three bytes is its
      code and the build supports it; there are at most three tabs, and a
      type coded in a higher byte comes before one coded in a lower byte. */
  lemma DecodeTabsMeaning(order: bv32, support: bv32, hi: ContentType, lo: ContentType)
    ensures var r := DecodeTabs(order, support);
      && |r| <= 3
      && (forall t :: t in r <==>
            (Byte(order, 16) == Code(t) || Byte(order, 8) == Code(t) || Byte(order, 0) == Code(t))
            && support & Code(t) != 0)
    ensures var r := DecodeTabs(order, support);
      Byte(order, 16) == Code(hi) && support & Code(hi) != 0 ==> r[0] == hi
    ensures var r := DecodeTabs(order, support);
      Byte(order, 0) == Code(lo) && support & Code(lo) != 0 ==> r[|r| - 1] == lo
  {
    var a, b, c := TabAt(order, support, 16), TabAt(order, support, 8), TabAt(order, support, 0);
    ThreeSlots(a, b, c);
  }

  /** Joining three at-most-one-element lists: at most three elements, the
      members of the parts, the first part's element first and the last
      part's element last. */
  lemma ThreeSlots(a: seq<ContentType>, b: seq<ContentType>, c: seq<ContentType>)
    requires |a| <= 1 && |b| <= 1 && |c| <= 1
    ensures |a + b + c| <= 3
    ensures forall t :: t in a + b + c <==> t in a || t in b || t in c
    ensures forall t :: t in a ==> (a + b + c)[0] == t
    ensures forall t :: t in c ==> (a + b + c)[|a + b + c| - 1] == t
  {
  }

  /** The tabs the host shows for a build and its stored preference. */
  function Tabs(stored: Option<bv32>, support: bv32): (r: seq<ContentType>)
    ensures |r| <= 3
    ensures forall i :: 0 <= i < |r| ==> support & Code(r[i]) != 0
  {
    var r := DecodeTabs(EffectiveOrder(stored, support), support);
    DecodeTabsMeaning(EffectiveOrder(stored, support), support, Apps, Apps);
    r
  }

  /** Without a stored preference the apps build shows all apps, frequent
      and downloaded, and a widget build that also pages shortcuts and
      apps shows widgets, all apps and shortcuts; a stored order with no bit
      in common with the default is ignored. */
  lemma DefaultTabs(stored: bv32)
    ensures Tabs(None, DEFAULT_SUPPORT) == [Apps, Freq, Download]
    ensures Tabs(None, 0x34) == [Widgets, Apps, Shortcut]
    ensures stored & TAB_KEY_ORDER_APPS == 0 ==> Tabs(Some(stored), DEFAULT_SUPPORT) == [Apps, Freq, Download]
  {
    assert TAB_KEY_ORDER_APPS == 0x040102;
    assert TAB_KEY_ORDER_WIDGET == 0x100420;
  }

  /** The fallback only guards against an order with no bit in common with
      the default: an order whose last byte mixes two codes passes it and
      yields no tab at all. */
  lemma MixedByteGivesNoTab()
    ensures EffectiveOrder(Some(0x3), DEFAULT_SUPPORT) == 0x3
    ensures Tabs(Some(0x3), DEFAULT_SUPPORT) == []
  {
    assert TAB_KEY_ORDER_APPS == 0x040102;
  }

  // ---------------------------------------------------------------------
  // Reset deferral

  /** The host's transition state: `mInTransition`,
      `mResetAfterTransition`, `mTransitioningToWorkspace`, and how many
      times the pane has been reset. */
  datatype Host = Host(inTransition: bool, resetAfterTransition: bool, toWorkspace: bool, paneResets: nat)

  const START: Host := Host(false, false, false, 0)

  /** `reset()`: during a transition only remember the request. */
  function Reset(h: Host): (r: Host)
    ensures h.inTransition ==> r.paneResets == h.paneResets && r.resetAfterTransition
    ensures !h.inTransition ==> r.paneResets == h.paneResets + 1 && r.resetAfterTransition == h.resetAfterTransition
    ensures r.inTransition == h.inTransition && r.toWorkspace == h.toWorkspace
  {
    if h.inTransition then h.(resetAfterTransition := true)
    else h.(paneResets := h.paneResets + 1)
  }

  /** `onLauncherTransitionPrepare`: enter the transition and carry out a
      reset put off before. */
  function Prepare(h: Host, toWorkspace: bool): (r: Host)
    ensures r.inTransition && r.toWorkspace == toWorkspace && !r.resetAfterTransition
    ensures r.paneResets == h.paneResets + (if h.resetAfterTransition then 1 else 0)
  {
    var entered := h.(inTransition := true, toWorkspace := toWorkspace);
    if entered.resetAfterTransition then entered.(paneResets := h.paneResets + 1, resetAfterTransition := false)
    else entered
  }

  /** `onLauncherTransitionEnd`: leave the transition. A reset put off
      during it stays pending. */
  function End(h: Host): (r: Host)
    ensures !r.inTransition && r.paneResets == h.paneResets
    ensures r.resetAfterTransition == h.resetAfterTransition
  {
    h.(inTransition := false)
  }

  datatype Event = ResetEvent | PrepareEvent(toWorkspace: bool) | EndEvent

  function Step(h: Host, e: Event): Host {
    match e
    case ResetEvent => Reset(h)
    case PrepareEvent(tw) => Prepare(h, tw)
    case EndEvent => End(h)
  }

  function Run(h: Host, es: seq<Event>): (r: Host)
    ensures r.paneResets >= h.paneResets
    decreases |es|
  {
    if es == [] then h else Run(Step(h, es[0]), es[1..])
  }

  predicate NoPrepare(es: seq<Event>) {
    forall i :: 0 <= i < |es| ==> !es[i].PrepareEvent?
  }

  /** Between a reset request and the next prepare, the request is either
      carried out (more than `base` pane resets) or still pending. */
  lemma {:induction false} ResetPending(h: Host, es: seq<Event>, base: nat)
    requires h.paneResets > base || h.resetAfterTransition
    requires NoPrepare(es)
    ensures Run(h, es).paneResets > base || Run(h, es).resetAfterTransition
    decreases |es|
  {
    if es != [] {
      assert !es[0].PrepareEvent?;
      assert NoPrepare(es[1..]) by {
        forall i | 0 <= i < |es[1..]| ensures !es[1..][i].PrepareEvent? {
          assert es[1..][i] == es[i + 1];
        }
      }
      ResetPending(Step(h, es[0]), es[1..], base);
    }
  }

  /** A reset is never lost: one requested at any point has been carried
      out on the pane at the latest once the next transition is prepared,
      and no request is pending then. */
  lemma {:induction false} ResetNeverLost(h: Host, es: seq<Event>, toWorkspace: bool)
    requires NoPrepare(es)
    ensures var r := Run(h, [ResetEvent] + es + [PrepareEvent(toWorkspace)]);
      r.paneResets > h.paneResets && !r.resetAfterTransition
  {
    var all := [ResetEvent] + es + [PrepareEvent(toWorkspace)];
    var h1 := Reset(h);
    assert all[0] == ResetEvent && all[1..] == es + [PrepareEvent(toWorkspace)];
    assert Run(h, all) == Run(h1, es + [PrepareEvent(toWorkspace)]);
    RunAppend(h1, es, [PrepareEvent(toWorkspace)]);
    ResetPending(h1, es, h.paneResets);
    var m := Run(h1, es);
    assert Run(m, [PrepareEvent(toWorkspace)]) == Prepare(m, toWorkspace);
  }

  lemma {:induction false} RunAppend(h: Host, a: seq<Event>, b: seq<Event>)
    ensures Run(h, a + b) == Run(Run(h, a), b)
    decreases |a|
  {
    if a != [] {
      assert (a + b)[0] == a[0];
      assert (a + b)[1..] == a[1..] + b;
      RunAppend(Step(h, a[0]), a[1..], b);
    } else {
      assert a + b == b;
    }
  }

  /** Outside a transition a reset acts at once; inside one it waits. */
  lemma ResetDeferral(toWorkspace: bool)
    ensures Reset(START).paneResets == 1
    ensures var inside := Reset(Prepare(START, toWorkspace));
      inside.paneResets == 0 && End(inside).resetAfterTransition
      && Prepare(End(inside), toWorkspace).paneResets == 1
  {
  }
}
