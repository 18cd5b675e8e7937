/** The app lists behind the apps pane: all apps in name order with some
    "top packages" pinned at configured positions (`setApps`,
    `reorderApps`), the downloaded apps, and the frequently used apps in
    launch-frequency order; and the in-place insertion of new apps by binary
    search (`addAppsWithoutInvalidate`).

    The name comparator (`LauncherModel.getAppNameComparator`, a collator
    over titles) is not part of this model: an app's title is represented
    by its rank `name` in that order. */
module AppLists {
  import opened JavaInt

  datatype App = App(
    name: int,
    pkg: string,
    cls: string,
    launchedFreq: int,
    lastLaunchTime: int,
    isDownload: bool,
    isFreq: bool)

  /** `AllAppsList.TopPackage`: an app (by component) and where it goes. */
  datatype TopPackage = TopPackage(pkg: string, cls: string, order: int)

  datatype Order = ByName | ByFreq

  /** The two comparators. The frequency comparator breaks a tie on launch
      count by the last launch time and never answers "equal". */
  function Cmp(ord: Order, a: App, b: App): (r: int)
    ensures ord == ByFreq ==> r != 0
  {
    match ord
    case ByName => Sign(a.name - b.name)
    case ByFreq =>
      var result := a.launchedFreq - b.launchedFreq;
      if result == 0 then (if a.lastLaunchTime > b.lastLaunchTime then 1 else -1) else result
  }

  predicate Sorted(ord: Order, s: seq<App>) {
    forall i, j :: 0 <= i < j < |s| ==> Cmp(ord, s[i], s[j]) <= 0
  }

  /** The name comparator orders by name; the frequency comparator is the
      lexicographic order on (launch count, last launch time). */
  lemma CmpMeaning(ord: Order, a: App, b: App)
    ensures var r := Cmp(ord, a, b);
      && (ord == ByName ==> (r < 0 <==> a.name < b.name) && (r == 0 <==> a.name == b.name))
      && (ord == ByFreq ==> (r < 0 <==>
            a.launchedFreq < b.launchedFreq || (a.launchedFreq == b.launchedFreq && a.lastLaunchTime <= b.lastLaunchTime)))
  {
  }

  /** Both comparators are total preorders in the sense the algorithms need. */
  lemma CmpOrder(ord: Order, a: App, b: App, c: App)
    ensures Cmp(ord, a, b) <= 0 && Cmp(ord, b, c) <= 0 ==> Cmp(ord, a, c) <= 0
    ensures Cmp(ord, a, b) <= 0 && Cmp(ord, b, c) < 0 ==> Cmp(ord, a, c) < 0
    ensures Cmp(ord, a, b) <= 0 && Cmp(ord, a, c) > 0 ==> Cmp(ord, b, c) > 0
    ensures Cmp(ord, a, b) > 0 ==> Cmp(ord, b, a) <= 0
  {
  }

  function Names(s: seq<App>): set<int> {
    set a | a in s :: a.name
  }

  // ---------------------------------------------------------------- binary search

  /** `Collections.binarySearch` (its indexed form) on `a[low..high]`:
      the index of an element comparing equal to `key`, or
      `-(insertionPoint + 1)`. Nothing is assumed about the order of `a`. */
  function SearchIn(a: seq<App>, key: App, ord: Order, low: int, high: int): (r: int)
    requires 0 <= low <= high + 1 <= |a|
    ensures r >= 0 ==> low <= r <= high && Cmp(ord, a[r], key) == 0
    ensures r < 0 ==> low <= -(r + 1) <= high + 1
    decreases high - low + 1
  {
    if low > high then -(low + 1)
    else
      var mid := (low + high) / 2;
      var c := Cmp(ord, a[mid], key);
      if c < 0 then SearchIn(a, key, ord, mid + 1, high)
      else if c > 0 then SearchIn(a, key, ord, low, mid - 1)
      else mid
  }

  function Search(a: seq<App>, key: App, ord: Order): (r: int)
    ensures r >= 0 ==> r < |a| && Cmp(ord, a[r], key) == 0
    ensures r < 0 ==> 0 <= -(r + 1) <= |a|
    ensures ord == ByFreq ==> r < 0
  {
    SearchIn(a, key, ord, 0, |a| - 1)
  }

  /** In a sorted list everything up to an element below the key is below it. */
  lemma BelowKey(ord: Order, a: seq<App>, key: App, mid: int)
    requires Sorted(ord, a) && 0 <= mid < |a| && Cmp(ord, a[mid], key) < 0
    ensures forall j :: 0 <= j <= mid ==> Cmp(ord, a[j], key) < 0
  {
    forall j | 0 <= j < mid
      ensures Cmp(ord, a[j], key) < 0
    {
      CmpOrder(ord, a[j], a[mid], key);
    }
  }

  /** In a sorted list everything from an element above the key on is above it. */
  lemma AboveKey(ord: Order, a: seq<App>, key: App, mid: int)
    requires Sorted(ord, a) && 0 <= mid < |a| && Cmp(ord, a[mid], key) > 0
    ensures forall j :: mid <= j < |a| ==> Cmp(ord, a[j], key) > 0
  {
    forall j | mid < j < |a|
      ensures Cmp(ord, a[j], key) > 0
    {
      CmpOrder(ord, a[mid], a[j], key);
    }
  }

  /** What a failed search on `a[low..high]` of a sorted list promises. */
  predicate Splits(ord: Order, a: seq<App>, key: App, low: int, high: int, r: int)
    requires 0 <= low && high < |a|
  {
    r < 0 ==> (forall j :: low <= j < -(r + 1) && j < |a| ==> Cmp(ord, a[j], key) < 0) &&
              (forall j :: -(r + 1) <= j <= high && 0 <= j ==> Cmp(ord, a[j], key) > 0)
  }

  /** On a sorted list a failed search returns the point that splits the
      list into elements before and after the key. */
  lemma {:induction false} SearchInSorted(a: seq<App>, key: App, ord: Order, low: int, high: int)
    requires 0 <= low <= high + 1 <= |a| && Sorted(ord, a)
    ensures Splits(ord, a, key, low, high, SearchIn(a, key, ord, low, high))
    decreases high - low + 1, 1
  {
    if low <= high {
      var c := Cmp(ord, a[(low + high) / 2], key);
      if c < 0 {
        SearchRight(a, key, ord, low, high);
      } else if c > 0 {
        SearchLeft(a, key, ord, low, high);
      }
    }
  }

  /** The step past an element below the key. */
  lemma {:induction false} SearchRight(a: seq<App>, key: App, ord: Order, low: int, high: int)
    requires 0 <= low <= high < |a| && Sorted(ord, a)
    requires Cmp(ord, a[(low + high) / 2], key) < 0
    ensures Splits(ord, a, key, low, high, SearchIn(a, key, ord, low, high))
    decreases high - low + 1, 0
  {
    var mid := (low + high) / 2;
    SearchInSorted(a, key, ord, mid + 1, high);
    BelowKey(ord, a, key, mid);
    StepRight(ord, a, key, low, high);
  }

  /** The step before an element above the key. */
  lemma {:induction false} SearchLeft(a: seq<App>, key: App, ord: Order, low: int, high: int)
    requires 0 <= low <= high < |a| && Sorted(ord, a)
    requires Cmp(ord, a[(low + high) / 2], key) > 0
    ensures Splits(ord, a, key, low, high, SearchIn(a, key, ord, low, high))
    decreases high - low + 1, 0
  {
    var mid := (low + high) / 2;
    SearchInSorted(a, key, ord, low, mid - 1);
    AboveKey(ord, a, key, mid);
    StepLeft(ord, a, key, low, high);
  }

  /** A search step that moves right past an element below the key keeps
      the split it finds on the upper part. */
  lemma StepRight(ord: Order, a: seq<App>, key: App, low: int, high: int)
    requires 0 <= low <= high < |a|
    requires Cmp(ord, a[(low + high) / 2], key) < 0
    requires Splits(ord, a, key, (low + high) / 2 + 1, high, SearchIn(a, key, ord, (low + high) / 2 + 1, high))
    requires forall j :: 0 <= j <= (low + high) / 2 ==> Cmp(ord, a[j], key) < 0
    ensures Splits(ord, a, key, low, high, SearchIn(a, key, ord, low, high))
  {
    var mid := (low + high) / 2;
    var r := SearchIn(a, key, ord, mid + 1, high);
    assert SearchIn(a, key, ord, low, high) == r;
    JoinRight(ord, a, key, low, mid, high, r);
  }

  /** A search step that moves left before an element above the key keeps
      the split it finds on the lower part. */
  lemma StepLeft(ord: Order, a: seq<App>, key: App, low: int, high: int)
    requires 0 <= low <= high < |a|
    requires Cmp(ord, a[(low + high) / 2], key) > 0
    requires Splits(ord, a, key, low, (low + high) / 2 - 1, SearchIn(a, key, ord, low, (low + high) / 2 - 1))
    requires forall j :: (low + high) / 2 <= j < |a| ==> Cmp(ord, a[j], key) > 0
    ensures Splits(ord, a, key, low, high, SearchIn(a, key, ord, low, high))
  {
    var mid := (low + high) / 2;
    var r := SearchIn(a, key, ord, low, mid - 1);
    assert SearchIn(a, key, ord, low, high) == r;
    JoinLeft(ord, a, key, low, mid, high, r);
  }

  /** A split of the part above an element below the key is a split of
      the whole range. */
  lemma JoinRight(ord: Order, a: seq<App>, key: App, low: int, mid: int, high: int, r: int)
    requires 0 <= low <= mid <= high < |a|
    requires Splits(ord, a, key, mid + 1, high, r)
    requires forall j :: 0 <= j <= mid ==> Cmp(ord, a[j], key) < 0
    requires r < 0 ==> mid + 1 <= -(r + 1)
    ensures Splits(ord, a, key, low, high, r)
  {
  }

  /** A split of the part below an element above the key is a split of
      the whole range. */
  lemma JoinLeft(ord: Order, a: seq<App>, key: App, low: int, mid: int, high: int, r: int)
    requires 0 <= low <= mid <= high < |a|
    requires Splits(ord, a, key, low, mid - 1, r)
    requires forall j :: mid <= j < |a| ==> Cmp(ord, a[j], key) > 0
    requires r < 0 ==> -(r + 1) <= mid
    ensures Splits(ord, a, key, low, high, r)
  {
  }

  lemma SearchSorted(a: seq<App>, key: App, ord: Order)
    requires Sorted(ord, a)
    ensures var r := Search(a, key, ord);
      r < 0 ==> (forall j :: 0 <= j < -(r + 1) ==> Cmp(ord, a[j], key) < 0) &&
                (forall j :: -(r + 1) <= j < |a| ==> Cmp(ord, a[j], key) > 0)
    ensures var r := Search(a, key, ord);
      r < 0 <==> forall j :: 0 <= j < |a| ==> Cmp(ord, a[j], key) != 0
  {
    SearchInSorted(a, key, ord, 0, |a| - 1);
  }

  /** `list.add(i, x)`. */
  function InsertAt(s: seq<App>, i: int, x: App): (r: seq<App>)
    requires 0 <= i <= |s|
    ensures |r| == |s| + 1 && r[i] == x
    ensures forall j :: 0 <= j < i ==> r[j] == s[j]
    ensures forall j :: i < j < |r| ==> r[j] == s[j - 1]
    ensures forall y :: y in r <==> y in s || y == x
  {
    assert s == s[..i] + s[i..];
    s[..i] + [x] + s[i..]
  }

  lemma InsertAtMultiset(s: seq<App>, i: int, x: App)
    requires 0 <= i <= |s|
    ensures multiset(InsertAt(s, i, x)) == multiset(s) + multiset{x}
  {
    assert s == s[..i] + s[i..];
  }

  /** Inserting at the point a failed search on a sorted list returns keeps it sorted. */
  lemma InsertAtSearchKeepsSorted(ord: Order, s: seq<App>, x: App)
    requires Sorted(ord, s) && Search(s, x, ord) < 0
    ensures Sorted(ord, InsertAt(s, -(Search(s, x, ord) + 1), x))
  {
    var i := -(Search(s, x, ord) + 1);
    SearchSorted(s, x, ord);
    var r := InsertAt(s, i, x);
    forall a, b | 0 <= a < b < |r|
      ensures Cmp(ord, r[a], r[b]) <= 0
    {
      if b == i {
        assert Cmp(ord, s[a], x) < 0;
      } else if a == i {
        assert Cmp(ord, s[b - 1], x) > 0;
        CmpOrder(ord, s[b - 1], x, x);
      }
    }
  }

  // ---------------------------------------------------------------- adding apps

  datatype Lists = Lists(apps: seq<App>, download: seq<App>, freq: seq<App>)

  /** What binary insertion relies on: the searched lists are in their
      comparators' order, and every downloaded app is (by name) an app. */
  predicate SearchReady(l: Lists) {
    Sorted(ByName, l.apps) && Sorted(ByName, l.download) && Sorted(ByFreq, l.freq) &&
    Names(l.download) <= Names(l.apps)
  }

  /** `list.add(-(index + 1), x)` after a binary search: `None` is the
      `IndexOutOfBoundsException` that a successful search leads to. */
  function InsertSearched(ord: Order, s: seq<App>, x: App): (r: Option<seq<App>>)
    ensures r.Some? <==> Search(s, x, ord) < 0
  {
    var index := Search(s, x, ord);
    if index >= 0 then None else Some(InsertAt(s, -(index + 1), x))
  }

  /** Inserting where a failed search points keeps a sorted list sorted and
      adds just that app's name. */
  lemma InsertSearchedKeepsSorted(ord: Order, s: seq<App>, x: App)
    requires Sorted(ord, s) && Search(s, x, ord) < 0
    ensures var r := InsertSearched(ord, s, x).value;
      Sorted(ord, r) && Names(r) == Names(s) + {x.name}
  {
    var r := InsertAt(s, -(Search(s, x, ord) + 1), x);
    InsertAtSearchKeepsSorted(ord, s, x);
    NamesOfMembers(r, s, x);
  }

  lemma NamesOfMembers(r: seq<App>, s: seq<App>, x: App)
    requires forall y :: y in r <==> y in s || y == x
    ensures Names(r) == Names(s) + {x.name}
  {
    assert x in r;
  }

  /** One iteration of `addAppsWithoutInvalidate`. An app whose name is
      found is skipped; otherwise it goes in at the insertion point of each
      list it belongs to (`supportFreq`, `supportDl`: the pane pages that
      list). A failed insertion aborts the whole call. */
  function AddApp(l: Lists, info: App, supportFreq: bool, supportDl: bool): (r: Option<Lists>)
    ensures r.None? ==> Search(l.apps, info, ByName) < 0
    ensures r.Some? ==> |l.apps| <= |r.value.apps| <= |l.apps| + 1
  {
    match InsertSearched(ByName, l.apps, info)
    case None => Some(l)
    case Some(apps) =>
      var download := if supportDl && info.isDownload then InsertSearched(ByName, l.download, info) else Some(l.download);
      var freq := if supportFreq && info.isFreq then InsertSearched(ByFreq, l.freq, info) else Some(l.freq);
      if download.None? || freq.None? then None
      else Some(Lists(apps, download.value, freq.value))
  }

  /** `addAppsWithoutInvalidate(list)`. */
  function AddApps(l: Lists, infos: seq<App>, supportFreq: bool, supportDl: bool): (r: Option<Lists>)
    ensures r.Some? ==> |l.apps| <= |r.value.apps| <= |l.apps| + |infos|
    decreases |infos|
  {
    if |infos| == 0 then Some(l)
    else match AddApp(l, infos[0], supportFreq, supportDl)
      case None => None
      case Some(l1) => AddApps(l1, infos[1..], supportFreq, supportDl)
  }

  /** On a name-sorted list the name search fails exactly when no app has the name. */
  lemma NameSearch(s: seq<App>, x: App)
    requires Sorted(ByName, s)
    ensures Search(s, x, ByName) < 0 <==> x.name !in Names(s)
  {
    SearchSorted(s, x, ByName);
    if x.name in Names(s) {
      var j :| 0 <= j < |s| && s[j].name == x.name;
      CmpMeaning(ByName, s[j], x);
    } else {
      var r := Search(s, x, ByName);
      if r >= 0 {
        CmpMeaning(ByName, s[r], x);
      }
    }
  }

  /** On lists ready for binary search, adding an app never fails, keeps the
      lists ready, adds the app's name, and adds the app itself exactly when
      its name was new. */
  lemma AddAppKeepsOrder(l: Lists, info: App, supportFreq: bool, supportDl: bool)
    requires SearchReady(l)
    ensures var r := AddApp(l, info, supportFreq, supportDl);
      && r.Some?
      && SearchReady(r.value)
      && Names(r.value.apps) == Names(l.apps) + {info.name}
      && (info.name in Names(l.apps) ==> r.value == l)
  {
    NameSearch(l.apps, info);
    if info.name !in Names(l.apps) {
      var apps := InsertSearched(ByName, l.apps, info).value;
      InsertSearchedKeepsSorted(ByName, l.apps, info);
      var dl := l.download;
      if supportDl && info.isDownload {
        NameSearch(l.download, info);
        InsertSearchedKeepsSorted(ByName, l.download, info);
        dl := InsertSearched(ByName, l.download, info).value;
      }
      var fq := l.freq;
      if supportFreq && info.isFreq {
        InsertSearchedKeepsSorted(ByFreq, l.freq, info);
        fq := InsertSearched(ByFreq, l.freq, info).value;
      }
      assert AddApp(l, info, supportFreq, supportDl) == Some(Lists(apps, dl, fq));
      assert Names(dl) <= Names(apps);
    }
  }

  /** A successful addition keeps every app, and adds the new one when its
      name was not found. */
  lemma AddAppGrows(l: Lists, info: App, supportFreq: bool, supportDl: bool)
    ensures var r := AddApp(l, info, supportFreq, supportDl);
      && (r.Some? ==> multiset(l.apps) <= multiset(r.value.apps))
      && (r.Some? && Search(l.apps, info, ByName) < 0 ==> multiset(r.value.apps) == multiset(l.apps) + multiset{info})
  {
    match InsertSearched(ByName, l.apps, info)
    case None =>
      assert AddApp(l, info, supportFreq, supportDl) == Some(l);
    case Some(apps) =>
      var index := Search(l.apps, info, ByName);
      assert apps == InsertAt(l.apps, -(index + 1), info);
      InsertAtMultiset(l.apps, -(index + 1), info);
      var r := AddApp(l, info, supportFreq, supportDl);
      assert r.Some? ==> r.value.apps == apps;
  }

  lemma {:induction false} AddAppsKeepsOrder(l: Lists, infos: seq<App>, supportFreq: bool, supportDl: bool)
    requires SearchReady(l)
    ensures var r := AddApps(l, infos, supportFreq, supportDl);
      && r.Some?
      && SearchReady(r.value)
      && Names(r.value.apps) == Names(l.apps) + (set i | i in infos :: i.name)
    decreases |infos|
  {
    if |infos| > 0 {
      AddAppKeepsOrder(l, infos[0], supportFreq, supportDl);
      var l1 := AddApp(l, infos[0], supportFreq, supportDl).value;
      assert AddApps(l, infos, supportFreq, supportDl) == AddApps(l1, infos[1..], supportFreq, supportDl);
      AddAppsKeepsOrder(l1, infos[1..], supportFreq, supportDl);
      NamesOfHead(infos);
    }
  }

  lemma NamesOfHead(infos: seq<App>)
    requires |infos| > 0
    ensures (set i | i in infos :: i.name) == {infos[0].name} + (set i | i in infos[1..] :: i.name)
  {
    assert forall i :: i in infos <==> i == infos[0] || i in infos[1..];
  }

  /** A successful `addAppsWithoutInvalidate` loses no app. */
  lemma {:induction false} AddAppsGrows(l: Lists, infos: seq<App>, supportFreq: bool, supportDl: bool)
    ensures var r := AddApps(l, infos, supportFreq, supportDl);
      r.Some? ==> multiset(l.apps) <= multiset(r.value.apps)
    decreases |infos|
  {
    if |infos| > 0 {
      AddAppGrows(l, infos[0], supportFreq, supportDl);
      var r1 := AddApp(l, infos[0], supportFreq, supportDl);
      if r1.Some? {
        AddAppsGrows(r1.value, infos[1..], supportFreq, supportDl);
      }
    }
  }

  // ---------------------------------------------------------------- top packages

  predicate Matches(a: App, tp: TopPackage) { a.pkg == tp.pkg && a.cls == tp.cls }

  /** The first app of `s` with the top package's component, or -1. */
  function FirstMatch(s: seq<App>, tp: TopPackage): (r: int)
    ensures -1 <= r < |s|
    ensures r >= 0 ==> Matches(s[r], tp) && forall j :: 0 <= j < r ==> !Matches(s[j], tp)
    ensures r == -1 ==> forall j :: 0 <= j < |s| ==> !Matches(s[j], tp)
  {
    if |s| == 0 then -1
    else if Matches(s[0], tp) then 0
    else
      var r := FirstMatch(s[1..], tp);
      if r < 0 then -1 else r + 1
  }

  function RemoveAt(s: seq<App>, i: int): (r: seq<App>)
    requires 0 <= i < |s|
    ensures |r| == |s| - 1
  {
    s[..i] + s[i + 1..]
  }

  lemma RemoveAtMultiset(s: seq<App>, i: int)
    requires 0 <= i < |s|
    ensures multiset(RemoveAt(s, i)) + multiset{s[i]} == multiset(s)
  {
    assert s == s[..i] + [s[i]] + s[i + 1..];
  }

  /** The first loop of `reorderApps`: for each top package, in order, take
      the first matching app out of the list. Returns the rest and the apps
      taken, in the order taken. */
  function Pull(apps: seq<App>, tops: seq<TopPackage>): (r: (seq<App>, seq<App>))
    ensures |r.0| + |r.1| == |apps| && |r.1| <= |tops|
    decreases |tops|
  {
    if |tops| == 0 then (apps, [])
    else
      var i := FirstMatch(apps, tops[0]);
      if i < 0 then Pull(apps, tops[1..])
      else
        var (rest, taken) := Pull(RemoveAt(apps, i), tops[1..]);
        (rest, [apps[i]] + taken)
  }

  /** The second loop: for each top package, in order, put the first taken
      app with its component back at `clamp(order, 0, size)`. */
  function PutBack(apps: seq<App>, taken: seq<App>, tops: seq<TopPackage>): seq<App>
    decreases |tops|
  {
    if |tops| == 0 then apps
    else
      var i := FirstMatch(taken, tops[0]);
      var next := if i < 0 then apps else InsertAt(apps, Clamp(tops[0].order, 0, |apps|), taken[i]);
      PutBack(next, taken, tops[1..])
  }

  /** The apps `PutBack` puts back, in order. */
  function Picks(taken: seq<App>, tops: seq<TopPackage>): seq<App>
    decreases |tops|
  {
    if |tops| == 0 then []
    else
      var i := FirstMatch(taken, tops[0]);
      (if i < 0 then [] else [taken[i]]) + Picks(taken, tops[1..])
  }

  /** `reorderApps()`: nothing to do without apps or top packages. */
  function ReorderApps(apps: seq<App>, tops: seq<TopPackage>): (r: seq<App>)
    ensures |apps| == 0 || |tops| == 0 ==> r == apps
  {
    if |apps| == 0 || |tops| == 0 then apps
    else
      var (rest, taken) := Pull(apps, tops);
      PutBack(rest, taken, tops)
  }

  /** No two top packages name the same component. */
  predicate DistinctTops(tops: seq<TopPackage>) {
    forall i, j :: 0 <= i < j < |tops| ==> tops[i].pkg != tops[j].pkg || tops[i].cls != tops[j].cls
  }

  lemma {:induction false} PutBackAdds(apps: seq<App>, taken: seq<App>, tops: seq<TopPackage>)
    ensures multiset(PutBack(apps, taken, tops)) == multiset(apps) + multiset(Picks(taken, tops))
    decreases |tops|
  {
    if |tops| > 0 {
      var i := FirstMatch(taken, tops[0]);
      var next := if i < 0 then apps else InsertAt(apps, Clamp(tops[0].order, 0, |apps|), taken[i]);
      if i >= 0 { InsertAtMultiset(apps, Clamp(tops[0].order, 0, |apps|), taken[i]); }
      PutBackAdds(next, taken, tops[1..]);
    }
  }

  /** Pulling moves apps from the list to the taken ones and loses none. */
  lemma {:induction false} PullKeeps(apps: seq<App>, tops: seq<TopPackage>)
    ensures multiset(Pull(apps, tops).0) + multiset(Pull(apps, tops).1) == multiset(apps)
    decreases |tops|
  {
    if |tops| > 0 {
      var i := FirstMatch(apps, tops[0]);
      if i < 0 {
        PullKeeps(apps, tops[1..]);
      } else {
        PullKeeps(RemoveAt(apps, i), tops[1..]);
        RemoveAtMultiset(apps, i);
      }
    }
  }

  lemma {:induction false} PicksSkipHead(m: App, rest: seq<App>, tops: seq<TopPackage>)
    requires forall k :: 0 <= k < |tops| ==> !Matches(m, tops[k])
    ensures Picks([m] + rest, tops) == Picks(rest, tops)
    decreases |tops|
  {
    if |tops| > 0 {
      assert ([m] + rest)[1..] == rest;
      PicksSkipHead(m, rest, tops[1..]);
    }
  }

  /** With distinct top packages each taken app is put back exactly once. */
  lemma {:induction false} PicksOfPull(apps: seq<App>, tops: seq<TopPackage>)
    requires DistinctTops(tops)
    ensures Picks(Pull(apps, tops).1, tops) == Pull(apps, tops).1
    decreases |tops|
  {
    if |tops| > 0 {
      var t := tops[0];
      var ts := tops[1..];
      assert DistinctTops(ts);
      var i := FirstMatch(apps, t);
      if i < 0 {
        var taken := Pull(apps, ts).1;
        PicksOfPull(apps, ts);
        PullKeeps(apps, ts);
        forall j | 0 <= j < |taken| ensures !Matches(taken[j], t) {
          assert taken[j] in multiset(Pull(apps, ts).1);
          assert taken[j] in multiset(apps);
        }
      } else {
        var m := apps[i];
        var taken := Pull(RemoveAt(apps, i), ts).1;
        PicksOfPull(RemoveAt(apps, i), ts);
        forall k | 0 <= k < |ts| ensures !Matches(m, ts[k]) {
          assert tops[k + 1] == ts[k];
        }
        PicksSkipHead(m, taken, ts);
      }
    }
  }

  /** With distinct top packages, reordering loses and duplicates no app. */
  lemma ReorderPermutes(apps: seq<App>, tops: seq<TopPackage>)
    requires DistinctTops(tops)
    ensures multiset(ReorderApps(apps, tops)) == multiset(apps)
  {
    if |apps| > 0 && |tops| > 0 {
      var (rest, taken) := Pull(apps, tops);
      PutBackAdds(rest, taken, tops);
      PicksOfPull(apps, tops);
      PullKeeps(apps, tops);
    }
  }

  lemma RemoveAtIndex(s: seq<App>, i: int)
    requires 0 <= i < |s|
    ensures forall m :: 0 <= m < i ==> RemoveAt(s, i)[m] == s[m]
    ensures forall m :: i <= m < |s| - 1 ==> RemoveAt(s, i)[m] == s[m + 1]
  {
  }

  /** Taking out an app of another component leaves the first match of a
      top package the same app. */
  lemma FirstMatchSkips(s: seq<App>, i: int, tp: TopPackage)
    requires 0 <= i < |s| && !Matches(s[i], tp)
    ensures var j := FirstMatch(s, tp);
      var k := FirstMatch(RemoveAt(s, i), tp);
      (j >= 0 <==> k >= 0) && (j >= 0 ==> RemoveAt(s, i)[k] == s[j])
  {
    var r := RemoveAt(s, i);
    RemoveAtIndex(s, i);
    var j := FirstMatch(s, tp);
    var k := FirstMatch(r, tp);
    if j >= 0 {
      var k' := if j < i then j else j - 1;
      assert Matches(r[k'], tp);
      assert k >= 0 && k <= k';
      assert s[if k < i then k else k + 1] == r[k];
    }
  }

  /** With distinct top packages, the first loop takes, for the last top
      package, the first app of the list with its component, and that app is
      the first of the taken ones with the component. */
  lemma {:induction false} PullTakesLast(apps: seq<App>, tops: seq<TopPackage>)
    requires DistinctTops(tops) && |tops| > 0 && FirstMatch(apps, tops[|tops| - 1]) >= 0
    ensures var last := tops[|tops| - 1];
      var taken := Pull(apps, tops).1;
      FirstMatch(taken, last) >= 0 && taken[FirstMatch(taken, last)] == apps[FirstMatch(apps, last)]
    decreases |tops|
  {
    var last := tops[|tops| - 1];
    var ts := tops[1..];
    var i := FirstMatch(apps, tops[0]);
    if |tops| == 1 {
      assert tops[0] == last;
      assert Pull(apps, tops).1 == [apps[i]];
    } else {
      DistinctTail(tops);
      if i < 0 {
        PullTakesLast(apps, ts);
      } else {
        FirstMatchSkips(apps, i, last);
        PullTakesLast(RemoveAt(apps, i), ts);
        FirstMatchPastHead(apps[i], Pull(RemoveAt(apps, i), ts).1, last);
      }
    }
  }

  /** The rest of a distinct list of top packages is distinct, keeps the
      last one, and its first one names another component than the last. */
  lemma DistinctTail(tops: seq<TopPackage>)
    requires DistinctTops(tops) && |tops| > 1
    ensures DistinctTops(tops[1..]) && tops[1..][|tops| - 2] == tops[|tops| - 1]
    ensures tops[0].pkg != tops[|tops| - 1].pkg || tops[0].cls != tops[|tops| - 1].cls
  {
  }

  /** An app of another component in front does not change which app is
      the first match. */
  lemma FirstMatchPastHead(m: App, tail: seq<App>, tp: TopPackage)
    requires !Matches(m, tp) && FirstMatch(tail, tp) >= 0
    ensures FirstMatch([m] + tail, tp) >= 0
    ensures ([m] + tail)[FirstMatch([m] + tail, tp)] == tail[FirstMatch(tail, tp)]
  {
    assert ([m] + tail)[1..] == tail;
  }

  /** The second loop's last step decides where the last top package's app
      ends: at its order, clamped to the list. */
  lemma {:induction false} PutBackLast(apps: seq<App>, taken: seq<App>, tops: seq<TopPackage>)
    requires |tops| > 0 && FirstMatch(taken, tops[|tops| - 1]) >= 0
    ensures var r := PutBack(apps, taken, tops);
      |r| > 0 && r[Clamp(tops[|tops| - 1].order, 0, |r| - 1)] == taken[FirstMatch(taken, tops[|tops| - 1])]
    decreases |tops|
  {
    var i := FirstMatch(taken, tops[0]);
    var next := if i < 0 then apps else InsertAt(apps, Clamp(tops[0].order, 0, |apps|), taken[i]);
    if |tops| == 1 {
      assert PutBack(next, taken, tops[1..]) == next;
    } else {
      assert tops[1..][|tops| - 2] == tops[|tops| - 1];
      PutBackLast(next, taken, tops[1..]);
    }
  }

  /** Where `reorderApps` puts a pinned app: with distinct top packages,
      the first app with the last top package's component ends at that
      package's order, clamped to the list, and the list keeps its length. */
  lemma ReorderPlacesLast(apps: seq<App>, tops: seq<TopPackage>)
    requires DistinctTops(tops) && |tops| > 0 && FirstMatch(apps, tops[|tops| - 1]) >= 0
    ensures var r := ReorderApps(apps, tops);
      var last := tops[|tops| - 1];
      |r| == |apps| && r[Clamp(last.order, 0, |apps| - 1)] == apps[FirstMatch(apps, last)]
  {
    var (rest, taken) := Pull(apps, tops);
    PullTakesLast(apps, tops);
    PutBackLast(rest, taken, tops);
    ReorderPermutes(apps, tops);
    assert |multiset(ReorderApps(apps, tops))| == |multiset(apps)|;
  }

  // ---------------------------------------------------------------- setting the lists

  /** Insert `x` after every element not above it. */
  function InsertSorted(ord: Order, s: seq<App>, x: App): (r: seq<App>)
    ensures |r| == |s| + 1
    ensures forall y :: y in r <==> y in s || y == x
  {
    if |s| == 0 then [x]
    else if Cmp(ord, s[0], x) <= 0 then
      assert forall y :: y in s <==> y == s[0] || y in s[1..];
      [s[0]] + InsertSorted(ord, s[1..], x)
    else [x] + s
  }

  lemma {:induction false} InsertSortedMultiset(ord: Order, s: seq<App>, x: App)
    ensures multiset(InsertSorted(ord, s, x)) == multiset(s) + multiset{x}
  {
    if |s| > 0 && Cmp(ord, s[0], x) <= 0 {
      InsertSortedMultiset(ord, s[1..], x);
      assert s == [s[0]] + s[1..];
    }
  }

  lemma {:induction false} InsertSortedKeepsSorted(ord: Order, s: seq<App>, x: App)
    requires Sorted(ord, s)
    ensures Sorted(ord, InsertSorted(ord, s, x))
  {
    if |s| > 0 {
      if Cmp(ord, s[0], x) <= 0 {
        var tail := InsertSorted(ord, s[1..], x);
        InsertSortedKeepsSorted(ord, s[1..], x);
        forall k | 0 <= k < |tail| ensures Cmp(ord, s[0], tail[k]) <= 0 {
          assert tail[k] in tail;
          if tail[k] != x {
            var j :| 0 <= j < |s[1..]| && s[1..][j] == tail[k];
            assert s[j + 1] == tail[k];
          }
        }
        var r := [s[0]] + tail;
        forall a, b | 0 <= a < b < |r| ensures Cmp(ord, r[a], r[b]) <= 0 {
          if a > 0 { assert r[a] == tail[a - 1] && r[b] == tail[b - 1]; }
          else { assert r[b] == tail[b - 1]; }
        }
      } else {
        forall k | 0 <= k < |s| ensures Cmp(ord, x, s[k]) <= 0 {
          CmpOrder(ord, s[0], x, x);
          if k > 0 { CmpOrder(ord, x, s[0], s[k]); }
        }
        var r := [x] + s;
        forall a, b | 0 <= a < b < |r| ensures Cmp(ord, r[a], r[b]) <= 0 {
          if a > 0 { assert r[a] == s[a - 1] && r[b] == s[b - 1]; }
          else { assert r[b] == s[b - 1]; }
        }
      }
    }
  }

  /** `Collections.sort(list, comparator)`: a stable sort, here by insertion. */
  function SortBy(ord: Order, s: seq<App>): (r: seq<App>)
    ensures Sorted(ord, r) && |r| == |s|
  {
    if |s| == 0 then []
    else
      var init := SortBy(ord, s[..|s| - 1]);
      InsertSortedKeepsSorted(ord, init, s[|s| - 1]);
      InsertSorted(ord, init, s[|s| - 1])
  }

  lemma {:induction false} SortByPermutes(ord: Order, s: seq<App>)
    ensures multiset(SortBy(ord, s)) == multiset(s)
    ensures forall y :: y in SortBy(ord, s) <==> y in s
  {
    if |s| > 0 {
      SortByPermutes(ord, s[..|s| - 1]);
      InsertSortedMultiset(ord, SortBy(ord, s[..|s| - 1]), s[|s| - 1]);
      assert s == s[..|s| - 1] + [s[|s| - 1]];
    }
    forall y ensures y in SortBy(ord, s) <==> y in s {
      assert y in SortBy(ord, s) <==> y in multiset(SortBy(ord, s));
    }
  }

  function Downloads(s: seq<App>): (r: seq<App>)
    ensures forall y :: y in r <==> y in s && y.isDownload
  {
    if |s| == 0 then [] else (if s[0].isDownload then [s[0]] else []) + Downloads(s[1..])
  }

  function Frequents(s: seq<App>): (r: seq<App>)
    ensures forall y :: y in r <==> y in s && y.isFreq
  {
    if |s| == 0 then [] else (if s[0].isFreq then [s[0]] else []) + Frequents(s[1..])
  }

  /** `setApps(list)`: sort by name, pin the top packages, then rebuild the
      download list (in the pinned order) and the frequent list (sorted by
      frequency) for the lists the pane pages. */
  function SetApps(l: Lists, list: seq<App>, tops: seq<TopPackage>, supportFreq: bool, supportDl: bool): (r: Lists)
    ensures |tops| == 0 ==> Sorted(ByName, r.apps) && multiset(r.apps) == multiset(list)
    ensures supportDl ==> forall y :: y in r.download <==> y in r.apps && y.isDownload
    ensures !supportDl ==> r.download == l.download
    ensures supportFreq ==> Sorted(ByFreq, r.freq) && forall y :: y in r.freq <==> y in r.apps && y.isFreq
    ensures !supportFreq ==> r.freq == l.freq
  {
    var apps := ReorderApps(SortBy(ByName, list), tops);
    var download := if supportDl then Downloads(apps) else l.download;
    var freq := if supportFreq then SortBy(ByFreq, Frequents(apps)) else l.freq;
    SortByPermutes(ByName, list);
    SortByPermutes(ByFreq, Frequents(apps));
    Lists(apps, download, freq)
  }

  /** With distinct top packages every app handed to `setApps` is shown
      exactly once. */
  lemma SetAppsShowsEveryApp(l: Lists, list: seq<App>, tops: seq<TopPackage>, supportFreq: bool, supportDl: bool)
    requires DistinctTops(tops)
    ensures multiset(SetApps(l, list, tops, supportFreq, supportDl).apps) == multiset(list)
  {
    ReorderPermutes(SortBy(ByName, list), tops);
    SortByPermutes(ByName, list);
  }

  // ---------------------------------------------------------------- adding to a pinned list

  /** `addApps(list)` AS WRITTEN: binary insertion into the displayed list,
      which the top packages have already pulled out of name order, then
      pinning again. */
  function AddAppsAsWritten(l: Lists, infos: seq<App>, tops: seq<TopPackage>, supportFreq: bool, supportDl: bool): (r: Option<Lists>)
    ensures |tops| == 0 ==> r == AddApps(l, infos, supportFreq, supportDl)
  {
    var added := AddApps(l, infos, supportFreq, supportDl);
    if added.None? then None
    else Some(added.value.(apps := ReorderApps(added.value.apps, tops)))
  }

  /** `addApps(list)` as evidently intended: search the lists in name order
      (the order binary search needs), then pin. */
  function AddAppsSorted(l: Lists, infos: seq<App>, tops: seq<TopPackage>, supportFreq: bool, supportDl: bool): (r: Option<Lists>)
  {
    var byName := l.(apps := SortBy(ByName, l.apps), download := SortBy(ByName, l.download));
    var added := AddApps(byName, infos, supportFreq, supportDl);
    if added.None? then None
    else Some(added.value.(apps := ReorderApps(added.value.apps, tops)))
  }

  /** The corrected insertion never fails on lists `setApps` can produce:
      the result is the pinned form of a name-sorted list holding the old
      apps and every new name. */
  lemma AddAppsSortedIsPinnedSortedList(l: Lists, infos: seq<App>, tops: seq<TopPackage>, supportFreq: bool, supportDl: bool)
    requires Sorted(ByFreq, l.freq) && Names(l.download) <= Names(l.apps)
    ensures var r := AddAppsSorted(l, infos, tops, supportFreq, supportDl);
      && r.Some?
      && exists sorted :: Sorted(ByName, sorted) && r.value.apps == ReorderApps(sorted, tops) &&
           multiset(l.apps) <= multiset(sorted) && Names(sorted) == Names(l.apps) + (set i | i in infos :: i.name)
  {
    var byName := l.(apps := SortBy(ByName, l.apps), download := SortBy(ByName, l.download));
    SortByPermutes(ByName, l.apps);
    SortByPermutes(ByName, l.download);
    assert Names(byName.apps) == Names(l.apps);
    assert Names(byName.download) == Names(l.download);
    AddAppsKeepsOrder(byName, infos, supportFreq, supportDl);
    AddAppsGrows(byName, infos, supportFreq, supportDl);
    var added := AddApps(byName, infos, supportFreq, supportDl).value;
    assert Sorted(ByName, added.apps) && added.apps == added.apps;
  }

  function Sample(name: int, pkg: string): App {
    App(name, pkg, "Main", 0, 0, false, false)
  }

  /** Two apps, 10 and 20, with app 20 pinned first. */
  const PIN: seq<TopPackage> := [TopPackage("top", "Main", 0)]
  const A10: App := Sample(10, "a")
  const A15: App := Sample(15, "a")
  const A20: App := Sample(20, "top")

  lemma SortSample()
    ensures SortBy(ByName, [A10, A20]) == [A10, A20]
    ensures SortBy(ByName, [A20, A10]) == [A10, A20]
  {
    assert [A10, A20][..1] == [A10];
    assert SortBy(ByName, [A10]) == [A10];
    assert InsertSorted(ByName, [A10], A20) == [A10, A20];
    assert [A20, A10][..1] == [A20];
    assert SortBy(ByName, [A20]) == [A20];
    assert InsertSorted(ByName, [A20], A10) == [A10, A20];
  }

  /** Pinning moves app 20 to the front. */
  lemma PinSample(s: seq<App>, i: nat)
    requires i < |s| && s[i] == A20 && forall k :: 0 <= k < |s| && k != i ==> s[k].pkg == "a"
    ensures ReorderApps(s, PIN) == [A20] + RemoveAt(s, i)
  {
    assert FirstMatch(s, PIN[0]) == i;
    var rest := RemoveAt(s, i);
    assert PIN[1..] == [];
    assert Pull(rest, PIN[1..]) == (rest, []);
    var (r0, t0) := Pull(rest, PIN[1..]);
    assert Pull(s, PIN) == (r0, [s[i]] + t0);
    assert r0 == rest && [s[i]] + t0 == [A20];
    assert FirstMatch([A20], PIN[0]) == 0;
    assert PutBack(InsertAt(rest, 0, A20), [A20], PIN[1..]) == [A20] + rest;
  }

  lemma SearchSample()
    ensures Search([A20, A10], A15, ByName) == -1
    ensures Search([A10, A20], A15, ByName) == -2
  {
    assert SearchIn([A20, A10], A15, ByName, 0, -1) == -1;
    assert SearchIn([A10, A20], A15, ByName, 1, 0) == -2;
    assert SearchIn([A10, A20], A15, ByName, 1, 1) == -2;
  }

  /** Binary insertion of app 15 puts it first in the pinned list and
      second in the list in name order. */
  lemma InsertSample()
    ensures InsertSearched(ByName, [A20, A10], A15) == Some([A15, A20, A10])
    ensures InsertSearched(ByName, [A10, A20], A15) == Some([A10, A15, A20])
  {
    SearchSample();
    assert InsertAt([A20, A10], 0, A15) == [A15, A20, A10];
    assert InsertAt([A10, A20], 1, A15) == [A10, A15, A20];
  }

  /** One `addApps` step of app 15: first in the pinned list, second in
      the list in name order. */
  lemma AddAppSample()
    ensures AddApp(Lists([A20, A10], [], []), A15, false, false) == Some(Lists([A15, A20, A10], [], []))
    ensures AddApp(Lists([A10, A20], [], []), A15, false, false) == Some(Lists([A10, A15, A20], [], []))
  {
    InsertSample();
  }

  lemma AddSamplePinned()
    ensures AddApps(Lists([A20, A10], [], []), [A15], false, false) == Some(Lists([A15, A20, A10], [], []))
  {
    AddAppSample();
    assert [A15][1..] == [];
  }

  lemma AddSampleByName()
    ensures AddApps(Lists([A10, A20], [], []), [A15], false, false) == Some(Lists([A10, A15, A20], [], []))
  {
    AddAppSample();
    assert [A15][1..] == [];
  }

  lemma SetSample()
    ensures SetApps(Lists([], [], []), [A10, A20], PIN, false, false) == Lists([A20, A10], [], [])
  {
    SortSample();
    PinSample([A10, A20], 1);
    assert RemoveAt([A10, A20], 1) == [A10];
  }

  /** Pinning app 20 after app 15 was added, in either list. */
  lemma PinAfterAdd()
    ensures ReorderApps([A15, A20, A10], PIN) == [A20, A15, A10]
    ensures ReorderApps([A10, A15, A20], PIN) == [A20, A10, A15]
  {
    PinSample([A15, A20, A10], 1);
    assert RemoveAt([A15, A20, A10], 1) == [A15, A10];
    PinSample([A10, A15, A20], 2);
    assert RemoveAt([A10, A15, A20], 2) == [A10, A15];
  }

  lemma AsWrittenSample()
    ensures AddAppsAsWritten(Lists([A20, A10], [], []), [A15], PIN, false, false) == Some(Lists([A20, A15, A10], [], []))
  {
    AddSamplePinned();
    PinAfterAdd();
  }

  lemma CorrectedSample()
    ensures AddAppsSorted(Lists([A20, A10], [], []), [A15], PIN, false, false) == Some(Lists([A20, A10, A15], [], []))
  {
    var l := Lists([A20, A10], [], []);
    assert l.(apps := SortBy(ByName, l.apps), download := SortBy(ByName, l.download)) == Lists([A10, A20], [], []) by {
      SortSample();
      assert SortBy(ByName, []) == [];
    }
    AddSampleByName();
    PinAfterAdd();
  }

  /** Adding app 15 to apps 10 and 20 where app 20 is pinned first: the as
      written insertion puts 15 before 10, the intended one after it. */
  lemma AddAfterPinningMisorders()
    ensures var l := SetApps(Lists([], [], []), [A10, A20], PIN, false, false);
      && l == Lists([A20, A10], [], [])
      && AddAppsAsWritten(l, [A15], PIN, false, false) == Some(Lists([A20, A15, A10], [], []))
      && AddAppsSorted(l, [A15], PIN, false, false) == Some(Lists([A20, A10, A15], [], []))
  {
    SetSample();
    AsWrittenSample();
    CorrectedSample();
  }
}
