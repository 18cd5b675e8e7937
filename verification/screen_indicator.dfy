/** The page indicator (`QsScreenIndicator`): it follows the pager's
    current page and page count through callbacks and, laid out
    horizontally, draws a "current/count" label between a previous-page and
    a next-page arrow. Only the decisions are modelled: which page and
    count it holds, the text of the label and which arrows appear. */
module ScreenIndicator {
  import opened JavaInt

  /** `mDirection`, `mScreenPagesCount`, `mCurrentScreen`, and how many
      times the view asked to be redrawn. */
  datatype Indicator = Indicator(direction: int, count: int, current: int, redraws: nat)

  /** The field initialisers: vertical, five pages, the third one current. */
  const FRESH: Indicator := Indicator(0, 5, 2, 0)

  /** `initial`: take the pager's page and count. */
  function Attach(ind: Indicator, current: int, count: int): (r: Indicator)
    ensures r.current == current && r.count == count
    ensures r.direction == ind.direction && r.redraws == ind.redraws
  {
    ind.(current := current, count := count)
  }

  /** `onChangeToScreen`: the new page becomes current; a redraw is asked
      for only when it differs from the old one. */
  function ChangeToScreen(ind: Indicator, which: int): (r: Indicator)
    ensures r.current == which && r.count == ind.count && r.direction == ind.direction
    ensures which == ind.current <==> r == ind
  {
    if ind.current != which then ind.(current := which, redraws := ind.redraws + 1) else ind
  }

  /** `onPageCountChanged`: nothing when the count is the same; otherwise
      store it and pull a current page past the end back to the last page. */
  function PageCountChanged(ind: Indicator, n: int): (r: Indicator)
    ensures n == ind.count <==> r == ind
    ensures r.count == n && r.direction == ind.direction
    ensures n != ind.count ==> r.current == Min(ind.current, n - 1) && r.redraws == ind.redraws + 1
  {
    if n != ind.count then
      var counted := ind.(count := n, redraws := ind.redraws + 1);
      if counted.current >= n then counted.(current := n - 1) else counted
    else ind
  }

  predicate InRange(ind: Indicator) { 0 <= ind.current < ind.count }

  /** A current page within the count stays within it whatever the new
      (positive) count, and changing to a page within the count keeps it so. */
  lemma CallbacksKeepRange(ind: Indicator, n: int, which: int)
    requires InRange(ind)
    ensures n > 0 ==> InRange(PageCountChanged(ind, n))
    ensures 0 <= which < ind.count ==> InRange(ChangeToScreen(ind, which))
    ensures n > 0 && n != ind.count ==> (PageCountChanged(ind, n).current == ind.current <==> ind.current < n)
  {
  }

  // ---------------------------------------------------------------------
  // The label

  function DigitChar(d: int): (c: char)
    requires 0 <= d < 10
    ensures IsDigit(c) && (c as int) - ('0' as int) == d
  {
    ('0' as int + d) as char
  }

  predicate IsDigit(c: char) { '0' <= c <= '9' }

  predicate AllDigits(s: string) { forall i :: 0 <= i < |s| ==> IsDigit(s[i]) }

  /** The decimal digits of a natural number, most significant first,
      without leading zeros. */
  function NatString(n: nat): (r: string)
    ensures |r| > 0 && AllDigits(r)
    ensures |r| > 1 ==> r[0] != '0'
  {
    if n < 10 then [DigitChar(n)] else NatString(n / 10) + [DigitChar(n % 10)]
  }

  /** Java's `String.valueOf(int)`: an optional minus sign, then the digits. */
  function IntString(i: int): string {
    if i < 0 then "-" + NatString(-i) else NatString(i)
  }

  /** Reading a run of decimal digits back. */
  function ParseNat(s: string): nat
    requires AllDigits(s)
  {
    if s == [] then 0 else ParseNat(s[..|s| - 1]) * 10 + ((s[|s| - 1] as int) - ('0' as int))
  }

  /** The shape of `IntString`'s results: digits, after a minus sign or not. */
  predicate Numeral(s: string) {
    |s| > 0 && (if s[0] == '-' then |s| > 1 && AllDigits(s[1..]) else AllDigits(s))
  }

  function ParseInt(s: string): int
    requires Numeral(s)
  {
    if s[0] == '-' then -(ParseNat(s[1..]) as int) else ParseNat(s)
  }

  lemma {:induction false} NatStringRoundTrip(n: nat)
    ensures ParseNat(NatString(n)) == n
  {
    if n >= 10 {
      var s := NatString(n);
      NatStringRoundTrip(n / 10);
      assert s[..|s| - 1] == NatString(n / 10);
    }
  }

  /** The decimal text of an integer reads back as that integer, and it
      never contains the '/' that separates the label's two numbers. */
  lemma IntStringRoundTrip(i: int)
    ensures Numeral(IntString(i)) && ParseInt(IntString(i)) == i
    ensures '/' !in IntString(i)
  {
    var s := IntString(i);
    if i < 0 {
      NatStringRoundTrip(-i);
      assert s[1..] == NatString(-i);
      assert s[0] == '-';
    } else {
      NatStringRoundTrip(i);
      assert IsDigit(s[0]);
    }
    forall k | 0 <= k < |s|
      ensures s[k] != '/'
    {
      if i < 0 && k > 0 {
        assert s[k] == s[1..][k - 1];
      }
    }
  }

  /** The text drawn between the arrows: page number (one-based) and count. */
  function Label(ind: Indicator): string {
    IntString(ind.current + 1) + "/" + IntString(ind.count)
  }

  /** The label holds exactly one '/', and the numbers on either side of it
      read back as the one-based current page and the page count. */
  lemma LabelReadsBack(ind: Indicator)
    ensures var l := Label(ind);
      exists k :: 0 <= k < |l| && l[k] == '/'
        && (forall j :: 0 <= j < |l| && j != k ==> l[j] != '/')
        && IntString(ind.current + 1) == l[..k] && IntString(ind.count) == l[k + 1..]
        && ParseInt(l[..k]) == ind.current + 1 && ParseInt(l[k + 1..]) == ind.count
  {
    IntStringRoundTrip(ind.current + 1);
    IntStringRoundTrip(ind.count);
    var a := IntString(ind.current + 1);
    SplitAtSlash(a, IntString(ind.count));
    assert Label(ind)[|a|] == '/';
  }

  /** Joining two slash-free texts with a '/' puts the only '/' right after
      the first, with each text recoverable from its side. */
  lemma SplitAtSlash(a: string, b: string)
    requires '/' !in a && '/' !in b
    ensures var l := a + "/" + b;
      && l[|a|] == '/' && l[..|a|] == a && l[|a| + 1..] == b
      && forall j :: 0 <= j < |l| && j != |a| ==> l[j] != '/'
  {
    var l := a + "/" + b;
    assert l[..|a|] == a && l[|a| + 1..] == b;
    forall j | 0 <= j < |l| && j != |a|
      ensures l[j] != '/'
    {
      if j < |a| {
        assert l[j] == a[j];
      } else {
        assert l[j] == b[j - |a| - 1];
      }
    }
  }

  // ---------------------------------------------------------------------
  // Drawing

  /** What one horizontal frame shows. */
  datatype Frame = Frame(text: string, prevArrow: bool, nextArrow: bool)

  /** `onDraw`: a count of zero or less draws nothing; the vertical layout
      draws nothing either (its body is commented out); the horizontal one
      draws the label, the previous arrow when there is an image for it and
      a page before, the next arrow when there is an image and a page after. */
  function Draw(ind: Indicator, hasPrevImage: bool, hasNextImage: bool): (r: Option<Frame>)
    ensures r.Some? <==> ind.direction > 0 && ind.count > 0
    ensures r.Some? ==> r.value.text == Label(ind)
  {
    if ind.count <= 0 || ind.direction <= 0 then None
    else Some(Frame(Label(ind), hasPrevImage && ind.current > 0, hasNextImage && ind.current + 1 < ind.count))
  }

  /** With both arrow images, on a page within the count: the previous
      arrow is missing exactly on the first page, the next arrow exactly on
      the last, and a single page shows neither. */
  lemma ArrowsMarkTheEnds(ind: Indicator)
    requires InRange(ind) && ind.direction > 0
    ensures Draw(ind, true, true).Some?
    ensures !Draw(ind, true, true).value.prevArrow <==> ind.current == 0
    ensures !Draw(ind, true, true).value.nextArrow <==> ind.current == ind.count - 1
    ensures ind.count == 1 ==> !Draw(ind, true, true).value.prevArrow && !Draw(ind, true, true).value.nextArrow
    ensures !Draw(ind, false, true).value.prevArrow && !Draw(ind, true, false).value.nextArrow
  {
  }

  /** A horizontal indicator on page 2 of 3 draws "2/3" with both arrows;
      once the count drops to 1 it is pulled back to "1/1" with none. */
  lemma DrawSample()
    ensures Draw(Indicator(1, 3, 1, 0), true, true) == Some(Frame("2/3", true, true))
    ensures Draw(PageCountChanged(Indicator(1, 3, 1, 0), 1), true, true) == Some(Frame("1/1", false, false))
    ensures Draw(PageCountChanged(Indicator(1, 3, 1, 0), 0), true, true) == None
  {
    assert NatString(2) == "2" && NatString(3) == "3" && NatString(1) == "1";
    assert IntString(2) + "/" + IntString(3) == "2/3";
    assert IntString(1) + "/" + IntString(1) == "1/1";
  }
}
