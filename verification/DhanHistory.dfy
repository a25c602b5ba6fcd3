/**
 * Reading trade history without holes: the gaps a sync still has to read
 * (src/swingdash/services/dhan_sync.py) and the windows and pages each gap is read in
 * (src/swingdash/adapters/dhan/source.py). Days are ordinals.
 */
module DhanHistory {
  import opened Wrappers
  import opened Ledger

  datatype Span = Span(start: int, end: int) {
    ghost predicate Has(d: int) {
      start <= d <= end
    }
  }

  ghost predicate InSpans(spans: seq<Span>, d: int) {
    exists i :: 0 <= i < |spans| && spans[i].Has(d)
  }

  // --- gaps ------------------------------------------------------------------------------

  /** A range of days, unless it is empty. */
  function OneSpan(start: int, end: int): seq<Span> {
    if start <= end then [Span(start, end)] else []
  }

  /** `_missing_history`: what of `start..end` the markers do not cover, as spans that hold a day. */
  function MissingHistory(covered: Option<int>, through: Option<int>, start: int, end: int): seq<Span> {
    if covered.None? || through.None? then OneSpan(start, end)
    else
      (if start < covered.value then OneSpan(start, Min(end, covered.value - 1)) else [])
      + (if through.value < end then OneSpan(Max(start, through.value + 1), end) else [])
  }

  lemma InTwoSpans(a: seq<Span>, b: seq<Span>, d: int)
    requires |a| <= 1 && |b| <= 1
    ensures InSpans(a + b, d) <==> (a != [] && a[0].Has(d)) || (b != [] && b[0].Has(d))
  {
    if a != [] && a[0].Has(d) {
      assert (a + b)[0].Has(d);
    }
    if b != [] && b[0].Has(d) {
      assert (a + b)[|a|].Has(d);
    }
  }

  ghost predicate Known(covered: Option<int>, through: Option<int>, d: int) {
    covered.Some? && through.Some? && covered.value <= d <= through.value
  }

  /** The two markers are set together, and the range between them is not inverted by more than an empty day. */
  ghost predicate MarkersValid(covered: Option<int>, through: Option<int>) {
    && (covered.Some? <==> through.Some?)
    && (covered.Some? ==> covered.value <= through.value + 1)
  }

  lemma GapsShape(covered: int, through: int, start: int, end: int)
    ensures MissingHistory(Some(covered), Some(through), start, end)
      == OneSpan(start, Min(end, covered - 1)) + OneSpan(Max(start, through + 1), end)
  {
    assert start >= covered ==> OneSpan(start, Min(end, covered - 1)) == [];
    assert through >= end ==> OneSpan(Max(start, through + 1), end) == [];
  }

  lemma OneSpanHas(start: int, end: int, d: int)
    ensures (OneSpan(start, end) != [] && OneSpan(start, end)[0].Has(d)) <==> start <= d <= end
    ensures |OneSpan(start, end)| <= 1
  {}

  lemma TwoSpansHave(covered: int, through: int, start: int, end: int, d: int)
    requires covered <= through + 1
    ensures InSpans(OneSpan(start, Min(end, covered - 1)) + OneSpan(Max(start, through + 1), end), d) <==>
      start <= d <= end && !(covered <= d <= through)
  {
    OneSpanHas(start, Min(end, covered - 1), d);
    OneSpanHas(Max(start, through + 1), end, d);
    InTwoSpans(OneSpan(start, Min(end, covered - 1)), OneSpan(Max(start, through + 1), end), d);
  }

  lemma GapHas(covered: Option<int>, through: Option<int>, start: int, end: int, d: int)
    requires MarkersValid(covered, through)
    ensures InSpans(MissingHistory(covered, through, start, end), d) <==>
      start <= d <= end && !Known(covered, through, d)
  {
    if covered.Some? {
      GapsShape(covered.value, through.value, start, end);
      TwoSpansHave(covered.value, through.value, start, end, d);
    } else {
      OneSpanHas(start, end, d);
      InTwoSpans(OneSpan(start, end), [], d);
      assert OneSpan(start, end) + [] == MissingHistory(covered, through, start, end);
    }
  }

  /** The gaps hold exactly the days asked for that are not known, each once. */
  lemma GapsExact(covered: Option<int>, through: Option<int>, start: int, end: int)
    requires MarkersValid(covered, through)
    ensures var gaps := MissingHistory(covered, through, start, end);
      && (forall d :: InSpans(gaps, d) <==> start <= d <= end && !Known(covered, through, d))
      && (forall i, j :: 0 <= i < j < |gaps| ==> gaps[i].end < gaps[j].start)
  {
    forall d {
      GapHas(covered, through, start, end, d);
    }
    if covered.Some? {
      GapsShape(covered.value, through.value, start, end);
    }
  }

  /** The markers a sync records after reading. */
  function CoveredAfter(covered: Option<int>, start: int): int {
    if covered.None? || start < covered.value then start else covered.value
  }

  /**
   * Coverage: if exactly the days between the markers had been read, then after reading the gaps
   * every day between the new markers has been read - precisely when the start asked for leaves no
   * day unasked between the old end and itself.
   */
  lemma CoverageKeptIff(covered: Option<int>, through: Option<int>, start: int, yesterday: int)
    requires MarkersValid(covered, through) && start <= yesterday
    ensures var gaps := MissingHistory(covered, through, start, yesterday);
      (forall d :: CoveredAfter(covered, start) <= d <= yesterday ==> Known(covered, through, d) || InSpans(gaps, d))
      <==> covered.None? || start <= through.value + 1
  {
    GapsExact(covered, through, start, yesterday);
    if covered.Some? && start > through.value + 1 {
      var hole := through.value + 1;
      assert CoveredAfter(covered, start) <= hole <= yesterday;
      assert !InSpans(MissingHistory(covered, through, start, yesterday), hole);
    }
  }

  /** Asking for a start past what has been read leaves a day that no later sync from there will read. */
  lemma LaterStartLeavesHole()
    ensures var covered, through, start, yesterday := Some(100), Some(110), 120, 130;
      var gaps := MissingHistory(covered, through, start, yesterday);
      && CoveredAfter(covered, start) <= 115 <= yesterday
      && !Known(covered, through, 115) && !InSpans(gaps, 115)
      && Known(Some(CoveredAfter(covered, start)), Some(yesterday), 115)
  {
    GapsExact(Some(100), Some(110), 120, 130);
  }

  // --- windows ------------------------------------------------------------------------------

  const HISTORY_WINDOW_DAYS := 90
  const MAX_PAGES := 500

  function Windows(first: int, last: int): seq<Span>
    decreases last - first
  {
    if first > last then []
    else
      var end := Min(last, first + HISTORY_WINDOW_DAYS - 1);
      [Span(first, end)] + Windows(end + 1, last)
  }

  /**
   * The windows follow one another without gap or overlap, from `first` to `last`: 90 days each, and at most 90 the
   * last.
   */
  lemma {:induction false} WindowsPartition(first: int, last: int)
    ensures Windows(first, last) == [] <==> first > last
    ensures first <= last ==>
      Windows(first, last)[0].start == first && Windows(first, last)[|Windows(first, last)| - 1].end == last
    ensures forall i :: 0 <= i < |Windows(first, last)| ==>
      0 <= Windows(first, last)[i].end - Windows(first, last)[i].start < 90
    ensures forall i :: 0 <= i < |Windows(first, last)| - 1 ==>
      && Windows(first, last)[i + 1].start == Windows(first, last)[i].end + 1
      && Windows(first, last)[i].end - Windows(first, last)[i].start == 89
    decreases last - first
  {
    if first <= last {
      var end := Min(last, first + HISTORY_WINDOW_DAYS - 1);
      WindowsPartition(end + 1, last);
      var rest := Windows(end + 1, last);
      var ws := Windows(first, last);
      assert ws == [Span(first, end)] + rest;
      forall i | 0 <= i < |ws| - 1 ensures ws[i + 1].start == ws[i].end + 1 && ws[i].end - ws[i].start == 89 {
        if i > 0 {
          assert ws[i] == rest[i - 1] && ws[i + 1] == rest[i];
        }
      }
    }
  }

  lemma {:induction false} WindowsCover(first: int, last: int, d: int)
    ensures InSpans(Windows(first, last), d) <==> first <= d <= last
    decreases last - first
  {
    if first <= last {
      var end := Min(last, first + HISTORY_WINDOW_DAYS - 1);
      WindowsCover(end + 1, last, d);
      var rest, ws := Windows(end + 1, last), Windows(first, last);
      if InSpans(rest, d) {
        var i :| 0 <= i < |rest| && rest[i].Has(d);
        assert ws[i + 1].Has(d);
      }
      if first <= d <= end {
        assert ws[0].Has(d);
      }
      if InSpans(ws, d) {
        var i :| 0 <= i < |ws| && ws[i].Has(d);
        assert i > 0 ==> rest[i - 1].Has(d);
      }
    }
  }

  // --- pages -----------------------------------------------------------------------------------

  /** One GET: the fills on a page of a date range, or None when the request fails. */
  type Fetch = (int, int, nat) -> Option<seq<Trade>>

  function Joined(trades: seq<Trade>, rest: Option<seq<Trade>>): Option<seq<Trade>> {
    if rest.None? then None else Some(trades + rest.value)
  }

  lemma JoinedNothing(rest: Option<seq<Trade>>)
    ensures Joined([], rest) == rest
  {
    assert rest.Some? ==> [] + rest.value == rest.value;
  }

  /** Pages from `page` on, up to the first empty one. */
  function PagesFrom(fetch: Fetch, start: int, end: int, page: nat): Option<seq<Trade>>
    requires page <= MAX_PAGES
    decreases MAX_PAGES - page
  {
    if page == MAX_PAGES then Some([])
    else
      var batch := fetch(start, end, page);
      if batch.None? then None
      else if batch.value == [] then Some([])
      else Joined(batch.value, PagesFrom(fetch, start, end, page + 1))
  }

  function HistoryOver(fetch: Fetch, windows: seq<Span>): Option<seq<Trade>> {
    if windows == [] then Some([])
    else
      var first := PagesFrom(fetch, windows[0].start, windows[0].end, 0);
      if first.None? then None
      else Joined(first.value, HistoryOver(fetch, windows[1..]))
  }

  method ReadPages(fetch: Fetch, start: int, end: int) returns (r: Option<seq<Trade>>)
    ensures r == PagesFrom(fetch, start, end, 0)
  {
    var trades: seq<Trade> := [];
    JoinedNothing(PagesFrom(fetch, start, end, 0));
    for page := 0 to MAX_PAGES
      invariant PagesFrom(fetch, start, end, 0) == Joined(trades, PagesFrom(fetch, start, end, page))
    {
      var batch := fetch(start, end, page);
      if batch.None? {
        return None;
      }
      if batch.value == [] {
        assert trades + [] == trades;
        return Some(trades);
      }
      ghost var before := trades;
      trades := trades + batch.value;
      ghost var rest := PagesFrom(fetch, start, end, page + 1);
      assert rest.Some? ==> trades + rest.value == before + (batch.value + rest.value);
    }
    assert trades + [] == trades;
    r := Some(trades);
  }

  lemma JoinedTwice(a: seq<Trade>, b: seq<Trade>, rest: Option<seq<Trade>>)
    ensures Joined(a, Joined(b, rest)) == Joined(a + b, rest)
  {
    if rest.Some? {
      assert a + (b + rest.value) == (a + b) + rest.value;
    }
  }

  /** The first window, then the rest. */
  lemma FirstWindow(fetch: Fetch, start: int, last: int)
    requires start <= last
    ensures
      var end := Min(last, start + HISTORY_WINDOW_DAYS - 1);
      var pages := PagesFrom(fetch, start, end, 0);
      HistoryOver(fetch, Windows(start, last)) ==
        if pages.None? then None else Joined(pages.value, HistoryOver(fetch, Windows(end + 1, last)))
  {
    var end := Min(last, start + HISTORY_WINDOW_DAYS - 1);
    var windows := Windows(start, last);
    assert windows[0] == Span(start, end) && windows[1..] == Windows(end + 1, last);
  }

  /** `trade_history`: window after window, page after page. */
  method TradeHistory(fetch: Fetch, first: int, last: int) returns (r: Option<seq<Trade>>)
    ensures r == HistoryOver(fetch, Windows(first, last))
  {
    var trades: seq<Trade> := [];
    JoinedNothing(HistoryOver(fetch, Windows(first, last)));
    var start := first;
    while start <= last
      invariant HistoryOver(fetch, Windows(first, last)) == Joined(trades, HistoryOver(fetch, Windows(start, last)))
      decreases last - start
    {
      var end := Min(last, start + HISTORY_WINDOW_DAYS - 1);
      FirstWindow(fetch, start, last);
      var batch := ReadPages(fetch, start, end);
      if batch.None? {
        return None;
      }
      JoinedTwice(trades, batch.value, HistoryOver(fetch, Windows(end + 1, last)));
      trades := trades + batch.value;
      start := end + 1;
    }
    assert trades + [] == trades;
    r := Some(trades);
  }

  /** The fills of the first `n` pages, in order. */
  function FirstPages(fetch: Fetch, start: int, end: int, n: nat): seq<Trade> {
    if n == 0 then []
    else
      FirstPages(fetch, start, end, n - 1) + if fetch(start, end, n - 1).Some? then
        fetch(start, end, n - 1).value else []
  }

  /** Page `n` was asked for: every page before it came and held something. */
  ghost predicate Reached(fetch: Fetch, start: int, end: int, n: nat) {
    forall q: nat :: q < n ==> fetch(start, end, q).Some? && fetch(start, end, q).value != []
  }

  lemma {:induction false} PagesFromMean(fetch: Fetch, start: int, end: int, page: nat) returns (n: nat)
    requires page <= 500 && Reached(fetch, start, end, page)
    ensures page <= n <= 500 && Reached(fetch, start, end, n)
    ensures
      var rest := PagesFrom(fetch, start, end, page);
      if rest.None? then n < 500 && fetch(start, end, n).None?
      else
        && (n == 500 || fetch(start, end, n) == Some([]))
        && FirstPages(fetch, start, end, n) == FirstPages(fetch, start, end, page) + rest.value
    decreases 500 - page
  {
    n := page;
    var before := FirstPages(fetch, start, end, page);
    if page == 500 || fetch(start, end, page).None? || fetch(start, end, page).value == [] {
      assert before + [] == before;
    } else {
      n := PagesFromMean(fetch, start, end, page + 1);
      var batch, rest := fetch(start, end, page).value, PagesFrom(fetch, start, end, page + 1);
      assert rest.Some? ==> before + batch + rest.value == before + (batch + rest.value);
    }
  }

  /** Pages are read one by one to the first empty one, 500 at most; a failing one fails the read. */
  lemma {:induction false} PagesExact(fetch: Fetch, start: int, end: int) returns (n: nat)
    ensures n <= 500 && Reached(fetch, start, end, n)
    ensures
      var read := PagesFrom(fetch, start, end, 0);
      if read.None? then n < 500 && fetch(start, end, n).None?
      else (n == 500 || fetch(start, end, n) == Some([])) && read.value == FirstPages(fetch, start, end, n)
  {
    n := PagesFromMean(fetch, start, end, 0);
  }

  lemma {:induction false} OnFirstPages(fetch: Fetch, start: int, end: int, n: nat, t: Trade)
    ensures t in FirstPages(fetch, start, end, n) <==>
      exists q: nat :: q < n && fetch(start, end, q).Some? && t in fetch(start, end, q).value
  {
    if n > 0 {
      OnFirstPages(fetch, start, end, n - 1, t);
    }
  }

  /** The fill is on that page, if it comes, and no page before it is empty. */
  ghost predicate OnPage(fetch: Fetch, start: int, end: int, page: nat, t: Trade) {
    && (fetch(start, end, page).Some? ==> t in fetch(start, end, page).value)
    && (forall q: nat :: q <= page && fetch(start, end, q).Some? ==> fetch(start, end, q).value != [])
  }

  /**
   * What the broker promises of its history: every fill of every completed day in a range is on one of the
   * range's first 500 pages, and no page before that one is empty.
   */
  ghost predicate Complete(fetch: Fetch, fillsOn: int -> seq<Trade>) {
    forall start, end, d, t :: start <= d <= end && t in fillsOn(d) ==> Promised(fetch, start, end, t)
  }

  ghost predicate Promised(fetch: Fetch, start: int, end: int, t: Trade) {
    exists page: nat :: page < 500 && OnPage(fetch, start, end, page, t)
  }

  /** A range read in full holds what was promised of it. */
  lemma {:induction false} PagesHold(fetch: Fetch, fillsOn: int -> seq<Trade>, start: int, end: int, d: int, t: Trade)
    requires Complete(fetch, fillsOn) && PagesFrom(fetch, start, end, 0).Some?
    requires start <= d <= end && t in fillsOn(d)
    ensures t in PagesFrom(fetch, start, end, 0).value
  {
    assert Promised(fetch, start, end, t);
    var page: nat :| page < 500 && OnPage(fetch, start, end, page, t);
    var n := PagesExact(fetch, start, end);
    assert n > page;
    OnFirstPages(fetch, start, end, n, t);
  }

  lemma {:induction false} WindowsHold(fetch: Fetch, fillsOn: int -> seq<Trade>, windows: seq<Span>, d: int, t: Trade)
    requires Complete(fetch, fillsOn) && HistoryOver(fetch, windows).Some?
    requires InSpans(windows, d) && t in fillsOn(d)
    ensures t in HistoryOver(fetch, windows).value
  {
    var w := windows[0];
    var first := PagesFrom(fetch, w.start, w.end, 0);
    if w.Has(d) {
      PagesHold(fetch, fillsOn, w.start, w.end, d, t);
    } else {
      var i :| 0 <= i < |windows| && windows[i].Has(d);
      assert windows[1..][i - 1].Has(d);
      WindowsHold(fetch, fillsOn, windows[1..], d, t);
    }
  }

  /** A successful read of a range brings every fill of every day in it, whatever the windows and pages. */
  lemma HistoryComplete(fetch: Fetch, fillsOn: int -> seq<Trade>, first: int, last: int, d: int, t: Trade)
    requires Complete(fetch, fillsOn) && HistoryOver(fetch, Windows(first, last)).Some?
    requires first <= d <= last && t in fillsOn(d)
    ensures t in HistoryOver(fetch, Windows(first, last)).value
  {
    WindowsCover(first, last, d);
    WindowsHold(fetch, fillsOn, Windows(first, last), d, t);
  }

  /** The fill is on a page of that window. */
  ghost predicate OnPageOf(fetch: Fetch, w: Span, t: Trade) {
    exists page: nat :: fetch(w.start, w.end, page).Some? && t in fetch(w.start, w.end, page).value
  }

  /** Nothing else is read: every fill comes from a page of one of the windows. */
  lemma {:induction false} HistoryOnPages(fetch: Fetch, windows: seq<Span>, t: Trade)
    requires HistoryOver(fetch, windows).Some? && t in HistoryOver(fetch, windows).value
    ensures exists i :: 0 <= i < |windows| && OnPageOf(fetch, windows[i], t)
  {
    var w, rest := windows[0], windows[1..];
    var first := PagesFrom(fetch, w.start, w.end, 0);
    if t in first.value {
      var n := PagesExact(fetch, w.start, w.end);
      OnFirstPages(fetch, w.start, w.end, n, t);
      assert OnPageOf(fetch, windows[0], t);
    } else {
      HistoryOnPages(fetch, rest, t);
      var i :| 0 <= i < |rest| && OnPageOf(fetch, rest[i], t);
      assert windows[i + 1] == rest[i];
    }
  }
}
