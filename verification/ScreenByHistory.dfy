/**
 * What the Scanner shows, stated by the bars behind it: which days Burst Power counts, the score, the average
 * and the change, without the functions that compute them.
 */
module ScreenByHistory {
  import opened Wrappers
  import opened Bars
  import opened Dates
  import opened BurstScore
  import opened Scanner
  import Mswing
  import MomentumByCloses

  // --- Burst Power ------------------------------------------------------------------------------------

  /** The close is at least `pct` percent of the previous close above it. */
  predicate GrewAtLeast(previous: real, close: real, pct: real) {
    if previous > 0.0 then pct * previous <= 100.0 * (close - previous)
    else 100.0 * (close - previous) <= pct * previous
  }

  predicate GrewAtMost(previous: real, close: real, pct: real) {
    if previous > 0.0 then 100.0 * (close - previous) <= pct * previous
    else pct * previous <= 100.0 * (close - previous)
  }

  /** The close lies at least that part of the range above the low. */
  predicate ClosesHigh(low: real, high: real, close: real, part: real) {
    if high > low then part * (high - low) <= close - low else close - low <= part * (high - low)
  }

  /**
   * A day counts inside the window, after a close that is not zero, unless its known range is empty or it
   * closes low.
   */
  ghost predicate Counted(bars: seq<DailyBar>, since: Option<int>, part: Option<real>, i: int) {
    && 1 <= i < |bars|
    && (since.Some? ==> since.value <= bars[i].date)
    && bars[i - 1].close != 0.0
    && (bars[i].high.Some? && bars[i].low.Some? ==>
         && bars[i].high.value != bars[i].low.value
         && (part.Some? ==> ClosesHigh(bars[i].low.value, bars[i].high.value, bars[i].close, part.value)))
  }

  lemma Quotient(x: real, y: real, k: real)
    requires y != 0.0
    ensures y > 0.0 ==> (k <= x / y <==> k * y <= x)
    ensures y < 0.0 ==> (k <= x / y <==> x <= k * y)
  {
    var q := x / y;
    assert q * y == x;
    Larger(q - k, y);
    assert (q - k) * y == x - k * y;
  }

  lemma Larger(d: real, y: real)
    ensures y > 0.0 ==> (0.0 <= d <==> 0.0 <= d * y)
    ensures y < 0.0 ==> (0.0 <= d <==> d * y <= 0.0)
  {}

  lemma MoveIs(previous: real, close: real, pct: real)
    requires previous != 0.0
    ensures pct <= Move(previous, close) <==> GrewAtLeast(previous, close, pct)
    ensures Move(previous, close) <= pct <==> GrewAtMost(previous, close, pct)
    ensures Move(previous, close) * previous == 100.0 * (close - previous)
  {
    var grown := (close - previous) / previous;
    assert grown * previous == close - previous;
    assert Move(previous, close) * previous == 100.0 * (close - previous);
    Larger(Move(previous, close) - pct, previous);
    Larger(pct - Move(previous, close), previous);
  }

  lemma CountedIs(bars: seq<DailyBar>, since: Option<int>, part: Option<real>, i: int)
    ensures CountsAt(bars, since, part, i) <==> Counted(bars, since, part, i)
  {
    if 1 <= i < |bars| && part.Some? && bars[i].high.Some? && bars[i].low.Some? && bars[i].high != bars[i].low {
      Quotient(bars[i].close - bars[i].low.value, bars[i].high.value - bars[i].low.value, part.value);
    }
  }

  /** The counted days that grew by `from` percent or more, and less than `below`. */
  ghost function DaysGrown(bars: seq<DailyBar>, since: Option<int>, part: Option<real>, from: real, below: Option<real>)
    : set<int>
  {
    set i | 1 <= i < |bars| && GrewWithin(bars, since, part, from, below, i)
  }

  ghost predicate GrewWithin(bars: seq<DailyBar>, since: Option<int>, part: Option<real>, from: real,
      below: Option<real>, i: int)
  {
    && Counted(bars, since, part, i) && GrewAtLeast(bars[i - 1].close, bars[i].close, from)
    && (below.Some? ==> !GrewAtLeast(bars[i - 1].close, bars[i].close, below.value))
  }

  lemma DaysOfBucket(bars: seq<DailyBar>, since: Option<int>, part: Option<real>, i: int)
    requires 1 <= i < |bars|
    ensures
      var previous, close := bars[i - 1].close, bars[i].close;
      && (HitAt(bars, since, part, Five, i) <==>
           Counted(bars, since, part, i) && GrewAtLeast(previous, close, 5.0) && !GrewAtLeast(previous, close, 10.0))
      && (HitAt(bars, since, part, Ten, i) <==>
           Counted(bars, since, part, i) && GrewAtLeast(previous, close, 10.0) && !GrewAtLeast(previous, close, 19.0))
      && (HitAt(bars, since, part, Nineteen, i) <==>
           Counted(bars, since, part, i) && GrewAtLeast(previous, close, 19.0))
  {
    var previous, close := bars[i - 1].close, bars[i].close;
    CountedIs(bars, since, part, i);
    if previous != 0.0 {
      MoveIs(previous, close, 5.0);
      MoveIs(previous, close, 10.0);
      MoveIs(previous, close, 19.0);
    }
  }

  lemma DaysAre(bars: seq<DailyBar>, since: Option<int>, part: Option<real>)
    ensures DaysIn(bars, since, part, Five) == DaysGrown(bars, since, part, 5.0, Some(10.0))
    ensures DaysIn(bars, since, part, Ten) == DaysGrown(bars, since, part, 10.0, Some(19.0))
    ensures DaysIn(bars, since, part, Nineteen) == DaysGrown(bars, since, part, 19.0, None)
  {
    forall i | 1 <= i < |bars|
      ensures i in DaysIn(bars, since, part, Five) <==> i in DaysGrown(bars, since, part, 5.0, Some(10.0))
      ensures i in DaysIn(bars, since, part, Ten) <==> i in DaysGrown(bars, since, part, 10.0, Some(19.0))
      ensures i in DaysIn(bars, since, part, Nineteen) <==> i in DaysGrown(bars, since, part, 19.0, None)
    {
      DaysOfBucket(bars, since, part, i);
    }
  }

  /** The largest growth of a counted day, and the latest day that reached it; neither without such a day. */
  ghost predicate IsTop(move: Option<real>, date: Option<int>, bars: seq<DailyBar>, since: Option<int>,
      part: Option<real>) {
    if forall i :: !Counted(bars, since, part, i) then move.None? && date.None?
    else
      && move.Some?
      && exists top ::
           && GrewBy(bars, since, part, move.value, top) && date == Some(bars[top].date)
           && (forall i :: Counted(bars, since, part, i) ==> NotAbove(bars, since, part, move.value, top, i))
  }

  ghost predicate GrewBy(bars: seq<DailyBar>, since: Option<int>, part: Option<real>, move: real, top: int) {
    Counted(bars, since, part, top) && move * bars[top - 1].close == 100.0 * (bars[top].close - bars[top - 1].close)
  }

  /** Day `i` grew by no more, and a day after `top` by less. */
  ghost predicate NotAbove(bars: seq<DailyBar>, since: Option<int>, part: Option<real>, move: real, top: int, i: int)
    requires Counted(bars, since, part, i)
  {
    && GrewAtMost(bars[i - 1].close, bars[i].close, move)
    && (i > top ==> !GrewAtLeast(bars[i - 1].close, bars[i].close, move))
  }

  lemma CountedAre(bars: seq<DailyBar>, since: Option<int>, part: Option<real>)
    ensures forall i :: CountsAt(bars, since, part, i) <==> Counted(bars, since, part, i)
  {
    forall i ensures CountsAt(bars, since, part, i) <==> Counted(bars, since, part, i) {
      CountedIs(bars, since, part, i);
    }
  }

  lemma MoveAtIs(bars: seq<DailyBar>, i: int, pct: real)
    requires 1 <= i < |bars| && bars[i - 1].close != 0.0
    ensures MoveAt(bars, i) <= pct ==> GrewAtMost(bars[i - 1].close, bars[i].close, pct)
    ensures MoveAt(bars, i) < pct ==> !GrewAtLeast(bars[i - 1].close, bars[i].close, pct)
    ensures MoveAt(bars, i) == pct ==> pct * bars[i - 1].close == 100.0 * (bars[i].close - bars[i - 1].close)
  {
    MoveIs(bars[i - 1].close, bars[i].close, pct);
  }

  lemma NotAboveTop(bars: seq<DailyBar>, since: Option<int>, part: Option<real>, c: Counts, top: int, i: int)
    requires IsTopMove(bars, since, part, c, top) && Counted(bars, since, part, i)
    ensures NotAbove(bars, since, part, c.maxMove.value, top, i)
  {
    CountedIs(bars, since, part, i);
    MoveAtIs(bars, i, c.maxMove.value);
  }

  lemma GrewByTop(bars: seq<DailyBar>, since: Option<int>, part: Option<real>, c: Counts, top: int)
    requires IsTopMove(bars, since, part, c, top)
    ensures GrewBy(bars, since, part, c.maxMove.value, top)
  {
    CountedIs(bars, since, part, top);
    MoveAtIs(bars, top, c.maxMove.value);
  }

  lemma TopIs(bars: seq<DailyBar>, since: Option<int>, part: Option<real>)
    ensures
      var c := Tallied(bars, since, part);
      IsTop(c.maxMove, c.maxDate, bars, since, part)
  {
    var c := Tallied(bars, since, part);
    var top := TopMoveMeans(bars, since, part);
    CountedAre(bars, since, part);
    if i :| Counted(bars, since, part, i) {
      assert CountsAt(bars, since, part, i);
      GrewByTop(bars, since, part, c, top);
      forall i | Counted(bars, since, part, i) ensures NotAbove(bars, since, part, c.maxMove.value, top, i) {
        NotAboveTop(bars, since, part, c, top, i);
      }
    }
  }

  /** Tenths of a point: 2 for a day of 5 percent, 5 for one of 10, 20 for one of 19; rounded, ties to even. */
  ghost predicate IsBurst(r: BurstScoreResult, bars: seq<DailyBar>, since: Option<int>, part: Option<real>) {
    var five := DaysGrown(bars, since, part, 5.0, Some(10.0));
    var ten := DaysGrown(bars, since, part, 10.0, Some(19.0));
    var nineteen := DaysGrown(bars, since, part, 19.0, None);
    var tenths := 2 * |five| + 5 * |ten| + 20 * |nineteen|;
    && Describes(r.counts.five, five, bars) && Describes(r.counts.ten, ten, bars)
    && Describes(r.counts.nineteen, nineteen, bars)
    && IsTop(r.counts.maxMove, r.counts.maxDate, bars, since, part)
    && tenths - 5 <= 10 * r.power <= tenths + 5
    && (10 * r.power == tenths - 5 || 10 * r.power == tenths + 5 ==> r.power % 2 == 0)
    && (r.classification.Strong? <==> r.power >= 15) && (r.classification.Weak? <==> r.power < 10)
  }

  lemma BurstIs(bars: seq<DailyBar>, since: Option<int>, part: Option<real>)
    ensures IsBurst(BurstOf(bars, since, part), bars, since, part)
  {
    BinsMean(bars, since, part, Five);
    BinsMean(bars, since, part, Ten);
    BinsMean(bars, since, part, Nineteen);
    DaysAre(bars, since, part);
    TopIs(bars, since, part);
    PowerMeans(Tallied(bars, since, part));
  }

  // --- the change -----------------------------------------------------------------------------------------

  /** Growing the close before the last by the change gives the last; none without one, or after a zero. */
  ghost predicate IsChange(pct: Option<real>, bars: seq<DailyBar>) {
    if |bars| < 2 || bars[|bars| - 2].close == 0.0 then pct.None?
    else
      pct.Some? && bars[|bars| - 2].close * (1.0 + pct.value / 100.0) == bars[|bars| - 1].close
  }

  lemma ChangeMeans(close: real, previous: real)
    requires previous != 0.0
    ensures previous * (1.0 + (close - previous) / previous * 100.0 / 100.0) == close
  {
    assert (close - previous) / previous * 100.0 / 100.0 == (close - previous) / previous;
    assert previous * ((close - previous) / previous) == close - previous;
  }

  lemma ChangeIs(bars: seq<DailyBar>)
    ensures IsChange(ChangeFromScratch(bars), bars)
  {
    if |bars| >= 2 && bars[|bars| - 2].close != 0.0 {
      ChangeMeans(bars[|bars| - 1].close, bars[|bars| - 2].close);
    }
  }

  // --- the screen -------------------------------------------------------------------------------------------

  /** Today's bar counts: there is a price, and the history ends at the session before, on no later day than that. */
  ghost predicate TodayCounts(bars: seq<DailyBar>, today: TodayBar) {
    && today.ltp.Some? && bars != [] && bars[|bars| - 1].date < today.date
    && (today.previousSession.Some? ==> today.previousSession.value <= bars[|bars| - 1].date)
  }

  /** The numbers of a symbol, over three years of bars for Burst Power and 20, 50 and 9 bars for Mswing. */
  ghost predicate IsScreen(shown: SymbolMetrics, bars: seq<DailyBar>, today: TodayBar) {
    var live := bars + if TodayCounts(bars, today) then
      [DailyBar(today.date, None, None, None, today.ltp.value, 0.0)] else [];
    var since := LookbackCutoff(FromOrdinal(today.date), 3);
    && (shown.includesToday <==> TodayCounts(bars, today))
    && (live != [] ==> MomentumByCloses.IsMswing(shown.mswing, Closes(live), Mswing.Settings(20, 50, 9, true)))
    && IsChange(shown.changePct, live)
    && IsBurst(shown.burst, if today.closed then live else bars, since, None)
  }

  lemma WithTodayIs(bars: seq<DailyBar>, today: TodayBar)
    ensures WithToday(bars, today)
      == bars + if TodayCounts(bars, today) then [DailyBar(today.date, None, None, None, today.ltp.value, 0.0)] else []
    ensures WithToday(bars, today) != bars <==> TodayCounts(bars, today)
  {
    assert bars + [] == bars;
    assert |bars + [PriceBar(today.date, 0.0)]| == |bars| + 1;
    assert today.ltp.Some? ==> |bars + [PriceBar(today.date, today.ltp.value)]| == |bars| + 1;
  }

  /** The screen shows, live, what the whole history with today's price says. */
  lemma ScreenIs(bars: seq<DailyBar>, today: TodayBar)
    requires HasCutoff(today.date)
    ensures IsScreen(LiveSymbol(PrepareSymbol(bars, today.date), today), bars, today)
  {
    var all := WithToday(bars, today);
    Scanner.LiveIsRecompute(bars, today);
    WithTodayIs(bars, today);
    ChangeIs(all);
    BurstIs(if today.closed then all else bars, LookbackCutoff(FromOrdinal(today.date), 3), None);
    if all != [] {
      MomentumByCloses.MswingIs(Closes(all), Mswing.DEFAULTS);
    }
  }
}
