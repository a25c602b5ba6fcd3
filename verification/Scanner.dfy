/**
 * src/swingdash/domain/scanner.py: a symbol's history digested once per session, combined with the live
 * price on every redraw.
 */
module Scanner {
  import opened Wrappers
  import opened Bars
  import opened Dates
  import opened BurstScore
  import Mswing

  datatype SymbolContext = SymbolContext(
    historyThrough: Option<int>,
    lastClose: Option<real>,
    previousClose: Option<real>,
    burst: BurstScoreResult,
    mswing: Mswing.Context)

  datatype TodayBar = TodayBar(date: Day, previousSession: Option<int>, ltp: Option<real>, closed: bool)

  datatype SymbolMetrics = SymbolMetrics(
    burst: BurstScoreResult,
    mswing: Mswing.Value,
    includesToday: bool,
    changePct: Option<real>)

  function Closes(bars: seq<DailyBar>): (closes: seq<real>)
    ensures |closes| == |bars| && forall i :: 0 <= i < |bars| ==> closes[i] == bars[i].close
  {
    seq(|bars|, i requires 0 <= i < |bars| => bars[i].close)
  }

  function CloseFromEnd(bars: seq<DailyBar>, k: nat): Option<real> {
    if 1 <= k <= |bars| then Some(bars[|bars| - k].close) else None
  }

  // 31 December of year 3: the window starts three years back, which Python can name from year 4 on.
  const LAST_DAY_OF_YEAR_3 := 1095

  predicate HasCutoff(today: Day) {
    today > LAST_DAY_OF_YEAR_3
  }

  lemma FirstYears(d: Date)
    requires Valid(d) && d.year <= 3
    ensures ToOrdinal(d) <= LAST_DAY_OF_YEAR_3
  {
    YearLength(d.year);
  }

  lemma CutoffNamed(today: Day)
    requires HasCutoff(today)
    ensures FromOrdinal(today).year > DEFAULT_LOOKBACK_YEARS
  {
    var d := FromOrdinal(today);
    if d.year <= 3 {
      FirstYears(d);
    }
  }

  function WindowStart(today: Day): Option<int> {
    LookbackCutoff(FromOrdinal(today), DEFAULT_LOOKBACK_YEARS)
  }

  lemma TodayInWindow(today: Day)
    requires HasCutoff(today)
    ensures InWindow(today, WindowStart(today))
  {
    CutoffNamed(today);
    CutoffIsBack(FromOrdinal(today), DEFAULT_LOOKBACK_YEARS);
  }

  function PrepareSymbol(bars: seq<DailyBar>, today: Day): SymbolContext
    requires HasCutoff(today)
  {
    SymbolContext(
      if bars == [] then None else Some(bars[|bars| - 1].date),
      CloseFromEnd(bars, 1),
      CloseFromEnd(bars, 2),
      BurstOf(bars, WindowStart(today), None),
      Mswing.Prepare(Closes(bars), Mswing.DEFAULTS))
  }

  function Change(close: Option<real>, previous: Option<real>): Option<real> {
    if close.None? || previous.None? || previous.value == 0.0 then None
    else Some((close.value - previous.value) / previous.value * 100.0)
  }

  /** Today counts only on a history that stops at the session before it. */
  predicate IncludesToday(ctx: SymbolContext, today: TodayBar) {
    && today.ltp.Some?
    && ctx.historyThrough.Some?
    && ctx.historyThrough.value < today.date
    && (today.previousSession.None? || ctx.historyThrough.value >= today.previousSession.value)
  }

  /** Today's bar: its price only, with an unknown range. */
  function PriceBar(date: int, ltp: real): DailyBar {
    DailyBar(date, None, None, None, ltp, 0.0)
  }

  function LiveSymbol(ctx: SymbolContext, today: TodayBar): SymbolMetrics
    requires Mswing.Reaches(ctx.mswing)
  {
    if !IncludesToday(ctx, today) || ctx.lastClose.None? then
      SymbolMetrics(ctx.burst, ctx.mswing.last, false, Change(ctx.lastClose, ctx.previousClose))
    else
      var burst :=
        if today.closed then Extended(ctx.burst, ctx.lastClose.value, PriceBar(today.date, today.ltp.value), None)
        else ctx.burst;
      SymbolMetrics(burst, Mswing.Live(ctx.mswing, today.ltp), true, Change(today.ltp, ctx.lastClose))
  }

  // --- the reference: everything from the whole history ----------------------------------------------

  /** Burst Power over the bars inside the window, recounted. */
  function BurstFromScratch(bars: seq<DailyBar>, today: Day): BurstScoreResult
    requires HasCutoff(today)
  {
    BurstOf(bars, WindowStart(today), None)
  }

  function MswingFromScratch(bars: seq<DailyBar>): Mswing.Value {
    Mswing.MswingOf(Closes(bars), Mswing.DEFAULTS)
  }

  function ChangeFromScratch(bars: seq<DailyBar>): Option<real> {
    Change(CloseFromEnd(bars, 1), CloseFromEnd(bars, 2))
  }

  /** The history with today's price as its last bar, when today counts. */
  function WithToday(bars: seq<DailyBar>, today: TodayBar): seq<DailyBar> {
    if bars != [] && today.ltp.Some? && bars[|bars| - 1].date < today.date
       && (today.previousSession.None? || bars[|bars| - 1].date >= today.previousSession.value)
    then bars + [PriceBar(today.date, today.ltp.value)]
    else bars
  }

  lemma ClosesSnoc(bars: seq<DailyBar>, bar: DailyBar)
    ensures Closes(bars + [bar]) == Closes(bars) + [bar.close]
  {}

  lemma MswingWithBar(bars: seq<DailyBar>, bar: DailyBar)
    ensures Mswing.Live(Mswing.Prepare(Closes(bars), Mswing.DEFAULTS), Some(bar.close)) ==
      MswingFromScratch(bars + [bar])
  {
    ClosesSnoc(bars, bar);
    Mswing.LiveIsRecompute(Closes(bars), bar.close, Mswing.DEFAULTS);
  }

  lemma BurstWithToday(bars: seq<DailyBar>, today: Day, ltp: real)
    requires HasCutoff(today) && bars != []
    ensures Extended(BurstFromScratch(bars, today), bars[|bars| - 1].close, PriceBar(today, ltp), None)
         == BurstFromScratch(bars + [PriceBar(today, ltp)], today)
  {
    TodayInWindow(today);
    ExtendIsRecompute(bars, PriceBar(today, ltp), WindowStart(today), None);
  }

  lemma IncludedWhenAppended(bars: seq<DailyBar>, today: TodayBar)
    requires HasCutoff(today.date)
    ensures
      var all := WithToday(bars, today);
      if IncludesToday(PrepareSymbol(bars, today.date), today) then
        bars != [] && today.ltp.Some? && all == bars + [PriceBar(today.date, today.ltp.value)] && all != bars
      else all == bars
  {
    assert |bars + [PriceBar(today.date, 0.0)]| == |bars| + 1;
    assert today.ltp.Some? ==> |bars + [PriceBar(today.date, today.ltp.value)]| == |bars| + 1;
  }

  lemma LiveMswingExact(bars: seq<DailyBar>, today: TodayBar)
    requires HasCutoff(today.date)
    ensures LiveSymbol(PrepareSymbol(bars, today.date), today).mswing == MswingFromScratch(WithToday(bars, today))
  {
    IncludedWhenAppended(bars, today);
    if IncludesToday(PrepareSymbol(bars, today.date), today) {
      MswingWithBar(bars, PriceBar(today.date, today.ltp.value));
    } else {
      Mswing.LiveIsRecompute(Closes(bars), 0.0, Mswing.DEFAULTS);
    }
  }

  lemma LiveBurstExact(bars: seq<DailyBar>, today: TodayBar)
    requires HasCutoff(today.date)
    ensures LiveSymbol(PrepareSymbol(bars, today.date), today).burst
         == BurstFromScratch(if today.closed then WithToday(bars, today) else bars, today.date)
  {
    IncludedWhenAppended(bars, today);
    if IncludesToday(PrepareSymbol(bars, today.date), today) && today.closed {
      BurstWithToday(bars, today.date, today.ltp.value);
    }
  }

  lemma LiveChangeExact(bars: seq<DailyBar>, today: TodayBar)
    requires HasCutoff(today.date)
    ensures LiveSymbol(PrepareSymbol(bars, today.date), today).changePct == ChangeFromScratch(WithToday(bars, today))
  {
    IncludedWhenAppended(bars, today);
    var all := WithToday(bars, today);
    if IncludesToday(PrepareSymbol(bars, today.date), today) {
      assert CloseFromEnd(all, 1) == today.ltp && CloseFromEnd(all, 2) == CloseFromEnd(bars, 1);
    }
  }

  /**
   * What the screen shows is what recomputing from the whole history would: Mswing and the change on the
   * history with today's bar, Burst Power on it too once the session has closed.
   */
  lemma LiveIsRecompute(bars: seq<DailyBar>, today: TodayBar)
    requires HasCutoff(today.date)
    ensures
      var shown, all := LiveSymbol(PrepareSymbol(bars, today.date), today), WithToday(bars, today);
      && shown.includesToday == (all != bars)
      && shown.mswing == MswingFromScratch(all)
      && shown.changePct == ChangeFromScratch(all)
      && shown.burst == BurstFromScratch(if today.closed then all else bars, today.date)
  {
    IncludedWhenAppended(bars, today);
    LiveMswingExact(bars, today);
    LiveBurstExact(bars, today);
    LiveChangeExact(bars, today);
  }
}
