/**
 * src/swingdash/domain/rvol/curve.py and calc.py: the volume a stock usually has by each minute, and
 * the relative volume measured against it.
 */
module RvolCurve {
  import opened Wrappers
  import opened Ordering
  import opened Dates
  import opened Sums
  import opened Bars
  import opened Calendar

  datatype CurveError = IndexError

  function DayOf(bar: MinuteBar): int {
    bar.ts / SECONDS_PER_DAY
  }

  predicate IntLe(a: int, b: int) {
    a <= b
  }

  // --- the specification: volume counted bar by bar ------------------------------------------------------

  /**
   * The entry of the curve a bar is added to, if it has one. A session of no whole minute gives an index
   * below zero, which Python counts from the end.
   */
  function Bucket(bar: MinuteBar, s: Session, n: int): (m: Option<int>)
    ensures m.Some? ==> 0 <= m.value < n
  {
    var index := MinuteOf(s, bar.ts);
    if index.None? || index.value >= n || index.value < -n then None
    else if index.value >= 0 then index
    else Some(n + index.value)
  }

  /** Python has no such entry, not even counted from the end. */
  predicate OffTheCurve(bar: MinuteBar, s: Session, n: int) {
    var index := MinuteOf(s, bar.ts);
    index.Some? && index.value < n && index.value < -n
  }

  /** That takes a session that closes at least as many minutes before it opens as the curve has entries. */
  lemma OffTheCurveIff(bar: MinuteBar, s: Session, n: int)
    requires n >= 1
    ensures OffTheCurve(bar, s, n) <==> s.openAt <= bar.ts && Minutes(s) <= -n
  {}

  ghost predicate AllOnCurve(bars: seq<MinuteBar>, s: Session, n: int) {
    forall i :: 0 <= i < |bars| ==> !OffTheCurve(bars[i], s, n)
  }

  /**
   * The day's curve cannot be built: it would have no entry, or the session closes so long before it opens
   * that a bar misses every entry.
   */
  ghost predicate Fails(bars: seq<MinuteBar>, session: Option<Session>, n: int) {
    session.Some? && (n < 1 || (Minutes(session.value) <= -n && SomeFromOpen(bars, session.value)))
  }

  ghost predicate SomeFromOpen(bars: seq<MinuteBar>, s: Session) {
    exists i :: 0 <= i < |bars| && s.openAt <= bars[i].ts
  }

  lemma FailsWhenOff(bars: seq<MinuteBar>, s: Session, n: int)
    requires n >= 1
    ensures AllOnCurve(bars, s, n) <==> !Fails(bars, Some(s), n)
  {
    forall i | 0 <= i < |bars| ensures OffTheCurve(bars[i], s, n) <==> s.openAt <= bars[i].ts && Minutes(s) <= -n {
      OffTheCurveIff(bars[i], s, n);
    }
  }

  /** Volume of the bars of one minute. */
  function VolumeAt(bars: seq<MinuteBar>, s: Session, n: int, m: int): real {
    if bars == [] then 0.0
    else
      var bar := bars[|bars| - 1];
      VolumeAt(bars[..|bars| - 1], s, n, m) + if Bucket(bar, s, n) == Some(m) then bar.volume else 0.0
  }

  /** Volume of the bars up to and with one minute. */
  function VolumeThrough(bars: seq<MinuteBar>, s: Session, n: int, m: int): real {
    if bars == [] then 0.0
    else
      var bar := bars[|bars| - 1];
      VolumeThrough(bars[..|bars| - 1], s, n, m)
      + if Bucket(bar, s, n).Some? && Bucket(bar, s, n).value <= m then bar.volume else 0.0
  }

  /** Volume of the bars not before the open. */
  function VolumeFromOpen(bars: seq<MinuteBar>, s: Session): real {
    if bars == [] then 0.0
    else
      var bar := bars[|bars| - 1];
      VolumeFromOpen(bars[..|bars| - 1], s) + if s.openAt <= bar.ts then bar.volume else 0.0
  }

  ghost predicate NonNegative(bars: seq<MinuteBar>) {
    forall i :: 0 <= i < |bars| ==> 0.0 <= bars[i].volume
  }

  lemma {:induction false} OneMinuteMore(bars: seq<MinuteBar>, s: Session, n: int, m: int)
    ensures VolumeThrough(bars, s, n, m) == VolumeThrough(bars, s, n, m - 1) + VolumeAt(bars, s, n, m)
  {
    if bars != [] {
      OneMinuteMore(bars[..|bars| - 1], s, n, m);
    }
  }

  lemma {:induction false} NothingBeforeOpen(bars: seq<MinuteBar>, s: Session, n: int)
    ensures VolumeThrough(bars, s, n, -1) == 0.0
  {
    if bars != [] {
      NothingBeforeOpen(bars[..|bars| - 1], s, n);
    }
  }

  /** Volume only accumulates. */
  lemma {:induction false} ThroughGrows(bars: seq<MinuteBar>, s: Session, n: int, a: int, b: int)
    requires NonNegative(bars) && a <= b
    ensures VolumeThrough(bars, s, n, a) <= VolumeThrough(bars, s, n, b)
  {
    if bars != [] {
      ThroughGrows(bars[..|bars| - 1], s, n, a, b);
    }
  }

  /** A session no longer than the curve is counted in full by its last minute. */
  lemma {:induction false} LastIsTotal(bars: seq<MinuteBar>, s: Session, n: int)
    requires n >= 1 && Minutes(s) <= n && AllOnCurve(bars, s, n)
    ensures VolumeThrough(bars, s, n, n - 1) == VolumeFromOpen(bars, s)
  {
    if bars != [] {
      assert !OffTheCurve(bars[|bars| - 1], s, n);
      LastIsTotal(bars[..|bars| - 1], s, n);
    }
  }

  // --- one day's curve --------------------------------------------------------------------------------------

  /** Volume per minute; a bar that Python could not place ends it. */
  method PerMinute(bars: seq<MinuteBar>, s: Session, n: int) returns (perMinute: Option<seq<real>>)
    requires n >= 1
    ensures perMinute.Some? <==> AllOnCurve(bars, s, n)
    ensures perMinute.Some? ==> |perMinute.value| == n
    ensures perMinute.Some? ==> forall m :: 0 <= m < n ==> perMinute.value[m] == VolumeAt(bars, s, n, m)
  {
    var volumes := new real[n](_ => 0.0);
    for i := 0 to |bars|
      invariant AllOnCurve(bars[..i], s, n)
      invariant forall m :: 0 <= m < n ==> volumes[m] == VolumeAt(bars[..i], s, n, m)
    {
      var bar := bars[i];
      assert bars[..i + 1][..i] == bars[..i];
      var index := MinuteOf(s, bar.ts);
      if index.Some? && index.value < n {
        if index.value < -n {
          assert OffTheCurve(bars[i], s, n);
          return None;
        }
        var entry := if index.value >= 0 then index.value else n + index.value;
        volumes[entry] := volumes[entry] + bar.volume;
      }
      assert !OffTheCurve(bars[i], s, n);
    }
    assert bars[..|bars|] == bars;
    perMinute := Some(volumes[..]);
  }

  /** `accumulate`. */
  method RunningSums(perMinute: seq<real>, ghost bars: seq<MinuteBar>, ghost s: Session) returns (sums: seq<real>)
    requires forall m :: 0 <= m < |perMinute| ==> perMinute[m] == VolumeAt(bars, s, |perMinute|, m)
    ensures |sums| == |perMinute|
    ensures forall m :: 0 <= m < |sums| ==> sums[m] == VolumeThrough(bars, s, |perMinute|, m)
  {
    sums := [];
    var running := 0.0;
    NothingBeforeOpen(bars, s, |perMinute|);
    for m := 0 to |perMinute|
      invariant |sums| == m
      invariant forall k :: 0 <= k < m ==> sums[k] == VolumeThrough(bars, s, |perMinute|, k)
      invariant running == VolumeThrough(bars, s, |perMinute|, m - 1)
    {
      OneMinuteMore(bars, s, |perMinute|, m);
      running := running + perMinute[m];
      sums := sums + [running];
    }
  }

  /** Volume per minute, then the running sums. */
  method CumulativeCurve(bars: seq<MinuteBar>, session: Option<Session>, n: int)
    returns (r: Result<Option<seq<real>>, CurveError>)
    ensures r.Err? <==> Fails(bars, session, n)
    ensures r.Ok? ==> (r.value.Some? <==> session.Some? && VolumeThrough(bars, session.value, n, n - 1) > 0.0)
    ensures r.Ok? && r.value.Some? ==> |r.value.value| == n
    ensures r.Ok? && r.value.Some? ==>
      forall m :: 0 <= m < n ==> r.value.value[m] == VolumeThrough(bars, session.value, n, m)
  {
    if session.None? {
      return Ok(None);
    }
    if n < 1 {
      return Err(IndexError);
    }
    FailsWhenOff(bars, session.value, n);
    var perMinute := PerMinute(bars, session.value, n);
    if perMinute.None? {
      return Err(IndexError);
    }
    var sums := RunningSums(perMinute.value, bars, session.value);
    if sums[n - 1] <= 0.0 {
      return Ok(None);
    }
    r := Ok(Some(sums));
  }

  // --- the baseline -------------------------------------------------------------------------------------------

  function DatesIn(bars: seq<MinuteBar>): set<int> {
    if bars == [] then {} else DatesIn(bars[..|bars| - 1]) + {DayOf(bars[|bars| - 1])}
  }

  /** The bars of one day, in their order. */
  function BarsOn(bars: seq<MinuteBar>, day: int): seq<MinuteBar> {
    if bars == [] then []
    else
      var bar := bars[|bars| - 1];
      BarsOn(bars[..|bars| - 1], day) + if DayOf(bar) == day then [bar] else []
  }

  /** The last `days` dates with bars, oldest first. */
  ghost function RecentDates(bars: seq<MinuteBar>, days: int): seq<int> {
    FromEnd(SortedSet(IntLe, DatesIn(bars)), days)
  }

  /** The day counts: it has a session, and volume in it. */
  predicate HasVolume(bars: seq<MinuteBar>, sessionFor: int -> Option<Session>, n: int, day: int) {
    sessionFor(day).Some? && VolumeThrough(BarsOn(bars, day), sessionFor(day).value, n, n - 1) > 0.0
  }

  function WithVolume(bars: seq<MinuteBar>, sessionFor: int -> Option<Session>, n: int, dates: seq<int>): seq<int> {
    if dates == [] then []
    else
      var day := dates[|dates| - 1];
      WithVolume(bars, sessionFor, n, dates[..|dates| - 1]) + if HasVolume(bars, sessionFor, n, day) then [day] else []
  }

  lemma {:induction false} WithVolumeHave(bars: seq<MinuteBar>, sessionFor: int -> Option<Session>, n: int,
      dates: seq<int>)
    ensures forall day :: day in WithVolume(bars, sessionFor, n, dates) <==>
      day in dates && HasVolume(bars, sessionFor, n, day)
  {
    if dates != [] {
      var front, last := dates[..|dates| - 1], dates[|dates| - 1];
      WithVolumeHave(bars, sessionFor, n, front);
      assert dates == front + [last];
      forall day ensures day in dates <==> day in front || day == last {
      }
    }
  }

  /** A day's volume through a minute of its own session. */
  function DayThrough(bars: seq<MinuteBar>, sessionFor: int -> Option<Session>, n: int, m: int, day: int): real {
    if sessionFor(day).None? then 0.0 else VolumeThrough(BarsOn(bars, day), sessionFor(day).value, n, m)
  }

  /** The volumes of several days through a minute. */
  function SumThrough(bars: seq<MinuteBar>, sessionFor: int -> Option<Session>, n: int, m: int, dates: seq<int>): real {
    if dates == [] then 0.0
    else
      SumThrough(bars, sessionFor, n, m, dates[..|dates| - 1])
      + DayThrough(bars, sessionFor, n, m, dates[|dates| - 1])
  }

  /** `x`, taken `k` times, makes `sum`. */
  ghost predicate IsAverage(x: real, k: int, sum: real) {
    x * k as real == sum
  }

  datatype Baseline = Baseline(curve: seq<real>, avgFullDayVolume: real, daysUsed: int)

  /** `curve` averages the volumes of the used days, minute by minute. */
  ghost predicate Averages(b: Baseline, bars: seq<MinuteBar>, sessionFor: int -> Option<Session>, n: int,
      used: seq<int>)
    requires n >= 1
  {
    && |b.curve| == n && b.daysUsed == |used| > 0 && b.avgFullDayVolume == b.curve[n - 1]
    && (forall m :: 0 <= m < n ==> IsAverage(b.curve[m], |used|, SumThrough(bars, sessionFor, n, m, used)))
  }

  /** One of these dates has a session its bars cannot be placed in. */
  ghost predicate SomeFails(bars: seq<MinuteBar>, sessionFor: int -> Option<Session>, n: int, dates: seq<int>) {
    exists i :: 0 <= i < |dates| && Fails(BarsOn(bars, dates[i]), sessionFor(dates[i]), n)
  }

  ghost predicate Groups(byDate: map<int, seq<MinuteBar>>, bars: seq<MinuteBar>) {
    && (forall day :: day in byDate <==> day in DatesIn(bars))
    && (forall day :: (if day in byDate then byDate[day] else []) == BarsOn(bars, day))
  }

  /** The bars of each date, in their order. */
  function Grouped(bars: seq<MinuteBar>): map<int, seq<MinuteBar>> {
    if bars == [] then map[]
    else
      var bar, before := bars[|bars| - 1], Grouped(bars[..|bars| - 1]);
      var day := DayOf(bar);
      before[day := (if day in before then before[day] else []) + [bar]]
  }

  lemma {:induction false} GroupedMeans(bars: seq<MinuteBar>, day: int)
    ensures day in Grouped(bars) <==> day in DatesIn(bars)
    ensures (if day in Grouped(bars) then Grouped(bars)[day] else []) == BarsOn(bars, day)
  {
    if bars != [] {
      GroupedMeans(bars[..|bars| - 1], day);
    }
  }

  lemma {:induction false} GroupedKeys(bars: seq<MinuteBar>)
    ensures Grouped(bars).Keys == DatesIn(bars)
  {
    if bars != [] {
      GroupedKeys(bars[..|bars| - 1]);
    }
  }

  method GroupByDate(bars: seq<MinuteBar>) returns (byDate: map<int, seq<MinuteBar>>)
    ensures Groups(byDate, bars) && byDate.Keys == DatesIn(bars)
  {
    byDate := map[];
    for i := 0 to |bars|
      invariant byDate == Grouped(bars[..i])
    {
      var bar := bars[i];
      var day := DayOf(bar);
      assert bars[..i + 1][..i] == bars[..i];
      byDate := byDate[day := (if day in byDate then byDate[day] else []) + [bar]];
    }
    assert bars[..|bars|] == bars;
    GroupedKeys(bars);
    forall day ensures
      (day in byDate <==> day in DatesIn(bars)) && (if day in byDate then byDate[day] else []) == BarsOn(bars, day)
    {
      GroupedMeans(bars, day);
    }
  }

  lemma DatesOrder()
    ensures TotalOrder(IntLe)
  {}

  method SortDates(dates: set<int>) returns (sorted: seq<int>)
    ensures sorted == SortedSet(IntLe, dates)
  {
    DatesOrder();
    sorted := SortSet(IntLe, dates);
  }

  /** The curves of the dates that count, in date order. */
  ghost predicate Curves(curves: seq<seq<real>>, bars: seq<MinuteBar>, sessionFor: int -> Option<Session>, n: int,
      used: seq<int>)
  {
    && |curves| == |used|
    && (forall i :: 0 <= i < |used| ==> |curves[i]| == n)
    && (forall i, m :: 0 <= i < |used| && 0 <= m < n ==> curves[i][m] == DayThrough(bars, sessionFor, n, m, used[i]))
  }

  lemma CurvesSnoc(curves: seq<seq<real>>, bars: seq<MinuteBar>, sessionFor: int -> Option<Session>, n: int,
      used: seq<int>, curve: seq<real>, day: int)
    requires Curves(curves, bars, sessionFor, n, used) && |curve| == n
    requires forall m :: 0 <= m < n ==> curve[m] == DayThrough(bars, sessionFor, n, m, day)
    ensures Curves(curves + [curve], bars, sessionFor, n, used + [day])
  {}

  lemma WithVolumeSnoc(bars: seq<MinuteBar>, sessionFor: int -> Option<Session>, n: int, dates: seq<int>, day: int)
    ensures WithVolume(bars, sessionFor, n, dates + [day]) ==
      WithVolume(bars, sessionFor, n, dates) + if HasVolume(bars, sessionFor, n, day) then [day] else []
  {
    assert (dates + [day])[..|dates|] == dates;
  }

  /** One day's curve, when the day counts. */
  method DayCurve(bars: seq<MinuteBar>, sessionFor: int -> Option<Session>, n: int, day: int, dayBars: seq<MinuteBar>)
    returns (r: Result<Option<seq<real>>, CurveError>)
    requires dayBars == BarsOn(bars, day)
    ensures r.Err? <==> Fails(BarsOn(bars, day), sessionFor(day), n)
    ensures r.Ok? ==> (r.value.Some? <==> HasVolume(bars, sessionFor, n, day))
    ensures r.Ok? && r.value.Some? ==> |r.value.value| == n
    ensures r.Ok? && r.value.Some? ==>
      forall m :: 0 <= m < n ==> r.value.value[m] == DayThrough(bars, sessionFor, n, m, day)
  {
    r := CumulativeCurve(dayBars, sessionFor(day), n);
  }

  /** One turn of the loop over the dates. */
  method AddCurve(curves: seq<seq<real>>, bars: seq<MinuteBar>, sessionFor: int -> Option<Session>, n: int, day: int,
      dayBars: seq<MinuteBar>, ghost before: seq<int>)
    returns (r: Result<seq<seq<real>>, CurveError>)
    requires dayBars == BarsOn(bars, day)
    requires Curves(curves, bars, sessionFor, n, WithVolume(bars, sessionFor, n, before))
    ensures r.Err? <==> Fails(BarsOn(bars, day), sessionFor(day), n)
    ensures r.Ok? ==> Curves(r.value, bars, sessionFor, n, WithVolume(bars, sessionFor, n, before + [day]))
  {
    WithVolumeSnoc(bars, sessionFor, n, before, day);
    var curve := DayCurve(bars, sessionFor, n, day, dayBars);
    if curve.Err? {
      return Err(curve.error);
    }
    if curve.value.None? {
      return Ok(curves);
    }
    CurvesSnoc(curves, bars, sessionFor, n, WithVolume(bars, sessionFor, n, before), curve.value.value, day);
    r := Ok(curves + [curve.value.value]);
  }

  method DayCurves(bars: seq<MinuteBar>, sessionFor: int -> Option<Session>, n: int, dates: seq<int>,
      byDate: map<int, seq<MinuteBar>>)
    returns (r: Result<seq<seq<real>>, CurveError>)
    requires forall i :: 0 <= i < |dates| ==> dates[i] in byDate && byDate[dates[i]] == BarsOn(bars, dates[i])
    ensures r.Err? <==> SomeFails(bars, sessionFor, n, dates)
    ensures r.Ok? ==> Curves(r.value, bars, sessionFor, n, WithVolume(bars, sessionFor, n, dates))
  {
    r := Ok([]);
    for i := 0 to |dates|
      invariant r.Ok? && Curves(r.value, bars, sessionFor, n, WithVolume(bars, sessionFor, n, dates[..i]))
      invariant forall j :: 0 <= j < i ==> !Fails(BarsOn(bars, dates[j]), sessionFor(dates[j]), n)
    {
      TakeOneMore(dates, i);
      r := AddCurve(r.value, bars, sessionFor, n, dates[i], byDate[dates[i]], dates[..i]);
      if r.Err? {
        return;
      }
    }
    assert dates[..|dates|] == dates;
  }

  method Column(curves: seq<seq<real>>, m: int, ghost bars: seq<MinuteBar>, ghost sessionFor: int -> Option<Session>,
      ghost n: int, ghost used: seq<int>)
    returns (sum: real)
    requires Curves(curves, bars, sessionFor, n, used) && 0 <= m < n
    ensures sum == SumThrough(bars, sessionFor, n, m, used)
  {
    sum := 0.0;
    for i := 0 to |curves|
      invariant sum == SumThrough(bars, sessionFor, n, m, used[..i])
    {
      assert used[..i + 1][..i] == used[..i];
      sum := sum + curves[i][m];
    }
    assert used[..|used|] == used;
  }

  lemma Share(sum: real, k: int)
    requires k > 0
    ensures IsAverage(sum / k as real, k, sum)
  {}

  method AverageCurves(curves: seq<seq<real>>, n: int, ghost bars: seq<MinuteBar>,
      ghost sessionFor: int -> Option<Session>, ghost used: seq<int>)
    returns (b: Baseline)
    requires n >= 1 && curves != [] && Curves(curves, bars, sessionFor, n, used)
    ensures Averages(b, bars, sessionFor, n, used)
  {
    var averaged: seq<real> := [];
    for m := 0 to n
      invariant |averaged| == m
      invariant forall k :: 0 <= k < m ==> IsAverage(averaged[k], |used|, SumThrough(bars, sessionFor, n, k, used))
    {
      var sum := Column(curves, m, bars, sessionFor, n, used);
      Share(sum, |curves|);
      averaged := averaged + [sum / |curves| as real];
    }
    b := Baseline(averaged, averaged[n - 1], |curves|);
  }

  /** The last `days` dates and their bars. */
  method RecentDays(bars: seq<MinuteBar>, days: int) returns (recent: seq<int>, byDate: map<int, seq<MinuteBar>>)
    ensures recent == RecentDates(bars, days)
    ensures forall i :: 0 <= i < |recent| ==> recent[i] in byDate && byDate[recent[i]] == BarsOn(bars, recent[i])
  {
    byDate := GroupByDate(bars);
    var dates := SortDates(byDate.Keys);
    recent := FromEnd(dates, days);
    DatesListed(DatesIn(bars), days);
    forall i | 0 <= i < |recent| ensures recent[i] in byDate && byDate[recent[i]] == BarsOn(bars, recent[i]) {
      assert recent[i] in DatesIn(bars);
    }
  }

  /** A session of no whole minute leaves no date that counts: with a session of its own it fails. */
  lemma {:induction false} NothingCounts(bars: seq<MinuteBar>, sessionFor: int -> Option<Session>, n: int,
      dates: seq<int>)
    requires n < 1 && !SomeFails(bars, sessionFor, n, dates)
    ensures WithVolume(bars, sessionFor, n, dates) == []
  {
    if dates != [] {
      var front := dates[..|dates| - 1];
      assert forall i :: 0 <= i < |front| ==> front[i] == dates[i];
      assert !Fails(BarsOn(bars, dates[|dates| - 1]), sessionFor(dates[|dates| - 1]), n);
      NothingCounts(bars, sessionFor, n, front);
    }
  }

  /**
   * Averages the last `days` dates that have volume in their own session; none when there is no such date.
   * It fails exactly when one of them has a session its bars cannot be placed in.
   */
  method BaselineFromBars(bars: seq<MinuteBar>, session: Session, sessionFor: int -> Option<Session>, days: int)
    returns (r: Result<Option<Baseline>, CurveError>)
    ensures r.Err? <==> SomeFails(bars, sessionFor, Minutes(session), RecentDates(bars, days))
    ensures
      var n := Minutes(session);
      var used := WithVolume(bars, sessionFor, n, RecentDates(bars, days));
      r.Ok? ==>
        match r.value
        case None => used == []
        case Some(b) => n >= 1 && Averages(b, bars, sessionFor, n, used)
  {
    var n := Minutes(session);
    var recent, byDate := RecentDays(bars, days);
    var curves := DayCurves(bars, sessionFor, n, recent, byDate);
    if curves.Err? {
      return Err(curves.error);
    }
    if curves.value == [] {
      return Ok(None);
    }
    if n < 1 {
      NothingCounts(bars, sessionFor, n, recent);
    }
    var b := AverageCurves(curves.value, n, bars, sessionFor, WithVolume(bars, sessionFor, n, recent));
    r := Ok(Some(b));
  }

  lemma DatesListed(dates: set<int>, days: int)
    ensures
      var recent := FromEnd(SortedSet(IntLe, dates), days);
      forall i :: 0 <= i < |recent| ==> recent[i] in dates
  {
    DatesOrder();
    SortedSetListing(IntLe, dates);
    var all := SortedSet(IntLe, dates);
    assert forall i :: 0 <= i < |all| ==> all[i] in all;
  }

  // --- what the curve promises --------------------------------------------------------------------------------

  lemma {:induction false} BarsOnNonNegative(bars: seq<MinuteBar>, day: int)
    requires NonNegative(bars)
    ensures NonNegative(BarsOn(bars, day))
  {
    if bars != [] {
      BarsOnNonNegative(bars[..|bars| - 1], day);
    }
  }

  lemma {:induction false} SumGrows(bars: seq<MinuteBar>, sessionFor: int -> Option<Session>, n: int, a: int, b: int,
      dates: seq<int>)
    requires NonNegative(bars) && a <= b
    ensures SumThrough(bars, sessionFor, n, a, dates) <= SumThrough(bars, sessionFor, n, b, dates)
  {
    if dates != [] {
      var day := dates[|dates| - 1];
      SumGrows(bars, sessionFor, n, a, b, dates[..|dates| - 1]);
      BarsOnNonNegative(bars, day);
      if sessionFor(day).Some? {
        ThroughGrows(BarsOn(bars, day), sessionFor(day).value, n, a, b);
      }
    }
  }

  lemma DivideOrder(x: real, y: real, k: int, a: real, b: real)
    requires k > 0 && IsAverage(x, k, a) && IsAverage(y, k, b) && a <= b
    ensures x <= y
  {}

  /** The typical volume never falls during the session. */
  lemma CurveRises(b: Baseline, bars: seq<MinuteBar>, sessionFor: int -> Option<Session>, n: int, used: seq<int>,
      i: int, j: int)
    requires n >= 1 && Averages(b, bars, sessionFor, n, used) && NonNegative(bars) && 0 <= i <= j < n
    ensures b.curve[i] <= b.curve[j]
  {
    SumGrows(bars, sessionFor, n, i, j, used);
    DivideOrder(
      b.curve[i], b.curve[j], |used|,
      SumThrough(bars, sessionFor, n, i, used), SumThrough(bars, sessionFor, n, j, used));
  }

  /** The volumes of the used days, bars before their open left out. */
  function SumFromOpen(bars: seq<MinuteBar>, sessionFor: int -> Option<Session>, dates: seq<int>): real {
    if dates == [] then 0.0
    else
      var day := dates[|dates| - 1];
      SumFromOpen(bars, sessionFor, dates[..|dates| - 1])
      + if sessionFor(day).None? then 0.0 else VolumeFromOpen(BarsOn(bars, day), sessionFor(day).value)
  }

  lemma {:induction false} SumIsTotal(bars: seq<MinuteBar>, sessionFor: int -> Option<Session>, n: int, dates: seq<int>)
    requires n >= 1 && !SomeFails(bars, sessionFor, n, dates)
    requires forall i :: 0 <= i < |dates| && sessionFor(dates[i]).Some? ==> Minutes(sessionFor(dates[i]).value) <= n
    ensures SumThrough(bars, sessionFor, n, n - 1, dates) == SumFromOpen(bars, sessionFor, dates)
  {
    if dates != [] {
      var front, day := dates[..|dates| - 1], dates[|dates| - 1];
      assert forall i :: 0 <= i < |front| ==> front[i] == dates[i];
      assert !Fails(BarsOn(bars, day), sessionFor(day), n);
      SumIsTotal(bars, sessionFor, n, front);
      if sessionFor(day).Some? {
        FailsWhenOff(BarsOn(bars, day), sessionFor(day).value, n);
        LastIsTotal(BarsOn(bars, day), sessionFor(day).value, n);
      }
    }
  }

  /** When no used day's session is longer than the curve, its last entry averages the whole volumes. */
  lemma CurveEndsAtTotal(b: Baseline, bars: seq<MinuteBar>, sessionFor: int -> Option<Session>, n: int, used: seq<int>)
    requires n >= 1 && Averages(b, bars, sessionFor, n, used) && !SomeFails(bars, sessionFor, n, used)
    requires forall i :: 0 <= i < |used| && sessionFor(used[i]).Some? ==> Minutes(sessionFor(used[i]).value) <= n
    ensures IsAverage(b.avgFullDayVolume, b.daysUsed, SumFromOpen(bars, sessionFor, used))
  {
    SumIsTotal(bars, sessionFor, n, used);
  }

  // --- the curve by the clock ---------------------------------------------------------------------------------

  /**
   * A bar of that moment is in the curve by minute `m`: it comes before the minute's end, or the minute is the
   * session's last. A session of no whole minute has its volume in one entry, counted from the curve's end.
   */
  predicate InBy(ts: int, s: Session, n: int, m: int) {
    && s.openAt <= ts
    && if Minutes(s) >= 1 then ts < s.openAt + 60 * (m + 1) || m >= Minutes(s) - 1
       else -n < Minutes(s) && m >= n + Minutes(s) - 1
  }

  /** Volume of the bars in the curve by minute `m`. */
  function VolumeBy(bars: seq<MinuteBar>, s: Session, n: int, m: int): real {
    if bars == [] then 0.0
    else
      var bar := bars[|bars| - 1];
      VolumeBy(bars[..|bars| - 1], s, n, m) + if InBy(bar.ts, s, n, m) then bar.volume else 0.0
  }

  lemma BucketIs(bar: MinuteBar, s: Session, n: int, m: int)
    requires 0 <= m < n
    ensures Bucket(bar, s, n).Some? && Bucket(bar, s, n).value <= m <==> InBy(bar.ts, s, n, m)
  {
    if Minutes(s) >= 1 && s.openAt <= bar.ts {
      var index := (bar.ts - s.openAt) / 60;
      assert 60 * index <= bar.ts - s.openAt < 60 * (index + 1);
      assert index <= m <==> bar.ts < s.openAt + 60 * (m + 1);
    }
  }

  /** Every entry of a day's curve is the volume of the bars up to its minute's end. */
  lemma {:induction false} ThroughIsBy(bars: seq<MinuteBar>, s: Session, n: int, m: int)
    requires 0 <= m < n
    ensures VolumeThrough(bars, s, n, m) == VolumeBy(bars, s, n, m)
  {
    if bars != [] {
      ThroughIsBy(bars[..|bars| - 1], s, n, m);
      BucketIs(bars[|bars| - 1], s, n, m);
    }
  }

  /** The same of the bars of one day. */
  function DayVolumeBy(bars: seq<MinuteBar>, day: int, s: Session, n: int, m: int): real {
    if bars == [] then 0.0
    else
      var bar := bars[|bars| - 1];
      DayVolumeBy(bars[..|bars| - 1], day, s, n, m)
      + if bar.ts / 86400 == day && InBy(bar.ts, s, n, m) then bar.volume else 0.0
  }

  lemma {:induction false} DayIsBy(bars: seq<MinuteBar>, day: int, s: Session, n: int, m: int)
    ensures VolumeBy(BarsOn(bars, day), s, n, m) == DayVolumeBy(bars, day, s, n, m)
  {
    if bars != [] {
      var front, bar := bars[..|bars| - 1], bars[|bars| - 1];
      DayIsBy(front, day, s, n, m);
      var before := BarsOn(front, day);
      if DayOf(bar) == day {
        assert (before + [bar])[..|before|] == before;
      } else {
        assert before + [] == before;
      }
    }
  }

  /** Over several days, each by its own session. */
  function VolumesBy(bars: seq<MinuteBar>, sessionFor: int -> Option<Session>, n: int, m: int, dates: seq<int>): real {
    if dates == [] then 0.0
    else
      var day := dates[|dates| - 1];
      VolumesBy(bars, sessionFor, n, m, dates[..|dates| - 1])
      + if sessionFor(day).None? then 0.0 else DayVolumeBy(bars, day, sessionFor(day).value, n, m)
  }

  lemma {:induction false} SumIsBy(bars: seq<MinuteBar>, sessionFor: int -> Option<Session>, n: int, m: int,
      dates: seq<int>)
    requires 0 <= m < n
    ensures SumThrough(bars, sessionFor, n, m, dates) == VolumesBy(bars, sessionFor, n, m, dates)
  {
    if dates != [] {
      var day := dates[|dates| - 1];
      SumIsBy(bars, sessionFor, n, m, dates[..|dates| - 1]);
      if sessionFor(day).Some? {
        ThroughIsBy(BarsOn(bars, day), sessionFor(day).value, n, m);
        DayIsBy(bars, day, sessionFor(day).value, n, m);
      }
    }
  }

  /** Dates that traded in their own session. */
  ghost predicate Traded(bars: seq<MinuteBar>, sessionFor: int -> Option<Session>, n: int, day: int) {
    sessionFor(day).Some? && DayVolumeBy(bars, day, sessionFor(day).value, n, n - 1) > 0.0
  }

  lemma {:induction false} WithVolumeDistinct(bars: seq<MinuteBar>, sessionFor: int -> Option<Session>, n: int,
      dates: seq<int>)
    requires n >= 1 && Distinct(dates)
    ensures
      var used := WithVolume(bars, sessionFor, n, dates);
      Distinct(used) && forall day :: day in used <==> day in dates && Traded(bars, sessionFor, n, day)
  {
    if dates != [] {
      var front, last := dates[..|dates| - 1], dates[|dates| - 1];
      SplitLast(dates);
      WithVolumeDistinct(bars, sessionFor, n, front);
      assert last !in front;
      if sessionFor(last).Some? {
        ThroughIsBy(BarsOn(bars, last), sessionFor(last).value, n, n - 1);
        DayIsBy(bars, last, sessionFor(last).value, n, n - 1);
      }
    }
  }

  /** The last `days` dates that have a bar. */
  ghost predicate AreRecent(recent: seq<int>, bars: seq<MinuteBar>, days: int) {
    && Distinct(recent)
    && (forall day :: day in recent ==> HasBar(bars, day))
    && (days > 0 ==> |recent| <= days)
    && (days > 0 ==> forall day :: HasBar(bars, day) && day !in recent ==>
         |recent| == days && forall other :: other in recent ==> day < other)
  }

  ghost predicate HasBar(bars: seq<MinuteBar>, day: int) {
    exists i :: 0 <= i < |bars| && bars[i].ts / 86400 == day
  }

  lemma {:induction false} DatesAre(bars: seq<MinuteBar>, day: int)
    ensures day in DatesIn(bars) <==> HasBar(bars, day)
  {
    if bars != [] {
      var front := bars[..|bars| - 1];
      DatesAre(front, day);
      if i :| 0 <= i < |bars| && bars[i].ts / 86400 == day {
        assert i < |front| ==> front[i] == bars[i];
      }
      if i :| 0 <= i < |front| && front[i].ts / 86400 == day {
        assert bars[i] == front[i];
      }
      assert DayOf(bars[|bars| - 1]) == day ==> bars[|bars| - 1].ts / 86400 == day;
    }
  }

  lemma {:induction false} SplitSorted(all: seq<int>, first: nat)
    requires Sorted(IntLe, all) && Distinct(all) && first <= |all|
    ensures Distinct(all[first..])
    ensures forall day :: day in all <==> day in all[..first] || day in all[first..]
    ensures forall day, other :: day in all[..first] && other in all[first..] ==> day < other
  {
    assert all == all[..first] + all[first..];
    forall day, other | day in all[..first] && other in all[first..] ensures day < other {
      var i :| 0 <= i < first && all[i] == day;
      var j :| 0 <= j < |all[first..]| && all[first..][j] == other;
      assert IntLe(all[i], all[first + j]);
    }
  }

  lemma {:induction false} LatestDates(all: seq<int>, days: int) returns (first: nat)
    ensures first <= |all| && FromEnd(all, days) == all[first..]
    ensures days > 0 ==> |all| - first <= days && (first > 0 ==> |all| - first == days)
  {
    first := |all| - |FromEnd(all, days)|;
  }

  lemma {:induction false} RecentAre(bars: seq<MinuteBar>, days: int)
    ensures AreRecent(RecentDates(bars, days), bars, days)
  {
    var all := SortedSet(IntLe, DatesIn(bars));
    DatesOrder();
    SortedSetListing(IntLe, DatesIn(bars));
    forall day ensures day in all <==> HasBar(bars, day) {
      DatesAre(bars, day);
    }
    var first := LatestDates(all, days);
    SplitSorted(all, first);
    LastOnes(all, first, bars, days);
  }

  lemma {:induction false} LastOnes(all: seq<int>, first: nat, bars: seq<MinuteBar>, days: int)
    requires first <= |all| && Distinct(all[first..])
    requires forall day :: day in all <==> HasBar(bars, day)
    requires forall day :: day in all <==> day in all[..first] || day in all[first..]
    requires forall day, other :: day in all[..first] && other in all[first..] ==> day < other
    requires days > 0 ==> |all| - first <= days && (first > 0 ==> |all| - first == days)
    ensures AreRecent(all[first..], bars, days)
  {}

  /** The recent dates that traded, each once. */
  ghost predicate AreUsed(used: seq<int>, bars: seq<MinuteBar>, sessionFor: int -> Option<Session>, n: int, days: int) {
    exists recent ::
      && AreRecent(recent, bars, days) && Distinct(used)
      && forall day :: day in used <==> day in recent && Traded(bars, sessionFor, n, day)
  }

  lemma {:induction false} UsedAre(bars: seq<MinuteBar>, sessionFor: int -> Option<Session>, n: int, days: int)
    requires n >= 1
    ensures AreUsed(WithVolume(bars, sessionFor, n, RecentDates(bars, days)), bars, sessionFor, n, days)
  {
    RecentAre(bars, days);
    WithVolumeDistinct(bars, sessionFor, n, RecentDates(bars, days));
  }

  lemma {:induction false} EntryIs(x: real, k: int, bars: seq<MinuteBar>, sessionFor: int -> Option<Session>, n: int,
      used: seq<int>, m: int)
    requires 0 <= m < n && IsAverage(x, k, SumThrough(bars, sessionFor, n, m, used))
    ensures x * k as real == VolumesBy(bars, sessionFor, n, m, used)
  {
    SumIsBy(bars, sessionFor, n, m, used);
    AverageTimes(x, k, SumThrough(bars, sessionFor, n, m, used));
  }

  lemma {:induction false} AverageTimes(x: real, k: int, sum: real)
    requires IsAverage(x, k, sum)
    ensures x * k as real == sum
  {}

  /**
   * A baseline by the clock: each entry, times the days used, is the volume of those days' bars up to the end
   * of its minute, each day by its own session; the days are the recent dates that traded.
   */
  lemma {:induction false} BaselineIs(b: Baseline, bars: seq<MinuteBar>, sessionFor: int -> Option<Session>, n: int,
      days: int)
    returns (used: seq<int>)
    requires n >= 1 && Averages(b, bars, sessionFor, n, WithVolume(bars, sessionFor, n, RecentDates(bars, days)))
    ensures AreUsed(used, bars, sessionFor, n, days)
    ensures |b.curve| == n && b.avgFullDayVolume == b.curve[n - 1] && b.daysUsed == |used| > 0
    ensures forall m :: 0 <= m < n ==> b.curve[m] * |used| as real == VolumesBy(bars, sessionFor, n, m, used)
  {
    used := WithVolume(bars, sessionFor, n, RecentDates(bars, days));
    UsedAre(bars, sessionFor, n, days);
    forall m | 0 <= m < n ensures b.curve[m] * |used| as real == VolumesBy(bars, sessionFor, n, m, used) {
      EntryIs(b.curve[m], |used|, bars, sessionFor, n, used, m);
    }
  }

  // --- the two ratios -----------------------------------------------------------------------------------------

  function RvolIntraday(vtt: Option<int>, baseline: Option<Baseline>, minute: Option<int>): (ratio: Option<real>)
    ensures ratio.Some? <==>
      && vtt.Some? && baseline.Some? && minute.Some?
      && 0 <= minute.value < |baseline.value.curve| && baseline.value.curve[minute.value] > 0.0
    ensures ratio.Some? ==> ratio.value * baseline.value.curve[minute.value] == vtt.value as real
  {
    if vtt.None? || baseline.None? || minute.None? then None
    else if !(0 <= minute.value < |baseline.value.curve|) then None
    else
      var expected := baseline.value.curve[minute.value];
      if expected <= 0.0 then None else Some(vtt.value as real / expected)
  }

  function RvolDay(vtt: Option<int>, baseline: Option<Baseline>): (ratio: Option<real>)
    ensures ratio.Some? <==> vtt.Some? && baseline.Some? && baseline.value.avgFullDayVolume > 0.0
    ensures ratio.Some? ==> ratio.value * baseline.value.avgFullDayVolume == vtt.value as real
  {
    if vtt.None? || baseline.None? || baseline.value.avgFullDayVolume <= 0.0 then None
    else Some(vtt.value as real / baseline.value.avgFullDayVolume)
  }

  lemma {:induction false} SumPositive(bars: seq<MinuteBar>, sessionFor: int -> Option<Session>, n: int, used: seq<int>)
    requires forall day :: day in used ==> HasVolume(bars, sessionFor, n, day)
    ensures used != [] ==> SumThrough(bars, sessionFor, n, n - 1, used) > 0.0
  {
    if used != [] {
      var front := used[..|used| - 1];
      assert used == front + [used[|used| - 1]];
      SumPositive(bars, sessionFor, n, front);
      assert used[|used| - 1] in used;
    }
  }

  /** From the last minute on, the two ratios of any volume are defined and equal. */
  lemma RatiosConverge(b: Baseline, bars: seq<MinuteBar>, session: Session, sessionFor: int -> Option<Session>,
      dates: seq<int>, vtt: int, moment: int)
    requires Minutes(session) >= 1
    requires Averages(b, bars, sessionFor, Minutes(session), WithVolume(bars, sessionFor, Minutes(session), dates))
    requires session.openAt + 60 * (Minutes(session) - 1) <= moment
    ensures RvolDay(Some(vtt), Some(b)).Some?
    ensures RvolIntraday(Some(vtt), Some(b), MinuteOf(session, moment)) == RvolDay(Some(vtt), Some(b))
  {
    var n := Minutes(session);
    var used := WithVolume(bars, sessionFor, n, dates);
    WithVolumeHave(bars, sessionFor, n, dates);
    SumPositive(bars, sessionFor, n, used);
    MinuteOfExact(session, moment, n - 1);
    PositiveShare(b.avgFullDayVolume, |used|, SumThrough(bars, sessionFor, n, n - 1, used));
  }

  lemma PositiveShare(x: real, k: int, sum: real)
    requires k > 0 && IsAverage(x, k, sum) && sum > 0.0
    ensures x > 0.0
  {}
}
