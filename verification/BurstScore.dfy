/**
 * src/swingdash/domain/metrics/burst_score.py: Burst Power, counted over neighbouring bars, which a
 * completed session extends by one bar.
 */
module BurstScore {
  import opened Wrappers
  import opened Bars
  import opened Dates
  import opened Sums

  const DEFAULT_LOOKBACK_YEARS: nat := 3
  const STRONG_POWER := 15
  const MODERATE_POWER := 10

  // --- the look-back day ---------------------------------------------------------------------------

  /** The day of that name in another year, 1 March for a 29 February the year lacks. */
  function SameDay(year: nat, d: Date): int
    requires 1 <= d.month <= 12
  {
    if d.day <= DaysInMonth(year, d.month) then ToOrdinal(Date(year, d.month, d.day)) else ToOrdinal(Date(year, 3, 1))
  }

  /** The same day `years` earlier; None before year 1, where Python's dates end. */
  function LookbackCutoff(today: Date, years: nat): Option<int>
    requires 1 <= today.month <= 12
  {
    if today.year <= years then None else Some(SameDay(today.year - years, today))
  }

  lemma {:induction false} YearsApart(y: nat, k: nat)
    requires 1 <= y
    ensures DaysBeforeYear(y + k) >= DaysBeforeYear(y) + 365 * k + if k > 0 && IsLeap(y) then 1 else 0
  {
    if k > 0 {
      YearsApart(y, k - 1);
      YearLength(y + k - 1);
    }
  }

  lemma SameDayEarlier(y: nat, k: nat, d: Date)
    requires 1 <= y && d.year == y + k && Valid(d)
    ensures 1 <= SameDay(y, d) <= ToOrdinal(d) - 365 * k
  {
    YearsApart(y, k);
    YearsApart(1, y - 1);
    assert DaysBeforeYear(1) == 0;
    if d.day > DaysInMonth(y, d.month) {
      assert d.month == 2 && d.day == 29;
    }
  }

  /** The cutoff exists from year `years` + 1 on, and lies at least `years` ordinary years back. */
  lemma CutoffIsBack(today: Date, years: nat)
    requires Valid(today)
    ensures LookbackCutoff(today, years).Some? <==> today.year > years
    ensures today.year > years ==> 1 <= LookbackCutoff(today, years).value <= ToOrdinal(today) - 365 * years
  {
    if today.year > years {
      SameDayEarlier(today.year - years, years, today);
    }
  }

  // --- the counts ------------------------------------------------------------------------------------

  datatype Bucket = Five | Ten | Nineteen

  function BucketOf(move: real): Option<Bucket> {
    if 5.0 <= move < 10.0 then Some(Five)
    else if 10.0 <= move < 19.0 then Some(Ten)
    else if move >= 19.0 then Some(Nineteen)
    else None
  }

  datatype Bin = Bin(count: nat, last: Option<int>)

  datatype Counts = Counts(five: Bin, ten: Bin, nineteen: Bin, maxMove: Option<real>, maxDate: Option<int>)

  const NO_COUNTS := Counts(Bin(0, None), Bin(0, None), Bin(0, None), None, None)

  function BinOf(c: Counts, bucket: Bucket): Bin {
    match bucket
    case Five => c.five
    case Ten => c.ten
    case Nineteen => c.nineteen
  }

  /** A bar counts unless the previous close is zero or its known range is empty or closes too low. */
  predicate Passes(prevClose: real, bar: DailyBar, minClosePosition: Option<real>) {
    && prevClose != 0.0
    && (bar.high.Some? && bar.low.Some? ==>
         && bar.high != bar.low
         && (minClosePosition.Some? ==>
              (bar.close - bar.low.value) / (bar.high.value - bar.low.value) >= minClosePosition.value))
  }

  function Move(prevClose: real, close: real): real
    requires prevClose != 0.0
  {
    (close - prevClose) / prevClose * 100.0
  }

  function Added(c: Counts, prevClose: real, bar: DailyBar, minClosePosition: Option<real>): Counts {
    if !Passes(prevClose, bar, minClosePosition) then c
    else
      var move := Move(prevClose, bar.close);
      var top := if c.maxMove.None? || move >= c.maxMove.value then
        c.(maxMove := Some(move), maxDate := Some(bar.date)) else c;
      match BucketOf(move)
      case None => top
      case Some(Five) => top.(five := Bin(c.five.count + 1, Some(bar.date)))
      case Some(Ten) => top.(ten := Bin(c.ten.count + 1, Some(bar.date)))
      case Some(Nineteen) => top.(nineteen := Bin(c.nineteen.count + 1, Some(bar.date)))
  }

  class Tally {
    var five: Bin
    var ten: Bin
    var nineteen: Bin
    var maxMove: Option<real>
    var maxDate: Option<int>

    function Counted(): Counts
      reads this
    {
      Counts(five, ten, nineteen, maxMove, maxDate)
    }

    constructor (from: Counts)
      ensures Counted() == from
    {
      five, ten, nineteen := from.five, from.ten, from.nineteen;
      maxMove, maxDate := from.maxMove, from.maxDate;
    }

    method Add(prevClose: real, bar: DailyBar, minClosePosition: Option<real>)
      modifies this
      ensures Counted() == Added(old(Counted()), prevClose, bar, minClosePosition)
    {
      if prevClose == 0.0 {
        return;
      }
      if bar.high.Some? && bar.low.Some? {
        if bar.high == bar.low {
          return;
        }
        var closePosition := (bar.close - bar.low.value) / (bar.high.value - bar.low.value);
        if minClosePosition.Some? && closePosition < minClosePosition.value {
          return;
        }
      }
      var move := (bar.close - prevClose) / prevClose * 100.0;
      if maxMove.None? || move >= maxMove.value {
        maxMove, maxDate := Some(move), Some(bar.date);
      }
      if 5.0 <= move < 10.0 {
        five := Bin(five.count + 1, Some(bar.date));
      } else if 10.0 <= move < 19.0 {
        ten := Bin(ten.count + 1, Some(bar.date));
      } else if move >= 19.0 {
        nineteen := Bin(nineteen.count + 1, Some(bar.date));
      }
    }
  }

  predicate InWindow(date: int, since: Option<int>) {
    since.None? || date >= since.value
  }

  /** Counting every pair of neighbours, oldest first. */
  function Tallied(bars: seq<DailyBar>, since: Option<int>, minClosePosition: Option<real>): Counts {
    if |bars| <= 1 then NO_COUNTS
    else
      var n := |bars| - 1;
      var before := Tallied(bars[..n], since, minClosePosition);
      if InWindow(bars[n].date, since) then Added(before, bars[n - 1].close, bars[n], minClosePosition) else before
  }

  lemma TalliedSnoc(bars: seq<DailyBar>, bar: DailyBar, since: Option<int>, minClosePosition: Option<real>)
    requires bars != []
    ensures Tallied(bars + [bar], since, minClosePosition) == (
      var before := Tallied(bars, since, minClosePosition);
      if InWindow(bar.date, since) then Added(before, bars[|bars| - 1].close, bar, minClosePosition) else before
    )
  {
    assert (bars + [bar])[..|bars|] == bars;
  }

  lemma TalliedMore(bars: seq<DailyBar>, i: nat, since: Option<int>, minClosePosition: Option<real>)
    requires 1 <= i < |bars|
    ensures Tallied(bars[..i + 1], since, minClosePosition) == (
      var before := Tallied(bars[..i], since, minClosePosition);
      if InWindow(bars[i].date, since) then Added(before, bars[i - 1].close, bars[i], minClosePosition) else before
    )
  {
    TakeOneMore(bars, i);
    TalliedSnoc(bars[..i], bars[i], since, minClosePosition);
  }

  // --- what the counts mean -----------------------------------------------------------------------------

  /** Bar `i` counts in its history. */
  predicate CountsAt(bars: seq<DailyBar>, since: Option<int>, minClosePosition: Option<real>, i: int) {
    1 <= i < |bars| && InWindow(bars[i].date, since) && Passes(bars[i - 1].close, bars[i], minClosePosition)
  }

  function MoveAt(bars: seq<DailyBar>, i: int): real
    requires 1 <= i < |bars| && bars[i - 1].close != 0.0
  {
    Move(bars[i - 1].close, bars[i].close)
  }

  /** The days of a bucket. */
  function DaysIn(bars: seq<DailyBar>, since: Option<int>, minClosePosition: Option<real>, bucket: Bucket): set<int> {
    set i | 1 <= i < |bars| && HitAt(bars, since, minClosePosition, bucket, i)
  }

  /** Bar `i` counts in the bucket. */
  predicate HitAt(bars: seq<DailyBar>, since: Option<int>, minClosePosition: Option<real>, bucket: Bucket, i: int) {
    CountsAt(bars, since, minClosePosition, i) && BucketOf(MoveAt(bars, i)) == Some(bucket)
  }

  lemma HitSnoc(bars: seq<DailyBar>, bar: DailyBar, since: Option<int>, minClosePosition: Option<real>, bucket: Bucket,
      i: int)
    requires i < |bars|
    ensures HitAt(bars + [bar], since, minClosePosition, bucket, i) == HitAt(bars, since, minClosePosition, bucket, i)
  {}

  lemma DaysInSnoc(bars: seq<DailyBar>, bar: DailyBar, since: Option<int>, minClosePosition: Option<real>,
      bucket: Bucket)
    ensures DaysIn(bars + [bar], since, minClosePosition, bucket) == DaysIn(bars, since, minClosePosition, bucket) +
      if HitAt(bars + [bar], since, minClosePosition, bucket, |bars|) then {|bars|} else {}
  {
    forall i | i < |bars|
      ensures HitAt(bars + [bar], since, minClosePosition, bucket, i) == HitAt(bars, since, minClosePosition, bucket, i)
    {
      HitSnoc(bars, bar, since, minClosePosition, bucket, i);
    }
  }

  lemma BinSnoc(bars: seq<DailyBar>, bar: DailyBar, since: Option<int>, minClosePosition: Option<real>, bucket: Bucket)
    requires bars != []
    ensures
      var bin := BinOf(Tallied(bars, since, minClosePosition), bucket);
      BinOf(Tallied(bars + [bar], since, minClosePosition), bucket) ==
      if HitAt(bars + [bar], since, minClosePosition, bucket, |bars|) then Bin(bin.count + 1, Some(bar.date)) else bin
  {
    TalliedSnoc(bars, bar, since, minClosePosition);
  }

  /** A bin that holds the number of its days and the date of the last. */
  ghost predicate Describes(bin: Bin, days: set<int>, bars: seq<DailyBar>)
    requires forall i :: i in days ==> 0 <= i < |bars|
  {
    && bin.count == |days|
    && (bin.last.None? <==> days == {})
    && (forall i :: i in days && (forall j :: j in days ==> j <= i) ==> bin.last == Some(bars[i].date))
  }

  lemma DescribesSnoc(bin: Bin, days: set<int>, bars: seq<DailyBar>, bar: DailyBar)
    requires (forall i :: i in days ==> 0 <= i < |bars|) && Describes(bin, days, bars)
    ensures Describes(bin, days, bars + [bar])
    ensures Describes(Bin(bin.count + 1, Some(bar.date)), days + {|bars|}, bars + [bar])
  {
    var all := days + {|bars|};
    forall i | i in all && (forall j :: j in all ==> j <= i) ensures i == |bars| {
      assert |bars| in all;
    }
  }

  /** Each bin holds the number of its bucket's days and the date of the last of them. */
  lemma {:induction false} BinsMean(bars: seq<DailyBar>, since: Option<int>, minClosePosition: Option<real>,
      bucket: Bucket)
    ensures Describes(
      BinOf(Tallied(bars, since, minClosePosition), bucket), DaysIn(bars, since, minClosePosition, bucket), bars)
  {
    if |bars| <= 1 {
      assert DaysIn(bars, since, minClosePosition, bucket) == {};
    } else {
      var n := |bars| - 1;
      var before := bars[..n];
      BinsMean(before, since, minClosePosition, bucket);
      assert bars == before + [bars[n]];
      DaysInSnoc(before, bars[n], since, minClosePosition, bucket);
      BinSnoc(before, bars[n], since, minClosePosition, bucket);
      DescribesSnoc(
        BinOf(Tallied(before, since, minClosePosition), bucket),
        DaysIn(before, since, minClosePosition, bucket), before, bars[n]);
    }
  }

  /** The largest counted move, and the latest day that reached it. */
  ghost predicate IsTopMove(bars: seq<DailyBar>, since: Option<int>, minClosePosition: Option<real>, c: Counts,
      i: int)
  {
    && CountsAt(bars, since, minClosePosition, i)
    && c.maxMove == Some(MoveAt(bars, i)) && c.maxDate == Some(bars[i].date)
    && (forall j :: CountsAt(bars, since, minClosePosition, j) ==> MoveAt(bars, j) <= MoveAt(bars, i))
    && (forall j :: CountsAt(bars, since, minClosePosition, j) && i < j ==> MoveAt(bars, j) < MoveAt(bars, i))
  }

  lemma {:induction false} TopMoveMeans(bars: seq<DailyBar>, since: Option<int>, minClosePosition: Option<real>)
    returns (top: int)
    ensures
      var c := Tallied(bars, since, minClosePosition);
      if exists i :: CountsAt(bars, since, minClosePosition, i) then IsTopMove(bars, since, minClosePosition, c, top)
      else c.maxMove.None? && c.maxDate.None?
  {
    top := 0;
    if |bars| > 1 {
      var n := |bars| - 1;
      var before, c := bars[..n], Tallied(bars, since, minClosePosition);
      top := TopMoveMeans(before, since, minClosePosition);
      assert bars == before + [bars[n]];
      TalliedSnoc(before, bars[n], since, minClosePosition);
      forall i | 1 <= i < n
        ensures CountsAt(bars, since, minClosePosition, i) == CountsAt(before, since, minClosePosition, i)
      {
      }
      forall i | CountsAt(before, since, minClosePosition, i) ensures MoveAt(bars, i) == MoveAt(before, i) {
      }
      var known := Tallied(before, since, minClosePosition).maxMove;
      if CountsAt(bars, since, minClosePosition, n) && (known.None? || MoveAt(bars, n) >= known.value) {
        top := n;
      }
      assert forall i :: CountsAt(bars, since, minClosePosition, i) ==>
        i == n || CountsAt(before, since, minClosePosition, i);
    }
  }

  // --- the score -------------------------------------------------------------------------------------------

  /** Python's `round`: to the nearest integer, a tie to the even one. */
  function RoundHalfEven(x: real): (n: int)
    ensures n as real - 0.5 <= x <= n as real + 0.5
    ensures x == n as real + 0.5 || x == n as real - 0.5 ==> n % 2 == 0
  {
    var floor := x.Floor;
    var rest := x - floor as real;
    if rest < 0.5 then floor
    else if rest > 0.5 then floor + 1
    else if floor % 2 == 0 then floor
    else floor + 1
  }

  datatype Strength = Strong | Moderate | Weak

  function Classify(power: int): Strength {
    if power >= STRONG_POWER then Strong else if power >= MODERATE_POWER then Moderate else Weak
  }

  datatype BurstScoreResult = BurstScoreResult(power: int, counts: Counts, classification: Strength)

  function ResultOf(c: Counts): BurstScoreResult {
    var power := RoundHalfEven(
      c.five.count as real / 5.0 + c.ten.count as real / 2.0 + c.nineteen.count as real / 0.5);
    BurstScoreResult(power, c, Classify(power))
  }

  /** In tenths: 2 for each day of 5%, 5 for one of 10%, 20 for one of 19%, rounded to whole points, ties to even. */
  lemma PowerMeans(c: Counts)
    ensures
      var r, tenths := ResultOf(c), 2 * c.five.count + 5 * c.ten.count + 20 * c.nineteen.count;
      && tenths - 5 <= 10 * r.power <= tenths + 5
      && (10 * r.power == tenths - 5 || 10 * r.power == tenths + 5 ==> r.power % 2 == 0)
      && (r.classification.Strong? <==> r.power >= 15) && (r.classification.Weak? <==> r.power < 10)
  {
    var x := c.five.count as real / 5.0 + c.ten.count as real / 2.0 + c.nineteen.count as real / 0.5;
    var n := RoundHalfEven(x);
    assert 10.0 * x == (2 * c.five.count + 5 * c.ten.count + 20 * c.nineteen.count) as real;
    assert 10.0 * n as real == (10 * n) as real;
  }

  /** The score after one more bar, from the earlier score alone. */
  method ExtendBurstScore(result: BurstScoreResult, prevClose: real, bar: DailyBar, minClosePosition: Option<real>)
    returns (extended: BurstScoreResult)
    ensures extended == Extended(result, prevClose, bar, minClosePosition)
  {
    var tally := new Tally(result.counts);
    tally.Add(prevClose, bar, minClosePosition);
    extended := ResultOf(tally.Counted());
  }

  function Extended(result: BurstScoreResult, prevClose: real, bar: DailyBar, minClosePosition: Option<real>)
    : BurstScoreResult
  {
    ResultOf(Added(result.counts, prevClose, bar, minClosePosition))
  }

  function BurstOf(bars: seq<DailyBar>, since: Option<int>, minClosePosition: Option<real>): BurstScoreResult {
    ResultOf(Tallied(bars, since, minClosePosition))
  }

  method ComputeBurstScore(bars: seq<DailyBar>, lookbackDays: Option<int>, minClosePosition: Option<real>,
      since: Option<int>)
    returns (result: BurstScoreResult)
    ensures result == BurstOf(
      if lookbackDays.None? then bars else FromEnd(bars, lookbackDays.value), since, minClosePosition)
  {
    var window := if lookbackDays.None? then bars else FromEnd(bars, lookbackDays.value);
    var tally := new Tally(NO_COUNTS);
    if window != [] {
      for i := 1 to |window|
        invariant tally.Counted() == Tallied(window[..i], since, minClosePosition)
      {
        TalliedMore(window, i, since, minClosePosition);
        if InWindow(window[i].date, since) {
          tally.Add(window[i - 1].close, window[i], minClosePosition);
        }
      }
      assert window[..|window|] == window;
    }
    result := ResultOf(tally.Counted());
  }

  /** A day inside the window extends the score to what a rescan of the longer history gives; an older one leaves it. */
  lemma ExtendIsRecompute(bars: seq<DailyBar>, bar: DailyBar, since: Option<int>, minClosePosition: Option<real>)
    requires bars != []
    ensures BurstOf(bars + [bar], since, minClosePosition) ==
      if InWindow(bar.date, since) then
        Extended(BurstOf(bars, since, minClosePosition), bars[|bars| - 1].close, bar, minClosePosition)
      else BurstOf(bars, since, minClosePosition)
  {
    TalliedSnoc(bars, bar, since, minClosePosition);
  }
}
