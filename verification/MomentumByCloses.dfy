/**
 * What a Mswing value says about the closes, stated without the functions that compute it: growth per bar,
 * the score as a sum, and the average by its own equations.
 */
module MomentumByCloses {
  import opened Wrappers
  import opened Ema
  import Sums
  import opened Mswing

  // --- momentum ----------------------------------------------------------------------------------

  /** Growing by `m` percent of the past close in each of the `n` bars leads from the past close to this one. */
  ghost predicate GrowsBy(m: real, past: real, close: real, n: pos) {
    if past == 0.0 then m == 0.0 else past * (1.0 + m * n as real / 100.0) == close
  }

  /**
   * The momentum at the last close: over `length` bars, or over all there are when a short history is
   * adjusted for; none at the first bar, or without enough bars.
   */
  ghost predicate IsMomentum(m: Option<real>, closes: seq<real>, length: pos, ipoAdjusted: bool)
    requires closes != []
  {
    var before := |closes| - 1;
    if before < 1 || (before < length && !ipoAdjusted) then m.None?
    else
      var n := Min(length, before);
      m.Some? && GrowsBy(m.value, closes[before - n], closes[before], n)
  }

  lemma MomentumIs(closes: seq<real>, length: pos, ipoAdjusted: bool)
    requires closes != []
    ensures IsMomentum(MomentumAt(closes, |closes| - 1, length, ipoAdjusted), closes, length, ipoAdjusted)
  {
    var before := |closes| - 1;
    var span := Span(before, length, ipoAdjusted);
    if span.Some? {
      MomentumMeans(closes[before], closes[before - span.value], span.value);
    }
  }

  // --- the score ----------------------------------------------------------------------------------

  /** The score at the last close: there when both momenta are, and then their sum. */
  ghost predicate IsScore(score: Option<real>, closes: seq<real>, s: Settings)
    requires closes != []
  {
    exists short, long ::
      && IsMomentum(short, closes, s.short, s.ipoAdjusted)
      && IsMomentum(long, closes, s.long, s.ipoAdjusted)
      && score == if short.Some? && long.Some? then Some(short.value + long.value) else None
  }

  lemma ScoreIs(closes: seq<real>, s: Settings)
    requires closes != []
    ensures IsScore(ScoreAt(closes, |closes| - 1, s), closes, s)
  {
    MomentumIs(closes, s.short, s.ipoAdjusted);
    MomentumIs(closes, s.long, s.ipoAdjusted);
    var short := MomentumAt(closes, |closes| - 1, s.short, s.ipoAdjusted);
    var long := MomentumAt(closes, |closes| - 1, s.long, s.ipoAdjusted);
    assert ScoreAt(closes, |closes| - 1, s)
      == if short.Some? && long.Some? then Some(short.value + long.value) else None;
  }

  /** Those that are there, in order. */
  function Present(all: seq<Option<real>>): seq<real> {
    if all == [] then []
    else
      var last := all[|all| - 1];
      Present(all[..|all| - 1]) + if last.Some? then [last.value] else []
  }

  /** One entry for each bar, each its score. */
  ghost predicate ScoreEach(each: seq<Option<real>>, closes: seq<real>, s: Settings) {
    |each| == |closes| && forall i :: 0 <= i < |closes| ==> IsScore(each[i], closes[..i + 1], s)
  }

  lemma ScoreOfPrefix(closes: seq<real>, i: nat, s: Settings)
    requires i < |closes|
    ensures IsScore(ScoreAt(closes, i, s), closes[..i + 1], s)
  {
    var prefix := closes[..i + 1];
    ScoreIs(prefix, s);
    LookSame(closes, prefix, i, s.short, s.ipoAdjusted);
    LookSame(closes, prefix, i, s.long, s.ipoAdjusted);
  }

  lemma LookSame(closes: seq<real>, prefix: seq<real>, i: nat, length: pos, ipoAdjusted: bool)
    requires i < |closes| && prefix == closes[..i + 1]
    ensures LookAt(closes, i, length, ipoAdjusted) == LookAt(prefix, i, length, ipoAdjusted)
  {}

  function ScoreEachAt(closes: seq<real>, n: nat, s: Settings): (each: seq<Option<real>>)
    requires n <= |closes|
    ensures |each| == n
  {
    seq(n, i requires 0 <= i < n => ScoreAt(closes, i, s))
  }

  lemma ScoresEach(closes: seq<real>, s: Settings)
    ensures ScoreEach(ScoreEachAt(closes, |closes|, s), closes, s)
  {
    forall i | 0 <= i < |closes| ensures IsScore(ScoreEachAt(closes, |closes|, s)[i], closes[..i + 1], s) {
      ScoreOfPrefix(closes, i, s);
    }
  }

  lemma {:induction false} ScoresPresent(closes: seq<real>, n: nat, s: Settings)
    requires n <= |closes|
    ensures Scores(closes, n, s) == Present(ScoreEachAt(closes, n, s))
  {
    if n > 0 {
      ScoresPresent(closes, n - 1, s);
      assert ScoreEachAt(closes, n, s)[..n - 1] == ScoreEachAt(closes, n - 1, s);
    }
  }

  // --- the average ---------------------------------------------------------------------------------

  function Same(x: real): real { x }

  /**
   * `length` times the first average is the sum of the first values; from then on, each weighs the new value
   * twice and the average before it `length - 1` times, out of `length + 1`.
   */
  ghost predicate IsEma(e: Option<real>, values: seq<real>, length: pos)
    decreases |values|
  {
    if |values| < length then e.None?
    else if |values| == length then e.Some? && e.value * length as real == Sums.Sum(Same, values)
    else
      exists before: Option<real> ::
        && IsEma(before, values[..|values| - 1], length)
        && before.Some? && e.Some?
        && e.value * (length + 1) as real == 2.0 * values[|values| - 1] + (length - 1) as real * before.value
  }

  lemma {:induction false} TotalIsSum(values: seq<real>)
    ensures Total(values) == Sums.Sum(Same, values)
  {
    if values != [] {
      TotalIsSum(values[..|values| - 1]);
    }
  }

  lemma MeanTimes(total: real, n: pos)
    ensures total / n as real * n as real == total
  {}

  lemma {:induction false} SeedIs(values: seq<real>, length: pos)
    requires |values| == length
    ensures IsEma(Some(Mean(values)), values, length)
  {
    TotalIsSum(values);
    MeanTimes(Total(values), length);
  }

  lemma {:induction false} NextIs(values: seq<real>, length: pos, before: real, now: real)
    requires |values| > length && IsEma(Some(before), values[..|values| - 1], length)
    requires now == Smooth(before, values[|values| - 1], length)
    ensures IsEma(Some(now), values, length)
  {
    SmoothWeights(before, values[|values| - 1], length);
  }

  lemma {:induction false} EmaIs(values: seq<real>, length: pos)
    ensures IsEma(EmaOf(values, length), values, length)
  {
    EmaDefined(values, length);
    if |values| == length {
      SeedIs(values, length);
    } else if |values| > length {
      var front := values[..|values| - 1];
      EmaIs(front, length);
      EmaDefined(front, length);
      NextIs(values, length, EmaOf(front, length).value, EmaOf(values, length).value);
    }
  }

  // --- the value ------------------------------------------------------------------------------------

  /** The average of the scores of all the bars that have one. */
  ghost predicate IsScoreEma(e: Option<real>, closes: seq<real>, s: Settings) {
    exists each :: ScoreEach(each, closes, s) && IsEma(e, Present(each), s.ema)
  }

  lemma ScoreEmaIs(closes: seq<real>, s: Settings)
    ensures IsScoreEma(EmaOf(Scores(closes, |closes|, s), s.ema), closes, s)
  {
    var each := ScoreEachAt(closes, |closes|, s);
    ScoresEach(closes, s);
    ScoresPresent(closes, |closes|, s);
    EmaIs(Present(each), s.ema);
  }

  /** What a value says about the history that ends with its last close. */
  ghost predicate IsMswing(v: Value, closes: seq<real>, s: Settings)
    requires closes != []
  {
    && IsMomentum(v.short, closes, s.short, s.ipoAdjusted)
    && IsMomentum(v.long, closes, s.long, s.ipoAdjusted)
    && v.score == (if v.short.Some? && v.long.Some? then Some(v.short.value + v.long.value) else None)
    && IsScoreEma(v.ema, closes, s)
  }

  /** The recomputed value says what it should about the whole history. */
  lemma MswingIs(closes: seq<real>, s: Settings)
    requires closes != []
    ensures IsMswing(MswingOf(closes, s), closes, s)
  {
    MomentumIs(closes, s.short, s.ipoAdjusted);
    MomentumIs(closes, s.long, s.ipoAdjusted);
    ScoreEmaIs(closes, s);
    ScoreSums(closes, s);
  }

  lemma ScoreSums(closes: seq<real>, s: Settings)
    requires closes != []
    ensures
      var v := MswingOf(closes, s);
      v.score == if v.short.Some? && v.long.Some? then Some(v.short.value + v.long.value) else None
  {}

  /** And so does the live one, about the history with the live close. */
  lemma LiveIs(closes: seq<real>, close: real, s: Settings)
    ensures IsMswing(Live(Prepare(closes, s), Some(close)), closes + [close], s)
    ensures closes != [] ==> IsMswing(Live(Prepare(closes, s), None), closes, s)
  {
    LiveIsRecompute(closes, close, s);
    MswingIs(closes + [close], s);
    if closes != [] {
      MswingIs(closes, s);
    }
  }
}
