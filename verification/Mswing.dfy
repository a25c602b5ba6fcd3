/**
 * src/swingdash/domain/metrics/mswing.py: the Mswing score, prepared once from the completed history and
 * then updated in constant time by a live price.
 */
module Mswing {
  import opened Wrappers
  import opened Ema

  const LENGTH_SHORT: pos := 20
  const LENGTH_LONG: pos := 50
  const DEFAULT_EMA_LENGTH: pos := 9

  datatype Settings = Settings(short: pos, long: pos, ema: pos, ipoAdjusted: bool)

  const DEFAULTS := Settings(LENGTH_SHORT, LENGTH_LONG, DEFAULT_EMA_LENGTH, true)

  /** The distance from bar `index` to the bar its momentum is measured from; none before the first. */
  function Span(index: int, length: pos, ipoAdjusted: bool): (span: Option<int>)
    ensures span.Some? ==> 1 <= span.value <= length && span.value <= index
    ensures span.Some? && span.value < length ==> ipoAdjusted && span.value == index
    ensures span.None? <==> index < 1 || (!ipoAdjusted && index < length)
  {
    if index < 1 then None
    else
      var actual := if ipoAdjusted then Min(length, index) else length;
      if index < actual then None else Some(actual)
  }

  function Momentum(close: real, past: real, span: pos): real {
    if past == 0.0 then 0.0 else (close - past) * 100.0 / past / span as real
  }

  /** Growing the past close by the momentum of every bar in between gives the close; no past, no momentum. */
  lemma MomentumMeans(close: real, past: real, span: pos)
    ensures past != 0.0 ==> past * (1.0 + Momentum(close, past, span) * span as real / 100.0) == close
    ensures past == 0.0 ==> Momentum(close, past, span) == 0.0
  {
    if past != 0.0 {
      var change := (close - past) * 100.0 / past;
      assert change / span as real * span as real == change;
      assert change * past == (close - past) * 100.0;
    }
  }

  /** The two closes momentum compares, and how far apart they are. */
  datatype Look = Look(close: real, past: real, span: pos)

  function MomentumOf(look: Option<Look>): Option<real> {
    if look.None? then None else Some(Momentum(look.value.close, look.value.past, look.value.span))
  }

  function LookAt(closes: seq<real>, index: nat, length: pos, ipoAdjusted: bool): Option<Look>
    requires index < |closes|
  {
    var span := Span(index, length, ipoAdjusted);
    if span.None? then None else Some(Look(closes[index], closes[index - span.value], span.value))
  }

  function MomentumAt(closes: seq<real>, index: nat, length: pos, ipoAdjusted: bool): Option<real>
    requires index < |closes|
  {
    MomentumOf(LookAt(closes, index, length, ipoAdjusted))
  }

  function Add(short: Option<real>, long: Option<real>): Option<real> {
    if short.None? || long.None? then None else Some(short.value + long.value)
  }

  function ScoreAt(closes: seq<real>, index: nat, s: Settings): Option<real>
    requires index < |closes|
  {
    Add(MomentumAt(closes, index, s.short, s.ipoAdjusted), MomentumAt(closes, index, s.long, s.ipoAdjusted))
  }

  function Listed(score: Option<real>): seq<real> {
    if score.None? then [] else [score.value]
  }

  /** The scores of the first `n` bars that have one. */
  function Scores(closes: seq<real>, n: nat, s: Settings): seq<real>
    requires n <= |closes|
  {
    if n == 0 then [] else Scores(closes, n - 1, s) + Listed(ScoreAt(closes, n - 1, s))
  }

  datatype Value = Value(score: Option<real>, short: Option<real>, long: Option<real>, ema: Option<real>)

  const NO_MSWING := Value(None, None, None, None)

  /** Mswing at the last bar, from the whole history. */
  function MswingOf(closes: seq<real>, s: Settings): Value {
    if closes == [] then NO_MSWING
    else
      var last := |closes| - 1;
      Value(
        ScoreAt(closes, last, s),
        MomentumAt(closes, last, s.short, s.ipoAdjusted),
        MomentumAt(closes, last, s.long, s.ipoAdjusted),
        EmaOf(Scores(closes, |closes|, s), s.ema))
  }

  /** The last `n` elements, or all of them. */
  function Tail<T>(s: seq<T>, n: nat): (t: seq<T>)
    ensures |t| == Min(n, |s|)
    ensures forall i :: 0 <= i < |t| ==> t[i] == s[|s| - |t| + i]
  {
    if n >= |s| then s else s[|s| - n..]
  }

  // --- live: a context prepared from history -------------------------------------------------------------

  /** What is kept of the completed bars to score a new close. */
  datatype Context = Context(
    barCount: nat,
    tailCloses: seq<real>,
    ema: Option<real>,
    scoreCount: nat,
    seedScores: seq<real>,
    last: Value,
    settings: Settings)

  /** The tail reaches as far back as a new bar can look. */
  predicate Reaches(ctx: Context) {
    |ctx.tailCloses| == Min(Max(ctx.settings.short, ctx.settings.long), ctx.barCount)
  }

  function Prepare(closes: seq<real>, s: Settings): (ctx: Context)
    ensures Reaches(ctx)
  {
    var scores := Scores(closes, |closes|, s);
    var ema := EmaOf(scores, s.ema);
    Context(
      |closes|,
      Tail(closes, Max(s.short, s.long)),
      ema,
      |scores|,
      if ema.None? && s.ema > 1 then Tail(scores, s.ema - 1) else [],
      MswingOf(closes, s),
      s)
  }

  /** The same look from bar `count` on, with only the tail of the closes before it. */
  function LiveLook(tail: seq<real>, count: nat, reach: pos, close: real, length: pos, ipoAdjusted: bool): Option<Look>
    requires |tail| == Min(reach, count) && length <= reach
  {
    var span := Span(count, length, ipoAdjusted);
    if span.None? then None else Some(Look(close, tail[|tail| - span.value], span.value))
  }

  function LiveMomentum(ctx: Context, close: real, length: pos): Option<real>
    requires Reaches(ctx) && length <= Max(ctx.settings.short, ctx.settings.long)
  {
    var s := ctx.settings;
    MomentumOf(LiveLook(ctx.tailCloses, ctx.barCount, Max(s.short, s.long), close, length, s.ipoAdjusted))
  }

  function LiveEma(ctx: Context, score: Option<real>): Option<real> {
    if score.None? then ctx.ema
    else if ctx.ema.Some? then Some(Smooth(ctx.ema.value, score.value, ctx.settings.ema))
    else if ctx.scoreCount + 1 >= ctx.settings.ema then
      Some(Total(Tail(ctx.seedScores + [score.value], ctx.settings.ema)) / ctx.settings.ema as real)
    else None
  }

  /** The score once `close` follows the completed bars; without a close, theirs. */
  function Live(ctx: Context, close: Option<real>): Value
    requires Reaches(ctx)
  {
    if close.None? then ctx.last
    else
      var short := LiveMomentum(ctx, close.value, ctx.settings.short);
      var long := LiveMomentum(ctx, close.value, ctx.settings.long);
      var score := Add(short, long);
      Value(score, short, long, LiveEma(ctx, score))
  }

  lemma LiveLookExact(closes: seq<real>, close: real, reach: pos, length: pos, ipoAdjusted: bool)
    requires length <= reach
    ensures LiveLook(Tail(closes, reach), |closes|, reach, close, length, ipoAdjusted)
         == LookAt(closes + [close], |closes|, length, ipoAdjusted)
  {
    var tail := Tail(closes, reach);
    var span := Span(|closes|, length, ipoAdjusted);
    if span.Some? {
      assert tail[|tail| - span.value] == closes[|closes| - span.value];
      assert (closes + [close])[|closes| - span.value] == closes[|closes| - span.value];
    }
  }

  lemma LiveMomentumExact(closes: seq<real>, close: real, s: Settings, length: pos)
    requires length <= Max(s.short, s.long)
    ensures LiveMomentum(Prepare(closes, s), close, length)
         == MomentumAt(closes + [close], |closes|, length, s.ipoAdjusted)
  {
    LiveLookExact(closes, close, Max(s.short, s.long), length, s.ipoAdjusted);
  }

  /** A score only looks back. */
  lemma {:induction false} ScoresLookBack(closes: seq<real>, close: real, n: nat, s: Settings)
    requires n <= |closes|
    ensures Scores(closes + [close], n, s) == Scores(closes, n, s)
  {
    if n > 0 {
      ScoresLookBack(closes, close, n - 1, s);
    }
  }

  lemma LiveEmaExact(scores: seq<real>, score: Option<real>, ctx: Context)
    requires ctx.ema == EmaOf(scores, ctx.settings.ema) && ctx.scoreCount == |scores|
    requires ctx.seedScores == if ctx.ema.None? && ctx.settings.ema > 1 then Tail(scores, ctx.settings.ema - 1) else []
    ensures LiveEma(ctx, score) == EmaOf(scores + Listed(score), ctx.settings.ema)
  {
    EmaDefined(scores, ctx.settings.ema);
    if score.None? {
      assert scores + Listed(score) == scores;
    } else {
      NextEma(scores, score.value, ctx);
    }
  }

  lemma NextEma(scores: seq<real>, score: real, ctx: Context)
    requires ctx.ema == EmaOf(scores, ctx.settings.ema) && ctx.scoreCount == |scores|
    requires ctx.seedScores == if ctx.ema.None? && ctx.settings.ema > 1 then Tail(scores, ctx.settings.ema - 1) else []
    ensures LiveEma(ctx, Some(score)) == EmaOf(scores + [score], ctx.settings.ema)
  {
    var length := ctx.settings.ema;
    EmaDefined(scores, length);
    EmaDefined(scores + [score], length);
    EmaSnoc(scores, score, length);
    if |scores| + 1 == length {
      assert ctx.seedScores == scores;
      var seed := scores + [score];
      assert Tail(seed, length) == seed;
      assert seed[..|seed| - 1] == scores;
    }
  }

  /**
   * A tick on the prepared context gives what recomputing the whole history with that close as one more
   * bar gives: score, both momenta and the average, before, at and after its seed.
   */
  lemma LiveIsRecompute(closes: seq<real>, close: real, s: Settings)
    ensures Live(Prepare(closes, s), Some(close)) == MswingOf(closes + [close], s)
    ensures Live(Prepare(closes, s), None) == MswingOf(closes, s)
  {
    LiveMomentumExact(closes, close, s, s.short);
    LiveMomentumExact(closes, close, s, s.long);
    ScoresLookBack(closes, close, |closes|, s);
    var ctx := Prepare(closes, s);
    var score := ScoreAt(closes + [close], |closes|, s);
    LiveEmaExact(Scores(closes, |closes|, s), score, ctx);
    assert |closes + [close]| - 1 == |closes|;
  }
}
