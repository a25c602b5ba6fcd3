/** src/swingdash/domain/metrics/ema.py: the exponential moving average. */
module Ema {
  import opened Wrappers

  function Total(values: seq<real>): real {
    if values == [] then 0.0 else Total(values[..|values| - 1]) + values[|values| - 1]
  }

  function Alpha(length: pos): real {
    2.0 / (length + 1) as real
  }

  function Mean(values: seq<real>): real
    requires values != []
  {
    Total(values) / |values| as real
  }

  function Scaled(step: real, alpha: real): real {
    step * alpha
  }

  /** One step of the recurrence. */
  function Smooth(prev: real, value: real, length: pos): real {
    Scaled(value - prev, Alpha(length)) + prev
  }

  /** One step weighs the new value twice against `length - 1` times the average so far. */
  lemma SmoothWeights(prev: real, value: real, length: pos)
    ensures Smooth(prev, value, length) * (length + 1) as real == 2.0 * value + (length - 1) as real * prev
  {
    var parts := (length + 1) as real;
    assert Alpha(length) * parts == 2.0;
    assert Scaled(value - prev, Alpha(length)) * parts == (value - prev) * (Alpha(length) * parts);
  }

  /** The average of all of `values`: the mean of the first `length` of them, smoothed by the others. */
  function EmaOf(values: seq<real>, length: pos): Option<real> {
    if |values| < length then None
    else if |values| == length then Some(Mean(values))
    else
      var prev := EmaOf(values[..|values| - 1], length);
      if prev.None? then None else Some(Smooth(prev.value, values[|values| - 1], length))
  }

  lemma {:induction false} EmaDefined(values: seq<real>, length: pos)
    ensures EmaOf(values, length).Some? <==> |values| >= length
  {
    if |values| > length {
      EmaDefined(values[..|values| - 1], length);
    }
  }

  lemma EmaSnoc(values: seq<real>, value: real, length: pos)
    ensures |values| + 1 == length ==> EmaOf(values + [value], length) == Some((Total(values) + value) / length as real)
    ensures |values| >= length ==>
      EmaOf(values, length).Some? &&
        EmaOf(values + [value], length) == Some(Smooth(EmaOf(values, length).value, value, length))
  {
    EmaDefined(values, length);
    assert (values + [value])[..|values|] == values;
  }

  // --- what the average means ----------------------------------------------------------------------

  lemma {:induction false} TotalBounds(values: seq<real>, low: real, high: real)
    requires forall i :: 0 <= i < |values| ==> low <= values[i] <= high
    ensures low * |values| as real <= Total(values) <= high * |values| as real
  {
    if values != [] {
      TotalBounds(values[..|values| - 1], low, high);
    }
  }

  lemma MeanBounds(total: real, n: pos, low: real, high: real)
    requires low * n as real <= total <= high * n as real
    ensures low <= total / n as real <= high
  {}

  lemma Shrinks(step: real, alpha: real)
    requires 0.0 <= alpha <= 1.0
    ensures 0.0 <= step ==> 0.0 <= Scaled(step, alpha) <= step
    ensures step <= 0.0 ==> step <= Scaled(step, alpha) <= 0.0
  {
    var rest := 1.0 - alpha;
    assert step * alpha + step * rest == step;
    if 0.0 <= step {
      assert 0.0 <= step * alpha;
      assert 0.0 <= step * rest;
    } else {
      assert step * alpha <= 0.0;
      assert step * rest <= 0.0;
    }
  }

  lemma SmoothWithin(prev: real, value: real, length: pos, low: real, high: real)
    requires low <= prev <= high && low <= value <= high
    ensures low <= Smooth(prev, value, length) <= high
  {
    Shrinks(value - prev, Alpha(length));
  }

  /** The average never leaves the range of the values behind it. */
  lemma {:induction false} EmaWithinRange(values: seq<real>, length: pos, low: real, high: real)
    requires |values| >= length && forall i :: 0 <= i < |values| ==> low <= values[i] <= high
    ensures EmaOf(values, length).Some? && low <= EmaOf(values, length).value <= high
  {
    if |values| == length {
      TotalBounds(values, low, high);
      MeanBounds(Total(values), length, low, high);
    } else {
      var before := values[..|values| - 1];
      EmaWithinRange(before, length, low, high);
      SmoothWithin(EmaOf(before, length).value, values[|values| - 1], length, low, high);
    }
  }

  // --- the loop --------------------------------------------------------------------------------------

  /** Entry `i` is the average of the first `i + 1` values; none before the seed. */
  method ComputeEmaSeries(values: seq<real>, length: int) returns (series: Result<seq<Option<real>>, string>)
    ensures series.Err? <==> length <= 0
    ensures series.Ok? ==> |series.value| == |values|
    ensures series.Ok? ==> forall i :: 0 <= i < |values| ==> series.value[i] == EmaOf(values[..i + 1], length)
  {
    if length <= 0 {
      return Err("length must be positive");
    }
    if |values| < length {
      return Ok(seq(|values|, _ => None));
    }
    var entries: seq<Option<real>> := seq(length - 1, _ => None);
    var prev := Mean(values[..length]);
    entries := entries + [Some(prev)];
    for n := length to |values|
      invariant |entries| == n
      invariant forall i :: 0 <= i < n ==> entries[i] == EmaOf(values[..i + 1], length)
      invariant EmaOf(values[..n], length) == Some(prev)
    {
      assert values[..n + 1] == values[..n] + [values[n]];
      EmaSnoc(values[..n], values[n], length);
      prev := Scaled(values[n] - prev, Alpha(length)) + prev;
      entries := entries + [Some(prev)];
    }
    series := Ok(entries);
  }

  /** The latest entry of the series. */
  method ComputeEma(values: seq<real>, length: int) returns (ema: Result<Option<real>, string>)
    ensures ema.Err? <==> length <= 0
    ensures ema.Ok? ==> ema.value == EmaOf(values, length)
  {
    var series := ComputeEmaSeries(values, length);
    if series.Err? {
      return Err(series.error);
    }
    assert values[..|values|] == values;
    ema := Ok(if series.value == [] then None else series.value[|series.value| - 1]);
  }
}
