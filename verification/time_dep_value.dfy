/** multiroom_model/time_dep_value.py: a variable sampled at strictly increasing
    times, read back either by linear interpolation or as a step function. */
module TimeDependent {
  import opened Wrappers

  /** The stored `(time, value)` pairs and the interpolation flag. */
  datatype TimeDependentValue = TimeDependentValue(samples: seq<(real, real)>, continuous: bool)

  /** Every adjacent pair of samples has strictly increasing times. */
  predicate TimesIncreasing(s: seq<(real, real)>) {
    forall i :: 0 <= i < |s| - 1 ==> s[i].0 < s[i + 1].0
  }

  /** The validation loop of the constructor, from index `i` onwards. */
  function InOrderFrom(s: seq<(real, real)>, i: nat): (r: bool)
    requires i <= |s|
    ensures r <==> forall j :: i <= j < |s| - 1 ==> s[j].0 < s[j + 1].0
    decreases |s| - i
  {
    if i + 1 >= |s| then true
    else if s[i].0 >= s[i + 1].0 then false
    else InOrderFrom(s, i + 1)
  }

  /** The constructor: rejects an empty list, then any adjacent pair whose
      times do not strictly increase. */
  function Make(values: seq<(real, real)>, continuous: bool): (r: Result<TimeDependentValue>)
    ensures |values| == 0 ==> r == Err("no times provided")
    ensures |values| > 0 && !TimesIncreasing(values) ==> r == Err("times were not in order")
    ensures r.Ok? <==> |values| > 0 && TimesIncreasing(values)
    ensures r.Ok? ==> r.value.samples == values && r.value.continuous == continuous
  {
    if |values| == 0 then Err("no times provided")
    else if !InOrderFrom(values, 0) then Err("times were not in order")
    else Ok(TimeDependentValue(values, continuous))
  }

  /** What a successful construction guarantees about the stored samples. */
  predicate Valid(v: TimeDependentValue) {
    |v.samples| > 0 && TimesIncreasing(v.samples)
  }

  /** `times()`: the first component of every stored pair, in order. */
  function Times(v: TimeDependentValue): (r: seq<real>)
    ensures |r| == |v.samples|
    ensures forall i :: 0 <= i < |r| ==> r[i] == v.samples[i].0
  {
    seq(|v.samples|, i requires 0 <= i < |v.samples| => v.samples[i].0)
  }

  /** `values()`: the second component of every stored pair, in order. */
  function Values(v: TimeDependentValue): (r: seq<real>)
    ensures |r| == |v.samples|
    ensures forall i :: 0 <= i < |r| ==> r[i] == v.samples[i].1
  {
    seq(|v.samples|, i requires 0 <= i < |v.samples| => v.samples[i].1)
  }

  /** The first loop of `value_at_time`: the first index whose time equals `t`. */
  function ExactIndex(s: seq<(real, real)>, t: real, i: nat): (r: Option<nat>)
    requires i <= |s|
    ensures r.Some? ==> i <= r.value < |s| && s[r.value].0 == t
    ensures r.Some? ==> forall j :: i <= j < r.value ==> s[j].0 != t
    ensures r.None? ==> forall j :: i <= j < |s| ==> s[j].0 != t
    decreases |s| - i
  {
    if i == |s| then None
    else if s[i].0 == t then Some(i)
    else ExactIndex(s, t, i + 1)
  }

  /** The second loop of `value_at_time`: the first `i` with `t` in `[t_i, t_(i+1)]`. */
  function BracketIndex(s: seq<(real, real)>, t: real, i: nat): (r: Option<nat>)
    requires i <= |s|
    ensures r.Some? ==> i <= r.value && r.value + 1 < |s| && s[r.value].0 <= t <= s[r.value + 1].0
    ensures r.Some? ==> forall j :: i <= j < r.value ==> !(s[j].0 <= t <= s[j + 1].0)
    ensures r.None? ==> forall j :: i <= j < |s| - 1 ==> !(s[j].0 <= t <= s[j + 1].0)
    decreases |s| - i
  {
    if i + 1 >= |s| then None
    else if s[i].0 <= t <= s[i + 1].0 then Some(i)
    else BracketIndex(s, t, i + 1)
  }

  /** Linear interpolation between two samples, as written in the source. */
  function Interpolate(t0: real, v0: real, t1: real, v1: real, t: real): real
    requires t0 != t1
  {
    v0 + (v1 - v0) * (t - t0) / (t1 - t0)
  }

  /** `value_at_time`: range checks, exact sample, bracketing interval, and
      the final "Invalid time" exception. */
  function ValueAtTime(v: TimeDependentValue, t: real): (r: Result<real>)
    requires |v.samples| > 0
    ensures t < v.samples[0].0 ==> r == Err("Time is too early")
    ensures v.samples[0].0 <= t && t > v.samples[|v.samples| - 1].0 ==> r == Err("Time is too late")
  {
    var s := v.samples;
    if t < s[0].0 then Err("Time is too early")
    else if t > s[|s| - 1].0 then Err("Time is too late")
    else match ExactIndex(s, t, 0)
      case Some(k) => Ok(s[k].1)
      case None =>
        match BracketIndex(s, t, 0)
        case Some(i) =>
          // t equals neither end, so the interval has positive length
          if v.continuous then Ok(Interpolate(s[i].0, s[i].1, s[i + 1].0, s[i + 1].1, t))
          else Ok(s[i].1)
        case None => Err("Invalid time")
  }

  /** A sample time of a valid value reads back its own stored value. */
  lemma ExactTimeReturnsSample(v: TimeDependentValue, k: nat)
    requires Valid(v) && k < |v.samples|
    ensures ValueAtTime(v, v.samples[k].0) == Ok(v.samples[k].1)
  {
    var s := v.samples;
    TimesStrictlyOrdered(s, 0, k);
    TimesStrictlyOrdered(s, k, |s| - 1);
    var e := ExactIndex(s, s[k].0, 0);
    if e.Some? && e.value < k {
      TimesStrictlyOrdered(s, e.value, k);
    }
  }

  /** In a strictly increasing sequence, times at increasing indices increase. */
  lemma {:induction false} TimesStrictlyOrdered(s: seq<(real, real)>, i: nat, j: nat)
    requires TimesIncreasing(s) && i <= j < |s|
    ensures i < j ==> s[i].0 < s[j].0
    ensures s[i].0 <= s[j].0
    decreases j - i
  {
    if i < j { TimesStrictlyOrdered(s, i + 1, j); }
  }

  /** Strictly between two consecutive samples: continuous mode interpolates,
      step mode returns the left sample's value. */
  lemma BetweenSamples(v: TimeDependentValue, i: nat, t: real)
    requires Valid(v) && i + 1 < |v.samples|
    requires v.samples[i].0 < t < v.samples[i + 1].0
    ensures v.continuous ==> ValueAtTime(v, t) == Ok(Interpolate(v.samples[i].0, v.samples[i].1, v.samples[i + 1].0, v.samples[i + 1].1, t))
    ensures !v.continuous ==> ValueAtTime(v, t) == Ok(v.samples[i].1)
  {
    var s := v.samples;
    TimesStrictlyOrdered(s, 0, i);
    TimesStrictlyOrdered(s, i + 1, |s| - 1);
    forall j | 0 <= j < |s| ensures s[j].0 != t {
      if j <= i { TimesStrictlyOrdered(s, j, i); } else { TimesStrictlyOrdered(s, i + 1, j); }
    }
    var b := BracketIndex(s, t, 0);
    assert s[i].0 <= t <= s[i + 1].0;
    if b.value < i { TimesStrictlyOrdered(s, b.value + 1, i); }
  }

  /** The interpolated value lies between the two sample values. */
  lemma InterpolationBounded(t0: real, v0: real, t1: real, v1: real, t: real)
    requires t0 < t < t1
    ensures v0 <= v1 ==> v0 <= Interpolate(t0, v0, t1, v1, t) <= v1
    ensures v1 <= v0 ==> v1 <= Interpolate(t0, v0, t1, v1, t) <= v0
  {
    var d := t1 - t0;
    var f := (t - t0) / d;
    assert f * d == t - t0;
    FractionBelowOne(t - t0, d);
    assert (v1 - v0) * (t - t0) / d == (v1 - v0) * f;
    ScaleByFraction(v1 - v0, f);
  }

  /** `a / d` lies in `(0, 1)` when `0 < a < d`. */
  lemma FractionBelowOne(a: real, d: real)
    requires 0.0 < a < d
    ensures 0.0 < a / d < 1.0
  {
    assert d / d == 1.0;
    assert a / d < d / d;
  }

  /** Scaling by a fraction in `(0, 1)` keeps a quantity between zero and itself. */
  lemma ScaleByFraction(x: real, f: real)
    requires 0.0 < f < 1.0
    ensures x >= 0.0 ==> 0.0 <= x * f <= x
    ensures x <= 0.0 ==> x <= x * f <= 0.0
  {
  }

  /** For a validly constructed value, every time inside the sampled range is
      answered: the "Invalid time" exception cannot be reached. */
  lemma InRangeAlwaysAnswered(v: TimeDependentValue, t: real)
    requires Valid(v)
    requires v.samples[0].0 <= t <= v.samples[|v.samples| - 1].0
    ensures ValueAtTime(v, t).Ok?
  {
    var s := v.samples;
    if ExactIndex(s, t, 0).None? {
      // find the last sample at or before t; t lies in the next interval
      var k := LastAtOrBefore(s, t);
      assert k + 1 < |s|;
      assert s[k].0 <= t <= s[k + 1].0;
    }
  }

  /** The index of the last sample whose time is at most `t`, when that is not the last sample. */
  lemma LastAtOrBefore(s: seq<(real, real)>, t: real) returns (k: nat)
    requires |s| > 0 && s[0].0 <= t < s[|s| - 1].0
    ensures k + 1 < |s| && s[k].0 <= t < s[k + 1].0
  {
    k := 0;
    while s[k + 1].0 <= t
      invariant k + 1 < |s| && s[k].0 <= t
      decreases |s| - k
    {
      k := k + 1;
    }
  }

  /** The source's own example: samples (0,0),(1,10),(2,20),(3,30) read 5 at t = 0.5
      when continuous and 0 when stepwise. */
  lemma HalfwayExample()
    ensures ValueAtTime(TimeDependentValue([(0.0, 0.0), (1.0, 10.0), (2.0, 20.0), (3.0, 30.0)], true), 0.5) == Ok(5.0)
    ensures ValueAtTime(TimeDependentValue([(0.0, 0.0), (1.0, 10.0), (2.0, 20.0), (3.0, 30.0)], false), 0.5) == Ok(0.0)
  {
    BetweenSamples(TimeDependentValue([(0.0, 0.0), (1.0, 10.0), (2.0, 20.0), (3.0, 30.0)], true), 0, 0.5);
    BetweenSamples(TimeDependentValue([(0.0, 0.0), (1.0, 10.0), (2.0, 20.0), (3.0, 30.0)], false), 0, 0.5);
  }
}
