/** `interpret_light_on_times` in multiroom_model/room_inchempy_evolver.py:
    turning a room's light-switch series into the list of intervals during
    which the light is on. */
module LightSchedule {
  import opened Wrappers
  import TimeDependent

  /** The intervals the loop emits from the first `n` samples: sample `i`
      with value 1 gives `[times[i], times[i + 1]]`. */
  function OnIntervals(s: seq<(real, real)>, n: nat): seq<(real, real)>
    requires n < |s|
  {
    if n == 0 then []
    else OnIntervals(s, n - 1) + (if s[n - 1].1 == 1.0 then [(s[n - 1].0, s[n].0)] else [])
  }

  /** The samples among the first `n` whose value is 1, in order. */
  function OnIndices(s: seq<(real, real)>, n: nat): (r: seq<nat>)
    requires n <= |s|
    ensures forall k :: 0 <= k < |r| ==> r[k] < n && s[r[k]].1 == 1.0
    ensures forall i :: 0 <= i < n && s[i].1 == 1.0 ==> i in r
    ensures forall k, l :: 0 <= k < l < |r| ==> r[k] < r[l]
    ensures |r| <= n
  {
    if n == 0 then []
    else OnIndices(s, n - 1) + (if s[n - 1].1 == 1.0 then [n - 1] else [])
  }

  /** One interval per switched-on sample before the last, in order, from
      that sample's time to the next sample's time. */
  lemma {:induction false} OnIntervalsFaithful(s: seq<(real, real)>, n: nat)
    requires n < |s|
    ensures |OnIntervals(s, n)| == |OnIndices(s, n)|
    ensures forall k :: 0 <= k < |OnIntervals(s, n)| ==>
      OnIntervals(s, n)[k] == (s[OnIndices(s, n)[k]].0, s[OnIndices(s, n)[k] + 1].0)
  {
    if n > 0 {
      OnIntervalsFaithful(s, n - 1);
    }
  }

  /** The function as written: a switched-on last sample appends an
      interval from its time to the first sample's value plus an hour;
      an empty series indexes past the end. */
  function LightOnTimesAsWritten(v: TimeDependent.TimeDependentValue): Result<seq<(real, real)>>
  {
    if |v.samples| == 0 then Err("IndexError: list index out of range")
    else
      var loop := OnIntervals(v.samples, |v.samples| - 1);
      var last := v.samples[|v.samples| - 1];
      if last.1 == 1.0 then Ok(loop + [(last.0, v.samples[0].1 + 3600.0)]) else Ok(loop)
  }

  /** The evidently intended function: the last switched-on sample keeps
      the light on for an hour after its own time. */
  function LightOnTimes(v: TimeDependent.TimeDependentValue): Result<seq<(real, real)>>
  {
    if |v.samples| == 0 then Err("IndexError: list index out of range")
    else
      var loop := OnIntervals(v.samples, |v.samples| - 1);
      var last := v.samples[|v.samples| - 1];
      if last.1 == 1.0 then Ok(loop + [(last.0, last.0 + 3600.0)]) else Ok(loop)
  }

  /** What both versions share: no more intervals than samples, the loop's
      intervals in front, and a last interval starting at the last time
      exactly when the last value is 1. */
  lemma LightOnShape(v: TimeDependent.TimeDependentValue)
    requires |v.samples| > 0
    ensures LightOnTimesAsWritten(v).Ok? && LightOnTimes(v).Ok?
    ensures |LightOnTimesAsWritten(v).value| <= |v.samples|
    ensures |LightOnTimes(v).value| == |LightOnTimesAsWritten(v).value|
    ensures var n := |v.samples|; var loop := OnIntervals(v.samples, n - 1);
      (v.samples[n - 1].1 == 1.0 <==> |LightOnTimesAsWritten(v).value| == |loop| + 1) &&
      LightOnTimesAsWritten(v).value[..|loop|] == loop &&
      LightOnTimes(v).value[..|loop|] == loop &&
      (v.samples[n - 1].1 == 1.0 ==>
        LightOnTimesAsWritten(v).value[|loop|] == (v.samples[n - 1].0, v.samples[0].1 + 3600.0) &&
        LightOnTimes(v).value[|loop|] == (v.samples[n - 1].0, v.samples[n - 1].0 + 3600.0))
  {
    OnIntervalsFaithful(v.samples, |v.samples| - 1);
  }

  /** With strictly increasing times, every interval the loop emits starts
      before it ends. */
  lemma LoopIntervalsOrdered(v: TimeDependent.TimeDependentValue)
    requires TimeDependent.Valid(v)
    ensures var loop := OnIntervals(v.samples, |v.samples| - 1);
      forall k :: 0 <= k < |loop| ==> loop[k].0 < loop[k].1
  {
    OnIntervalsFaithful(v.samples, |v.samples| - 1);
  }

  /** The intended function emits only intervals that start before they
      end, the final one included. */
  lemma IntervalsOrdered(v: TimeDependent.TimeDependentValue)
    requires TimeDependent.Valid(v)
    ensures LightOnTimes(v).Ok?
    ensures forall k :: 0 <= k < |LightOnTimes(v).value| ==> LightOnTimes(v).value[k].0 < LightOnTimes(v).value[k].1
  {
    LoopIntervalsOrdered(v);
    LightOnShape(v);
  }

  /** As written, a light switched off at 0 and on at 3600 gives the empty
      interval [3600, 3600], and one on at 0 and 7200 ends the last interval
      at 3601, before it starts. */
  lemma LastIntervalCounterexample()
    ensures LightOnTimesAsWritten(TimeDependent.TimeDependentValue([(0.0, 0.0), (3600.0, 1.0)], false)) ==
            Ok([(3600.0, 3600.0)])
    ensures LightOnTimesAsWritten(TimeDependent.TimeDependentValue([(0.0, 1.0), (7200.0, 1.0)], false)) ==
            Ok([(0.0, 7200.0), (7200.0, 3601.0)])
    ensures TimeDependent.Valid(TimeDependent.TimeDependentValue([(0.0, 1.0), (7200.0, 1.0)], false))
  {
    var off: seq<(real, real)> := [(0.0, 0.0), (3600.0, 1.0)];
    assert OnIntervals(off, 1) == [];
    assert [] + [(3600.0, 0.0 + 3600.0)] == [(3600.0, 3600.0)];
    var on: seq<(real, real)> := [(0.0, 1.0), (7200.0, 1.0)];
    assert OnIntervals(on, 1) == [] + [(0.0, 7200.0)];
    assert [] + [(0.0, 7200.0)] == [(0.0, 7200.0)];
    assert [(0.0, 7200.0)] + [(7200.0, 1.0 + 3600.0)] == [(0.0, 7200.0), (7200.0, 3601.0)];
  }

  /** `interpret_light_on_times`; `endOfTotalIntegration` is accepted and,
      as in the source, not used. */
  method InterpretLightOnTimes(v: TimeDependent.TimeDependentValue, endOfTotalIntegration: real)
    returns (r: Result<seq<(real, real)>>)
    ensures r == LightOnTimesAsWritten(v)
  {
    var lightOnTimes: seq<(real, real)> := [];
    var i := 0;
    while i < |v.samples| - 1
      invariant 0 <= i && (|v.samples| > 0 ==> i <= |v.samples| - 1)
      invariant |v.samples| > 0 ==> lightOnTimes == OnIntervals(v.samples, i)
      invariant |v.samples| == 0 ==> lightOnTimes == [] && i == 0
    {
      if v.samples[i].1 == 1.0 {
        lightOnTimes := lightOnTimes + [(v.samples[i].0, v.samples[i + 1].0)];
      }
      i := i + 1;
    }
    if |v.samples| == 0 {
      return Err("IndexError: list index out of range");
    }
    if v.samples[|v.samples| - 1].1 == 1.0 {
      lightOnTimes := lightOnTimes + [(v.samples[|v.samples| - 1].0, v.samples[0].1 + 3600.0)];
    }
    return Ok(lightOnTimes);
  }
}
