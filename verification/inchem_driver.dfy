/** The bookkeeping of the INCHEM-Py driver, inchempy/modules/inchem_main.py,
    around the chemistry it integrates: the event flags that tell the
    integrator when lights or timed emissions switch, the surface
    area-to-volume ratios, the integration envelopes the run is cut into,
    the time of day used for photolysis, the daily repetition of the
    temperature series and the initial light and emission states. */
module InchemDriver {
  import opened Wrappers
  import opened RealSteps
  import PyOps
  import Surfaces

  const SecondsPerHour: real := 3600.0
  const SecondsPerDay: real := 86400.0

  // ---------------------------------------------------------------------
  // Event flags

  /** `i[0] <= t < i[1]` for one of the light intervals. */
  predicate LightOn(t: real, lights: seq<(real, real)>) {
    exists i :: 0 <= i < |lights| && lights[i].0 <= t < lights[i].1
  }

  /** Whether a timed emission `(start, end)` is under way at `t`. */
  predicate EmissionOn(t: real, emission: (real, real)) {
    emission.0 <= t < emission.1
  }

  /** `event_creator`: the first flag says whether a light is on at `t`;
      with timed emissions, one more flag per emission group, in the
      group's order, says whether that emission is under way. */
  method EventCreator(t: real, lightOnTimes: seq<(real, real)>, timedEmissions: bool,
                      emissionGroup: seq<(string, (real, real))>)
    returns (events: seq<bool>)
    ensures |events| == if timedEmissions then 1 + |emissionGroup| else 1
    ensures events[0] <==> LightOn(t, lightOnTimes)
    ensures timedEmissions ==> forall g :: 0 <= g < |emissionGroup| ==>
      (events[g + 1] <==> EmissionOn(t, emissionGroup[g].1))
  {
    events := [];
    var condition := false;
    var i := 0;
    while i < |lightOnTimes|
      invariant 0 <= i <= |lightOnTimes|
      invariant !condition
      invariant forall j :: 0 <= j < i ==> !(lightOnTimes[j].0 <= t < lightOnTimes[j].1)
    {
      if lightOnTimes[i].0 <= t < lightOnTimes[i].1 {
        condition := true;
        break;
      }
      i := i + 1;
    }
    events := events + [condition];
    if timedEmissions {
      var g := 0;
      while g < |emissionGroup|
        invariant 0 <= g <= |emissionGroup|
        invariant |events| == 1 + g && (events[0] <==> LightOn(t, lightOnTimes))
        invariant forall h :: 0 <= h < g ==> (events[h + 1] <==> EmissionOn(t, emissionGroup[h].1))
      {
        var emission := emissionGroup[g].1;
        if emission.0 <= t < emission.1 {
          condition := true;
        } else {
          condition := false;
        }
        events := events + [condition];
        g := g + 1;
      }
    }
  }

  // ---------------------------------------------------------------------
  // Initial light and emission states

  /** `i[0] <= t0 <= i[1]` for one of the light intervals: the initial state
      tests both ends. */
  predicate LightOnClosed(t: real, lights: seq<(real, real)>) {
    exists i :: 0 <= i < |lights| && lights[i].0 <= t <= lights[i].1
  }

  /** The loop that picks the initial lighting: on exactly when t0 lies in
      one of the light intervals, ends included. */
  method InitialLightState(t0: real, lightOnTimes: seq<(real, real)>) returns (condition: bool)
    ensures condition <==> LightOnClosed(t0, lightOnTimes)
  {
    condition := false;
    var i := 0;
    while i < |lightOnTimes|
      invariant 0 <= i <= |lightOnTimes|
      invariant !condition
      invariant forall j :: 0 <= j < i ==> !(lightOnTimes[j].0 <= t0 <= lightOnTimes[j].1)
    {
      if lightOnTimes[i].0 <= t0 <= lightOnTimes[i].1 {
        condition := true;
        break;
      }
      i := i + 1;
    }
  }

  /** The initial state of every timed emission: 1 when t0 lies in its
      interval, ends included, else 0. */
  function InitialTimedFlags(t0: real, emissionGroup: seq<(string, (real, real))>): (r: seq<(string, int)>)
    ensures |r| == |emissionGroup|
    ensures forall g :: 0 <= g < |r| ==>
      (r[g].0 == emissionGroup[g].0 &&
       (r[g].1 == 1 <==> emissionGroup[g].1.0 <= t0 <= emissionGroup[g].1.1) &&
       (r[g].1 == 0 <==> !(emissionGroup[g].1.0 <= t0 <= emissionGroup[g].1.1)))
  {
    seq(|emissionGroup|, g requires 0 <= g < |emissionGroup| =>
      (emissionGroup[g].0, if emissionGroup[g].1.0 <= t0 <= emissionGroup[g].1.1 then 1 else 0))
  }

  /** The initial light state and the event flag agree except at the very
      end of an interval, where the light starts on but the event flag
      already says off. */
  lemma InitialStateVersusEvents(t: real, lights: seq<(real, real)>)
    ensures LightOn(t, lights) ==> LightOnClosed(t, lights)
    ensures LightOnClosed(t, lights) && !LightOn(t, lights) ==>
      exists i :: 0 <= i < |lights| && lights[i].1 == t
  {
    if LightOn(t, lights) {
      var i :| 0 <= i < |lights| && lights[i].0 <= t < lights[i].1;
      assert lights[i].0 <= t <= lights[i].1;
    }
    if LightOnClosed(t, lights) && !LightOn(t, lights) {
      var i :| 0 <= i < |lights| && lights[i].0 <= t <= lights[i].1;
      assert !(lights[i].0 <= t < lights[i].1);
    }
  }

  /** A light on from 0 to 3600 s: at t = 3600 the run starts with the light
      on while the event flag reports it off. */
  lemma InitialStateExample()
    ensures LightOnClosed(3600.0, [(0.0, 3600.0)]) && !LightOn(3600.0, [(0.0, 3600.0)])
  {
    var lights := [(0.0, 3600.0)];
    assert lights[0].0 <= 3600.0 <= lights[0].1;
  }

  // ---------------------------------------------------------------------
  // Surface area to volume ratios

  /** `AV_calc`: the total area-to-volume ratio and one `"AV" + key` ratio
      per surface, in the dictionary's order; a zero volume divides by
      zero. */
  method AVCalc(volume: real, surfaceArea: seq<(string, real)>)
    returns (r: Result<(seq<(string, real)>, real)>)
    ensures r.Err? <==> volume == 0.0
    ensures r.Err? ==> r.msg == "ZeroDivisionError: float division by zero"
    ensures r.Ok? ==> r.value.1 == Surfaces.Sum(Surfaces.Areas(surfaceArea)) / volume
    ensures r.Ok? ==> |r.value.0| == |surfaceArea| && forall i :: 0 <= i < |surfaceArea| ==>
      r.value.0[i] == ("AV" + surfaceArea[i].0, surfaceArea[i].1 / volume)
  {
    if volume == 0.0 {
      return Err("ZeroDivisionError: float division by zero");
    }
    var av := Surfaces.Sum(Surfaces.Areas(surfaceArea)) / volume;
    var surfacesAV: seq<(string, real)> := [];
    var i := 0;
    while i < |surfaceArea|
      invariant 0 <= i <= |surfaceArea| && |surfacesAV| == i
      invariant forall j :: 0 <= j < i ==> surfacesAV[j] == ("AV" + surfaceArea[j].0, surfaceArea[j].1 / volume)
    {
      surfacesAV := surfacesAV + [("AV" + surfaceArea[i].0, surfaceArea[i].1 / volume)];
      i := i + 1;
    }
    return Ok((surfacesAV, av));
  }

  /** Distinct surfaces give distinct ratio keys. */
  lemma AVKeysDistinct(surfaceArea: seq<(string, real)>, ratios: seq<(string, real)>, volume: real)
    requires volume != 0.0 && |ratios| == |surfaceArea|
    requires forall i :: 0 <= i < |surfaceArea| ==> ratios[i] == ("AV" + surfaceArea[i].0, surfaceArea[i].1 / volume)
    requires forall i, j :: 0 <= i < j < |surfaceArea| ==> surfaceArea[i].0 != surfaceArea[j].0
    ensures forall i, j :: 0 <= i < j < |ratios| ==> ratios[i].0 != ratios[j].0
  {
    forall i, j | 0 <= i < j < |ratios|
      ensures ratios[i].0 != ratios[j].0
    {
      assert ratios[i].0[2..] == surfaceArea[i].0;
      assert ratios[j].0[2..] == surfaceArea[j].0;
    }
  }

  /** The per-surface ratios add up to the total ratio. */
  lemma {:induction false} RatiosSumToTotal(surfaceArea: seq<(string, real)>, ratios: seq<(string, real)>, volume: real)
    requires volume != 0.0 && |ratios| == |surfaceArea|
    requires forall i :: 0 <= i < |surfaceArea| ==> ratios[i].1 == surfaceArea[i].1 / volume
    ensures Surfaces.Sum(Surfaces.Areas(ratios)) ==
            Surfaces.Sum(Surfaces.Areas(surfaceArea)) / volume
  {
    if |surfaceArea| > 0 {
      RatiosSumToTotal(surfaceArea[1..], ratios[1..], volume);
      assert Surfaces.Areas(ratios)[1..] == Surfaces.Areas(ratios[1..]);
      assert Surfaces.Areas(surfaceArea)[1..] == Surfaces.Areas(surfaceArea[1..]);
      var rest := Surfaces.Sum(Surfaces.Areas(surfaceArea[1..]));
      assert surfaceArea[0].1 / volume + rest / volume == (surfaceArea[0].1 + rest) / volume;
    }
  }

  // ---------------------------------------------------------------------
  // Integration envelopes

  /** Strictly increasing. */
  predicate Increasing(s: seq<real>) {
    forall i, j :: 0 <= i < j < |s| ==> s[i] < s[j]
  }

  /** Light intervals from hours to seconds. */
  function ToSeconds(lights: seq<(real, real)>): (r: seq<(real, real)>)
    ensures |r| == |lights|
    ensures forall i :: 0 <= i < |lights| ==> r[i] == (lights[i].0 * SecondsPerHour, lights[i].1 * SecondsPerHour)
  {
    seq(|lights|, i requires 0 <= i < |lights| => (lights[i].0 * SecondsPerHour, lights[i].1 * SecondsPerHour))
  }

  /** Both ends of every light interval, in order. */
  function LightEnds(lights: seq<(real, real)>): (r: seq<real>)
    ensures |r| == 2 * |lights|
    ensures forall i :: 0 <= i < |lights| ==> r[2 * i] == lights[i].0 && r[2 * i + 1] == lights[i].1
  {
    if |lights| == 0 then []
    else
      var rest := LightEnds(lights[1..]);
      var r := [lights[0].0, lights[0].1] + rest;
      assert forall i :: 1 <= i < |lights| ==> r[2 * i] == lights[i].0 && r[2 * i + 1] == lights[i].1 by {
        forall i | 1 <= i < |lights|
          ensures r[2 * i] == lights[i].0 && r[2 * i + 1] == lights[i].1
        {
          var j := i - 1;
          assert lights[1..][j] == lights[i];
          assert r[2 * i] == rest[2 * j] && r[2 * i + 1] == rest[2 * j + 1];
        }
      }
      r
  }

  /** `sublist[:-1]`: a list without its last element. */
  function DropLast(s: seq<real>): (r: seq<real>)
    ensures |s| > 0 ==> r == s[..|s| - 1]
    ensures |s| == 0 ==> r == []
  {
    if |s| == 0 then [] else s[..|s| - 1]
  }

  /** Every timed input's times (`sublist[:-1]`), species by species. */
  function EmissionTimes(timedInputs: seq<seq<seq<real>>>): (r: seq<real>)
  {
    if |timedInputs| == 0 then []
    else EmissionTimesOf(timedInputs[0]) + EmissionTimes(timedInputs[1..])
  }

  function EmissionTimesOf(sublists: seq<seq<real>>): (r: seq<real>)
  {
    if |sublists| == 0 then [] else DropLast(sublists[0]) + EmissionTimesOf(sublists[1..])
  }

  /** Every time the envelope list is built from, before it is cleaned:
      t0, t_bound, the light ends in seconds and, with timed emissions, the
      timed inputs' times. */
  function Candidates(t0: real, tBound: real, lightOnHours: seq<(real, real)>, timedEmissions: bool,
                      timedInputs: seq<seq<seq<real>>>): seq<real>
  {
    [t0, tBound] + LightEnds(ToSeconds(lightOnHours)) + (if timedEmissions then EmissionTimes(timedInputs) else [])
  }

  /** Adds `x` to a strictly increasing list unless it is already there. */
  function Insert(x: real, s: seq<real>): (r: seq<real>)
    requires Increasing(s)
    ensures Increasing(r)
    ensures forall y :: y in r <==> y == x || y in s
  {
    if |s| == 0 then [x]
    else if x < s[0] then
      PrependIncreasing(x, s);
      [x] + s
    else if x == s[0] then s
    else
      var rest := Insert(x, s[1..]);
      HeadBelowTail(s);
      PrependIncreasing(s[0], rest);
      [s[0]] + rest
  }

  /** The head of a strictly increasing list is below everything after it. */
  lemma HeadBelowTail(s: seq<real>)
    requires Increasing(s) && |s| > 0
    ensures forall y :: y in s[1..] ==> s[0] < y
    ensures forall y :: y in s <==> y == s[0] || y in s[1..]
  {
    forall y | y in s[1..]
      ensures s[0] < y
    {
      var k :| 0 <= k < |s[1..]| && s[1..][k] == y;
      assert s[k + 1] == y;
    }
    assert s == [s[0]] + s[1..];
  }

  /** A value below everything in a strictly increasing list can go in
      front of it. */
  lemma PrependIncreasing(x: real, s: seq<real>)
    requires Increasing(s) && forall y :: y in s ==> x < y
    ensures Increasing([x] + s)
  {
    var r := [x] + s;
    forall i, j | 0 <= i < j < |r|
      ensures r[i] < r[j]
    {
      assert r[j] == s[j - 1];
      if i == 0 {
        assert s[j - 1] in s;
      } else {
        assert r[i] == s[i - 1];
      }
    }
  }

  /** `sorted(set(c))`: the distinct values of `c` in increasing order. */
  function SortedDistinct(c: seq<real>): (r: seq<real>)
    ensures Increasing(r)
    ensures forall y :: y in r <==> y in c
  {
    if |c| == 0 then []
    else
      var r := Insert(c[|c| - 1], SortedDistinct(c[..|c| - 1]));
      assert forall y :: y in c <==> y == c[|c| - 1] || y in c[..|c| - 1] by {
        assert c == c[..|c| - 1] + [c[|c| - 1]];
      }
      r
  }

  /** `bisect.bisect_right(s, x)` on a sorted list: the number of leading
      elements not greater than `x`. */
  function BisectRight(s: seq<real>, x: real): (i: nat)
    ensures i <= |s|
    ensures forall j :: 0 <= j < i ==> s[j] <= x
    ensures i < |s| ==> x < s[i]
  {
    if |s| == 0 || x < s[0] then 0 else 1 + BisectRight(s[1..], x)
  }

  /** `s[bisect_right(s, lo):bisect_right(s, hi)]`; a slice whose start is
      past its end is empty. */
  function Window(s: seq<real>, lo: real, hi: real): seq<real>
  {
    var startPos := BisectRight(s, lo);
    var endPos := BisectRight(s, hi);
    if startPos <= endPos then s[startPos..endPos] else []
  }

  /** `list(set(c))` sorted and cut down to the values after `lo` and up
      to `hi`. */
  function Clean(c: seq<real>, lo: real, hi: real): seq<real>
  {
    Window(SortedDistinct(c), lo, hi)
  }

  /** The integration envelopes: the candidate times deduplicated, sorted and
      cut down to those after t0 and up to t_bound. */
  function Envelopes(t0: real, secondsToIntegrate: real, lightOnHours: seq<(real, real)>, timedEmissions: bool,
                     timedInputs: seq<seq<seq<real>>>): seq<real>
  {
    var tBound := t0 + secondsToIntegrate;
    Clean(Candidates(t0, tBound, lightOnHours, timedEmissions, timedInputs), t0, tBound)
  }

  /** On a strictly increasing list, bisect_right splits it exactly at `x`. */
  lemma BisectSplits(s: seq<real>, x: real)
    requires Increasing(s)
    ensures forall j :: 0 <= j < |s| ==> (s[j] <= x <==> j < BisectRight(s, x))
  {
    var i := BisectRight(s, x);
    forall j | i <= j < |s|
      ensures x < s[j]
    {
      if i < j {
        assert s[i] < s[j];
      }
    }
  }

  /** On a strictly increasing list the window is strictly increasing and
      holds exactly the elements after `lo` and up to `hi`. */
  lemma WindowFaithful(s: seq<real>, lo: real, hi: real)
    requires Increasing(s)
    ensures Increasing(Window(s, lo, hi))
    ensures forall x :: x in Window(s, lo, hi) <==> (x in s && lo < x <= hi)
  {
    var r := Window(s, lo, hi);
    var startPos := BisectRight(s, lo);
    var endPos := BisectRight(s, hi);
    BisectSplits(s, lo);
    BisectSplits(s, hi);
    forall x | x in r
      ensures x in s && lo < x <= hi
    {
      var k :| 0 <= k < |r| && r[k] == x;
      assert s[startPos + k] == x;
    }
    forall x | x in s && lo < x <= hi
      ensures x in r
    {
      var k :| 0 <= k < |s| && s[k] == x;
      assert startPos <= k < endPos;
      assert r[k - startPos] == x;
    }
  }

  /** The cleaned list is strictly increasing and holds exactly the values
      of `c` after `lo` and up to `hi`. */
  lemma CleanFaithful(c: seq<real>, lo: real, hi: real)
    ensures Increasing(Clean(c, lo, hi))
    ensures forall x :: x in Clean(c, lo, hi) <==> (x in c && lo < x <= hi)
  {
    WindowFaithful(SortedDistinct(c), lo, hi);
  }

  /** When `hi` itself is among the values and above `lo`, the cleaned list
      ends with it. */
  lemma CleanEndsAtHi(c: seq<real>, lo: real, hi: real)
    requires hi in c && lo < hi
    ensures |Clean(c, lo, hi)| > 0 && Clean(c, lo, hi)[|Clean(c, lo, hi)| - 1] == hi
  {
    CleanFaithful(c, lo, hi);
    var r := Clean(c, lo, hi);
    assert hi in r;
    assert r[|r| - 1] in r;
  }

  /** The envelopes are strictly increasing: sorted, with no time twice. */
  lemma EnvelopesIncreasing(t0: real, secondsToIntegrate: real, lightOnHours: seq<(real, real)>, timedEmissions: bool,
                            timedInputs: seq<seq<seq<real>>>)
    ensures Increasing(Envelopes(t0, secondsToIntegrate, lightOnHours, timedEmissions, timedInputs))
  {
    var c := Candidates(t0, t0 + secondsToIntegrate, lightOnHours, timedEmissions, timedInputs);
    assert Envelopes(t0, secondsToIntegrate, lightOnHours, timedEmissions, timedInputs) == Clean(c, t0, t0 + secondsToIntegrate);
    CleanFaithful(c, t0, t0 + secondsToIntegrate);
  }

  /** Every envelope is a candidate time after t0 and up to t_bound. */
  lemma EnvelopesWithin(t0: real, secondsToIntegrate: real, lightOnHours: seq<(real, real)>, timedEmissions: bool,
                        timedInputs: seq<seq<seq<real>>>)
    ensures forall x :: x in Envelopes(t0, secondsToIntegrate, lightOnHours, timedEmissions, timedInputs) ==>
      x in Candidates(t0, t0 + secondsToIntegrate, lightOnHours, timedEmissions, timedInputs) &&
      t0 < x <= t0 + secondsToIntegrate
  {
    var c := Candidates(t0, t0 + secondsToIntegrate, lightOnHours, timedEmissions, timedInputs);
    assert Envelopes(t0, secondsToIntegrate, lightOnHours, timedEmissions, timedInputs) == Clean(c, t0, t0 + secondsToIntegrate);
    CleanFaithful(c, t0, t0 + secondsToIntegrate);
  }

  /** Every candidate time after t0 and up to t_bound is an envelope. */
  lemma EnvelopesComplete(t0: real, secondsToIntegrate: real, lightOnHours: seq<(real, real)>, timedEmissions: bool,
                          timedInputs: seq<seq<seq<real>>>)
    ensures forall x :: x in Candidates(t0, t0 + secondsToIntegrate, lightOnHours, timedEmissions, timedInputs) ==>
      t0 < x <= t0 + secondsToIntegrate ==> x in Envelopes(t0, secondsToIntegrate, lightOnHours, timedEmissions, timedInputs)
  {
    var c := Candidates(t0, t0 + secondsToIntegrate, lightOnHours, timedEmissions, timedInputs);
    var tBound := t0 + secondsToIntegrate;
    assert Envelopes(t0, secondsToIntegrate, lightOnHours, timedEmissions, timedInputs) == Clean(c, t0, tBound);
    forall x | x in c && t0 < x <= tBound
      ensures x in Clean(c, t0, tBound)
    {
      CleanKeeps(c, t0, tBound, x);
    }
  }

  /** A value inside the window survives the cleaning. */
  lemma CleanKeeps(c: seq<real>, lo: real, hi: real, x: real)
    requires x in c && lo < x <= hi
    ensures x in Clean(c, lo, hi)
  {
    CleanFaithful(c, lo, hi);
  }

  /** t0 and t_bound head the candidate list. */
  lemma CandidatesHead(t0: real, tBound: real, lightOnHours: seq<(real, real)>, timedEmissions: bool,
                       timedInputs: seq<seq<seq<real>>>)
    ensures |Candidates(t0, tBound, lightOnHours, timedEmissions, timedInputs)| >= 2
    ensures Candidates(t0, tBound, lightOnHours, timedEmissions, timedInputs)[0] == t0
    ensures Candidates(t0, tBound, lightOnHours, timedEmissions, timedInputs)[1] == tBound
  {
  }

  /** With time to integrate, the envelopes end at t_bound. */
  lemma EnvelopesEndAtBound(t0: real, secondsToIntegrate: real, lightOnHours: seq<(real, real)>, timedEmissions: bool,
                            timedInputs: seq<seq<seq<real>>>)
    requires secondsToIntegrate > 0.0
    ensures |Envelopes(t0, secondsToIntegrate, lightOnHours, timedEmissions, timedInputs)| > 0
    ensures Envelopes(t0, secondsToIntegrate, lightOnHours, timedEmissions, timedInputs)
              [|Envelopes(t0, secondsToIntegrate, lightOnHours, timedEmissions, timedInputs)| - 1] == t0 + secondsToIntegrate
  {
    var c := Candidates(t0, t0 + secondsToIntegrate, lightOnHours, timedEmissions, timedInputs);
    CandidatesHead(t0, t0 + secondsToIntegrate, lightOnHours, timedEmissions, timedInputs);
    assert c[1] in c;
    CleanEndsAtHi(c, t0, t0 + secondsToIntegrate);
  }

  /** Light hours enter the envelopes as seconds: a light switching on or off
      at hour h inside the run puts h·3600 among the envelopes. */
  lemma {:induction false} LightSwitchesAreEnvelopes(t0: real, secondsToIntegrate: real, lightOnHours: seq<(real, real)>,
                                  timedEmissions: bool, timedInputs: seq<seq<seq<real>>>, i: nat)
    requires i < |lightOnHours|
    ensures t0 < lightOnHours[i].0 * SecondsPerHour <= t0 + secondsToIntegrate ==>
      lightOnHours[i].0 * SecondsPerHour in Envelopes(t0, secondsToIntegrate, lightOnHours, timedEmissions, timedInputs)
    ensures t0 < lightOnHours[i].1 * SecondsPerHour <= t0 + secondsToIntegrate ==>
      lightOnHours[i].1 * SecondsPerHour in Envelopes(t0, secondsToIntegrate, lightOnHours, timedEmissions, timedInputs)
  {
    var ends := LightEnds(ToSeconds(lightOnHours));
    var c := Candidates(t0, t0 + secondsToIntegrate, lightOnHours, timedEmissions, timedInputs);
    assert c[2 + 2 * i] == ends[2 * i] == lightOnHours[i].0 * SecondsPerHour;
    assert c[2 + 2 * i + 1] == ends[2 * i + 1] == lightOnHours[i].1 * SecondsPerHour;
    assert c[2 + 2 * i] in c && c[2 + 2 * i + 1] in c;
    EnvelopesComplete(t0, secondsToIntegrate, lightOnHours, timedEmissions, timedInputs);
  }

  /** Two strictly increasing lists with the same elements are the same
      list: the envelopes do not depend on how the set is sorted. */
  lemma {:induction false} IncreasingUnique(a: seq<real>, b: seq<real>)
    requires Increasing(a) && Increasing(b)
    requires forall x :: x in a <==> x in b
    ensures a == b
  {
    if |a| > 0 {
      assert a[0] in a;
      assert a[0] in b;
    }
    if |b| > 0 {
      assert b[0] in b;
      assert b[0] in a;
    }
    if |a| > 0 && |b| > 0 {
      assert a[0] == b[0] by {
        assert a[0] in b && b[0] in a;
        var i :| 0 <= i < |b| && b[i] == a[0];
        var j :| 0 <= j < |a| && a[j] == b[0];
      }
      forall x
        ensures x in a[1..] <==> x in b[1..]
      {
        if x in a[1..] {
          TailIn(a, b, x);
        }
        if x in b[1..] {
          TailIn(b, a, x);
        }
      }
      IncreasingUnique(a[1..], b[1..]);
      assert a == [a[0]] + a[1..] && b == [b[0]] + b[1..];
    }
  }

  /** With the same first element and the same elements, a later element of
      the increasing list `a` is a later element of `b`. */
  lemma TailIn(a: seq<real>, b: seq<real>, x: real)
    requires Increasing(a) && |a| > 0 && |b| > 0 && a[0] == b[0]
    requires forall y :: y in a <==> y in b
    requires x in a[1..]
    ensures x in b[1..]
  {
    var k :| 0 <= k < |a[1..]| && a[1..][k] == x;
    assert a[0] < a[k + 1];
    assert x in b;
    var l :| 0 <= l < |b| && b[l] == x;
    assert l > 0;
    assert b[1..][l - 1] == x;
  }

  // ---------------------------------------------------------------------
  // Time of day

  /** `t - int(t / 86400) * 86400`: seconds since the last midnight. */
  function TimeOfDay(t: real): (n: real)
    ensures t >= 0.0 ==> 0.0 <= n < SecondsPerDay
    ensures t < 0.0 ==> -SecondsPerDay < n <= 0.0
  {
    t - (PyOps.Trunc(t / SecondsPerDay) as real) * SecondsPerDay
  }

  /** The time of day repeats every day and is the time itself on the first
      day. */
  lemma TimeOfDayPeriodic(t: real)
    requires t >= 0.0
    ensures TimeOfDay(t + SecondsPerDay) == TimeOfDay(t)
    ensures t < SecondsPerDay ==> TimeOfDay(t) == t
  {
    assert (t + SecondsPerDay) / SecondsPerDay == t / SecondsPerDay + 1.0;
    assert PyOps.Trunc(t / SecondsPerDay + 1.0) == PyOps.Trunc(t / SecondsPerDay) + 1;
  }

  // ---------------------------------------------------------------------
  // Temperature series

  /** Every time in the series moved by `offset`. */
  function ShiftTimes(s: seq<(real, real)>, offset: real): (r: seq<(real, real)>)
    ensures |r| == |s| && forall i :: 0 <= i < |s| ==> r[i] == (s[i].0 + offset, s[i].1)
  {
    if |s| == 0 then [] else [(s[0].0 + offset, s[0].1)] + ShiftTimes(s[1..], offset)
  }

  /** The series after `j` passes of the extension loop: the original
      followed by `j` copies of its last `n` entries, copy `i` moved `i`
      days later. */
  function Extended(temps: seq<(real, real)>, n: nat, j: nat): (r: seq<(real, real)>)
    requires 0 < n <= |temps|
    ensures |r| >= |temps|
  {
    if j == 0 then temps
    else Extended(temps, n, j - 1) + ShiftTimes(temps[|temps| - n..], Scaled(j, SecondsPerDay))
  }

  /** Moving twice is moving by the sum, and moving by zero changes
      nothing. */
  lemma {:induction false} ShiftTwice(s: seq<(real, real)>, a: real, b: real)
    ensures ShiftTimes(ShiftTimes(s, a), b) == ShiftTimes(s, a + b)
    ensures ShiftTimes(s, 0.0) == s
  {
    var twice := ShiftTimes(ShiftTimes(s, a), b);
    var once := ShiftTimes(s, a + b);
    var zero := ShiftTimes(s, 0.0);
    forall i | 0 <= i < |s|
      ensures twice[i] == once[i] && zero[i] == s[i]
    {
      assert ShiftTimes(s, a)[i] == (s[i].0 + a, s[i].1);
    }
  }

  /** After `j` passes the series ends with its original last `n` entries
      `j` days later. */
  lemma {:induction false} ExtendedTail(temps: seq<(real, real)>, n: nat, j: nat)
    requires 0 < n <= |temps|
    ensures |Extended(temps, n, j)| >= n
    ensures Extended(temps, n, j)[|Extended(temps, n, j)| - n..] ==
      ShiftTimes(temps[|temps| - n..], Scaled(j, SecondsPerDay))
  {
    var tail := temps[|temps| - n..];
    if j == 0 {
      ShiftTwice(tail, 0.0, 0.0);
    } else {
      var p := Extended(temps, n, j - 1);
      var added := ShiftTimes(tail, Scaled(j, SecondsPerDay));
      assert Extended(temps, n, j) == p + added;
      assert (p + added)[|p + added| - n..] == added;
    }
  }

  /** Each pass appends the series' current last `n` entries a day later,
      as the loop body does. */
  lemma ExtendedStep(temps: seq<(real, real)>, n: nat, j: nat)
    requires 0 < n <= |temps|
    ensures |Extended(temps, n, j)| >= n
    ensures Extended(temps, n, j + 1) ==
      Extended(temps, n, j) + ShiftTimes(Extended(temps, n, j)[|Extended(temps, n, j)| - n..], SecondsPerDay)
  {
    var tail := temps[|temps| - n..];
    ExtendedTail(temps, n, j);
    ShiftTwice(tail, Scaled(j, SecondsPerDay), SecondsPerDay);
    assert Scaled(j + 1, SecondsPerDay) == Scaled(j, SecondsPerDay) + SecondsPerDay;
    assert Extended(temps, n, j + 1) == Extended(temps, n, j) + ShiftTimes(tail, Scaled(j + 1, SecondsPerDay));
  }

  /** The passes keep the original series in front. */
  lemma {:induction false} ExtendedKeepsOriginal(temps: seq<(real, real)>, n: nat, j: nat)
    requires 0 < n <= |temps|
    ensures Extended(temps, n, j)[..|temps|] == temps
  {
    if j > 0 {
      ExtendedKeepsOriginal(temps, n, j - 1);
      var p := Extended(temps, n, j - 1);
      assert Extended(temps, n, j)[..|temps|] == p[..|temps|];
    }
  }

  /** After `j` passes the last time is `j` days after the original last
      time. */
  lemma ExtendedLast(temps: seq<(real, real)>, n: nat, j: nat)
    requires 0 < n <= |temps|
    ensures |Extended(temps, n, j)| > 0
    ensures Extended(temps, n, j)[|Extended(temps, n, j)| - 1].0 == temps[|temps| - 1].0 + Scaled(j, SecondsPerDay)
  {
    ExtendedTail(temps, n, j);
    var r := Extended(temps, n, j);
    var tail := temps[|temps| - n..];
    assert r[|r| - 1] == r[|r| - n..][n - 1];
    assert tail[n - 1] == temps[|temps| - 1];
  }

  /** One pass of the loop body: `temporary = temps[-n:]`, each entry
      moved a day later, appended to `temps`. */
  method ExtendOnce(temperatures: seq<(real, real)>, temps: seq<(real, real)>, ghost j: nat)
    returns (next: seq<(real, real)>)
    requires 0 < |temperatures| && temps == Extended(temperatures, |temperatures|, j)
    ensures next == Extended(temperatures, |temperatures|, j + 1)
    ensures |next| > 0 && next[|next| - 1].0 == temperatures[|temperatures| - 1].0 + Scaled(j + 1, SecondsPerDay)
  {
    var n := |temperatures|;
    ExtendedStep(temperatures, n, j);
    var temporary := temps[|temps| - n..];
    temporary := ShiftTimes(temporary, SecondsPerDay);
    next := temps + temporary;
    ExtendedLast(temperatures, n, j + 1);
  }

  /** The `while` loop that extends the temperature series to cover the run:
      while its last time is before `target` (t0 + seconds_to_integrate), it
      appends the last `len(temperatures)` entries a day later. An empty
      series fails on `temperatures[-1]`. */
  method ExtendTemperatures(temperatures: seq<(real, real)>, target: real) returns (r: Result<seq<(real, real)>>)
    ensures |temperatures| == 0 ==> r == Err("IndexError: list index out of range")
    ensures |temperatures| > 0 ==> r == Ok(Extended(temperatures, |temperatures|,
      StepsToReach(temperatures[|temperatures| - 1].0, target, SecondsPerDay)))
  {
    if |temperatures| == 0 {
      return Err("IndexError: list index out of range");
    }
    var temps := temperatures;
    ghost var last0 := temperatures[|temperatures| - 1].0;
    ghost var k := StepsToReach(last0, target, SecondsPerDay);
    ghost var j: nat := 0;
    while temps[|temps| - 1].0 < target
      invariant j <= k
      invariant temps == Extended(temperatures, |temperatures|, j)
      invariant |temps| > 0 && temps[|temps| - 1].0 == last0 + Scaled(j, SecondsPerDay)
      decreases k - j
    {
      if j == k {
        assert false;
      }
      temps := ExtendOnce(temperatures, temps, j);
      j := j + 1;
    }
    ReachExit(last0, target, SecondsPerDay, j);
    return Ok(temps);
  }

  /** The extended series reaches the target, with no pass more than it
      needs. */
  lemma ExtensionReachesTarget(temperatures: seq<(real, real)>, target: real)
    requires |temperatures| > 0
    ensures var n := |temperatures|;
      var k := StepsToReach(temperatures[n - 1].0, target, SecondsPerDay);
      var r := Extended(temperatures, n, k);
      r[|r| - 1].0 >= target &&
      (k > 0 ==> var p := Extended(temperatures, n, k - 1); p[|p| - 1].0 < target)
  {
    var n := |temperatures|;
    var k := StepsToReach(temperatures[n - 1].0, target, SecondsPerDay);
    ExtendedLast(temperatures, n, k);
    if k > 0 {
      ExtendedLast(temperatures, n, k - 1);
    }
  }

  /** When the series starts after t0, its first `len` entries are put in
      front a day earlier, once. */
  function PrependDay(temps: seq<(real, real)>, n: nat, t0: real): (r: seq<(real, real)>)
    requires 0 < n <= |temps|
  {
    if temps[0].0 > t0 then ShiftTimes(temps[..n], -SecondsPerDay) + temps else temps
  }

  /** The prepended series starts a day before the original one and keeps
      it behind the copy; a series starting more than a day after t0 still
      starts after t0. */
  lemma PrependDayShape(temps: seq<(real, real)>, n: nat, t0: real)
    requires 0 < n <= |temps|
    ensures var r := PrependDay(temps, n, t0);
      (temps[0].0 > t0 ==> |r| == n + |temps| && r[0].0 == temps[0].0 - SecondsPerDay && r[n..] == temps) &&
      (temps[0].0 <= t0 ==> r == temps) &&
      (temps[0].0 > t0 + SecondsPerDay ==> r[0].0 > t0)
  {
  }
}
