/** The stepping schedule of `Simulation.run` in multiroom_model/simulation.py.
    Every room is evolved for one interval from the start time; then, while
    a whole interval still fits before the total time, every room is evolved
    for another interval from the time solved so far; finally a shorter step
    covers what is left. Each room's result frames are concatenated. The
    room evolver is a parameter: only the time index of its frames is
    modelled. */
module SimulationSchedule {
  import opened Wrappers
  import opened RealSteps

  /** The time index of a room's result frame. */
  type Frame = seq<real>

  /** A room evolver: the room, the start time, the length of time to
      integrate and the frame to start from give the next result frame. */
  type Evolver = (nat, real, real, Frame) -> Frame

  function Last(f: Frame): real
    requires |f| > 0
  {
    f[|f| - 1]
  }

  /** What `run` relies on from the evolver: each frame it returns starts at
      the requested start and ends at start + length. */
  ghost predicate Solves(evolve: Evolver) {
    forall room, start, length, init {:trigger evolve(room, start, length, init)} :: |evolve(room, start, length, init)| > 0 &&
      evolve(room, start, length, init)[0] == start &&
      Last(evolve(room, start, length, init)) == start + length
  }

  /** `min(r.index[-1] for r in room_results)`. */
  function SolvedTime(results: seq<Frame>): (t: real)
    requires |results| > 0 && forall i :: 0 <= i < |results| ==> |results[i]| > 0
    ensures exists i :: 0 <= i < |results| && t == Last(results[i])
    ensures forall i :: 0 <= i < |results| ==> t <= Last(results[i])
  {
    if |results| == 1 then Last(results[0])
    else
      var rest := SolvedTime(results[1..]);
      if Last(results[0]) <= rest then Last(results[0]) else rest
  }

  /** When every room has solved up to the same time, that is the solved time. */
  lemma {:induction false} AllSolvedTo(results: seq<Frame>, t: real)
    requires |results| > 0 && forall i :: 0 <= i < |results| ==> |results[i]| > 0 && Last(results[i]) == t
    ensures SolvedTime(results) == t
  {
    if |results| > 1 {
      AllSolvedTo(results[1..], t);
    }
  }

  /** `apply_aperture_results`: the next step's initial conditions. */
  function ApplyApertureResults(roomResults: seq<Frame>, apertureResults: seq<real>): seq<Frame>
  {
    roomResults
  }

  /** The aperture results do not affect the next step: each room starts
      from its own previous result. */
  lemma ApertureResultsIgnored(roomResults: seq<Frame>, a: seq<real>, b: seq<real>)
    ensures ApplyApertureResults(roomResults, a) == ApplyApertureResults(roomResults, b) == roomResults
  {
  }

  /** The number of passes of the loop: the whole intervals that still fit
      before the total time once the first step is solved. */
  function LoopCount(t0: real, tTotal: real, tInterval: real): (k: nat)
    requires tInterval > 0.0
    ensures k > 0 ==> t0 + tInterval + Scaled(k, tInterval) <= tTotal
    ensures t0 + tInterval + Scaled(k, tInterval) + tInterval > tTotal
  {
    var first := t0 + tInterval;
    if first + tInterval <= tTotal then
      var q := (tTotal - first) / tInterval;
      FloorScaled(tTotal - first, tInterval);
      ScaledIsProduct(q.Floor, tInterval);
      assert q >= 1.0 by {
        assert q * tInterval == tTotal - first;
        if q < 1.0 {
          MulMono(q, 1.0, tInterval);
        }
      }
      assert ((q.Floor as real) + 1.0) * tInterval == (q.Floor as real) * tInterval + tInterval;
      q.Floor
    else 0
  }

  /** The loop's `j`-th step: a whole interval, `j` intervals after `first`. */
  function StepAt(first: real, tInterval: real, j: nat): (real, real)
  {
    (first + Scaled(j, tInterval), tInterval)
  }

  /** The loop's steps: `k` intervals, the first starting at `first`. */
  function LoopSteps(first: real, tInterval: real, k: nat): (s: seq<(real, real)>)
    ensures |s| == k
    ensures forall j :: 0 <= j < k ==> s[j] == StepAt(first, tInterval, j)
  {
    seq(k, j requires 0 <= j < k => StepAt(first, tInterval, j))
  }

  lemma LoopStepsExtend(first: real, tInterval: real, k: nat)
    ensures LoopSteps(first, tInterval, k + 1) == LoopSteps(first, tInterval, k) + [StepAt(first, tInterval, k)]
  {
    assert LoopSteps(first, tInterval, k + 1)[..k] == LoopSteps(first, tInterval, k);
  }

  /** Every `(start, length)` the room evolvers are run with, in order. */
  function Schedule(t0: real, tTotal: real, tInterval: real): seq<(real, real)>
    requires tInterval > 0.0
  {
    var first := t0 + tInterval;
    var k := LoopCount(t0, tTotal, tInterval);
    var solved := first + Scaled(k, tInterval);
    [(t0, tInterval)] + LoopSteps(first, tInterval, k) + (if solved < tTotal then [(solved, tTotal - solved)] else [])
  }

  /** The steps of the schedule one by one: the first, the loop's and the
      optional final one. */
  lemma ScheduleSteps(t0: real, tTotal: real, tInterval: real)
    requires tInterval > 0.0
    ensures var s := Schedule(t0, tTotal, tInterval);
      var k := LoopCount(t0, tTotal, tInterval);
      var solved := t0 + tInterval + Scaled(k, tInterval);
      s[0] == (t0, tInterval) &&
      (forall i :: 1 <= i <= k ==> s[i] == (t0 + tInterval + Scaled(i - 1, tInterval), tInterval)) &&
      (solved < tTotal ==> |s| == k + 2 && s[k + 1] == (solved, tTotal - solved)) &&
      (solved >= tTotal ==> |s| == k + 1)
  {
  }

  /** The loop's steps are whole intervals ending no later than the total
      time. */
  lemma LoopStepsWithin(t0: real, tTotal: real, tInterval: real)
    requires tInterval > 0.0
    ensures var s := Schedule(t0, tTotal, tInterval);
      var k := LoopCount(t0, tTotal, tInterval);
      |s| > k && forall i :: 1 <= i <= k ==> s[i].1 == tInterval && s[i].0 + s[i].1 <= tTotal
  {
    var s := Schedule(t0, tTotal, tInterval);
    var k := LoopCount(t0, tTotal, tInterval);
    var first := t0 + tInterval;
    ScheduleSteps(t0, tTotal, tInterval);
    forall i | 1 <= i <= k
      ensures s[i].0 + s[i].1 <= tTotal
    {
      StepWithin(t0, tTotal, tInterval, i);
    }
  }

  lemma StepWithin(t0: real, tTotal: real, tInterval: real, i: nat)
    requires tInterval > 0.0 && 1 <= i <= LoopCount(t0, tTotal, tInterval)
    ensures t0 + tInterval + Scaled(i - 1, tInterval) + tInterval <= tTotal
  {
    var k := LoopCount(t0, tTotal, tInterval);
    if i < k {
      ScaleMono(i - 1, k, tInterval);
    }
  }

  /** The first step runs from t0 for a whole interval, even past the total
      time; the loop's steps are whole intervals ending no later than the
      total time; a final step shorter than an interval, ending at the total
      time, follows exactly when time is left; so the last step ends at or
      after the total time. */
  lemma ScheduleShape(t0: real, tTotal: real, tInterval: real)
    requires tInterval > 0.0
    ensures var s := Schedule(t0, tTotal, tInterval);
      var k := LoopCount(t0, tTotal, tInterval);
      |s| >= 1 && s[0] == (t0, tInterval) &&
      (forall i :: 1 <= i <= k ==> s[i].1 == tInterval && s[i].0 + s[i].1 <= tTotal) &&
      (|s| == k + 1 || |s| == k + 2) &&
      (|s| == k + 2 ==> 0.0 < s[k + 1].1 < tInterval && s[k + 1].0 + s[k + 1].1 == tTotal) &&
      s[|s| - 1].0 + s[|s| - 1].1 >= tTotal
  {
    var s := Schedule(t0, tTotal, tInterval);
    var k := LoopCount(t0, tTotal, tInterval);
    var first := t0 + tInterval;
    ScheduleSteps(t0, tTotal, tInterval);
    LoopStepsWithin(t0, tTotal, tInterval);
    if |s| == k + 1 && k > 0 {
      assert s[k].0 + s[k].1 == first + Scaled(k - 1, tInterval) + tInterval;
    }
  }

  /** Each step starts where the previous one ended. */
  lemma ScheduleChained(t0: real, tTotal: real, tInterval: real)
    requires tInterval > 0.0
    ensures var s := Schedule(t0, tTotal, tInterval);
      forall i :: 0 < i < |s| ==> s[i].0 == s[i - 1].0 + s[i - 1].1
  {
    var s := Schedule(t0, tTotal, tInterval);
    var k := LoopCount(t0, tTotal, tInterval);
    var first := t0 + tInterval;
    ScheduleSteps(t0, tTotal, tInterval);
    forall i | 0 < i < |s|
      ensures s[i].0 == s[i - 1].0 + s[i - 1].1
    {
      if 1 < i <= k {
        assert Scaled(i - 1, tInterval) == Scaled(i - 2, tInterval) + tInterval;
      } else if i == k + 1 && k > 0 {
        assert Scaled(k, tInterval) == Scaled(k - 1, tInterval) + tInterval;
      }
    }
  }

  /** From 0 to 25 in intervals of 3: the first step, seven whole steps
      and a final step of 1. */
  lemma ScheduleExample()
    ensures Schedule(0.0, 25.0, 3.0) ==
      [(0.0, 3.0), (3.0, 3.0), (6.0, 3.0), (9.0, 3.0), (12.0, 3.0), (15.0, 3.0), (18.0, 3.0), (21.0, 3.0), (24.0, 1.0)]
  {
    assert LoopCount(0.0, 25.0, 3.0) == 7;
    assert Scaled(7, 3.0) == 21.0;
    var steps := LoopSteps(3.0, 3.0, 7);
    assert steps == [(3.0, 3.0), (6.0, 3.0), (9.0, 3.0), (12.0, 3.0), (15.0, 3.0), (18.0, 3.0), (21.0, 3.0)] by {
      assert Scaled(1, 3.0) == 3.0 && Scaled(2, 3.0) == 6.0 && Scaled(3, 3.0) == 9.0;
      assert Scaled(4, 3.0) == 12.0 && Scaled(5, 3.0) == 15.0 && Scaled(6, 3.0) == 18.0;
    }
  }

  /** The frame a room's evolver returns for the last of `calls`, each call
      starting from the frame the previous one returned. */
  function LastFrame(evolve: Evolver, room: nat, init: Frame, calls: seq<(real, real)>): Frame
    requires |calls| > 0
    decreases |calls|
  {
    var prev := if |calls| == 1 then init else LastFrame(evolve, room, init, calls[..|calls| - 1]);
    evolve(room, calls[|calls| - 1].0, calls[|calls| - 1].1, prev)
  }

  /** A room's cumulative result: its frames for all `calls`, concatenated
      in order. */
  function Cumulative(evolve: Evolver, room: nat, init: Frame, calls: seq<(real, real)>): Frame
    decreases |calls|
  {
    if |calls| == 0 then []
    else Cumulative(evolve, room, init, calls[..|calls| - 1]) + LastFrame(evolve, room, init, calls)
  }

  /** One more call continues from the last frame and appends its own. */
  lemma ExtendCalls(evolve: Evolver, room: nat, init: Frame, calls: seq<(real, real)>, step: (real, real))
    requires |calls| > 0
    ensures LastFrame(evolve, room, init, calls + [step]) == evolve(room, step.0, step.1, LastFrame(evolve, room, init, calls))
    ensures Cumulative(evolve, room, init, calls + [step]) ==
            Cumulative(evolve, room, init, calls) + LastFrame(evolve, room, init, calls + [step])
  {
    assert (calls + [step])[..|calls|] == calls;
  }

  /** With an evolver that solves, the last frame runs from the last call's
      start to its end. */
  lemma FrameShape(evolve: Evolver, room: nat, init: Frame, calls: seq<(real, real)>)
    requires Solves(evolve) && |calls| > 0
    ensures |LastFrame(evolve, room, init, calls)| > 0
    ensures LastFrame(evolve, room, init, calls)[0] == calls[|calls| - 1].0
    ensures Last(LastFrame(evolve, room, init, calls)) == calls[|calls| - 1].0 + calls[|calls| - 1].1
  {
    var step := calls[|calls| - 1];
    var prev := if |calls| == 1 then init else LastFrame(evolve, room, init, calls[..|calls| - 1]);
    var f := evolve(room, step.0, step.1, prev);
    assert |f| > 0 && f[0] == step.0 && Last(f) == step.0 + step.1;
    assert LastFrame(evolve, room, init, calls) == f;
  }

  /** Where one step's frame ends the next one begins, so each boundary
      time appears twice in a room's cumulative result. */
  lemma BoundaryRepeated(evolve: Evolver, room: nat, init: Frame, calls: seq<(real, real)>, i: nat)
    requires Solves(evolve) && 0 < i < |calls|
    requires calls[i].0 == calls[i - 1].0 + calls[i - 1].1
    ensures |LastFrame(evolve, room, init, calls[..i + 1])| > 0 &&
            Last(LastFrame(evolve, room, init, calls[..i])) == LastFrame(evolve, room, init, calls[..i + 1])[0]
  {
    FrameShape(evolve, room, init, calls[..i]);
    FrameShape(evolve, room, init, calls[..i + 1]);
  }

  /** Every room evolved over one step from its own previous result. */
  function Evolve(evolve: Evolver, start: real, length: real, previous: seq<Frame>): (r: seq<Frame>)
    ensures |r| == |previous| && forall i :: 0 <= i < |r| ==> r[i] == evolve(i, start, length, previous[i])
  {
    seq(|previous|, i requires 0 <= i < |previous| => evolve(i, start, length, previous[i]))
  }

  /** A step taken from the previous results keeps every room's result and
      cumulative result in line with the calls made. */
  lemma StepInvariant(evolve: Evolver, initial: seq<Frame>, calls: seq<(real, real)>, step: (real, real),
                      roomResults: seq<Frame>, cumulative: seq<Frame>)
    requires |calls| > 0 && |roomResults| == |cumulative| == |initial|
    requires forall room :: 0 <= room < |initial| ==> roomResults[room] == LastFrame(evolve, room, initial[room], calls)
    requires forall room :: 0 <= room < |initial| ==> cumulative[room] == Cumulative(evolve, room, initial[room], calls)
    ensures var next := Evolve(evolve, step.0, step.1, roomResults);
      forall room :: 0 <= room < |initial| ==>
        next[room] == LastFrame(evolve, room, initial[room], calls + [step]) &&
        cumulative[room] + next[room] == Cumulative(evolve, room, initial[room], calls + [step])
  {
    forall room | 0 <= room < |initial|
      ensures Evolve(evolve, step.0, step.1, roomResults)[room] == LastFrame(evolve, room, initial[room], calls + [step])
      ensures cumulative[room] + Evolve(evolve, step.0, step.1, roomResults)[room] ==
              Cumulative(evolve, room, initial[room], calls + [step])
    {
      ExtendCalls(evolve, room, initial[room], calls, step);
    }
  }

  /** The loop stops after exactly `LoopCount` passes: fewer passes would
      leave a whole interval before the total time. */
  lemma LoopExit(first: real, tTotal: real, tInterval: real, j: nat, k: nat)
    requires tInterval > 0.0 && j <= k
    requires k > 0 ==> first + Scaled(k, tInterval) <= tTotal
    requires first + Scaled(j, tInterval) + tInterval > tTotal
    ensures j == k
  {
    if j < k {
      ScaleMono(j, k, tInterval);
    }
  }

  /** The schedule is the first step, the loop's steps and the final step
      taken when time is left. */
  lemma ScheduleEnds(t0: real, tTotal: real, tInterval: real, tail: seq<(real, real)>)
    requires tInterval > 0.0
    requires var solved := t0 + tInterval + Scaled(LoopCount(t0, tTotal, tInterval), tInterval);
      tail == if solved < tTotal then [(solved, tTotal - solved)] else []
    ensures Schedule(t0, tTotal, tInterval) ==
      [(t0, tInterval)] + LoopSteps(t0 + tInterval, tInterval, LoopCount(t0, tTotal, tInterval)) + tail
  {
  }

  /** The message of `r.index[-1]` on a room result with no rows. */
  const EmptyFrameError := "index -1 is out of bounds for axis 0 with size 0"

  /** `min(r.index[-1] for r in room_results)` as Python evaluates it: with
      no room `min` of nothing raises ValueError, a room result with no rows
      raises IndexError, and otherwise the earliest end time is the solved
      time. */
  function MinLast(results: seq<Frame>): (r: Result<real>)
    ensures r.Ok? <==> |results| > 0 && forall i :: 0 <= i < |results| ==> |results[i]| > 0
    ensures |results| == 0 ==> r == Err("min() arg is an empty sequence")
    ensures |results| > 0 && r.Err? ==> r == Err(EmptyFrameError)
    ensures r.Ok? ==> (exists i :: 0 <= i < |results| && r.value == Last(results[i])) &&
                      forall i :: 0 <= i < |results| ==> r.value <= Last(results[i])
  {
    if |results| == 0 then Err("min() arg is an empty sequence")
    else if exists i :: 0 <= i < |results| && |results[i]| == 0 then Err(EmptyFrameError)
    else Ok(SolvedTime(results))
  }

  /** Every room's latest frame after `calls`. */
  function Frames(evolve: Evolver, initial: seq<Frame>, calls: seq<(real, real)>): (r: seq<Frame>)
    requires |calls| > 0
    ensures |r| == |initial|
  {
    seq(|initial|, room requires 0 <= room < |initial| => LastFrame(evolve, room, initial[room], calls))
  }

  /** Every room's cumulative result after `calls`. */
  function Cumulatives(evolve: Evolver, initial: seq<Frame>, calls: seq<(real, real)>): (r: seq<Frame>)
    ensures |r| == |initial|
  {
    seq(|initial|, room requires 0 <= room < |initial| => Cumulative(evolve, room, initial[room], calls))
  }

  /** With an evolver that solves, the solved time is the end of the last
      call. */
  lemma SolvedAtLastEnd(evolve: Evolver, initial: seq<Frame>, calls: seq<(real, real)>)
    requires |calls| > 0
    ensures Solves(evolve) && |initial| > 0 ==>
      MinLast(Frames(evolve, initial, calls)) == Ok(calls[|calls| - 1].0 + calls[|calls| - 1].1)
  {
    if Solves(evolve) && |initial| > 0 {
      var frames := Frames(evolve, initial, calls);
      var end := calls[|calls| - 1].0 + calls[|calls| - 1].1;
      forall room | 0 <= room < |initial|
        ensures |frames[room]| > 0 && Last(frames[room]) == end
      {
        FrameShape(evolve, room, initial[room], calls);
      }
      AllSolvedTo(frames, end);
    }
  }

  /** The calls of `run` up to the end of its `while` loop: the first step
      from t0, then one pass per later call, starting at the time solved
      after the calls before it, for a whole interval, taken because that
      interval ends no later than the total time. */
  predicate LoopCalls(evolve: Evolver, initial: seq<Frame>, t0: real, tTotal: real, tInterval: real,
                      calls: seq<(real, real)>)
    decreases |calls|
  {
    if |calls| <= 1 then calls == [(t0, tInterval)]
    else
      var prev := calls[..|calls| - 1];
      var solved := MinLast(Frames(evolve, initial, prev));
      LoopCalls(evolve, initial, t0, tTotal, tInterval, prev) && solved.Ok? &&
      calls[|calls| - 1] == (solved.value, tInterval) && solved.value + tInterval <= tTotal
  }

  /** The `while` loop of `run`, resumed after `calls`, stops within `n`
      more passes. */
  predicate StopsWithin(evolve: Evolver, initial: seq<Frame>, tTotal: real, tInterval: real,
                        calls: seq<(real, real)>, n: nat)
    requires |calls| > 0
    decreases n
  {
    var solved := MinLast(Frames(evolve, initial, calls));
    solved.Err? || solved.value + tInterval > tTotal ||
    (n > 0 && StopsWithin(evolve, initial, tTotal, tInterval, calls + [(solved.value, tInterval)], n - 1))
  }

  /** The `while` loop of `run` stops: the evolver's end times eventually
      leave less than a whole interval before the total time, or a room
      result comes back empty. */
  ghost predicate Stops(evolve: Evolver, initial: seq<Frame>, t0: real, tTotal: real, tInterval: real)
  {
    exists n: nat :: StopsWithin(evolve, initial, tTotal, tInterval, [(t0, tInterval)], n)
  }

  /** Calls laid end to end: the first step from t0, then whole intervals,
      each starting where the previous call ended and ending no later than
      the total time. */
  predicate EndToEnd(t0: real, tTotal: real, tInterval: real, calls: seq<(real, real)>)
    decreases |calls|
  {
    if |calls| <= 1 then calls == [(t0, tInterval)]
    else
      var prev := calls[..|calls| - 1];
      EndToEnd(t0, tTotal, tInterval, prev) &&
      calls[|calls| - 1] == (prev[|prev| - 1].0 + prev[|prev| - 1].1, tInterval) &&
      calls[|calls| - 1].0 + tInterval <= tTotal
  }

  /** With an evolver that solves, each pass of the loop starts where the
      previous call ended. */
  lemma {:induction false} SolvesEndToEnd(evolve: Evolver, initial: seq<Frame>, t0: real, tTotal: real,
                                         tInterval: real, calls: seq<(real, real)>)
    requires Solves(evolve) && |initial| > 0
    requires LoopCalls(evolve, initial, t0, tTotal, tInterval, calls)
    ensures EndToEnd(t0, tTotal, tInterval, calls)
    decreases |calls|
  {
    if |calls| > 1 {
      var prev := calls[..|calls| - 1];
      SolvesEndToEnd(evolve, initial, t0, tTotal, tInterval, prev);
      SolvedAtLastEnd(evolve, initial, prev);
    }
  }

  /** Calls laid end to end are the first step and the loop steps of the
      schedule, no more of them than `LoopCount`. */
  lemma {:induction false} EndToEndSchedule(t0: real, tTotal: real, tInterval: real, calls: seq<(real, real)>)
    requires tInterval > 0.0 && EndToEnd(t0, tTotal, tInterval, calls)
    ensures |calls| - 1 <= LoopCount(t0, tTotal, tInterval)
    ensures calls == [(t0, tInterval)] + LoopSteps(t0 + tInterval, tInterval, |calls| - 1)
    decreases |calls|
  {
    var j := |calls| - 1;
    var first := t0 + tInterval;
    if j == 0 {
      assert LoopSteps(first, tInterval, 0) == [];
    } else {
      var prev := calls[..j];
      EndToEndSchedule(t0, tTotal, tInterval, prev);
      if j > 1 {
        assert prev[j - 1] == StepAt(first, tInterval, j - 2);
        assert Scaled(j - 1, tInterval) == Scaled(j - 2, tInterval) + tInterval;
      }
      assert calls == prev + [StepAt(first, tInterval, j - 1)];
      CallsExtend(t0, tInterval, j - 1, prev);
      var k := LoopCount(t0, tTotal, tInterval);
      if j > k {
        assert Scaled(j, tInterval) == Scaled(j - 1, tInterval) + tInterval;
        ScaleMono(k, j, tInterval);
      }
    }
  }

  /** The first step and `j` loop steps end `j + 1` intervals after t0. */
  lemma LoopEnd(t0: real, tInterval: real, calls: seq<(real, real)>)
    requires |calls| > 0 && calls == [(t0, tInterval)] + LoopSteps(t0 + tInterval, tInterval, |calls| - 1)
    ensures calls[|calls| - 1].0 + calls[|calls| - 1].1 == t0 + tInterval + Scaled(|calls| - 1, tInterval)
  {
    var j := |calls| - 1;
    if j > 0 {
      assert calls[j] == StepAt(t0 + tInterval, tInterval, j - 1);
      assert Scaled(j, tInterval) == Scaled(j - 1, tInterval) + tInterval;
    }
  }

  /** Every call after the first starts at the time solved after the calls
      before it, runs for a whole interval and ends no later than the total
      time. */
  lemma {:induction false} LoopCallAt(evolve: Evolver, initial: seq<Frame>, t0: real, tTotal: real, tInterval: real,
                                     calls: seq<(real, real)>, i: nat)
    requires LoopCalls(evolve, initial, t0, tTotal, tInterval, calls) && 1 <= i < |calls|
    ensures calls[0] == (t0, tInterval)
    ensures MinLast(Frames(evolve, initial, calls[..i])).Ok?
    ensures calls[i] == (MinLast(Frames(evolve, initial, calls[..i])).value, tInterval)
    ensures calls[i].0 + tInterval <= tTotal
    decreases |calls|
  {
    var prev := calls[..|calls| - 1];
    if i < |calls| - 1 {
      LoopCallAt(evolve, initial, t0, tTotal, tInterval, prev, i);
      assert prev[..i] == calls[..i];
    } else if |calls| > 2 {
      LoopCallAt(evolve, initial, t0, tTotal, tInterval, prev, 1);
    }
  }

  /** With an evolver that solves, the loop stops after `LoopCount` passes
      at the latest. */
  lemma {:induction false} SolvesStopsFrom(evolve: Evolver, initial: seq<Frame>, t0: real, tTotal: real,
                                          tInterval: real, calls: seq<(real, real)>)
    requires tInterval > 0.0 && Solves(evolve) && |initial| > 0
    requires LoopCalls(evolve, initial, t0, tTotal, tInterval, calls)
    ensures |calls| - 1 <= LoopCount(t0, tTotal, tInterval)
    ensures StopsWithin(evolve, initial, tTotal, tInterval, calls, LoopCount(t0, tTotal, tInterval) - (|calls| - 1))
    decreases LoopCount(t0, tTotal, tInterval) - (|calls| - 1)
  {
    SolvesEndToEnd(evolve, initial, t0, tTotal, tInterval, calls);
    EndToEndSchedule(t0, tTotal, tInterval, calls);
    SolvedAtLastEnd(evolve, initial, calls);
    var solved := MinLast(Frames(evolve, initial, calls));
    if solved.value + tInterval <= tTotal {
      var next := calls + [(solved.value, tInterval)];
      assert next[..|calls|] == calls;
      SolvesStopsFrom(evolve, initial, t0, tTotal, tInterval, next);
    }
  }

  /** An evolver that solves meets the premise of `Run`. */
  lemma SolvesStops(evolve: Evolver, initial: seq<Frame>, t0: real, tTotal: real, tInterval: real)
    requires tInterval > 0.0 && Solves(evolve)
    ensures Stops(evolve, initial, t0, tTotal, tInterval)
  {
    if |initial| > 0 {
      SolvesStopsFrom(evolve, initial, t0, tTotal, tInterval, [(t0, tInterval)]);
    } else {
      assert StopsWithin(evolve, initial, tTotal, tInterval, [(t0, tInterval)], 0);
    }
  }

  /** One evolution step of `run`: every room evolved over `step` from its
      previous result, its frame appended to its cumulative result, and the
      solved time read from the new results. */
  method Advance(evolve: Evolver, initial: seq<Frame>, calls: seq<(real, real)>, step: (real, real),
                 roomResults: seq<Frame>, cumulative: seq<Frame>, nApertures: nat)
    returns (nextResults: seq<Frame>, nextCumulative: seq<Frame>, solved: Result<real>)
    requires |calls| > 0
    requires roomResults == Frames(evolve, initial, calls) && cumulative == Cumulatives(evolve, initial, calls)
    ensures nextResults == Frames(evolve, initial, calls + [step])
    ensures nextCumulative == Cumulatives(evolve, initial, calls + [step])
    ensures solved == MinLast(nextResults)
  {
    var apertureResults := seq(nApertures, _ => 0.0);
    var initialCondition := ApplyApertureResults(roomResults, apertureResults);
    StepInvariant(evolve, initial, calls, step, roomResults, cumulative);
    nextResults := Evolve(evolve, step.0, step.1, initialCondition);
    nextCumulative := seq(|initial|, i requires 0 <= i < |initial| => cumulative[i] + nextResults[i]);
    solved := MinLast(nextResults);
  }

  lemma CallsExtend(t0: real, tInterval: real, j: nat, calls: seq<(real, real)>)
    requires calls == [(t0, tInterval)] + LoopSteps(t0 + tInterval, tInterval, j)
    ensures calls + [StepAt(t0 + tInterval, tInterval, j)] == [(t0, tInterval)] + LoopSteps(t0 + tInterval, tInterval, j + 1)
  {
    LoopStepsExtend(t0 + tInterval, tInterval, j);
  }

  /** One pass of the `while` loop of `run`: the next whole interval from
      the time solved so far, which keeps the calls those of the loop. */
  method WholeStep(evolve: Evolver, initial: seq<Frame>, t0: real, tTotal: real, tInterval: real, nApertures: nat,
                   roomResults: seq<Frame>, cumulative: seq<Frame>, solvedTime: real, calls: seq<(real, real)>)
    returns (roomResults': seq<Frame>, cumulative': seq<Frame>, solved': Result<real>, calls': seq<(real, real)>)
    requires LoopCalls(evolve, initial, t0, tTotal, tInterval, calls)
    requires MinLast(Frames(evolve, initial, calls)) == Ok(solvedTime) && solvedTime + tInterval <= tTotal
    requires roomResults == Frames(evolve, initial, calls) && cumulative == Cumulatives(evolve, initial, calls)
    ensures calls' == calls + [(solvedTime, tInterval)]
    ensures LoopCalls(evolve, initial, t0, tTotal, tInterval, calls')
    ensures roomResults' == Frames(evolve, initial, calls') && cumulative' == Cumulatives(evolve, initial, calls')
    ensures solved' == MinLast(roomResults')
  {
    var step := (solvedTime, tInterval);
    roomResults', cumulative', solved' := Advance(evolve, initial, calls, step, roomResults, cumulative, nApertures);
    calls' := calls + [step];
    assert calls'[..|calls|] == calls;
  }

  /** The `while` loop of `run`: whole intervals from the time solved so
      far, as long as one still fits before the total time. It ends with
      the calls of the loop, and with the solved time failing or leaving
      less than a whole interval. */
  method WholeSteps(evolve: Evolver, initial: seq<Frame>, t0: real, tTotal: real, tInterval: real, nApertures: nat)
    returns (roomResults: seq<Frame>, cumulative: seq<Frame>, solved: Result<real>, calls: seq<(real, real)>)
    requires Stops(evolve, initial, t0, tTotal, tInterval)
    ensures LoopCalls(evolve, initial, t0, tTotal, tInterval, calls)
    ensures roomResults == Frames(evolve, initial, calls) && cumulative == Cumulatives(evolve, initial, calls)
    ensures solved == MinLast(roomResults)
    ensures solved.Ok? ==> solved.value + tInterval > tTotal
  {
    var firstResults := Evolve(evolve, t0, tInterval, initial);
    calls := [(t0, tInterval)];
    assert firstResults == Frames(evolve, initial, calls);
    roomResults := firstResults;
    cumulative := firstResults;
    assert Cumulatives(evolve, initial, calls) == firstResults by {
      assert calls[..0] == [];
      forall room | 0 <= room < |initial|
        ensures Cumulative(evolve, room, initial[room], calls) == firstResults[room]
      {
        assert Cumulative(evolve, room, initial[room], calls) ==
               Cumulative(evolve, room, initial[room], []) + LastFrame(evolve, room, initial[room], calls);
      }
    }
    solved := MinLast(firstResults);
    ghost var fuel: nat :| StopsWithin(evolve, initial, tTotal, tInterval, calls, fuel);
    while solved.Ok? && solved.value + tInterval <= tTotal
      invariant LoopCalls(evolve, initial, t0, tTotal, tInterval, calls)
      invariant roomResults == Frames(evolve, initial, calls) && cumulative == Cumulatives(evolve, initial, calls)
      invariant solved == MinLast(roomResults)
      invariant StopsWithin(evolve, initial, tTotal, tInterval, calls, fuel)
      decreases fuel
    {
      roomResults, cumulative, solved, calls := WholeStep(evolve, initial, t0, tTotal, tInterval, nApertures,
                                                         roomResults, cumulative, solved.value, calls);
      fuel := fuel - 1;
    }
  }

  /** The first step of `run`, for a whole interval from t0. */
  lemma FirstStep(evolve: Evolver, initial: seq<Frame>, t0: real, tInterval: real)
    requires Solves(evolve) && |initial| > 0
    ensures var results := Evolve(evolve, t0, tInterval, initial);
      (forall room :: 0 <= room < |initial| ==> |results[room]| > 0) &&
      SolvedTime(results) == t0 + tInterval &&
      forall room :: 0 <= room < |initial| ==>
        results[room] == LastFrame(evolve, room, initial[room], [(t0, tInterval)]) &&
        results[room] == Cumulative(evolve, room, initial[room], [(t0, tInterval)])
  {
    var results := Evolve(evolve, t0, tInterval, initial);
    var calls := [(t0, tInterval)];
    forall room | 0 <= room < |initial|
      ensures results[room] == LastFrame(evolve, room, initial[room], calls)
      ensures results[room] == Cumulative(evolve, room, initial[room], calls)
      ensures |results[room]| > 0 && Last(results[room]) == t0 + tInterval
    {
      assert calls[..0] == [];
      FrameShape(evolve, room, initial[room], calls);
    }
    AllSolvedTo(results, t0 + tInterval);
  }

  /** Calls laid end to end that leave less than a whole interval before
      the total time are exactly the first step and `LoopCount` loop steps. */
  lemma EndToEndExit(t0: real, tTotal: real, tInterval: real, calls: seq<(real, real)>)
    requires tInterval > 0.0 && EndToEnd(t0, tTotal, tInterval, calls)
    requires calls[|calls| - 1].0 + calls[|calls| - 1].1 + tInterval > tTotal
    ensures |calls| == LoopCount(t0, tTotal, tInterval) + 1
    ensures calls[|calls| - 1].0 + calls[|calls| - 1].1 == t0 + tInterval + Scaled(LoopCount(t0, tTotal, tInterval), tInterval)
  {
    EndToEndSchedule(t0, tTotal, tInterval, calls);
    LoopEnd(t0, tInterval, calls);
    LoopExit(t0 + tInterval, tTotal, tInterval, |calls| - 1, LoopCount(t0, tTotal, tInterval));
  }

  /** The calls `run` makes: those of the `while` loop, `loop`, which stops
      because the solved time fails or leaves less than `t_interval`, then
      one call from the solved time up to the total time exactly when the
      solved time is short of it. */
  predicate RunCalls(evolve: Evolver, initial: seq<Frame>, t0: real, tTotal: real, tInterval: real,
                     loop: seq<(real, real)>, calls: seq<(real, real)>)
  {
    |loop| > 0 && LoopCalls(evolve, initial, t0, tTotal, tInterval, loop) &&
    var solved := MinLast(Frames(evolve, initial, loop));
    (solved.Ok? ==> solved.value + tInterval > tTotal) &&
    calls == loop + (if solved.Ok? && solved.value < tTotal then [(solved.value, tTotal - solved.value)] else [])
  }

  /** The final step of `run`: when the solved time is short of the total
      time, every room is evolved from it up to the total time. */
  method FinalStep(evolve: Evolver, initial: seq<Frame>, t0: real, tTotal: real, tInterval: real, nApertures: nat,
                   calls: seq<(real, real)>, roomResults: seq<Frame>, cumulative: seq<Frame>, solved: Result<real>)
    returns (calls': seq<(real, real)>, roomResults': seq<Frame>, cumulative': seq<Frame>, solved': Result<real>)
    requires LoopCalls(evolve, initial, t0, tTotal, tInterval, calls)
    requires roomResults == Frames(evolve, initial, calls) && cumulative == Cumulatives(evolve, initial, calls)
    requires solved == MinLast(roomResults)
    requires solved.Ok? ==> solved.value + tInterval > tTotal
    ensures RunCalls(evolve, initial, t0, tTotal, tInterval, calls, calls')
    ensures roomResults' == Frames(evolve, initial, calls') && cumulative' == Cumulatives(evolve, initial, calls')
    ensures solved' == MinLast(roomResults')
  {
    assert |calls| > 0;
    if solved.Ok? && solved.value < tTotal {
      var step := (solved.value, tTotal - solved.value);
      roomResults', cumulative', solved' := Advance(evolve, initial, calls, step, roomResults, cumulative, nApertures);
      calls' := calls + [step];
    } else {
      calls', roomResults', cumulative', solved' := calls, roomResults, cumulative, solved;
      assert calls' == calls + [];
    }
  }

  /** With an evolver that solves, the loop's calls followed by the final
      step taken when time is left are the whole schedule, and every room
      result has rows. */
  lemma SolvesSchedule(evolve: Evolver, initial: seq<Frame>, t0: real, tTotal: real, tInterval: real,
                       loop: seq<(real, real)>, calls: seq<(real, real)>)
    requires RunCalls(evolve, initial, t0, tTotal, tInterval, loop, calls)
    ensures tInterval > 0.0 && Solves(evolve) && |initial| > 0 ==>
      MinLast(Frames(evolve, initial, calls)).Ok? && calls == Schedule(t0, tTotal, tInterval)
  {
    if tInterval > 0.0 && Solves(evolve) && |initial| > 0 {
      SolvesEndToEnd(evolve, initial, t0, tTotal, tInterval, loop);
      SolvedAtLastEnd(evolve, initial, loop);
      EndToEndRun(t0, tTotal, tInterval, loop, calls);
      SolvedAtLastEnd(evolve, initial, calls);
    }
  }

  /** Calls made end to end, stopped once a whole interval no longer fits
      and followed by a final step up to the total time, are the schedule. */
  lemma EndToEndRun(t0: real, tTotal: real, tInterval: real, loop: seq<(real, real)>, calls: seq<(real, real)>)
    requires tInterval > 0.0 && EndToEnd(t0, tTotal, tInterval, loop)
    requires var solved := loop[|loop| - 1].0 + loop[|loop| - 1].1;
      solved + tInterval > tTotal &&
      calls == loop + (if solved < tTotal then [(solved, tTotal - solved)] else [])
    ensures calls == Schedule(t0, tTotal, tInterval)
  {
    EndToEndExit(t0, tTotal, tInterval, loop);
    EndToEndSchedule(t0, tTotal, tInterval, loop);
    var k := LoopCount(t0, tTotal, tInterval);
    var solved := t0 + tInterval + Scaled(k, tInterval);
    var tail := if solved < tTotal then [(solved, tTotal - solved)] else [];
    assert loop[|loop| - 1].0 + loop[|loop| - 1].1 == solved;
    assert calls == loop + tail;
    assert loop == [(t0, tInterval)] + LoopSteps(t0 + tInterval, tInterval, k);
    ScheduleEnds(t0, tTotal, tInterval, tail);
  }

  /** Without a room, the first solved time already fails, so the loop
      never runs and no final step follows. */
  lemma NoRooms(evolve: Evolver, initial: seq<Frame>, t0: real, tTotal: real, tInterval: real,
                loop: seq<(real, real)>, calls: seq<(real, real)>)
    requires RunCalls(evolve, initial, t0, tTotal, tInterval, loop, calls)
    ensures |initial| == 0 ==>
      calls == [(t0, tInterval)] && MinLast(Frames(evolve, initial, calls)) == Err("min() arg is an empty sequence")
  {
  }

  /** `Simulation.run`: returns each room's cumulative result and, beside
      it, the `(start, length)` of every evolver call, for any evolver whose
      frames let the `while` loop stop. The calls begin with those of the
      loop, `loop`; a final call from the solved time up to the total
      time follows exactly when the solved time is short of it. The result
      fails exactly when the last solved time does (no room, or an empty
      room result), and otherwise holds every room's frames in order. With
      an evolver that solves, the calls are the schedule. */
  method Run(initial: seq<Frame>, t0: real, tTotal: real, tInterval: real, nApertures: nat, evolve: Evolver)
    returns (r: Result<seq<Frame>>, calls: seq<(real, real)>, ghost loop: seq<(real, real)>)
    requires Stops(evolve, initial, t0, tTotal, tInterval)
    ensures RunCalls(evolve, initial, t0, tTotal, tInterval, loop, calls)
    ensures MinLast(Frames(evolve, initial, calls)).Err? ==> r == Err(MinLast(Frames(evolve, initial, calls)).msg)
    ensures MinLast(Frames(evolve, initial, calls)).Ok? ==> r == Ok(Cumulatives(evolve, initial, calls))
    ensures |initial| == 0 ==> r == Err("min() arg is an empty sequence") && calls == [(t0, tInterval)]
    ensures tInterval > 0.0 && Solves(evolve) && |initial| > 0 ==> r.Ok? && calls == Schedule(t0, tTotal, tInterval)
  {
    var roomResults, cumulative, solved, loopCalls;
    roomResults, cumulative, solved, loopCalls := WholeSteps(evolve, initial, t0, tTotal, tInterval, nApertures);
    loop := loopCalls;
    calls, roomResults, cumulative, solved := FinalStep(evolve, initial, t0, tTotal, tInterval, nApertures,
                                                        loopCalls, roomResults, cumulative, solved);
    SolvesSchedule(evolve, initial, t0, tTotal, tInterval, loop, calls);
    NoRooms(evolve, initial, t0, tTotal, tInterval, loop, calls);
    if solved.Err? {
      r := Err(solved.msg);
    } else {
      r := Ok(cumulative);
    }
  }
}
